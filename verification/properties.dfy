/** Properties that relate several controller calls, or a call to the
    store-wide invariant `NoDoubleBooking`. */
module Properties {
  import opened Results
  import opened Records
  import opened Controller
  import Text

  /** A successful booking keeps the invariant: the conflict check refused
      every instant an active appointment of that provider already holds. */
  lemma BookingKeepsNoDoubleBooking(
    s: Store, users: map<Id, User>, patientId: Id,
    providerId: Id, date: int, reason: Option<string>, duration: Option<int>)
    requires Valid(s) && NoDoubleBooking(s.appts)
    ensures var r := BookAppointment(s, users, patientId, providerId, date, reason, duration);
      r.Ok? ==> NoDoubleBooking(r.value.store.appts)
  {
    var r := BookAppointment(s, users, patientId, providerId, date, reason, duration);
    if r.Ok? {
      var m, id := r.value.store.appts, r.value.id;
      forall i, j | i in m && j in m && i != j && Active(m[i].status) && Active(m[j].status)
        && m[i].providerId == m[j].providerId
        ensures m[i].appointmentDate != m[j].appointmentDate
      {
        if i == id {
          assert !SlotTaken(s.appts, providerId, date, None);
          assert m[j] == s.appts[j];
        } else if j == id {
          assert !SlotTaken(s.appts, providerId, date, None);
          assert m[i] == s.appts[i];
        } else {
          assert m[i] == s.appts[i] && m[j] == s.appts[j];
        }
      }
    }
  }

  /** A successful reschedule keeps the invariant: its conflict check looks
      at every other appointment of the same provider. */
  lemma RescheduleKeepsNoDoubleBooking(s: Store, patientId: Id, id: Id, date: int)
    requires NoDoubleBooking(s.appts)
    ensures var r := RescheduleAppointment(s, patientId, id, date);
      r.Ok? ==> NoDoubleBooking(r.value.appts)
  {
    var r := RescheduleAppointment(s, patientId, id, date);
    if r.Ok? {
      var m := r.value.appts;
      forall i, j | i in m && j in m && i != j && Active(m[i].status) && Active(m[j].status)
        && m[i].providerId == m[j].providerId
        ensures m[i].appointmentDate != m[j].appointmentDate
      {
        if i == id {
          assert m[j] == s.appts[j];
        } else if j == id {
          assert m[i] == s.appts[i];
        } else {
          assert m[i] == s.appts[i] && m[j] == s.appts[j];
        }
      }
    }
  }

  /** Cancelling only ever releases a time, so the invariant survives. */
  lemma CancelKeepsNoDoubleBooking(s: Store, patientId: Id, id: Id)
    requires NoDoubleBooking(s.appts)
    ensures var r := CancelAppointment(s, patientId, id);
      r.Ok? ==> NoDoubleBooking(r.value.appts)
  {
    var r := CancelAppointment(s, patientId, id);
    if r.Ok? {
      var m := r.value.appts;
      forall i, j | i in m && j in m && i != j && Active(m[i].status) && Active(m[j].status)
        && m[i].providerId == m[j].providerId
        ensures m[i].appointmentDate != m[j].appointmentDate
      {
        assert i != id && j != id;
        assert m[i] == s.appts[i] && m[j] == s.appts[j];
      }
    }
  }

  /** A status update breaks the invariant exactly when it makes an inactive
      appointment active again at an instant another active appointment of
      the same provider now holds; the update itself never looks. */
  lemma StatusUpdateDoubleBooksIffReactivatingTakenTime(
    s: Store, providerId: Id, id: Id, status: string, rejectionReason: Option<string>, notes: Option<string>)
    requires NoDoubleBooking(s.appts)
    ensures var r := UpdateAppointmentStatus(s, providerId, id, status, rejectionReason, notes);
      r.Ok? ==>
        (NoDoubleBooking(r.value.appts) <==>
          !(Active(r.value.appts[id].status) && !Active(s.appts[id].status)
            && SlotTaken(s.appts, providerId, s.appts[id].appointmentDate, Some(id))))
  {
    var r := UpdateAppointmentStatus(s, providerId, id, status, rejectionReason, notes);
    if r.Ok? {
      var m, a := r.value.appts, s.appts[id];
      if Active(m[id].status) && !Active(a.status) && SlotTaken(s.appts, providerId, a.appointmentDate, Some(id)) {
        var k :| k in s.appts && Some(k) != Some(id) && s.appts[k].providerId == providerId
          && s.appts[k].appointmentDate == a.appointmentDate && Active(s.appts[k].status);
        assert m[k] == s.appts[k];
        assert !NoDoubleBooking(m);
      } else {
        forall i, j | i in m && j in m && i != j && Active(m[i].status) && Active(m[j].status)
          && m[i].providerId == m[j].providerId
          ensures m[i].appointmentDate != m[j].appointmentDate
        {
          if i == id {
            assert m[j] == s.appts[j];
            if !Active(a.status) {
              assert !SlotTaken(s.appts, providerId, a.appointmentDate, Some(id));
            }
          } else if j == id {
            assert m[i] == s.appts[i];
            if !Active(a.status) {
              assert !SlotTaken(s.appts, providerId, a.appointmentDate, Some(id));
            }
          } else {
            assert m[i] == s.appts[i] && m[j] == s.appts[j];
          }
        }
      }
    }
  }

  /** A concrete double booking: the provider approves a cancelled
      appointment whose time has since been booked by someone else. */
  lemma StatusUpdateCanDoubleBook()
    ensures
      var taken := Appointment(3, 2, 1000, 30, Pending, "checkup", None, None);
      var earlier := Appointment(1, 2, 1000, 30, Cancelled, "checkup", None, None);
      var s := Store(map[0 := earlier, 1 := taken], map[], 2);
      var r := UpdateAppointmentStatus(s, 2, 0, "approved", None, None);
      && NoDoubleBooking(s.appts)
      && r.Ok?
      && !NoDoubleBooking(r.value.appts)
  {
    var taken := Appointment(3, 2, 1000, 30, Pending, "checkup", None, None);
    var earlier := Appointment(1, 2, 1000, 30, Cancelled, "checkup", None, None);
    var s := Store(map[0 := earlier, 1 := taken], map[], 2);
    var r := UpdateAppointmentStatus(s, 2, 0, "approved", None, None);
    assert ParseStatus("approved") == Some(Approved);
    assert r.value.appts[0].status == Approved && r.value.appts[1] == taken;
  }

  /** Once a time is booked, a second booking of the same provider at the
      same instant is refused, whoever asks. */
  lemma SecondBookingConflicts(
    s: Store, users: map<Id, User>, patientId: Id, otherPatient: Id,
    providerId: Id, date: int, reason: Option<string>, duration: Option<int>,
    otherReason: Option<string>, otherDuration: Option<int>)
    requires BookAppointment(s, users, patientId, providerId, date, reason, duration).Ok?
    ensures var s' := BookAppointment(s, users, patientId, providerId, date, reason, duration).value.store;
      BookAppointment(s', users, otherPatient, providerId, date, otherReason, otherDuration) == Err(Conflict)
  {
    var c := BookAppointment(s, users, patientId, providerId, date, reason, duration).value;
    assert c.store.appts[c.id].appointmentDate == date;
    assert SlotTaken(c.store.appts, providerId, date, None);
  }

  /** Adding an appointment at `date` leaves every other instant as taken
      or as free as it was. */
  lemma OtherInstantsUnaffected(m: map<Id, Appointment>, id: Id, a: Appointment, providerId: Id, otherDate: int)
    requires id !in m && a.appointmentDate != otherDate
    ensures SlotTaken(m[id := a], providerId, otherDate, None) <==> SlotTaken(m, providerId, otherDate, None)
  {
    var m' := m[id := a];
    if SlotTaken(m', providerId, otherDate, None) {
      var k :| k in m' && m'[k].providerId == providerId && m'[k].appointmentDate == otherDate && Active(m'[k].status);
      assert k != id && m'[k] == m[k];
    }
    if SlotTaken(m, providerId, otherDate, None) {
      var k :| k in m && m[k].providerId == providerId && m[k].appointmentDate == otherDate && Active(m[k].status);
      assert m'[k] == m[k];
    }
  }

  /** A booking blocks only its own instant: at any other instant, even one
      inside the booked appointment's duration, the next booking is refused
      as taken exactly when it would have been refused before. */
  lemma BookingBlocksOnlyItsInstant(
    s: Store, users: map<Id, User>, patientId: Id, providerId: Id, date: int,
    reason: Option<string>, duration: Option<int>,
    otherPatient: Id, otherDate: int, otherReason: Option<string>, otherDuration: Option<int>)
    requires Valid(s) && otherDate != date
    requires BookAppointment(s, users, patientId, providerId, date, reason, duration).Ok?
    ensures var s' := BookAppointment(s, users, patientId, providerId, date, reason, duration).value.store;
      BookAppointment(s', users, otherPatient, providerId, otherDate, otherReason, otherDuration) == Err(Conflict)
      <==> BookAppointment(s, users, otherPatient, providerId, otherDate, otherReason, otherDuration) == Err(Conflict)
  {
    var c := BookAppointment(s, users, patientId, providerId, date, reason, duration).value;
    assert c.store.appts == s.appts[c.id := c.store.appts[c.id]];
    OtherInstantsUnaffected(s.appts, c.id, c.store.appts[c.id], providerId, otherDate);
    ConflictIsSlotTaken(c.store, users, otherPatient, providerId, otherDate, otherReason, otherDuration);
    ConflictIsSlotTaken(s, users, otherPatient, providerId, otherDate, otherReason, otherDuration);
  }

  /** The conflict answer of a booking, in terms of the conflict query. */
  lemma ConflictIsSlotTaken(
    s: Store, users: map<Id, User>, patientId: Id,
    providerId: Id, date: int, reason: Option<string>, duration: Option<int>)
    ensures BookAppointment(s, users, patientId, providerId, date, reason, duration) == Err(Conflict)
      <==> IsProvider(users, providerId) && SlotTaken(s.appts, providerId, date, None)
  {
  }

  /** Self-exclusion: an active appointment can always be rescheduled to its
      own instant, since nothing else active holds that instant. */
  lemma RescheduleInPlaceSucceeds(s: Store, patientId: Id, id: Id)
    requires NoDoubleBooking(s.appts)
    requires id in s.appts && s.appts[id].patientId == patientId && Active(s.appts[id].status)
    ensures RescheduleAppointment(s, patientId, id, s.appts[id].appointmentDate).Ok?
  {
  }

  /** A cancelled appointment cannot be cancelled again. */
  lemma CancelTwiceRefused(s: Store, patientId: Id, id: Id)
    requires CancelAppointment(s, patientId, id).Ok?
    ensures CancelAppointment(CancelAppointment(s, patientId, id).value, patientId, id) == Err(CannotCancel)
  {
  }

  /** Rescheduling revives any appointment, completed or cancelled ones
      included, as pending, and keeps an earlier rejection reason. */
  lemma RescheduleRevivesAnyStatus(s: Store, patientId: Id, id: Id, date: int)
    requires id in s.appts && s.appts[id].patientId == patientId
    requires !SlotTaken(s.appts, s.appts[id].providerId, date, Some(id))
    ensures var r := RescheduleAppointment(s, patientId, id, date);
      && r.Ok?
      && r.value.appts[id].status == Pending
      && r.value.appts[id].rejectionReason == s.appts[id].rejectionReason
  {
  }

  /** Every provider the public directory lists can be booked: booking never
      answers NotFound for it. */
  lemma ListedProvidersAreBookable(
    s: Store, users: map<Id, User>, patientId: Id,
    providerId: Id, date: int, reason: Option<string>, duration: Option<int>)
    ensures providerId in GetAllProviders(users) <==>
      BookAppointment(s, users, patientId, providerId, date, reason, duration) != Err(NotFound)
  {
  }

  /** The availability schema takes a window that ends before it starts,
      and then the same window again: both copies are stored, under two
      different ids. */
  lemma AvailabilityTakesInvertedAndDuplicateWindows(
    s: Store, providerId: Id, day: int, start: string, end: string)
    requires 0 <= day <= 6 && start != [] && end != []
    requires Text.LexLe(end, start) && end != start
    ensures
      var first := SetAvailability(s, providerId, Some(day), Some(start), Some(end));
      && first.Ok?
      && var second := SetAvailability(first.value.store, providerId, Some(day), Some(start), Some(end));
      && second.Ok?
      && second.value.id != first.value.id
      && first.value.id in second.value.store.slots
      && second.value.store.slots[first.value.id] == Slot(providerId, day, start, end, true)
      && second.value.store.slots[second.value.id] == Slot(providerId, day, start, end, true)
  {
  }
}
