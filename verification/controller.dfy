/** The appointment controller: booking, cancelling, rescheduling and
    listing appointments for patients; status updates, listings and weekly
    availability for providers; and the public provider directory.

    Each handler is a pure operation on an in-memory `Store`. A handler that
    writes returns the new store, or an `Error` and no store at all, so a
    failed request never changes anything. The caller is the `userId` the
    route guards established; the user collection is read-only here and is
    passed in as `users`. */
module Controller {
  import opened Results
  import opened Records
  import opened Ordering
  import Text

  /** The two collections the controller writes, and the next free id. */
  datatype Store = Store(appts: map<Id, Appointment>, slots: map<Id, Slot>, nextId: Id)

  /** A record created by a handler, with the store that now holds it. */
  datatype Created = Created(store: Store, id: Id)

  /** Every stored id was handed out before `nextId`, which is therefore
      fresh: the database never reuses an object id. */
  predicate Valid(s: Store) {
    && (forall k :: k in s.appts ==> k < s.nextId)
    && (forall k :: k in s.slots ==> k < s.nextId)
  }

  /** Every stored record passed its schema. */
  predicate WellFormedStore(s: Store) {
    && (forall k :: k in s.appts ==> WellFormedAppointment(s.appts[k]))
    && (forall k :: k in s.slots ==> WellFormedSlot(s.slots[k]))
  }

  /** The appointment-side invariant the conflict check is there to keep: no
      two active appointments of one provider at the same instant. */
  predicate NoDoubleBooking(appts: map<Id, Appointment>) {
    forall i, j ::
      i in appts && j in appts && i != j
      && Active(appts[i].status) && Active(appts[j].status)
      && appts[i].providerId == appts[j].providerId
      ==> appts[i].appointmentDate != appts[j].appointmentDate
  }

  /** The only change is to the appointment `id`; slots and ids untouched. */
  predicate OnlyAppointmentChanged(s: Store, s': Store, id: Id) {
    && s'.appts.Keys == s.appts.Keys
    && (forall k :: k in s.appts && k != id ==> s'.appts[k] == s.appts[k])
    && s'.slots == s.slots
    && s'.nextId == s.nextId
  }

  predicate IsProvider(users: map<Id, User>, id: Id) {
    id in users && users[id].role == Provider
  }

  /** The conflict query: an appointment other than `exclude`, of the same
      provider, at exactly `date` (equality of instants, not overlap of
      windows), still pending or approved. */
  predicate SlotTaken(appts: map<Id, Appointment>, providerId: Id, date: int, exclude: Option<Id>) {
    exists k :: k in appts && Some(k) != exclude && appts[k].providerId == providerId
      && appts[k].appointmentDate == date && Active(appts[k].status)
  }

  /** `duration || 30`: an absent or zero duration becomes the default. */
  function BookedDuration(duration: Option<int>): (d: int)
    ensures d != 0
    ensures duration.None? || duration.value == 0 ==> d == DefaultDuration
    ensures duration.Some? && duration.value != 0 ==> d == duration.value
  {
    if duration.None? || duration.value == 0 then DefaultDuration else duration.value
  }

  /** JavaScript truthiness of an optional string: present and non-empty. */
  predicate Truthy(s: Option<string>) {
    s.Some? && s.value != []
  }

  // ---------------------------------------------------------------------
  // Patient handlers

  /** Books `appointmentDate` with `providerId` for the calling patient. */
  function BookAppointment(
    s: Store, users: map<Id, User>, patientId: Id,
    providerId: Id, appointmentDate: int, reason: Option<string>, duration: Option<int>
  ): (r: Result<Created>)
    ensures r == Err(NotFound) <==> !IsProvider(users, providerId)
    ensures r == Err(Conflict) <==>
      && IsProvider(users, providerId)
      && exists k :: k in s.appts && s.appts[k].providerId == providerId
           && s.appts[k].appointmentDate == appointmentDate
           && s.appts[k].status in {Pending, Approved}
    ensures r == Err(ValidationError) <==>
      && IsProvider(users, providerId)
      && !SlotTaken(s.appts, providerId, appointmentDate, None)
      && (reason.None? || Text.AllSpace(reason.value))
    ensures r.Err? ==> r.error in {NotFound, Conflict, ValidationError}
    ensures r.Ok? ==>
      var s', id := r.value.store, r.value.id;
      && id == s.nextId
      && s'.appts.Keys == s.appts.Keys + {id}
      && (forall k :: k in s.appts && k != id ==> s'.appts[k] == s.appts[k])
      && s'.appts[id].patientId == patientId
      && s'.appts[id].providerId == providerId
      && s'.appts[id].appointmentDate == appointmentDate
      && s'.appts[id].status == Pending
      && s'.appts[id].duration == (if duration == None || duration == Some(0) then DefaultDuration else duration.value)
      && s'.appts[id].reason == Text.Trim(reason.value)
      && s'.appts[id].notes == None && s'.appts[id].rejectionReason == None
      && s'.slots == s.slots
      && s'.nextId == s.nextId + 1
    ensures r.Ok? && Valid(s) ==> r.value.id !in s.appts && Valid(r.value.store)
    ensures r.Ok? && WellFormedStore(s) ==> WellFormedStore(r.value.store)
  {
    if !IsProvider(users, providerId) then Err(NotFound)
    else if SlotTaken(s.appts, providerId, appointmentDate, None) then Err(Conflict)
    else
      var a :- NewAppointment(AppointmentDraft(
        Some(patientId), Some(providerId), Some(appointmentDate),
        Some(BookedDuration(duration)), None, reason, None, None));
      var id := s.nextId;
      Ok(Created(Store(s.appts[id := a], s.slots, id + 1), id))
  }

  /** The appointment exists and the caller is its patient: the lookup the
      patient handlers answer NotFound to when it fails. */
  predicate OwnedByPatient(s: Store, patientId: Id, id: Id) {
    id in s.appts && s.appts[id].patientId == patientId
  }

  /** Cancels one of the caller's appointments unless it is already
      cancelled or completed. */
  function CancelAppointment(s: Store, patientId: Id, id: Id): (r: Result<Store>)
    ensures r == Err(NotFound) <==> !OwnedByPatient(s, patientId, id)
    ensures r == Err(CannotCancel) <==>
      OwnedByPatient(s, patientId, id) && s.appts[id].status in {Cancelled, Completed}
    ensures r.Err? ==> r.error in {NotFound, CannotCancel}
    ensures r.Ok? ==>
      && id in s.appts
      && OnlyAppointmentChanged(s, r.value, id)
      && r.value.appts[id] == s.appts[id].(status := Cancelled)
  {
    if !OwnedByPatient(s, patientId, id) then Err(NotFound)
    else
      var a := s.appts[id];
      if a.status == Cancelled || a.status == Completed then Err(CannotCancel)
      else Ok(s.(appts := s.appts[id := a.(status := Cancelled)]))
  }

  /** Moves one of the caller's appointments to `appointmentDate` and puts it
      back to pending, whatever its status was. */
  function RescheduleAppointment(s: Store, patientId: Id, id: Id, appointmentDate: int): (r: Result<Store>)
    ensures r == Err(NotFound) <==> !OwnedByPatient(s, patientId, id)
    ensures r == Err(Conflict) <==>
      && OwnedByPatient(s, patientId, id)
      && exists k :: k in s.appts && k != id
           && s.appts[k].providerId == s.appts[id].providerId
           && s.appts[k].appointmentDate == appointmentDate
           && s.appts[k].status in {Pending, Approved}
    ensures r.Err? ==> r.error in {NotFound, Conflict}
    ensures r.Ok? ==>
      && id in s.appts
      && OnlyAppointmentChanged(s, r.value, id)
      && r.value.appts[id] == s.appts[id].(appointmentDate := appointmentDate, status := Pending)
  {
    if !OwnedByPatient(s, patientId, id) then Err(NotFound)
    else
      var a := s.appts[id];
      if SlotTaken(s.appts, a.providerId, appointmentDate, Some(id)) then Err(Conflict)
      else Ok(s.(appts := s.appts[id := a.(appointmentDate := appointmentDate, status := Pending)]))
  }

  // ---------------------------------------------------------------------
  // Provider handlers

  /** Writes the requested status (any value of the enum), the notes when
      given, and the rejection reason when rejecting with one. */
  function UpdateAppointmentStatus(
    s: Store, providerId: Id, id: Id,
    status: string, rejectionReason: Option<string>, notes: Option<string>
  ): (r: Result<Store>)
    ensures r == Err(NotFound) <==> !(id in s.appts && s.appts[id].providerId == providerId)
    ensures r == Err(ValidationError) <==>
      && id in s.appts && s.appts[id].providerId == providerId
      && forall st: Status :: StatusName(st) != status
    ensures r.Err? ==> r.error in {NotFound, ValidationError}
    ensures r.Ok? ==> id in s.appts && OnlyAppointmentChanged(s, r.value, id)
    ensures r.Ok? && id in s.appts && id in r.value.appts ==>
      var before, after := s.appts[id], r.value.appts[id];
      && StatusName(after.status) == status
      && after.notes == (if Truthy(notes) then Some(Text.Trim(notes.value)) else before.notes)
      && after.rejectionReason ==
           (if after.status == Rejected && Truthy(rejectionReason)
            then Some(Text.Trim(rejectionReason.value)) else before.rejectionReason)
      && after.(status := before.status, notes := before.notes,
                rejectionReason := before.rejectionReason) == before
    ensures r.Ok? && WellFormedStore(s) ==> WellFormedStore(r.value)
  {
    if !(id in s.appts && s.appts[id].providerId == providerId) then Err(NotFound)
    else
      ParseStatusRoundTrip(Pending, status);
      var a := s.appts[id];
      match ParseStatus(status)
      case None => Err(ValidationError)
      case Some(st) =>
        var notes' := if Truthy(notes) then Some(Text.Trim(notes.value)) else a.notes;
        var rejection' :=
          if st == Rejected && Truthy(rejectionReason) then Some(Text.Trim(rejectionReason.value))
          else a.rejectionReason;
        Ok(s.(appts := s.appts[id := a.(status := st, notes := notes', rejectionReason := rejection')]))
  }

  /** Adds a weekly availability window for the calling provider. The schema
      checks presence and the day range only: the times are not compared and
      duplicates are accepted. */
  function SetAvailability(
    s: Store, providerId: Id, dayOfWeek: Option<int>, startTime: Option<string>, endTime: Option<string>
  ): (r: Result<Created>)
    ensures r.Ok? <==>
      && dayOfWeek.Some? && 0 <= dayOfWeek.value <= 6
      && startTime.Some? && startTime.value != []
      && endTime.Some? && endTime.value != []
    ensures r.Err? ==> r.error == ValidationError
    ensures r.Ok? ==>
      var s', id := r.value.store, r.value.id;
      && id == s.nextId
      && s'.slots.Keys == s.slots.Keys + {id}
      && (forall k :: k in s.slots && k != id ==> s'.slots[k] == s.slots[k])
      && s'.slots[id] == Slot(providerId, dayOfWeek.value, startTime.value, endTime.value, true)
      && s'.appts == s.appts
      && s'.nextId == s.nextId + 1
    ensures r.Ok? && Valid(s) ==> r.value.id !in s.slots && Valid(r.value.store)
    ensures r.Ok? && WellFormedStore(s) ==> WellFormedStore(r.value.store)
  {
    var slot :- NewSlot(SlotDraft(Some(providerId), dayOfWeek, startTime, endTime, None));
    var id := s.nextId;
    Ok(Created(Store(s.appts, s.slots[id := slot], id + 1), id))
  }

  /** Deletes one of the caller's slots, active or not. */
  function DeleteAvailability(s: Store, providerId: Id, slotId: Id): (r: Result<Store>)
    ensures r == Err(NotFound) <==> !(slotId in s.slots && s.slots[slotId].providerId == providerId)
    ensures r.Err? ==> r.error == NotFound
    ensures r.Ok? ==>
      && r.value.slots.Keys == s.slots.Keys - {slotId}
      && (forall k :: k in r.value.slots ==> r.value.slots[k] == s.slots[k])
      && r.value.appts == s.appts
      && r.value.nextId == s.nextId
    ensures r.Ok? && Valid(s) ==> Valid(r.value)
    ensures r.Ok? && WellFormedStore(s) ==> WellFormedStore(r.value)
  {
    if !(slotId in s.slots && s.slots[slotId].providerId == providerId) then Err(NotFound)
    else Ok(s.(slots := s.slots - {slotId}))
  }

  // ---------------------------------------------------------------------
  // Listings

  /** Most recent appointment first. */
  predicate LatestFirst(a: Keyed<Appointment>, b: Keyed<Appointment>) {
    a.val.appointmentDate >= b.val.appointmentDate
  }

  /** By day of week, then by start time in string order. */
  predicate DayThenStart(a: Keyed<Slot>, b: Keyed<Slot>) {
    || a.val.dayOfWeek < b.val.dayOfWeek
    || (a.val.dayOfWeek == b.val.dayOfWeek && Text.LexLe(a.val.startTime, b.val.startTime))
  }

  lemma LatestFirstIsOrder()
    ensures Total(LatestFirst) && Transitive(LatestFirst)
  {
  }

  lemma DayThenStartIsOrder()
    ensures Total(DayThenStart) && Transitive(DayThenStart)
  {
    forall x, y
      ensures DayThenStart(x, y) || DayThenStart(y, x)
    {
      Text.LexLeTotal(x.val.startTime, y.val.startTime);
    }
    forall x, y, z | DayThenStart(x, y) && DayThenStart(y, z)
      ensures DayThenStart(x, z)
    {
      if x.val.dayOfWeek == y.val.dayOfWeek == z.val.dayOfWeek {
        Text.LexLeTransitive(x.val.startTime, y.val.startTime, z.val.startTime);
      }
    }
  }

  /** `r` lists exactly the appointments of patient `patientId`, each once
      with its id, most recent first. */
  predicate PatientListing(s: Store, patientId: Id, r: seq<Keyed<Appointment>>) {
    && (forall i :: 0 <= i < |r| ==>
          r[i].id in s.appts && r[i].val == s.appts[r[i].id] && r[i].val.patientId == patientId)
    && (forall k :: k in s.appts && s.appts[k].patientId == patientId ==> Keyed(k, s.appts[k]) in r)
    && DistinctIds(r)
    && (forall i, j :: 0 <= i < j < |r| ==> LatestFirst(r[i], r[j]))
  }

  /** `r` lists exactly the appointments of provider `providerId`, each once
      with its id, most recent first. */
  predicate ProviderListing(s: Store, providerId: Id, r: seq<Keyed<Appointment>>) {
    && (forall i :: 0 <= i < |r| ==>
          r[i].id in s.appts && r[i].val == s.appts[r[i].id] && r[i].val.providerId == providerId)
    && (forall k :: k in s.appts && s.appts[k].providerId == providerId ==> Keyed(k, s.appts[k]) in r)
    && DistinctIds(r)
    && (forall i, j :: 0 <= i < j < |r| ==> LatestFirst(r[i], r[j]))
  }

  /** `r` lists exactly the active slots of provider `providerId`, each once
      with its id, by day of week and then start time. */
  predicate AvailabilityListing(s: Store, providerId: Id, r: seq<Keyed<Slot>>) {
    && (forall i :: 0 <= i < |r| ==>
          r[i].id in s.slots && r[i].val == s.slots[r[i].id]
          && r[i].val.providerId == providerId && r[i].val.isActive)
    && (forall k :: k in s.slots && s.slots[k].providerId == providerId && s.slots[k].isActive ==>
          Keyed(k, s.slots[k]) in r)
    && DistinctIds(r)
    && (forall i, j :: 0 <= i < j < |r| ==> DayThenStart(r[i], r[j]))
  }

  /** The caller's appointments as a patient, most recent first. */
  method GetPatientAppointments(s: Store, patientId: Id) returns (r: seq<Keyed<Appointment>>)
    ensures PatientListing(s, patientId, r)
  {
    LatestFirstIsOrder();
    r := SortedSelection(s.appts, (a: Appointment) => a.patientId == patientId, LatestFirst);
    SortedPairwise(LatestFirst, r);
  }

  /** The caller's appointments as a provider, most recent first. */
  method GetProviderAppointments(s: Store, providerId: Id) returns (r: seq<Keyed<Appointment>>)
    ensures ProviderListing(s, providerId, r)
  {
    LatestFirstIsOrder();
    r := SortedSelection(s.appts, (a: Appointment) => a.providerId == providerId, LatestFirst);
    SortedPairwise(LatestFirst, r);
  }

  /** The caller's active slots, by day of week and then start time. */
  method GetAvailability(s: Store, providerId: Id) returns (r: seq<Keyed<Slot>>)
    ensures AvailabilityListing(s, providerId, r)
  {
    DayThenStartIsOrder();
    r := SortedSelection(s.slots, (a: Slot) => a.providerId == providerId && a.isActive, DayThenStart);
    SortedPairwise(DayThenStart, r);
  }

  // ---------------------------------------------------------------------
  // Public

  /** Every provider account, without password or refresh token. */
  function GetAllProviders(users: map<Id, User>): (r: map<Id, PublicUser>)
    ensures forall k :: k in r <==> IsProvider(users, k)
    ensures forall k :: k in r ==>
      k in users && r[k].username == users[k].username && r[k].email == users[k].email && r[k].role == Provider
  {
    map k | k in users && users[k].role == Provider :: Public(users[k])
  }
}
