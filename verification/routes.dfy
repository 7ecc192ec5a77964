/** The appointment router: which handler each request reaches, and the
    guards in front of it. Listing providers is public; every other route
    first needs a valid bearer token (401 without one) and then the role the
    route names (403 with another). */
module Routes {
  import opened Results
  import opened Records
  import opened Ordering
  import opened Controller
  import Properties

  /** The identity a verified token carries. */
  datatype Caller = Caller(userId: Id, role: Role)

  /** One request per route, with the parameters and body fields its handler
      reads. */
  datatype Request =
    | ListProviders
    | Book(providerId: Id, appointmentDate: int, reason: Option<string>, duration: Option<int>)
    | ListPatientAppointments
    | Cancel(appointmentId: Id)
    | Reschedule(appointmentId: Id, newDate: int)
    | ListProviderAppointments
    | UpdateStatus(appointmentId: Id, status: string, rejectionReason: Option<string>, notes: Option<string>)
    | AddAvailability(dayOfWeek: Option<int>, startTime: Option<string>, endTime: Option<string>)
    | ListAvailability
    | RemoveAvailability(availabilityId: Id)

  predicate PatientRoute(req: Request) {
    req.Book? || req.ListPatientAppointments? || req.Cancel? || req.Reschedule?
  }

  predicate ProviderRoute(req: Request) {
    || req.ListProviderAppointments? || req.UpdateStatus?
    || req.AddAvailability? || req.ListAvailability? || req.RemoveAvailability?
  }

  /** The route table: `None` for the public route, otherwise the role the
      route's `authorize` guard names. */
  function RequiredRole(req: Request): Option<Role> {
    match req
    case ListProviders => None
    case Book(_, _, _, _) => Some(Patient)
    case ListPatientAppointments => Some(Patient)
    case Cancel(_) => Some(Patient)
    case Reschedule(_, _) => Some(Patient)
    case ListProviderAppointments => Some(Provider)
    case UpdateStatus(_, _, _, _) => Some(Provider)
    case AddAvailability(_, _, _) => Some(Provider)
    case ListAvailability => Some(Provider)
    case RemoveAvailability(_) => Some(Provider)
  }

  /** The route table splits the routes into the public one, the patient
      ones and the provider ones. */
  lemma RouteTablePartitions(req: Request)
    ensures RequiredRole(req) == None <==> req.ListProviders?
    ensures RequiredRole(req) == Some(Patient) <==> PatientRoute(req)
    ensures RequiredRole(req) == Some(Provider) <==> ProviderRoute(req)
  {
  }

  /** `authenticate` then `authorize(role)`: the error that stops the request
      before its handler, if any. */
  function Guard(caller: Option<Caller>, req: Request): (r: Option<Error>)
    ensures r == None <==>
      req.ListProviders?
      || (caller.Some? && caller.value.role == Patient && PatientRoute(req))
      || (caller.Some? && caller.value.role == Provider && ProviderRoute(req))
    ensures r == Some(Unauthorized) <==> !req.ListProviders? && caller.None?
    ensures r.Some? ==> r.value in {Unauthorized, Forbidden}
  {
    match RequiredRole(req)
    case None => None
    case Some(role) =>
      if caller.None? then Some(Unauthorized)
      else if caller.value.role != role then Some(Forbidden)
      else None
  }

  datatype Reply =
    | Failed(error: Error)
    | Made(id: Id)
    | Done
    | Appointments(appointments: seq<Keyed<Appointment>>)
    | Slots(slots: seq<Keyed<Slot>>)
    | Providers(providers: map<Id, PublicUser>)

  /** Every change from `s` to `s'` is to a record of `caller`: an
      appointment of which a patient caller is the patient or a provider
      caller the provider, or a slot of a provider caller. */
  ghost predicate ChangesOwnedBy(s: Store, s': Store, caller: Caller) {
    && (forall k :: k in s.appts && (k !in s'.appts || s'.appts[k] != s.appts[k]) ==>
          || (caller.role == Patient && s.appts[k].patientId == caller.userId)
          || (caller.role == Provider && s.appts[k].providerId == caller.userId))
    && (forall k :: k in s.slots && (k !in s'.slots || s'.slots[k] != s.slots[k]) ==>
          caller.role == Provider && s.slots[k].providerId == caller.userId)
    && (forall k :: k in s'.slots && k !in s.slots ==>
          caller.role == Provider && s'.slots[k].providerId == caller.userId)
  }

  /** A listing reply shows only records `caller` is a party to. */
  ghost predicate ShowsOnlyOwn(reply: Reply, caller: Caller) {
    && (reply.Appointments? ==> forall i :: 0 <= i < |reply.appointments| ==>
          reply.appointments[i].val.patientId == caller.userId
          || reply.appointments[i].val.providerId == caller.userId)
    && (reply.Slots? ==> forall i :: 0 <= i < |reply.slots| ==>
          reply.slots[i].val.providerId == caller.userId)
  }

  /** The store-wide invariants a handler keeps; the status update is the
      one handler that may break `NoDoubleBooking`. */
  ghost predicate KeepsInvariants(s: Store, s': Store, req: Request) {
    && (Valid(s) ==> Valid(s'))
    && (WellFormedStore(s) ==> WellFormedStore(s'))
    && (Valid(s) && NoDoubleBooking(s.appts) && !req.UpdateStatus? ==> NoDoubleBooking(s'.appts))
  }

  /** Changing one appointment of the caller's, and nothing else, is a
      change to the caller's records only. */
  lemma OwnAppointmentChange(s: Store, s': Store, id: Id, caller: Caller)
    requires OnlyAppointmentChanged(s, s', id) && id in s.appts
    requires || (caller.role == Patient && s.appts[id].patientId == caller.userId)
             || (caller.role == Provider && s.appts[id].providerId == caller.userId)
    ensures ChangesOwnedBy(s, s', caller)
  {
  }

  /** A booking changes nothing that exists, so it touches only the
      caller's records. */
  lemma BookingChangesNothingElse(
    s: Store, users: map<Id, User>, patientId: Id,
    providerId: Id, date: int, reason: Option<string>, duration: Option<int>)
    requires Valid(s)
    ensures var r := BookAppointment(s, users, patientId, providerId, date, reason, duration);
      r.Ok? ==> ChangesOwnedBy(s, r.value.store, Caller(patientId, Patient))
  {
    var r := BookAppointment(s, users, patientId, providerId, date, reason, duration);
    if r.Ok? {
      assert r.value.id !in s.appts;
      assert r.value.store.slots == s.slots;
    }
  }

  /** The answer to a write whose handler returns the new store: the store
      and `Done` on success, the unchanged store and the error otherwise. */
  predicate Answers(s: Store, s': Store, reply: Reply, r: Result<Store>) {
    if r.Ok? then s' == r.value && reply == Done else s' == s && reply == Failed(r.error)
  }

  /** The answer to a write that creates a record: the new store and the new
      id on success, the unchanged store and the error otherwise. */
  predicate AnswersCreated(s: Store, s': Store, reply: Reply, r: Result<Created>) {
    if r.Ok? then s' == r.value.store && reply == Made(r.value.id) else s' == s && reply == Failed(r.error)
  }

  /** A patient request gets exactly its handler's outcome. */
  ghost predicate PatientDispatch(s: Store, users: map<Id, User>, patientId: Id, req: Request, s': Store, reply: Reply) {
    match req
    case Book(providerId, date, reason, duration) =>
      AnswersCreated(s, s', reply, BookAppointment(s, users, patientId, providerId, date, reason, duration))
    case ListPatientAppointments =>
      s' == s && reply.Appointments? && PatientListing(s, patientId, reply.appointments)
    case Cancel(id) => Answers(s, s', reply, CancelAppointment(s, patientId, id))
    case Reschedule(id, date) => Answers(s, s', reply, RescheduleAppointment(s, patientId, id, date))
    case _ => false
  }

  /** A provider request gets exactly its handler's outcome. */
  ghost predicate ProviderDispatch(s: Store, providerId: Id, req: Request, s': Store, reply: Reply) {
    match req
    case ListProviderAppointments =>
      s' == s && reply.Appointments? && ProviderListing(s, providerId, reply.appointments)
    case UpdateStatus(id, status, rejectionReason, notes) =>
      Answers(s, s', reply, UpdateAppointmentStatus(s, providerId, id, status, rejectionReason, notes))
    case AddAvailability(day, start, end) =>
      AnswersCreated(s, s', reply, SetAvailability(s, providerId, day, start, end))
    case ListAvailability =>
      s' == s && reply.Slots? && AvailabilityListing(s, providerId, reply.slots)
    case RemoveAvailability(id) => Answers(s, s', reply, DeleteAvailability(s, providerId, id))
    case _ => false
  }

  /** What a patient route promises: failures and listings change nothing,
      changes touch only the caller's records, listings show only the
      caller's appointments, and the store invariants survive. */
  ghost predicate PatientOutcome(s: Store, s': Store, reply: Reply, patientId: Id, req: Request) {
    && (reply.Failed? || req.ListPatientAppointments? ==> s' == s)
    && (Valid(s) ==> ChangesOwnedBy(s, s', Caller(patientId, Patient)))
    && (reply.Appointments? ==> forall i :: 0 <= i < |reply.appointments| ==>
          reply.appointments[i].val.patientId == patientId)
    && !reply.Slots? && !reply.Providers?
    && KeepsInvariants(s, s', req)
  }

  method BookRoute(s: Store, users: map<Id, User>, patientId: Id, req: Request)
    returns (s': Store, reply: Reply)
    requires req.Book?
    ensures PatientDispatch(s, users, patientId, req, s', reply)
    ensures PatientOutcome(s, s', reply, patientId, req)
  {
    var r := BookAppointment(s, users, patientId, req.providerId, req.appointmentDate, req.reason, req.duration);
    if Valid(s) {
      BookingChangesNothingElse(s, users, patientId, req.providerId, req.appointmentDate, req.reason, req.duration);
      if NoDoubleBooking(s.appts) {
        Properties.BookingKeepsNoDoubleBooking(
          s, users, patientId, req.providerId, req.appointmentDate, req.reason, req.duration);
      }
    }
    if r.Ok? {
      s', reply := r.value.store, Made(r.value.id);
    } else {
      s', reply := s, Failed(r.error);
    }
  }

  method CancelRoute(s: Store, patientId: Id, req: Request)
    returns (s': Store, reply: Reply)
    requires req.Cancel?
    ensures Answers(s, s', reply, CancelAppointment(s, patientId, req.appointmentId))
    ensures PatientOutcome(s, s', reply, patientId, req)
  {
    var r := CancelAppointment(s, patientId, req.appointmentId);
    if NoDoubleBooking(s.appts) {
      Properties.CancelKeepsNoDoubleBooking(s, patientId, req.appointmentId);
    }
    if r.Ok? {
      OwnAppointmentChange(s, r.value, req.appointmentId, Caller(patientId, Patient));
      s', reply := r.value, Done;
    } else {
      s', reply := s, Failed(r.error);
    }
  }

  method RescheduleRoute(s: Store, patientId: Id, req: Request)
    returns (s': Store, reply: Reply)
    requires req.Reschedule?
    ensures Answers(s, s', reply, RescheduleAppointment(s, patientId, req.appointmentId, req.newDate))
    ensures PatientOutcome(s, s', reply, patientId, req)
  {
    var r := RescheduleAppointment(s, patientId, req.appointmentId, req.newDate);
    if NoDoubleBooking(s.appts) {
      Properties.RescheduleKeepsNoDoubleBooking(s, patientId, req.appointmentId, req.newDate);
    }
    if r.Ok? {
      OwnAppointmentChange(s, r.value, req.appointmentId, Caller(patientId, Patient));
      s', reply := r.value, Done;
    } else {
      s', reply := s, Failed(r.error);
    }
  }

  /** The patient routes, for an authenticated patient. */
  method HandlePatient(s: Store, users: map<Id, User>, patientId: Id, req: Request)
    returns (s': Store, reply: Reply)
    requires PatientRoute(req)
    ensures PatientDispatch(s, users, patientId, req, s', reply)
    ensures PatientOutcome(s, s', reply, patientId, req)
  {
    match req
    case Book(_, _, _, _) =>
      s', reply := BookRoute(s, users, patientId, req);
    case ListPatientAppointments =>
      var list := GetPatientAppointments(s, patientId);
      s', reply := s, Appointments(list);
    case Cancel(_) =>
      s', reply := CancelRoute(s, patientId, req);
    case Reschedule(_, _) =>
      s', reply := RescheduleRoute(s, patientId, req);
  }

  /** The provider routes, for an authenticated provider. */
  method HandleProvider(s: Store, providerId: Id, req: Request)
    returns (s': Store, reply: Reply)
    requires ProviderRoute(req)
    ensures ProviderDispatch(s, providerId, req, s', reply)
    ensures reply.Failed? || req.ListProviderAppointments? || req.ListAvailability? ==> s' == s
    ensures Valid(s) ==> ChangesOwnedBy(s, s', Caller(providerId, Provider))
    ensures reply.Appointments? ==> forall i :: 0 <= i < |reply.appointments| ==>
      reply.appointments[i].val.providerId == providerId
    ensures reply.Slots? ==> forall i :: 0 <= i < |reply.slots| ==>
      reply.slots[i].val.providerId == providerId && reply.slots[i].val.isActive
    ensures !reply.Providers?
    ensures KeepsInvariants(s, s', req)
  {
    s' := s;
    match req
    case ListProviderAppointments =>
      var list := GetProviderAppointments(s, providerId);
      reply := Appointments(list);
    case UpdateStatus(id, status, rejectionReason, notes) =>
      var r := UpdateAppointmentStatus(s, providerId, id, status, rejectionReason, notes);
      if r.Ok? {
        OwnAppointmentChange(s, r.value, id, Caller(providerId, Provider));
      }
      if r.Ok? { s' := r.value; reply := Done; } else { reply := Failed(r.error); }
    case AddAvailability(day, start, end) =>
      var r := SetAvailability(s, providerId, day, start, end);
      if r.Ok? {
        s' := r.value.store;
        reply := Made(r.value.id);
      } else {
        reply := Failed(r.error);
      }
    case ListAvailability =>
      var list := GetAvailability(s, providerId);
      reply := Slots(list);
    case RemoveAvailability(id) =>
      var r := DeleteAvailability(s, providerId, id);
      if r.Ok? { s' := r.value; reply := Done; } else { reply := Failed(r.error); }
  }

  /** Runs the guards, then the handler, on behalf of `caller`. */
  method Handle(s: Store, users: map<Id, User>, caller: Option<Caller>, req: Request)
    returns (s': Store, reply: Reply)
    ensures Guard(caller, req).Some? ==> s' == s && reply == Failed(Guard(caller, req).value)
    ensures req.ListProviders? ==> s' == s && reply == Providers(GetAllProviders(users))
    ensures Guard(caller, req).None? && PatientRoute(req) ==>
      caller.Some? && PatientDispatch(s, users, caller.value.userId, req, s', reply)
    ensures Guard(caller, req).None? && ProviderRoute(req) ==>
      caller.Some? && ProviderDispatch(s, caller.value.userId, req, s', reply)
    ensures (|| reply.Failed? || req.ListProviders? || req.ListPatientAppointments?
             || req.ListProviderAppointments? || req.ListAvailability?) ==> s' == s
    ensures s' != s ==> caller.Some?
    ensures Valid(s) && caller.Some? ==> ChangesOwnedBy(s, s', caller.value)
    ensures (reply.Appointments? || reply.Slots?) ==> caller.Some? && ShowsOnlyOwn(reply, caller.value)
    ensures KeepsInvariants(s, s', req)
  {
    var denied := Guard(caller, req);
    if denied.Some? {
      s', reply := s, Failed(denied.value);
    } else if req.ListProviders? {
      s', reply := s, Providers(GetAllProviders(users));
    } else if caller.value.role == Patient {
      s', reply := HandlePatient(s, users, caller.value.userId, req);
    } else {
      s', reply := HandleProvider(s, caller.value.userId, req);
    }
  }
}
