/** The stored record shapes: the Appointment and Availability schemas with
    their defaults, enums, required fields and trimming setters, and the
    part of a user account the scheduling core reads. */
module Records {
  import opened Results
  import Text

  /** MongoDB object ids. */
  type Id = nat

  datatype Role = Patient | Provider

  /** The five values the appointment schema's `status` enum admits. */
  datatype Status = Pending | Approved | Rejected | Cancelled | Completed

  function StatusName(st: Status): string {
    match st
    case Pending => "pending"
    case Approved => "approved"
    case Rejected => "rejected"
    case Cancelled => "cancelled"
    case Completed => "completed"
  }

  /** The enum check a status string meets when the document is saved. */
  function ParseStatus(name: string): (r: Option<Status>)
    ensures r.Some? ==> StatusName(r.value) == name
  {
    if name == "pending" then Some(Pending)
    else if name == "approved" then Some(Approved)
    else if name == "rejected" then Some(Rejected)
    else if name == "cancelled" then Some(Cancelled)
    else if name == "completed" then Some(Completed)
    else None
  }

  /** Exactly the five enum names parse, each to its own status. */
  lemma ParseStatusRoundTrip(st: Status, name: string)
    ensures ParseStatus(StatusName(st)) == Some(st)
    ensures ParseStatus(name).None? <==> forall s: Status :: StatusName(s) != name
  {
    if ParseStatus(name).None? {
      forall s: Status
        ensures StatusName(s) != name
      {
      }
    }
  }

  /** Statuses that hold the provider's time: only these block a booking. */
  predicate Active(st: Status) {
    st == Pending || st == Approved
  }

  const DefaultDuration: int := 30

  datatype Appointment = Appointment(
    patientId: Id,
    providerId: Id,
    appointmentDate: int,     // the instant, in milliseconds
    duration: int,            // minutes
    status: Status,
    reason: string,
    notes: Option<string>,
    rejectionReason: Option<string>)

  /** The document handed to `Appointment.create`, any field possibly absent. */
  datatype AppointmentDraft = AppointmentDraft(
    patientId: Option<Id>,
    providerId: Option<Id>,
    appointmentDate: Option<int>,
    duration: Option<int>,
    status: Option<Status>,
    reason: Option<string>,
    notes: Option<string>,
    rejectionReason: Option<string>)

  function TrimOpt(s: Option<string>): Option<string> {
    if s.Some? then Some(Text.Trim(s.value)) else None
  }

  predicate TrimmedOpt(s: Option<string>) {
    s.Some? ==> Text.IsTrimmed(s.value)
  }

  /** What the schema guarantees of every stored appointment: a non-empty
      reason and trimmed text fields. */
  predicate WellFormedAppointment(a: Appointment) {
    && a.reason != []
    && Text.IsTrimmed(a.reason)
    && TrimmedOpt(a.notes)
    && TrimmedOpt(a.rejectionReason)
  }

  /** Schema validation of a new appointment: the trimming setters run
      first, then the required fields are checked (an empty string fails
      `required`), then the defaults fill `duration` and `status`. */
  function NewAppointment(d: AppointmentDraft): (r: Result<Appointment>)
    ensures r.Ok? <==>
      && d.patientId.Some? && d.providerId.Some? && d.appointmentDate.Some?
      && d.reason.Some? && !Text.AllSpace(d.reason.value)
    ensures r.Err? ==> r.error == ValidationError
    ensures r.Ok? ==> WellFormedAppointment(r.value)
    ensures r.Ok? ==>
      && r.value.patientId == d.patientId.value
      && r.value.providerId == d.providerId.value
      && r.value.appointmentDate == d.appointmentDate.value
      && r.value.duration == (if d.duration.Some? then d.duration.value else DefaultDuration)
      && r.value.status == (if d.status.Some? then d.status.value else Pending)
      && r.value.reason == Text.Trim(d.reason.value)
      && r.value.notes == TrimOpt(d.notes)
      && r.value.rejectionReason == TrimOpt(d.rejectionReason)
  {
    var reason := TrimOpt(d.reason);
    Text.TrimEmptyIffAllSpace(if d.reason.Some? then d.reason.value else "");
    if d.patientId.None? || d.providerId.None? || d.appointmentDate.None? then Err(ValidationError)
    else if reason.None? || reason.value == "" then Err(ValidationError)
    else
      Ok(Appointment(
        d.patientId.value,
        d.providerId.value,
        d.appointmentDate.value,
        if d.duration.Some? then d.duration.value else DefaultDuration,
        if d.status.Some? then d.status.value else Pending,
        reason.value,
        TrimOpt(d.notes),
        TrimOpt(d.rejectionReason)))
  }

  /** A weekly availability window. `dayOfWeek` counts from 0 = Sunday to
      6 = Saturday; `startTime` and `endTime` are free strings meant to read
      "HH:MM", and nothing relates one to the other. */
  datatype Slot = Slot(
    providerId: Id,
    dayOfWeek: int,
    startTime: string,
    endTime: string,
    isActive: bool)

  /** The document handed to `Availability.create`. */
  datatype SlotDraft = SlotDraft(
    providerId: Option<Id>,
    dayOfWeek: Option<int>,
    startTime: Option<string>,
    endTime: Option<string>,
    isActive: Option<bool>)

  predicate WellFormedSlot(s: Slot) {
    0 <= s.dayOfWeek <= 6 && s.startTime != [] && s.endTime != []
  }

  /** Schema validation of a new slot: all four fields required, the day
      within 0..6, and `isActive` true unless given. */
  function NewSlot(d: SlotDraft): (r: Result<Slot>)
    ensures r.Ok? <==>
      && d.providerId.Some? && d.dayOfWeek.Some? && 0 <= d.dayOfWeek.value <= 6
      && d.startTime.Some? && d.startTime.value != []
      && d.endTime.Some? && d.endTime.value != []
    ensures r.Err? ==> r.error == ValidationError
    ensures r.Ok? ==> WellFormedSlot(r.value)
    ensures r.Ok? ==>
      && r.value.providerId == d.providerId.value
      && r.value.dayOfWeek == d.dayOfWeek.value
      && r.value.startTime == d.startTime.value
      && r.value.endTime == d.endTime.value
      && r.value.isActive == (d.isActive != Some(false))
  {
    if d.providerId.None? || d.dayOfWeek.None? || d.startTime.None? || d.endTime.None? then
      Err(ValidationError)
    else if !(0 <= d.dayOfWeek.value <= 6) then Err(ValidationError)
    else if d.startTime.value == "" || d.endTime.value == "" then Err(ValidationError)
    else
      Ok(Slot(d.providerId.value, d.dayOfWeek.value, d.startTime.value, d.endTime.value,
              if d.isActive.Some? then d.isActive.value else true))
  }

  /** A user account as stored; only its role and public fields matter to
      scheduling. */
  datatype User = User(
    username: string,
    email: string,
    role: Role,
    password: string,
    refreshToken: Option<string>)

  /** A user with the password and refresh token left out. */
  datatype PublicUser = PublicUser(username: string, email: string, role: Role)

  function Public(u: User): PublicUser {
    PublicUser(u.username, u.email, u.role)
  }
}
