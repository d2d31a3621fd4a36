/** The request and response records exchanged with the clinic's REST service. */
module Types {
  import opened Wrappers

  /** What the console sends to create or replace a patient; `phone` and
      `dateOfBirth` (yyyy-MM-dd) may be left out. */
  datatype PatientRequest = PatientRequest(
    firstName: string,
    lastName: string,
    email: string,
    phone: Option<string>,
    dateOfBirth: Option<string>)

  /** A stored patient: the request fields plus the server-assigned id. */
  datatype PatientResponse = PatientResponse(
    id: int,
    firstName: string,
    lastName: string,
    email: string,
    phone: Option<string>,
    dateOfBirth: Option<string>)

  /** The same patient with its id dropped. */
  function PatientFields(p: PatientResponse): PatientRequest {
    PatientRequest(p.firstName, p.lastName, p.email, p.phone, p.dateOfBirth)
  }

  /** A request as the server stores it under `id`: nothing is added but the id. */
  function StoredPatient(r: PatientRequest, id: int): (p: PatientResponse)
    ensures p.id == id
    ensures PatientFields(p) == r
  {
    PatientResponse(id, r.firstName, r.lastName, r.email, r.phone, r.dateOfBirth)
  }

  /** A stored patient is exactly its request fields plus its id. */
  lemma PatientIsRequestPlusId(p: PatientResponse)
    ensures StoredPatient(PatientFields(p), p.id) == p
  {
  }

  /** The JSON members a patient request carries: the three required fields always,
      an optional field only when it holds a value (an absent field is not serialised). */
  function PatientJson(r: PatientRequest): (m: map<string, string>)
    ensures {"firstName", "lastName", "email"} <= m.Keys
    ensures m["firstName"] == r.firstName && m["lastName"] == r.lastName && m["email"] == r.email
    ensures "phone" in m <==> r.phone.Some?
    ensures "dateOfBirth" in m <==> r.dateOfBirth.Some?
    ensures r.phone.Some? ==> m["phone"] == r.phone.value
    ensures r.dateOfBirth.Some? ==> m["dateOfBirth"] == r.dateOfBirth.value
    ensures m.Keys <= {"firstName", "lastName", "email", "phone", "dateOfBirth"}
  {
    var required := map["firstName" := r.firstName, "lastName" := r.lastName, "email" := r.email];
    var withPhone := if r.phone.Some? then required["phone" := r.phone.value] else required;
    if r.dateOfBirth.Some? then withPhone["dateOfBirth" := r.dateOfBirth.value] else withPhone
  }

  /** What the console sends to book an appointment. */
  datatype AppointmentRequest = AppointmentRequest(
    patientId: int,
    appointmentDateTime: string,
    reason: string)

  /** The four states an appointment can be in. */
  datatype AppointmentStatus = Scheduled | Completed | Cancelled | NoShow

  /** Every status, in declaration order. */
  const AllStatuses: seq<AppointmentStatus> := [Scheduled, Completed, Cancelled, NoShow]

  /** The wire spelling of a status. */
  function StatusName(s: AppointmentStatus): string {
    match s
    case Scheduled => "SCHEDULED"
    case Completed => "COMPLETED"
    case Cancelled => "CANCELLED"
    case NoShow => "NO_SHOW"
  }

  /** Reads a wire spelling back; any other string is not a status. */
  function ParseStatus(name: string): (r: Option<AppointmentStatus>)
    ensures r.Some? ==> StatusName(r.value) == name
    ensures r.None? ==> forall s :: StatusName(s) != name
  {
    if name == "SCHEDULED" then Some(Scheduled)
    else if name == "COMPLETED" then Some(Completed)
    else if name == "CANCELLED" then Some(Cancelled)
    else if name == "NO_SHOW" then Some(NoShow)
    else None
  }

  /** The status type has exactly the four values, with four distinct spellings. */
  lemma ExactlyFourStatuses()
    ensures |AllStatuses| == 4
    ensures forall s :: s in AllStatuses
    ensures forall i, j :: 0 <= i < j < |AllStatuses| ==> StatusName(AllStatuses[i]) != StatusName(AllStatuses[j])
    ensures forall s :: ParseStatus(StatusName(s)) == Some(s)
  {
    forall s: AppointmentStatus
      ensures s in AllStatuses
    {
      match s
      case Scheduled => assert AllStatuses[0] == s;
      case Completed => assert AllStatuses[1] == s;
      case Cancelled => assert AllStatuses[2] == s;
      case NoShow => assert AllStatuses[3] == s;
    }
  }

  /** A stored appointment: the request fields plus the server id and its status. */
  datatype AppointmentResponse = AppointmentResponse(
    id: int,
    patientId: int,
    appointmentDateTime: string,
    reason: string,
    status: AppointmentStatus)

  /** The same appointment with id and status dropped. */
  function AppointmentFields(a: AppointmentResponse): AppointmentRequest {
    AppointmentRequest(a.patientId, a.appointmentDateTime, a.reason)
  }

  /** A request as the server stores it under `id` with `status`. */
  function StoredAppointment(r: AppointmentRequest, id: int, status: AppointmentStatus): (a: AppointmentResponse)
    ensures a.id == id && a.status == status
    ensures AppointmentFields(a) == r
  {
    AppointmentResponse(id, r.patientId, r.appointmentDateTime, r.reason, status)
  }

  /** A stored appointment is exactly its request fields plus id and status. */
  lemma AppointmentIsRequestPlusIdAndStatus(a: AppointmentResponse)
    ensures StoredAppointment(AppointmentFields(a), a.id, a.status) == a
  {
  }
}
