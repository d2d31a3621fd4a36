/** The create-appointment form: the draft request being typed, optionally seeded
    with a patient id. */
module AppointmentForm {
  import opened Wrappers
  import opened Types
  import opened Text

  /** The form's three inputs (their `name` attributes). */
  datatype Field = PatientId | AppointmentDateTime | Reason

  /** A draft value as the form stores it: the patient id as a number, the rest as text. */
  datatype Value = Num(n: int) | Str(s: string)

  /** The draft the form starts from and returns to: `defaultPatientId || 0` and two
      empty texts. */
  function Initial(defaultPatientId: Option<int>): (d: AppointmentRequest)
    ensures defaultPatientId.None? ==> d.patientId == 0
    ensures defaultPatientId.Some? ==> d.patientId == defaultPatientId.value
    ensures d.appointmentDateTime == "" && d.reason == ""
  {
    // `defaultPatientId || 0`: a missing id and an id of 0 (falsy) both give 0.
    var id := match defaultPatientId case Some(n) => n case None => 0;
    AppointmentRequest(id, "", "")
  }

  /** The value a draft holds for one input. */
  function Get(d: AppointmentRequest, f: Field): Value {
    match f
    case PatientId => Num(d.patientId)
    case AppointmentDateTime => Str(d.appointmentDateTime)
    case Reason => Str(d.reason)
  }

  /** Two drafts that agree on every input are the same draft. */
  lemma {:induction false} DraftDeterminedByFields(a: AppointmentRequest, b: AppointmentRequest)
    requires forall f :: Get(a, f) == Get(b, f)
    ensures a == b
  {
    assert Get(a, PatientId) == Get(b, PatientId);
    assert Get(a, AppointmentDateTime) == Get(b, AppointmentDateTime);
    assert Get(a, Reason) == Get(b, Reason);
  }

  /** A change event: the patient id input stores `Number(value)`, the others the raw
      text; every other input keeps its value. */
  function HandleChange(d: AppointmentRequest, f: Field, value: string): (r: AppointmentRequest)
    ensures Get(r, f) == (if f == PatientId then Num(ToNumber(value)) else Str(value))
    ensures forall g :: g != f ==> Get(r, g) == Get(d, g)
  {
    match f
    case PatientId => d.(patientId := ToNumber(value))
    case AppointmentDateTime => d.(appointmentDateTime := value)
    case Reason => d.(reason := value)
  }

  /** Typing a number's decimal spelling into the patient id input stores that number. */
  lemma PatientIdTypedBack(d: AppointmentRequest, n: nat)
    ensures HandleChange(d, PatientId, DecimalString(n)).patientId == n
    ensures HandleChange(d, PatientId, "-" + DecimalString(n)).patientId == -(n as int)
  {
    ToNumberOfDecimal(n);
  }

  /** Typing after the 0 the input starts with reads as the typed number ("03" is 3). */
  lemma TypingAfterInitialZero(d: AppointmentRequest, n: nat)
    ensures HandleChange(d, PatientId, "0" + DecimalString(n)).patientId == n
  {
    LeadingZeroIgnored(DecimalString(n));
    DigitsValueOfDecimal(n);
  }

  /** What a submit hands to the page's handler, and the draft left behind. */
  datatype Submission = Submission(sent: AppointmentRequest, next: AppointmentRequest)

  /** Submit: the draft goes to `onSubmit` untouched. The reset follows the
      `await`, so it happens only when `onSubmit` resolved; a rejection skips it and
      the draft stays as typed. */
  function Submit(d: AppointmentRequest, defaultPatientId: Option<int>, resolved: bool): (r: Submission)
    ensures r.sent == d
    ensures resolved ==> r.next == Initial(defaultPatientId)
    ensures !resolved ==> r.next == d
  {
    Submission(d, if resolved then Initial(defaultPatientId) else d)
  }

  /** Typing "3" after the initial 0, a date and a reason, then submitting, sends
      exactly patient 3 with that date and reason, and leaves a fresh draft. */
  lemma CreateForPatientThree()
    ensures var d0 := Initial(None);
            var d1 := HandleChange(d0, PatientId, "03");
            var d2 := HandleChange(d1, AppointmentDateTime, "2025-12-01T10:00");
            var d3 := HandleChange(d2, Reason, "New appointment");
            Submit(d3, None, true) == Submission(AppointmentRequest(3, "2025-12-01T10:00", "New appointment"), d0)
  {
    TypingAfterInitialZero(Initial(None), 3);
    assert "0" + DecimalString(3) == "03";
  }
}
