/** The create/edit patient form: it holds only the draft request being typed. */
module PatientForm {
  import opened Wrappers
  import opened Types

  /** The form's five inputs, one per request field (the inputs' `name` attributes). */
  datatype Field = FirstName | LastName | Email | Phone | DateOfBirth

  /** The JSON key each input writes to. */
  function FieldName(f: Field): string {
    match f
    case FirstName => "firstName"
    case LastName => "lastName"
    case Email => "email"
    case Phone => "phone"
    case DateOfBirth => "dateOfBirth"
  }

  /** The draft the form starts from, and returns to after a create. */
  function Blank(): PatientRequest {
    PatientRequest("", "", "", None, None)
  }

  /** The blank draft carries the three required members, empty, and no optional ones. */
  lemma BlankDraft()
    ensures PatientJson(Blank()) == map["firstName" := "", "lastName" := "", "email" := ""]
  {
  }

  /** The value a draft holds for one input; None for an optional field never set. */
  function Get(d: PatientRequest, f: Field): Option<string> {
    match f
    case FirstName => Some(d.firstName)
    case LastName => Some(d.lastName)
    case Email => Some(d.email)
    case Phone => d.phone
    case DateOfBirth => d.dateOfBirth
  }

  /** Each input's key is in the JSON sent exactly when the input holds a value, and
      then carries that value. */
  lemma FieldKeyInJson(d: PatientRequest, f: Field)
    ensures FieldName(f) in PatientJson(d) <==> Get(d, f).Some?
    ensures Get(d, f).Some? ==> PatientJson(d)[FieldName(f)] == Get(d, f).value
  {
  }

  /** Two drafts that agree on every input are the same draft. */
  lemma {:induction false} DraftDeterminedByFields(a: PatientRequest, b: PatientRequest)
    requires forall f :: Get(a, f) == Get(b, f)
    ensures a == b
  {
    assert Get(a, FirstName) == Get(b, FirstName);
    assert Get(a, LastName) == Get(b, LastName);
    assert Get(a, Email) == Get(b, Email);
    assert Get(a, Phone) == Get(b, Phone);
    assert Get(a, DateOfBirth) == Get(b, DateOfBirth);
  }

  /** `{ ...f, [name]: value }`: the named input takes the typed text, every other
      input keeps its value. */
  function HandleChange(d: PatientRequest, f: Field, value: string): (r: PatientRequest)
    ensures Get(r, f) == Some(value)
    ensures forall g :: g != f ==> Get(r, g) == Get(d, g)
  {
    match f
    case FirstName => d.(firstName := value)
    case LastName => d.(lastName := value)
    case Email => d.(email := value)
    case Phone => d.(phone := Some(value))
    case DateOfBirth => d.(dateOfBirth := Some(value))
  }

  /** One change event: the input it came from and the input's new text. */
  datatype Edit = Edit(field: Field, value: string)

  /** A run of change events, applied in order. */
  function ApplyEdits(d: PatientRequest, edits: seq<Edit>): PatientRequest
    decreases |edits|
  {
    if edits == [] then d
    else
      var last := edits[|edits| - 1];
      HandleChange(ApplyEdits(d, edits[..|edits| - 1]), last.field, last.value)
  }

  /** The text of the last event that came from input `f`, or `before` if none did. */
  function LastValue(edits: seq<Edit>, f: Field, before: Option<string>): Option<string>
    decreases |edits|
  {
    if edits == [] then before
    else if edits[|edits| - 1].field == f then Some(edits[|edits| - 1].value)
    else LastValue(edits[..|edits| - 1], f, before)
  }

  /** After a run of edits, every input holds the last text typed into it, and an
      input nobody typed into still holds what it held before. */
  lemma {:induction false} LastEditWins(d: PatientRequest, edits: seq<Edit>, f: Field)
    ensures Get(ApplyEdits(d, edits), f) == LastValue(edits, f, Get(d, f))
    decreases |edits|
  {
    if edits != [] {
      LastEditWins(d, edits[..|edits| - 1], f);
    }
  }

  /** The effect on `editing`: a record being edited replaces the draft with its
      five fields (never its id); no record leaves the draft as it is. */
  function SyncEditing(d: PatientRequest, editing: Option<PatientResponse>): (r: PatientRequest)
    ensures editing.Some? ==> StoredPatient(r, editing.value.id) == editing.value
    ensures editing.None? ==> r == d
  {
    match editing
    case Some(p) => PatientFields(p)
    case None => d
  }

  /** What a submit hands to the page's handler, and the draft left behind. */
  datatype Submission = Submission(sent: PatientRequest, next: PatientRequest)

  /** Submit: the draft goes to `onSubmit` untouched. Once `onSubmit` resolved a
      create form is blanked and an edit form keeps its draft; a rejection skips the
      reset, so the draft stays as typed. */
  function Submit(d: PatientRequest, editing: Option<PatientResponse>, resolved: bool): (r: Submission)
    ensures r.sent == d
    ensures resolved && editing.None? ==> r.next == Blank()
    ensures resolved && editing.Some? ==> r.next == d
    ensures !resolved ==> r.next == d
  {
    Submission(d, if resolved && editing.None? then Blank() else d)
  }

  predicate IsRequired(f: Field) {
    f == FirstName || f == LastName || f == Email
  }

  /** A create in which only the required inputs were typed into sends just the
      three required members, holding the last text typed into each. */
  lemma {:induction false} RequiredOnlyCreate(edits: seq<Edit>)
    requires forall i :: 0 <= i < |edits| ==> IsRequired(edits[i].field)
    ensures var sent := Submit(ApplyEdits(Blank(), edits), None, true).sent;
            PatientJson(sent).Keys == {"firstName", "lastName", "email"}
            && Some(sent.firstName) == LastValue(edits, FirstName, Some(""))
            && Some(sent.lastName) == LastValue(edits, LastName, Some(""))
            && Some(sent.email) == LastValue(edits, Email, Some(""))
  {
    var d := ApplyEdits(Blank(), edits);
    LastEditWins(Blank(), edits, Phone);
    LastEditWins(Blank(), edits, DateOfBirth);
    LastEditWins(Blank(), edits, FirstName);
    LastEditWins(Blank(), edits, LastName);
    LastEditWins(Blank(), edits, Email);
    NeverTypedStaysBefore(edits, Phone, None);
    NeverTypedStaysBefore(edits, DateOfBirth, None);
  }

  lemma {:induction false} NeverTypedStaysBefore(edits: seq<Edit>, f: Field, before: Option<string>)
    requires forall i :: 0 <= i < |edits| ==> edits[i].field != f
    ensures LastValue(edits, f, before) == before
    decreases |edits|
  {
    if edits != [] {
      NeverTypedStaysBefore(edits[..|edits| - 1], f, before);
    }
  }

  /** Typing Bob / Johnson / bob@example.com into a blank form and submitting sends
      exactly those three members. */
  lemma CreateBobJohnson()
    ensures var edits := [Edit(FirstName, "Bob"), Edit(LastName, "Johnson"), Edit(Email, "bob@example.com")];
            Submit(ApplyEdits(Blank(), edits), None, true).sent == PatientRequest("Bob", "Johnson", "bob@example.com", None, None)
  {
    var edits := [Edit(FirstName, "Bob"), Edit(LastName, "Johnson"), Edit(Email, "bob@example.com")];
    assert edits[..2][..1][..0] == [];
    assert ApplyEdits(Blank(), edits[..1]) == PatientRequest("Bob", "", "", None, None);
    assert ApplyEdits(Blank(), edits[..2]) == PatientRequest("Bob", "Johnson", "", None, None);
  }
}
