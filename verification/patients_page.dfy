/** The Patients page controller: the fetched patient list, its loading and error
    flags, the name and e-mail filters, and the handlers that call the service. */
module PatientsPage {
  import opened Wrappers
  import opened Types
  import opened Text
  import opened Filtering
  import LC = ListController
  import PatientForm

  const LoadFallback: string := "Failed to load patients"
  const SaveFallback: string := "Failed to save patient"
  const DeleteFallback: string := "Failed to delete patient"

  /** The remote calls the page issues, in the order it issues them. */
  datatype Call = ListPatients | CreatePatient(payload: PatientRequest) | DeletePatient(id: int)

  /** The page's state: the list record plus the two filter texts. */
  datatype Page = Page(list: LC.ListState<PatientResponse>, nameFilter: string, emailFilter: string)

  /** A handler's effect: the state it leaves and the calls it made. */
  datatype Step = Step(page: Page, calls: seq<Call>)

  /** The state the page mounts with: no patients, idle, no error, empty filters. */
  function Initial(): Page {
    Page(LC.Empty(), "", "")
  }

  /** How many list fetches a run of calls contains. */
  function ListCount(calls: seq<Call>): nat {
    if calls == [] then 0 else (if calls[0] == ListPatients then 1 else 0) + ListCount(calls[1..])
  }

  // ---------------------------------------------------------------------------
  // Filtering

  /** "first last", the text the name filter searches. */
  function FullName(p: PatientResponse): string {
    p.firstName + " " + p.lastName
  }

  predicate MatchesName(p: PatientResponse, nameFilter: string) {
    nameFilter == "" || Contains(Lower(FullName(p)), Lower(nameFilter))
  }

  predicate MatchesEmail(p: PatientResponse, emailFilter: string) {
    emailFilter == "" || Contains(Lower(p.email), Lower(emailFilter))
  }

  function Matcher(nameFilter: string, emailFilter: string): PatientResponse -> bool {
    p => MatchesName(p, nameFilter) && MatchesEmail(p, emailFilter)
  }

  /** The patients shown: those whose lower-cased full name includes the lower-cased
      name filter and whose lower-cased e-mail includes the lower-cased e-mail
      filter, in fetched order, none added. */
  function FilterPatients(patients: seq<PatientResponse>, nameFilter: string, emailFilter: string)
    : (r: seq<PatientResponse>)
    ensures IsSubsequence(r, patients)
    ensures forall p :: p in r <==>
              && p in patients
              && Contains(Lower(FullName(p)), Lower(nameFilter))
              && Contains(Lower(p.email), Lower(emailFilter))
    ensures forall p :: p in patients ==>
              multiset(r)[p] == if MatchesName(p, nameFilter) && MatchesEmail(p, emailFilter)
                                then multiset(patients)[p] else 0
  {
    ContainsEmpty();
    FilterMultiplicity(patients, Matcher(nameFilter, emailFilter));
    Filter(patients, Matcher(nameFilter, emailFilter))
  }

  /** With both filters empty every fetched patient is shown, in order. */
  lemma NoFilterShowsAll(patients: seq<PatientResponse>)
    ensures FilterPatients(patients, "", "") == patients
  {
    FilterKeepsAll(patients, Matcher("", ""));
  }

  /** Filters that differ only in letter case show the same patients. */
  lemma FilterIgnoresCase(patients: seq<PatientResponse>, n1: string, e1: string, n2: string, e2: string)
    requires Lower(n1) == Lower(n2) && Lower(e1) == Lower(e2)
    ensures FilterPatients(patients, n1, e1) == FilterPatients(patients, n2, e2)
  {
    assert n1 == "" <==> n2 == "";
    assert e1 == "" <==> e2 == "";
    FilterCongruent(patients, Matcher(n1, e1), Matcher(n2, e2));
  }

  /** Filtering the shown list again with the same filters changes nothing. */
  lemma FilterPatientsIdempotent(patients: seq<PatientResponse>, nameFilter: string, emailFilter: string)
    ensures FilterPatients(FilterPatients(patients, nameFilter, emailFilter), nameFilter, emailFilter)
            == FilterPatients(patients, nameFilter, emailFilter)
  {
    FilterIdempotent(patients, Matcher(nameFilter, emailFilter));
  }

  /** The two filters combine by AND: name first, then e-mail, is both at once. */
  lemma FiltersCombineByAnd(patients: seq<PatientResponse>, nameFilter: string, emailFilter: string)
    ensures FilterPatients(FilterPatients(patients, nameFilter, ""), "", emailFilter)
            == FilterPatients(patients, nameFilter, emailFilter)
  {
    var byName := Matcher(nameFilter, "");
    var byEmail := Matcher("", emailFilter);
    FilterAnd(patients, byName, byEmail);
    FilterCongruent(patients, And(byName, byEmail), Matcher(nameFilter, emailFilter));
  }

  /** What the page renders as rows: nothing while a load is in flight, otherwise
      the filtered list. */
  function Visible(p: Page): (r: seq<PatientResponse>)
    ensures p.list.loading ==> r == []
    ensures !p.list.loading ==> r == FilterPatients(p.list.items, p.nameFilter, p.emailFilter)
  {
    if p.list.loading then [] else FilterPatients(p.list.items, p.nameFilter, p.emailFilter)
  }

  // ---------------------------------------------------------------------------
  // Handlers

  /** `load`: one list fetch; the list becomes the fetched patients, or keeps its
      value while the banner shows the failure; the filters are untouched. */
  function Load(p: Page, fetched: Remote<seq<PatientResponse>>): (r: Step)
    ensures r.calls == [ListPatients]
    ensures r.page.nameFilter == p.nameFilter && r.page.emailFilter == p.emailFilter
    ensures LC.Settled(r.page.list)
    ensures fetched.Ok? ==> r.page.list.items == fetched.value && r.page.list.error.None?
    ensures fetched.Err? ==>
              r.page.list.items == p.list.items && r.page.list.error == Some(LC.ErrorText(fetched.message, LoadFallback))
  {
    Step(p.(list := LC.Load(p.list, fetched, LoadFallback)), [ListPatients])
  }

  /** Mounting runs one load from the initial state: one list fetch, then either the
      fetched list or an empty list under the failure's banner, with empty filters. */
  function Mount(fetched: Remote<seq<PatientResponse>>): (r: Step)
    ensures r.calls == [ListPatients]
    ensures LC.Settled(r.page.list)
    ensures fetched.Ok? ==> r.page.list.items == fetched.value && r.page.list.error.None?
    ensures fetched.Err? ==>
              r.page.list.items == [] && r.page.list.error == Some(LC.ErrorText(fetched.message, LoadFallback))
  {
    Load(Initial(), fetched)
  }

  /** `handleSubmit`: create, and reload only when the create succeeded; a failed
      create sets the banner and leaves the list and spinner alone. */
  function HandleSubmit(p: Page, data: PatientRequest, created: Remote<PatientResponse>,
                        reloaded: Remote<seq<PatientResponse>>): (r: Step)
    ensures r.calls == if created.Ok? then [CreatePatient(data), ListPatients] else [CreatePatient(data)]
    ensures r.page.nameFilter == p.nameFilter && r.page.emailFilter == p.emailFilter
    ensures created.Ok? ==> r.page == Load(p, reloaded).page
    ensures created.Err? ==>
              && r.page.list.items == p.list.items
              && r.page.list.loading == p.list.loading
              && r.page.list.error == Some(LC.ErrorText(created.message, SaveFallback))
    ensures LC.Settled(p.list) ==> LC.Settled(r.page.list)
  {
    var list := LC.Mutate(p.list, created, reloaded, LoadFallback, SaveFallback);
    Step(p.(list := list), [CreatePatient(data)] + if created.Ok? then [ListPatients] else [])
  }

  /** `handleDelete`: delete, and reload only when the delete succeeded. */
  function HandleDelete(p: Page, id: int, deleted: Remote<()>, reloaded: Remote<seq<PatientResponse>>)
    : (r: Step)
    ensures r.calls == if deleted.Ok? then [DeletePatient(id), ListPatients] else [DeletePatient(id)]
    ensures r.page.nameFilter == p.nameFilter && r.page.emailFilter == p.emailFilter
    ensures deleted.Ok? ==> r.page == Load(p, reloaded).page
    ensures deleted.Err? ==>
              && r.page.list.items == p.list.items
              && r.page.list.loading == p.list.loading
              && r.page.list.error == Some(LC.ErrorText(deleted.message, DeleteFallback))
    ensures LC.Settled(p.list) ==> LC.Settled(r.page.list)
  {
    var list := LC.Mutate(p.list, deleted, reloaded, LoadFallback, DeleteFallback);
    Step(p.(list := list), [DeletePatient(id)] + if deleted.Ok? then [ListPatients] else [])
  }

  /** The page and the draft after one click on "Create Patient". */
  datatype FormStep = FormStep(step: Step, draft: PatientRequest)

  /** Submitting the embedded form: the draft goes to `handleSubmit` unchanged, and
      since the page passes no `editing` record and `handleSubmit` never rejects, the
      draft is blanked even when the create failed. */
  function SubmitForm(p: Page, draft: PatientRequest, created: Remote<PatientResponse>,
                      reloaded: Remote<seq<PatientResponse>>): (r: FormStep)
    ensures |r.step.calls| > 0 && r.step.calls[0] == CreatePatient(draft)
    ensures r.draft == PatientForm.Blank()
    ensures created.Err? ==> r.step.page.list.items == p.list.items && r.step.page.list.error.Some?
  {
    var submission := PatientForm.Submit(draft, None, true);
    FormStep(HandleSubmit(p, submission.sent, created, reloaded), submission.next)
  }

  // ---------------------------------------------------------------------------
  // Scenarios

  /** Mount, then a successful create: two list fetches in all, and the create
      carried exactly the submitted request. */
  lemma CreateAfterMountFetchesTwice(first: Remote<seq<PatientResponse>>, data: PatientRequest,
                                     created: PatientResponse, second: Remote<seq<PatientResponse>>)
    ensures var m := Mount(first);
            var s := HandleSubmit(m.page, data, Ok(created), second);
            ListCount(m.calls + s.calls) == 2 && CreatePatient(data) in s.calls
  {
    var m := Mount(first);
    var s := HandleSubmit(m.page, data, Ok(created), second);
    assert m.calls + s.calls == [ListPatients, CreatePatient(data), ListPatients];
    assert ListCount([ListPatients]) == 1;
    assert ListCount([CreatePatient(data), ListPatients]) == 1 by {
      assert [CreatePatient(data), ListPatients][1..] == [ListPatients];
    }
    assert [ListPatients, CreatePatient(data), ListPatients][1..] == [CreatePatient(data), ListPatients];
  }

  /** A failed first load shows its message in the banner and no rows; without a
      usable message the banner shows the fixed fallback. */
  lemma FailedMountShowsError(message: Option<string>)
    ensures var p := Mount(Err(message)).page;
            Visible(p) == []
            && LC.Banner(p.list) == Some(if message.Some? && message.value != "" then message.value else LoadFallback)
  {
  }

  /** One completed handler run, with the remote outcomes it saw. */
  datatype Event =
    | Reload(fetched: Remote<seq<PatientResponse>>)
    | Submitted(data: PatientRequest, created: Remote<PatientResponse>, reloaded: Remote<seq<PatientResponse>>)
    | Deleted(id: int, deleted: Remote<()>, reloaded: Remote<seq<PatientResponse>>)

  function Apply(p: Page, e: Event): Page {
    match e
    case Reload(fetched) => Load(p, fetched).page
    case Submitted(data, created, reloaded) => HandleSubmit(p, data, created, reloaded).page
    case Deleted(id, deleted, reloaded) => HandleDelete(p, id, deleted, reloaded).page
  }

  /** The page after a sequence of handler runs, one after the other. */
  function Run(p: Page, events: seq<Event>): Page
    decreases |events|
  {
    if events == [] then p else Run(Apply(p, events[0]), events[1..])
  }

  /** From a settled page, any sequence of handler runs leaves no load in flight and
      no blank banner. */
  lemma {:induction false} RunStaysSettled(p: Page, events: seq<Event>)
    requires LC.Settled(p.list)
    ensures LC.Settled(Run(p, events).list)
    decreases |events|
  {
    if events != [] {
      RunStaysSettled(Apply(p, events[0]), events[1..]);
    }
  }

  /** In particular, every run that starts from the freshly mounted page stays settled. */
  lemma FromInitialStaysSettled(events: seq<Event>)
    ensures LC.Settled(Run(Initial(), events).list)
  {
    RunStaysSettled(Initial(), events);
  }

  /** The two sample patients of the page's test suite. */
  function John(): PatientResponse {
    PatientResponse(1, "John", "Doe", "john.doe@example.com", Some("123-456-7890"), Some("1990-01-01"))
  }

  function Jane(): PatientResponse {
    PatientResponse(2, "Jane", "Smith", "jane.smith@example.com", Some("098-765-4321"), Some("1985-05-15"))
  }

  /** John Doe's full name has no 'a' in either case, and "jane" has one. */
  lemma JohnFailsJane(p: PatientResponse, nameFilter: string)
    requires p.firstName == "John" && p.lastName == "Doe" && nameFilter == "Jane"
    ensures !MatchesName(p, nameFilter)
  {
    var name := FullName(p);
    assert name == "John Doe";
    LowerLacks(name, 'a');
    assert Lower(nameFilter)[1] == LowerChar('a');
    MissingCharRulesOut(Lower(name), Lower(nameFilter), 1);
  }

  /** Jane's full name starts with "Jane". */
  lemma JaneMatchesName()
    ensures MatchesName(Jane(), "Jane")
  {
  }

  /** Jane's e-mail has "smith" at offset 5. */
  lemma JaneMatchesEmail()
    ensures MatchesEmail(Jane(), "smith")
  {
    FoundAt(Jane().email, "smith", 5);
  }

  /** On those samples, "Jane" with "smith" keeps only Jane Smith. */
  lemma JaneSmithExample()
    ensures FilterPatients([John(), Jane()], "Jane", "smith") == [Jane()]
  {
    JohnFailsJane(John(), "Jane");
    JaneMatchesName();
    JaneMatchesEmail();
    var m := Matcher("Jane", "smith");
    FilterStep([Jane()], m);
    FilterStep([John(), Jane()], m);
  }
}
