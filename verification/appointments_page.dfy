/** The Appointments page controller: the fetched appointment list, its loading and
    error flags, the reason and status filters, and the handlers that call the service. */
module AppointmentsPage {
  import opened Wrappers
  import opened Types
  import opened Text
  import opened Filtering
  import LC = ListController
  import AppointmentForm

  const LoadFallback: string := "Failed to load appointments"
  const CreateFallback: string := "Failed to create appointment"
  const DeleteFallback: string := "Failed to delete appointment"
  const StatusFallback: string := "Failed to update status"

  /** The remote calls the page issues, in the order it issues them. */
  datatype Call =
    | ListAppointments
    | CreateAppointment(payload: AppointmentRequest)
    | DeleteAppointment(id: int)
    | UpdateStatus(id: int, status: AppointmentStatus)

  /** The page's state: the list record plus the reason text and the selected
      status ("" for All). */
  datatype Page = Page(list: LC.ListState<AppointmentResponse>, reasonFilter: string, statusFilter: string)

  /** A handler's effect: the state it leaves and the calls it made. */
  datatype Step = Step(page: Page, calls: seq<Call>)

  /** The state the page mounts with: no appointments, idle, no error, empty filters. */
  function Initial(): Page {
    Page(LC.Empty(), "", "")
  }

  /** How many list fetches a run of calls contains. */
  function ListCount(calls: seq<Call>): nat {
    if calls == [] then 0 else (if calls[0] == ListAppointments then 1 else 0) + ListCount(calls[1..])
  }

  /** The values the status selector offers: All, then each status by its wire name. */
  const StatusOptions: seq<string> := ["", "SCHEDULED", "COMPLETED", "CANCELLED", "NO_SHOW"]

  /** The selector offers All (the empty filter) first, then each status's name once,
      in declaration order. */
  lemma StatusOptionsAreStatuses()
    ensures |StatusOptions| == 5 && StatusOptions[0] == ""
    ensures forall i :: 1 <= i < 5 ==> StatusOptions[i] == StatusName(AllStatuses[i - 1])
    ensures forall i :: 1 <= i < |StatusOptions| ==> ParseStatus(StatusOptions[i]).Some?
    ensures forall s :: StatusName(s) in StatusOptions
  {
  }

  // ---------------------------------------------------------------------------
  // Filtering

  predicate MatchesReason(a: AppointmentResponse, reasonFilter: string) {
    reasonFilter == "" || Contains(Lower(a.reason), Lower(reasonFilter))
  }

  predicate MatchesStatus(a: AppointmentResponse, statusFilter: string) {
    statusFilter == "" || StatusName(a.status) == statusFilter
  }

  function Matcher(reasonFilter: string, statusFilter: string): AppointmentResponse -> bool {
    a => MatchesReason(a, reasonFilter) && MatchesStatus(a, statusFilter)
  }

  /** The appointments shown: those whose lower-cased reason includes the lower-cased
      reason filter and, unless the status filter is empty, whose status is spelled
      exactly as the filter; in fetched order, none added. */
  function FilterAppointments(appointments: seq<AppointmentResponse>, reasonFilter: string, statusFilter: string)
    : (r: seq<AppointmentResponse>)
    ensures IsSubsequence(r, appointments)
    ensures forall a :: a in r <==>
              && a in appointments
              && Contains(Lower(a.reason), Lower(reasonFilter))
              && (statusFilter == "" || StatusName(a.status) == statusFilter)
    ensures forall a :: a in appointments ==>
              multiset(r)[a] == if MatchesReason(a, reasonFilter) && MatchesStatus(a, statusFilter)
                                then multiset(appointments)[a] else 0
  {
    ContainsEmpty();
    FilterMultiplicity(appointments, Matcher(reasonFilter, statusFilter));
    Filter(appointments, Matcher(reasonFilter, statusFilter))
  }

  /** With both filters empty every fetched appointment is shown, in order. */
  lemma NoFilterShowsAll(appointments: seq<AppointmentResponse>)
    ensures FilterAppointments(appointments, "", "") == appointments
  {
    FilterKeepsAll(appointments, Matcher("", ""));
  }

  /** Reason filters that differ only in letter case show the same appointments. */
  lemma ReasonFilterIgnoresCase(appointments: seq<AppointmentResponse>, r1: string, r2: string, statusFilter: string)
    requires Lower(r1) == Lower(r2)
    ensures FilterAppointments(appointments, r1, statusFilter) == FilterAppointments(appointments, r2, statusFilter)
  {
    assert r1 == "" <==> r2 == "";
    FilterCongruent(appointments, Matcher(r1, statusFilter), Matcher(r2, statusFilter));
  }

  /** Filtering the shown list again with the same filters changes nothing. */
  lemma FilterAppointmentsIdempotent(appointments: seq<AppointmentResponse>, reasonFilter: string, statusFilter: string)
    ensures FilterAppointments(FilterAppointments(appointments, reasonFilter, statusFilter), reasonFilter, statusFilter)
            == FilterAppointments(appointments, reasonFilter, statusFilter)
  {
    FilterIdempotent(appointments, Matcher(reasonFilter, statusFilter));
  }

  /** The two filters combine by AND: the reason filter applied to what the status
      filter alone shows is both at once. So clearing the reason brings back every
      appointment the status filter admits, and typing one only takes rows away. */
  lemma FiltersCombineByAnd(appointments: seq<AppointmentResponse>, reasonFilter: string, statusFilter: string)
    ensures FilterAppointments(FilterAppointments(appointments, "", statusFilter), reasonFilter, "")
            == FilterAppointments(appointments, reasonFilter, statusFilter)
  {
    var byStatus := Matcher("", statusFilter);
    var byReason := Matcher(reasonFilter, "");
    FilterAnd(appointments, byStatus, byReason);
    FilterCongruent(appointments, And(byStatus, byReason), Matcher(reasonFilter, statusFilter));
  }

  /** Clearing the reason filter shows every fetched appointment the status filter
      admits, and what any reason filter shows is a part of that, in the same order. */
  lemma ClearingReasonRestores(appointments: seq<AppointmentResponse>, reasonFilter: string, statusFilter: string)
    ensures forall a :: a in FilterAppointments(appointments, "", statusFilter) <==>
              a in appointments && MatchesStatus(a, statusFilter)
    ensures IsSubsequence(FilterAppointments(appointments, reasonFilter, statusFilter),
                          FilterAppointments(appointments, "", statusFilter))
  {
    ContainsEmpty();
    FiltersCombineByAnd(appointments, reasonFilter, statusFilter);
  }

  /** Selecting a status shows exactly the appointments in that status. */
  lemma StatusFilterSelectsStatus(appointments: seq<AppointmentResponse>, s: AppointmentStatus)
    ensures forall a :: a in FilterAppointments(appointments, "", StatusName(s)) <==> a in appointments && a.status == s
  {
  }

  /** The status comparison is exact: a non-empty filter that spells no status (for
      instance "completed") shows nothing at all. */
  lemma UnknownStatusShowsNothing(appointments: seq<AppointmentResponse>, reasonFilter: string, statusFilter: string)
    requires statusFilter != "" && ParseStatus(statusFilter).None?
    ensures FilterAppointments(appointments, reasonFilter, statusFilter) == []
  {
  }

  /** What the page renders as rows: nothing while a load is in flight, otherwise
      the filtered list. */
  function Visible(p: Page): (r: seq<AppointmentResponse>)
    ensures p.list.loading ==> r == []
    ensures !p.list.loading ==> r == FilterAppointments(p.list.items, p.reasonFilter, p.statusFilter)
  {
    if p.list.loading then [] else FilterAppointments(p.list.items, p.reasonFilter, p.statusFilter)
  }

  // ---------------------------------------------------------------------------
  // Handlers

  /** `load`: one list fetch; the list becomes the fetched appointments, or keeps its
      value while the banner shows the failure; the filters are untouched. */
  function Load(p: Page, fetched: Remote<seq<AppointmentResponse>>): (r: Step)
    ensures r.calls == [ListAppointments]
    ensures r.page.reasonFilter == p.reasonFilter && r.page.statusFilter == p.statusFilter
    ensures LC.Settled(r.page.list)
    ensures fetched.Ok? ==> r.page.list.items == fetched.value && r.page.list.error.None?
    ensures fetched.Err? ==>
              r.page.list.items == p.list.items && r.page.list.error == Some(LC.ErrorText(fetched.message, LoadFallback))
  {
    Step(p.(list := LC.Load(p.list, fetched, LoadFallback)), [ListAppointments])
  }

  /** Mounting runs one load from the initial state: one list fetch, then either the
      fetched list or an empty list under the failure's banner, with empty filters. */
  function Mount(fetched: Remote<seq<AppointmentResponse>>): (r: Step)
    ensures r.calls == [ListAppointments]
    ensures LC.Settled(r.page.list)
    ensures fetched.Ok? ==> r.page.list.items == fetched.value && r.page.list.error.None?
    ensures fetched.Err? ==>
              r.page.list.items == [] && r.page.list.error == Some(LC.ErrorText(fetched.message, LoadFallback))
  {
    Load(Initial(), fetched)
  }

  /** `handleSubmit`: create, and reload only when the create succeeded; a failed
      create sets the banner and leaves the list and spinner alone. */
  function HandleSubmit(p: Page, data: AppointmentRequest, created: Remote<AppointmentResponse>,
                        reloaded: Remote<seq<AppointmentResponse>>): (r: Step)
    ensures r.calls == if created.Ok? then [CreateAppointment(data), ListAppointments] else [CreateAppointment(data)]
    ensures r.page.reasonFilter == p.reasonFilter && r.page.statusFilter == p.statusFilter
    ensures created.Ok? ==> r.page == Load(p, reloaded).page
    ensures created.Err? ==>
              && r.page.list.items == p.list.items
              && r.page.list.loading == p.list.loading
              && r.page.list.error == Some(LC.ErrorText(created.message, CreateFallback))
    ensures LC.Settled(p.list) ==> LC.Settled(r.page.list)
  {
    var list := LC.Mutate(p.list, created, reloaded, LoadFallback, CreateFallback);
    Step(p.(list := list), [CreateAppointment(data)] + if created.Ok? then [ListAppointments] else [])
  }

  /** `handleDelete`: delete, and reload only when the delete succeeded. */
  function HandleDelete(p: Page, id: int, deleted: Remote<()>, reloaded: Remote<seq<AppointmentResponse>>)
    : (r: Step)
    ensures r.calls == if deleted.Ok? then [DeleteAppointment(id), ListAppointments] else [DeleteAppointment(id)]
    ensures r.page.reasonFilter == p.reasonFilter && r.page.statusFilter == p.statusFilter
    ensures deleted.Ok? ==> r.page == Load(p, reloaded).page
    ensures deleted.Err? ==>
              && r.page.list.items == p.list.items
              && r.page.list.loading == p.list.loading
              && r.page.list.error == Some(LC.ErrorText(deleted.message, DeleteFallback))
    ensures LC.Settled(p.list) ==> LC.Settled(r.page.list)
  {
    var list := LC.Mutate(p.list, deleted, reloaded, LoadFallback, DeleteFallback);
    Step(p.(list := list), [DeleteAppointment(id)] + if deleted.Ok? then [ListAppointments] else [])
  }

  /** `handleStatusChange`: one status update carrying exactly this id and status,
      and a reload only when the update succeeded. */
  function HandleStatusChange(p: Page, id: int, status: AppointmentStatus, updated: Remote<AppointmentResponse>,
                              reloaded: Remote<seq<AppointmentResponse>>): (r: Step)
    ensures r.calls == if updated.Ok? then [UpdateStatus(id, status), ListAppointments] else [UpdateStatus(id, status)]
    ensures r.page.reasonFilter == p.reasonFilter && r.page.statusFilter == p.statusFilter
    ensures updated.Ok? ==> r.page == Load(p, reloaded).page
    ensures updated.Err? ==>
              && r.page.list.items == p.list.items
              && r.page.list.loading == p.list.loading
              && r.page.list.error == Some(LC.ErrorText(updated.message, StatusFallback))
    ensures LC.Settled(p.list) ==> LC.Settled(r.page.list)
  {
    var list := LC.Mutate(p.list, updated, reloaded, LoadFallback, StatusFallback);
    Step(p.(list := list), [UpdateStatus(id, status)] + if updated.Ok? then [ListAppointments] else [])
  }

  /** The page and the draft after one click on "Create Appointment". */
  datatype FormStep = FormStep(step: Step, draft: AppointmentRequest)

  /** Submitting the embedded form: the draft goes to `handleSubmit` unchanged, and
      since `handleSubmit` never rejects, the form returns to its initial draft
      (patient 0, as the page passes no default) even when the create failed. */
  function SubmitForm(p: Page, draft: AppointmentRequest, created: Remote<AppointmentResponse>,
                      reloaded: Remote<seq<AppointmentResponse>>): (r: FormStep)
    ensures |r.step.calls| > 0 && r.step.calls[0] == CreateAppointment(draft)
    ensures r.draft == AppointmentRequest(0, "", "")
    ensures created.Err? ==> r.step.page.list.items == p.list.items && r.step.page.list.error.Some?
  {
    var submission := AppointmentForm.Submit(draft, None, true);
    FormStep(HandleSubmit(p, submission.sent, created, reloaded), submission.next)
  }

  // ---------------------------------------------------------------------------
  // Scenarios

  /** Mount, then a successful create: two list fetches in all. */
  lemma CreateAfterMountFetchesTwice(first: Remote<seq<AppointmentResponse>>, data: AppointmentRequest,
                                     created: AppointmentResponse, second: Remote<seq<AppointmentResponse>>)
    ensures var m := Mount(first);
            var s := HandleSubmit(m.page, data, Ok(created), second);
            ListCount(m.calls + s.calls) == 2
  {
    var m := Mount(first);
    var s := HandleSubmit(m.page, data, Ok(created), second);
    assert m.calls + s.calls == [ListAppointments, CreateAppointment(data), ListAppointments];
    assert ListCount([ListAppointments]) == 1;
    assert ListCount([CreateAppointment(data), ListAppointments]) == 1 by {
      assert [CreateAppointment(data), ListAppointments][1..] == [ListAppointments];
    }
    assert [ListAppointments, CreateAppointment(data), ListAppointments][1..]
        == [CreateAppointment(data), ListAppointments];
  }

  /** A failed first load shows its message in the banner and no rows; without a
      usable message the banner shows the fixed fallback. */
  lemma FailedMountShowsError(message: Option<string>)
    ensures var p := Mount(Err(message)).page;
            Visible(p) == []
            && LC.Banner(p.list) == Some(if message.Some? && message.value != "" then message.value else LoadFallback)
  {
  }

  /** The three sample appointments of the page's test suite. */
  function Checkup(): AppointmentResponse {
    AppointmentResponse(1, 1, "2025-11-25T10:00:00", "Annual checkup", Scheduled)
  }

  function FollowUp(): AppointmentResponse {
    AppointmentResponse(2, 2, "2025-11-26T14:30:00", "Follow-up visit", Completed)
  }

  function Cleaning(): AppointmentResponse {
    AppointmentResponse(3, 1, "2025-11-27T09:00:00", "Dental cleaning", Cancelled)
  }

  /** "Follow-up visit" includes "visit" (offset 10) in any case. */
  lemma FollowUpMatchesVisit()
    ensures MatchesReason(FollowUp(), "visit")
  {
    FoundAt(FollowUp().reason, "visit", 10);
  }

  /** Only the follow-up is COMPLETED. */
  lemma OnlyFollowUpCompleted()
    ensures !MatchesStatus(Checkup(), "COMPLETED") && !MatchesStatus(Cleaning(), "COMPLETED")
    ensures MatchesStatus(FollowUp(), "COMPLETED")
  {
  }

  /** On those samples, "visit" with COMPLETED keeps only the follow-up visit. */
  lemma VisitCompletedExample()
    ensures FilterAppointments([Checkup(), FollowUp(), Cleaning()], "visit", "COMPLETED") == [FollowUp()]
  {
    FollowUpMatchesVisit();
    OnlyFollowUpCompleted();
    var m := Matcher("visit", "COMPLETED");
    FilterStep([Cleaning()], m);
    FilterStep([FollowUp(), Cleaning()], m);
    FilterStep([Checkup(), FollowUp(), Cleaning()], m);
  }
}
