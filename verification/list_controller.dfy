/** The state a page controller keeps for its fetched list, and the two shapes of
    handler that change it: a load, and a remote mutation followed by a reload. */
module ListController {
  import opened Wrappers

  /** The list last fetched, whether a load is in flight, and the message shown in
      the error banner (None for `null`). */
  datatype ListState<T> = ListState(items: seq<T>, loading: bool, error: Option<string>)

  /** The state a page mounts with. */
  function Empty<T>(): ListState<T> {
    ListState([], false, None)
  }

  /** No load in flight, and no error that would be blank in the banner. */
  predicate Settled<T>(s: ListState<T>) {
    !s.loading && s.error != Some("")
  }

  /** `{error && <Alert>}`: the banner shows the error only when it is a non-empty
      message; `null` and `""` show nothing. */
  function Banner<T>(s: ListState<T>): (r: Option<string>)
    ensures r.None? <==> s.error.None? || s.error == Some("")
    ensures r.Some? ==> r == s.error && r.value != ""
    ensures Settled(s) ==> r == s.error
  {
    if s.error.Some? && s.error.value != "" then s.error else None
  }

  /** `e.message || fallback`: the failure's own message unless it is missing or empty. */
  function ErrorText(message: Option<string>, fallback: string): (text: string)
    ensures message.Some? && message.value != "" ==> text == message.value
    ensures message.None? || message.value == "" ==> text == fallback
    ensures fallback != "" ==> text != ""
  {
    if message.Some? && message.value != "" then message.value else fallback
  }

  /** The first half of a load: spinner on, banner cleared, list kept. */
  function StartLoad<T>(s: ListState<T>): (r: ListState<T>)
    ensures r.items == s.items && r.loading && r.error.None?
  {
    s.(loading := true, error := None)
  }

  /** The second half of a load, once the fetch settles: the data replaces the list,
      or the failure's message is recorded; the spinner goes off either way. */
  function FinishLoad<T>(s: ListState<T>, fetched: Remote<seq<T>>, fallback: string): ListState<T> {
    match fetched
    case Ok(data) => s.(items := data, loading := false)
    case Err(message) => s.(error := Some(ErrorText(message, fallback)), loading := false)
  }

  /** A whole load: the list becomes exactly the fetched data, or stays as it was
      with the error recorded; the spinner is off and the banner shows only this
      load's failure. */
  function Load<T>(s: ListState<T>, fetched: Remote<seq<T>>, fallback: string): (r: ListState<T>)
    ensures !r.loading
    ensures fetched.Ok? ==> r.items == fetched.value && r.error.None?
    ensures fetched.Err? ==> r.items == s.items && r.error == Some(ErrorText(fetched.message, fallback))
    ensures fallback != "" ==> Settled(r)
  {
    FinishLoad(StartLoad(s), fetched, fallback)
  }

  /** A handler whose remote call succeeded reloads; one whose call failed only sets
      the banner, leaving the list and the spinner as they were. */
  function Mutate<T, U>(s: ListState<T>, outcome: Remote<U>, reloaded: Remote<seq<T>>,
                        loadFallback: string, failFallback: string): (r: ListState<T>)
    ensures outcome.Ok? && reloaded.Ok? ==> r.items == reloaded.value && r.error.None? && !r.loading
    ensures outcome.Ok? && reloaded.Err? ==>
              r.items == s.items && r.error == Some(ErrorText(reloaded.message, loadFallback)) && !r.loading
    ensures outcome.Err? ==>
              r.items == s.items && r.loading == s.loading && r.error == Some(ErrorText(outcome.message, failFallback))
    ensures loadFallback != "" && failFallback != "" && Settled(s) ==> Settled(r)
  {
    match outcome
    case Ok(_) => Load(s, reloaded, loadFallback)
    case Err(message) => s.(error := Some(ErrorText(message, failFallback)))
  }
}
