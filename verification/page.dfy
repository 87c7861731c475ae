/**
 * `Web` of page.go: the older copy of the snapshot monitor. It starts with an
 * empty snapshot and reports only `(changed, err)`. Its mutex is commented out
 * in the source and the HTTP client is not modelled.
 */
module WebPage {
  import opened Wrappers
  import opened Fetch
  import opened Snapshot

  class Web {
    var prevResponse: string

    /** `NewWeb`: no body has been seen yet. */
    constructor NewWeb()
      ensures prevResponse == NeverFetched
    {
      prevResponse := "";
    }

    /** `CheckPageForChanges`: the same compare-and-update step as the
        canonical monitor, without returning the snapshot. */
    method CheckPageForChanges(f: FetchResult) returns (changed: bool, err: Option<FetchError>)
      modifies this
      ensures changed == Transition(old(prevResponse), Get(f)).changed
      ensures err == Transition(old(prevResponse), Get(f)).err
      ensures prevResponse == Transition(old(prevResponse), Get(f)).snapshot
    {
      var fetched := Get(f);
      if fetched.err.Some? {
        return false, fetched.err;
      }
      if prevResponse == "" {
        prevResponse := fetched.body;
        return false, None;
      }
      if prevResponse == fetched.body {
        return false, None;
      }
      prevResponse := fetched.body;
      return true, None;
    }
  }

  /** From a fresh `Web`, two successful fetches of a non-empty body `a` and
      then a different body `b` report no change, then a change. */
  method FreshWebSeesSecondBody(a: string, b: string, status1: int, status2: int)
    returns (first: bool, second: bool)
    requires a != "" && a != b
    requires IsSuccessStatus(status1) && IsSuccessStatus(status2)
    ensures !first && second
  {
    var w := new Web.NewWeb();
    var err;
    first, err := w.CheckPageForChanges(Ok(status1, a));
    second, err := w.CheckPageForChanges(Ok(status2, b));
  }
}
