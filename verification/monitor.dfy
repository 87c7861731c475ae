/**
 * `DataSourceMonitor` of monitor.go: an object holding the last fetched body
 * in `prevResponse`. The HTTP client and the mutex are not modelled; each
 * call gets the client's result as a parameter and runs sequentially.
 */
module SourceMonitor {
  import opened Wrappers
  import opened Fetch
  import opened Snapshot

  class DataSourceMonitor {
    var prevResponse: string

    /** `New`: the snapshot is seeded with the configured initial data. */
    constructor New(initData: string)
      ensures prevResponse == initData
    {
      prevResponse := initData;
    }

    /**
     * `CheckForChanges`: fetch (with the status check), then compare with and
     * update the snapshot. The returned string is always the snapshot held
     * after the call.
     */
    method CheckForChanges(f: FetchResult) returns (changed: bool, stored: string, err: Option<FetchError>)
      modifies this
      ensures Check(changed, stored, err) == Transition(old(prevResponse), Get(f))
      ensures stored == prevResponse
    {
      var fetched := Get(f);
      if fetched.err.Some? {
        return false, prevResponse, fetched.err;
      }
      if prevResponse == "" {
        prevResponse := fetched.body;
        return false, prevResponse, None;
      }
      if prevResponse == fetched.body {
        return false, prevResponse, None;
      }
      prevResponse := fetched.body;
      return true, prevResponse, None;
    }
  }

  /** A response outside [200,299] is an error with an empty body, and it
      leaves the monitor's snapshot where it was. */
  method BadStatusKeepsSnapshot(initData: string, status: int, body: string)
    returns (changed: bool, stored: string, err: Option<FetchError>)
    requires !IsSuccessStatus(status)
    ensures !changed && stored == initData && err == Some(BadStatus(status))
  {
    var m := new DataSourceMonitor.New(initData);
    changed, stored, err := m.CheckForChanges(Ok(status, body));
  }
}
