/**
 * One HTTP GET of a monitored page, as the core sees it. The network is not
 * modelled: what `client.Get` / `http.Get` and `io.ReadAll` produced is an
 * input value.
 */
module Fetch {
  import opened Wrappers

  /** What the HTTP client produced for one request. The request either failed
      in transport, or a response with a status code arrived and its body was
      either read completely or failed to read. */
  datatype FetchResult =
    | Ok(status: int, body: string)
    | TransportErr
    | ReadErr(status: int)

  /** The three kinds of error a fetch can report. */
  datatype FetchError = Transport | BadStatus(code: int) | Read

  /** Go's `(string, error)` result: the body, and the error if there was one. */
  datatype Fetched = Fetched(body: string, err: Option<FetchError>)

  predicate IsSuccessStatus(status: int) {
    200 <= status <= 299
  }

  /**
   * The status-checking fetch, `DataSourceMonitor.Monitor` in monitor.go and
   * `Web.MonitorPage` in page.go: a transport error, a status outside
   * [200,299] or a body that cannot be read each give an error with an empty
   * body; the status is checked before the body is read.
   */
  function Get(f: FetchResult): (r: Fetched)
    ensures r.err.None? <==> f.Ok? && IsSuccessStatus(f.status)
    ensures r.err.None? ==> r.body == f.body
    ensures r.err.Some? ==> r.body == ""
    ensures f.TransportErr? ==> r.err == Some(Transport)
    ensures !f.TransportErr? && !IsSuccessStatus(f.status) ==> r.err == Some(BadStatus(f.status))
    ensures f.ReadErr? && IsSuccessStatus(f.status) ==> r.err == Some(Read)
  {
    match f
    case TransportErr => Fetched("", Some(Transport))
    case Ok(status, body) =>
      if status < 200 || status > 299 then Fetched("", Some(BadStatus(status)))
      else Fetched(body, None)
    case ReadErr(status) =>
      if status < 200 || status > 299 then Fetched("", Some(BadStatus(status)))
      else Fetched("", Some(Read))
  }

  /**
   * The package-level `MonitorPage` of page.go: no status check, so any
   * response whose body can be read is a success, whatever its status.
   */
  function GetUnchecked(f: FetchResult): (r: Fetched)
    ensures r.err.None? <==> f.Ok?
    ensures f.Ok? ==> r.body == f.body
    ensures r.err.Some? ==> r.body == ""
    ensures f.ReadErr? ==> r.err == Some(Read)
  {
    match f
    case TransportErr => Fetched("", Some(Transport))
    case Ok(_, body) => Fetched(body, None)
    case ReadErr(_) => Fetched("", Some(Read))
  }

  /** On a 2xx response the two fetches agree; they differ only in what a
      non-2xx response becomes. */
  lemma GetAgreesOnSuccessStatus(f: FetchResult)
    requires !f.TransportErr? && IsSuccessStatus(f.status)
    ensures Get(f) == GetUnchecked(f)
  {
  }
}
