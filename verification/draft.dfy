/**
 * The decision tail of the two global-variable drafts, `monitorPage` in
 * bot/bot.go and `CheckPage` in main.go: the package variable `lastData` is
 * compared with the fetched body and the call answers with a status string.
 * Neither draft checks the HTTP status, and the seeding fetch falls through to
 * the comparison and reports "unchanged".
 */
module Draft {
  import opened Fetch
  import opened Snapshot

  const FailedRequest: string := "failed request"
  const FailedRead: string := "failed read"
  const DataChanged: string := "data changed"
  const Unchanged: string := "unchanged"

  /** The status a draft call answers and the `lastData` it leaves. */
  datatype DraftResult = DraftResult(status: string, lastData: string)

  /**
   * One draft call on `lastData` with fetch result `f`. The answer is always
   * one of the four status strings, so it is never empty; a failed fetch
   * leaves `lastData` alone, a readable response of any status replaces it,
   * and "data changed" is answered exactly when a non-empty `lastData`
   * differs from the body.
   */
  function DraftStep(lastData: string, f: FetchResult): (r: DraftResult)
    ensures r.status in {FailedRequest, FailedRead, DataChanged, Unchanged}
    ensures r.status != ""
    ensures f.TransportErr? ==> r == DraftResult(FailedRequest, lastData)
    ensures f.ReadErr? ==> r == DraftResult(FailedRead, lastData)
    ensures f.Ok? ==> r.lastData == f.body
    ensures f.Ok? ==> (r.status == DataChanged <==> lastData != "" && f.body != lastData)
    ensures f.Ok? ==> (r.status == Unchanged <==> lastData == "" || f.body == lastData)
  {
    match f
    case TransportErr => DraftResult(FailedRequest, lastData)
    case ReadErr(_) => DraftResult(FailedRead, lastData)
    case Ok(_, body) =>
      var seeded := if lastData == "" then body else lastData;
      if seeded != body then DraftResult(DataChanged, body)
      else DraftResult(Unchanged, seeded)
  }

  /** On a 2xx response the drafts agree with the canonical monitor: they
      answer "data changed" exactly when it reports a change, and they keep
      the same snapshot. */
  lemma DraftAgreesWithMonitor(lastData: string, f: FetchResult)
    requires f.Ok? && IsSuccessStatus(f.status)
    ensures var d := DraftStep(lastData, f);
            var c := Transition(lastData, Get(f));
            (d.status == DataChanged <==> c.changed) && d.lastData == c.snapshot
  {
  }

  /** On a non-2xx response they do not: the canonical monitor keeps its
      snapshot, the drafts store the error page as data. */
  lemma DraftStoresErrorPages(lastData: string, status: int, body: string)
    requires !IsSuccessStatus(status) && body != lastData
    ensures Transition(lastData, Get(Ok(status, body))).snapshot == lastData
    ensures DraftStep(lastData, Ok(status, body)).lastData == body
  {
  }

  /** The statuses answered by a sequence of draft calls, in order. */
  function DraftStatuses(lastData: string, fs: seq<FetchResult>): (statuses: seq<string>)
    ensures |statuses| == |fs|
    ensures forall k :: 0 <= k < |statuses| ==> statuses[k] != ""
    decreases |fs|
  {
    if fs == [] then []
    else
      var r := DraftStep(lastData, fs[0]);
      [r.status] + DraftStatuses(r.lastData, fs[1..])
  }

  /** `lastData` after a sequence of draft calls. */
  function DraftFinal(lastData: string, fs: seq<FetchResult>): string
    decreases |fs|
  {
    if fs == [] then lastData else DraftFinal(DraftStep(lastData, fs[0]).lastData, fs[1..])
  }

  /** One more call extends the statuses by that call's answer from the
      state the earlier calls left. */
  lemma {:induction false} DraftRunAppend(lastData: string, fs: seq<FetchResult>, f: FetchResult)
    ensures DraftStatuses(lastData, fs + [f])
         == DraftStatuses(lastData, fs) + [DraftStep(DraftFinal(lastData, fs), f).status]
    ensures DraftFinal(lastData, fs + [f]) == DraftStep(DraftFinal(lastData, fs), f).lastData
    decreases |fs|
  {
    if fs == [] {
      assert fs + [f] == [f];
    } else {
      assert (fs + [f])[0] == fs[0];
      assert (fs + [f])[1..] == fs[1..] + [f];
      DraftRunAppend(DraftStep(lastData, fs[0]).lastData, fs[1..], f);
    }
  }
}
