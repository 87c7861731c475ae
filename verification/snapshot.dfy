/**
 * The one-field snapshot state machine behind `DataSourceMonitor.CheckForChanges`
 * (monitor.go) and `Web.CheckPageForChanges` (page.go): the last fetched body is
 * kept, every fetch result is compared with it, and the call reports whether
 * anything changed. The empty string doubles as "never fetched".
 */
module Snapshot {
  import opened Wrappers
  import opened Fetch

  /** The empty snapshot: nothing has been stored yet. */
  const NeverFetched: string := ""

  /** What one check reports: whether the body changed, the snapshot held
      after the call, and the fetch error, if any. */
  datatype Check = Check(changed: bool, snapshot: string, err: Option<FetchError>)

  /**
   * One compare-and-update step from snapshot `prev` on the fetch outcome
   * `fetched`. A failed fetch never touches the snapshot; a successful one
   * always leaves its body as the snapshot, and a change is reported only
   * against a non-empty snapshot.
   */
  function Transition(prev: string, fetched: Fetched): (r: Check)
    ensures fetched.err.Some? ==> !r.changed && r.snapshot == prev && r.err == fetched.err
    ensures fetched.err.None? ==> r.err.None? && r.snapshot == fetched.body
    ensures fetched.err.None? && prev == NeverFetched ==> !r.changed
    ensures fetched.err.None? && prev != NeverFetched ==> (r.changed <==> fetched.body != prev)
  {
    if fetched.err.Some? then Check(false, prev, fetched.err)
    else if prev == NeverFetched then Check(false, fetched.body, None)
    else if prev == fetched.body then Check(false, prev, None)
    else Check(true, fetched.body, None)
  }

  /** A successful fetch of `body`. */
  function Success(body: string): Fetched {
    Fetched(body, None)
  }

  /** Repeating the body just seen is never a change and leaves the
      snapshot as it was, whatever the state before the first call. */
  lemma RepeatedBodyIsNoChange(prev: string, body: string)
    ensures var first := Transition(prev, Success(body));
            var second := Transition(first.snapshot, Success(body));
            !second.changed && second.snapshot == first.snapshot
  {
  }

  /** From the never-fetched state, a non-empty body `a` followed by a
      different body `b` reports no change, then a change. */
  lemma BaselineThenChange(a: string, b: string)
    requires a != NeverFetched && a != b
    ensures var first := Transition(NeverFetched, Success(a));
            var second := Transition(first.snapshot, Success(b));
            !first.changed && second.changed && second.snapshot == b
  {
  }

  /** Fetching the empty body leaves the monitor in its baseline state, so the
      next body, whatever it is, is taken as a baseline and not as a change. */
  lemma EmptyBodyKeepsBaseline(body: string)
    ensures var first := Transition(NeverFetched, Success(""));
            var second := Transition(first.snapshot, Success(body));
            first.snapshot == NeverFetched && !first.changed && !second.changed
  {
  }

  /** The snapshot after a sequence of fetches, replayed in order. */
  function Replay(prev: string, fs: seq<Fetched>): string
    decreases |fs|
  {
    if fs == [] then prev else Replay(Transition(prev, fs[0]).snapshot, fs[1..])
  }

  /** Reference definition: the body of the last successful fetch in `fs`,
      or `prev` when none succeeded. */
  function LastSuccess(prev: string, fs: seq<Fetched>): string
    decreases |fs|
  {
    if fs == [] then prev
    else if fs[|fs| - 1].err.None? then fs[|fs| - 1].body
    else LastSuccess(prev, fs[..|fs| - 1])
  }

  lemma {:induction false} LastSuccessAppend(prev: string, a: seq<Fetched>, b: seq<Fetched>)
    ensures LastSuccess(prev, a + b) == LastSuccess(LastSuccess(prev, a), b)
    decreases |b|
  {
    if b == [] {
      assert a + b == a;
    } else {
      var n := |b| - 1;
      assert (a + b)[..|a + b| - 1] == a + b[..n];
      assert (a + b)[|a + b| - 1] == b[n];
      LastSuccessAppend(prev, a, b[..n]);
    }
  }

  /** Whatever happens in between, the snapshot always holds the body of the
      last successful fetch (or the initial data if no fetch succeeded):
      errors never disturb it and successes always replace it. */
  lemma {:induction false} ReplayHoldsLastSuccess(prev: string, fs: seq<Fetched>)
    ensures Replay(prev, fs) == LastSuccess(prev, fs)
    decreases |fs|
  {
    if fs != [] {
      var next := Transition(prev, fs[0]).snapshot;
      ReplayHoldsLastSuccess(next, fs[1..]);
      assert LastSuccess(prev, [fs[0]]) == next by {
        assert [fs[0]][..0] == [];
      }
      assert [fs[0]] + fs[1..] == fs;
      LastSuccessAppend(prev, [fs[0]], fs[1..]);
    }
  }
}
