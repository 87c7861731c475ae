/**
 * vq/change-detector.go: `DetectLadderChanges` compares two ladders. Lengths
 * that differ are a change; otherwise each old record is looked up by its
 * `TeamNameLookup` in the new ladder, and only the FIRST new record with that
 * key is compared, on `Rank` and `CompetitionPoints` alone. A team that
 * cannot be found is a change.
 */
module ChangeDetector {
  import opened Wrappers
  import opened Ladder

  function Key(r: LadderRecord): string {
    r.fields.teamNameLookup
  }

  /** The index of the first record of `news` whose key is `key`, if any. */
  function FirstMatch(key: string, news: seq<LadderRecord>): (r: Option<nat>)
    ensures r.Some? ==> r.value < |news| && Key(news[r.value]) == key
    ensures r.Some? ==> forall k :: 0 <= k < r.value ==> Key(news[k]) != key
    ensures r.None? ==> forall k :: 0 <= k < |news| ==> Key(news[k]) != key
    decreases |news|
  {
    if news == [] then None
    else if Key(news[0]) == key then Some(0)
    else match FirstMatch(key, news[1..])
      case None => None
      case Some(j) => Some(j + 1)
  }

  /** The two fields the detector compares. */
  predicate SameStanding(a: LadderFields, b: LadderFields) {
    a.rank == b.rank && a.competitionPoints == b.competitionPoints
  }

  /** Whether old record `o` counts as changed against the new ladder: its
      team is missing, or the first record of that team differs in rank or
      points. */
  predicate RecordChanged(o: LadderRecord, news: seq<LadderRecord>)
  {
    match FirstMatch(Key(o), news)
    case None => true
    case Some(j) => !SameStanding(o.fields, news[j].fields)
  }

  /** The functional definition of what `DetectLadderChanges` answers. */
  predicate LadderChanged(olds: seq<LadderRecord>, news: seq<LadderRecord>)
  {
    |olds| != |news| || exists i :: 0 <= i < |olds| && RecordChanged(olds[i], news)
  }

  /**
   * `DetectLadderChanges`: the nested search with its early exits. It answers
   * exactly `LadderChanged`; in particular ladders of different lengths are
   * always a change.
   */
  method DetectLadderChanges(oldLadder: GetLadderResponseBody, newLadder: GetLadderResponseBody)
    returns (changed: bool)
    ensures changed == LadderChanged(oldLadder.records, newLadder.records)
    ensures |oldLadder.records| != |newLadder.records| ==> changed
  {
    var olds, news := oldLadder.records, newLadder.records;
    if |olds| != |news| {
      return true;
    }
    for i := 0 to |olds|
      invariant forall k :: 0 <= k < i ==> !RecordChanged(olds[k], news)
    {
      var recordFound := false;
      var oldRecord := olds[i];
      for j := 0 to |news|
        invariant !recordFound
        invariant forall k :: 0 <= k < j ==> Key(news[k]) != Key(oldRecord)
      {
        var newRecord := news[j];
        if Key(oldRecord) != Key(newRecord) {
          continue;
        }
        recordFound := true;
        assert FirstMatch(Key(oldRecord), news) == Some(j);
        if oldRecord.fields.rank != newRecord.fields.rank {
          assert RecordChanged(olds[i], news);
          return true;
        }
        if oldRecord.fields.competitionPoints != newRecord.fields.competitionPoints {
          assert RecordChanged(olds[i], news);
          return true;
        }
        break;
      }
      if !recordFound {
        assert RecordChanged(olds[i], news);
        return true;
      }
    }
    return false;
  }

  /** A team of the old ladder that no record of the new one carries is a
      change. */
  lemma MissingTeamIsChange(olds: seq<LadderRecord>, news: seq<LadderRecord>, i: nat)
    requires i < |olds|
    requires forall k :: 0 <= k < |news| ==> Key(news[k]) != Key(olds[i])
    ensures LadderChanged(olds, news)
  {
    assert RecordChanged(olds[i], news);
  }

  /** A team whose first record in the new ladder has another rank or other
      points is a change. */
  lemma StandingChangeIsChange(olds: seq<LadderRecord>, news: seq<LadderRecord>, i: nat, j: nat)
    requires i < |olds| && j < |news|
    requires Key(news[j]) == Key(olds[i])
    requires forall k :: 0 <= k < j ==> Key(news[k]) != Key(olds[i])
    requires !SameStanding(olds[i].fields, news[j].fields)
    ensures LadderChanged(olds, news)
  {
    assert FirstMatch(Key(olds[i]), news) == Some(j);
    assert RecordChanged(olds[i], news);
  }

  /** Some record of `news` carries the key, rank and points of `o`. */
  predicate FoundUnchanged(o: LadderRecord, news: seq<LadderRecord>)
  {
    exists j :: 0 <= j < |news| && Key(news[j]) == Key(o) && SameStanding(o.fields, news[j].fields)
  }

  /** "No change" means every old team was found in a ladder of the same
      length with the same rank and points. */
  lemma NoChangeMeansAllMatched(olds: seq<LadderRecord>, news: seq<LadderRecord>)
    requires !LadderChanged(olds, news)
    ensures |olds| == |news|
    ensures forall i :: 0 <= i < |olds| ==> FoundUnchanged(olds[i], news)
  {
    forall i | 0 <= i < |olds|
      ensures FoundUnchanged(olds[i], news)
    {
      assert !RecordChanged(olds[i], news);
      var j := FirstMatch(Key(olds[i]), news).value;
      assert Key(news[j]) == Key(olds[i]) && SameStanding(olds[i].fields, news[j].fields);
    }
  }

  /** Two ladders that agree on every key, rank and points, record by record. */
  predicate SameSignificant(a: seq<LadderRecord>, b: seq<LadderRecord>)
  {
    |a| == |b| &&
    forall k :: 0 <= k < |a| ==> Key(a[k]) == Key(b[k]) && SameStanding(a[k].fields, b[k].fields)
  }

  /** The first match depends on the keys alone. */
  lemma FirstMatchByKeys(key: string, a: seq<LadderRecord>, b: seq<LadderRecord>)
    requires |a| == |b| && forall k :: 0 <= k < |a| ==> Key(a[k]) == Key(b[k])
    ensures FirstMatch(key, a) == FirstMatch(key, b)
  {
    var ra, rb := FirstMatch(key, a), FirstMatch(key, b);
    if ra.Some? && rb.Some? {
      assert !(ra.value < rb.value) && !(rb.value < ra.value);
    }
  }

  /** Fields other than the key, the rank and the points never change the
      answer, in the old ladder or in the new one. */
  lemma OtherFieldsIgnored(olds: seq<LadderRecord>, olds': seq<LadderRecord>,
                           news: seq<LadderRecord>, news': seq<LadderRecord>)
    requires SameSignificant(olds, olds') && SameSignificant(news, news')
    ensures LadderChanged(olds, news) == LadderChanged(olds', news')
  {
    forall i | 0 <= i < |olds|
      ensures RecordChanged(olds[i], news) == RecordChanged(olds'[i], news')
    {
      FirstMatchByKeys(Key(olds[i]), news, news');
    }
    if LadderChanged(olds, news) && |olds| == |news| {
      var i :| 0 <= i < |olds| && RecordChanged(olds[i], news);
      assert RecordChanged(olds'[i], news');
    }
    if LadderChanged(olds', news') && |olds'| == |news'| {
      var i :| 0 <= i < |olds'| && RecordChanged(olds'[i], news');
      assert RecordChanged(olds[i], news);
    }
  }

  /** Only the first new record with a key is ever compared: a later record
      with the same key can be replaced by any record with that key (any
      rank, any points, anything else) without changing the answer. */
  lemma LaterDuplicateIgnored(olds: seq<LadderRecord>, news: seq<LadderRecord>, j: nat, k: nat, x: LadderRecord)
    requires j < k < |news| && Key(news[j]) == Key(news[k]) && Key(x) == Key(news[k])
    ensures LadderChanged(olds, news[k := x]) == LadderChanged(olds, news)
  {
    var news' := news[k := x];
    forall i | 0 <= i < |olds|
      ensures RecordChanged(olds[i], news') == RecordChanged(olds[i], news)
    {
      FirstMatchByKeys(Key(olds[i]), news, news');
      var m := FirstMatch(Key(olds[i]), news);
      if m.Some? {
        assert m.value != k;
      }
    }
    if LadderChanged(olds, news) && |olds| == |news| {
      var i :| 0 <= i < |olds| && RecordChanged(olds[i], news);
      assert RecordChanged(olds[i], news');
    }
    if LadderChanged(olds, news') && |olds| == |news'| {
      var i :| 0 <= i < |olds| && RecordChanged(olds[i], news');
      assert RecordChanged(olds[i], news);
    }
  }

  /** No two records of the ladder share a key. */
  predicate UniqueKeys(s: seq<LadderRecord>)
  {
    forall i, j :: 0 <= i < j < |s| ==> Key(s[i]) != Key(s[j])
  }

  /** With unique keys, the first match of a record's key is that record. */
  lemma UniqueMatch(s: seq<LadderRecord>, r: LadderRecord)
    requires UniqueKeys(s) && r in s
    ensures FirstMatch(Key(r), s).Some? && s[FirstMatch(Key(r), s).value] == r
  {
    var m :| 0 <= m < |s| && s[m] == r;
    var j := FirstMatch(Key(r), s).value;
    assert !(j < m) && !(m < j);
  }

  /** A ladder with unique team keys never differs from itself. */
  lemma SelfIsUnchanged(x: seq<LadderRecord>)
    requires UniqueKeys(x)
    ensures !LadderChanged(x, x)
  {
    forall i | 0 <= i < |x|
      ensures !RecordChanged(x[i], x)
    {
      UniqueMatch(x, x[i]);
    }
  }

  /** With duplicate keys a ladder can differ from itself: the second record
      of a team is compared with the first. */
  lemma DuplicateKeysSelfChange(a: LadderFields, b: LadderFields)
    requires a.teamNameLookup == b.teamNameLookup && a.rank != b.rank
    ensures LadderChanged([LadderRecord("1", a), LadderRecord("2", b)],
                          [LadderRecord("1", a), LadderRecord("2", b)])
  {
    var x := [LadderRecord("1", a), LadderRecord("2", b)];
    assert FirstMatch(Key(x[1]), x) == Some(0);
    assert RecordChanged(x[1], x);
  }

  /** When the new ladder's keys are unique, the order of its records does
      not matter: any rearrangement gives the same answer. */
  lemma OrderOfNewIgnored(olds: seq<LadderRecord>, news: seq<LadderRecord>, news': seq<LadderRecord>)
    requires UniqueKeys(news) && multiset(news) == multiset(news')
    ensures LadderChanged(olds, news) == LadderChanged(olds, news')
  {
    assert |news| == |multiset(news)| == |multiset(news')| == |news'|;
    forall i | 0 <= i < |olds|
      ensures RecordChanged(olds[i], news) == RecordChanged(olds[i], news')
    {
      var key := Key(olds[i]);
      var m' := FirstMatch(key, news');
      if m'.Some? {
        var r := news'[m'.value];
        assert r in multiset(news');
        UniqueMatch(news, r);
      } else {
        forall k | 0 <= k < |news|
          ensures Key(news[k]) != key
        {
          assert news[k] in multiset(news');
        }
      }
    }
    if LadderChanged(olds, news) && |olds| == |news| {
      var i :| 0 <= i < |olds| && RecordChanged(olds[i], news);
      assert RecordChanged(olds[i], news');
    }
    if LadderChanged(olds, news') && |olds| == |news'| {
      var i :| 0 <= i < |olds| && RecordChanged(olds[i], news');
      assert RecordChanged(olds[i], news);
    }
  }

  /** Swapping the ranks of two teams with different ranks, all else equal,
      is a change (when team keys are unique). */
  lemma RankSwapIsChange(olds: seq<LadderRecord>, i: nat, j: nat)
    requires i < |olds| && j < |olds| && UniqueKeys(olds)
    requires olds[i].fields.rank != olds[j].fields.rank
    ensures var news := olds[i := olds[i].(fields := olds[i].fields.(rank := olds[j].fields.rank))]
                            [j := olds[j].(fields := olds[j].fields.(rank := olds[i].fields.rank))];
            LadderChanged(olds, news)
  {
    var news := olds[i := olds[i].(fields := olds[i].fields.(rank := olds[j].fields.rank))]
                    [j := olds[j].(fields := olds[j].fields.(rank := olds[i].fields.rank))];
    assert forall k :: 0 <= k < |olds| ==> Key(news[k]) == Key(olds[k]);
    FirstMatchByKeys(Key(olds[i]), olds, news);
    UniqueMatch(olds, olds[i]);
    assert FirstMatch(Key(olds[i]), news) == Some(i);
    assert RecordChanged(olds[i], news);
  }

  /** A record with the given key, rank and points and nothing else set
      apart from the fields in `rest`. */
  function Team(id: string, key: string, rank: string, points: string, rest: map<string, string>): LadderRecord
  {
    LadderRecord(id, LadderFields(key, rank, points, "", "", rest))
  }

  /** Aces and APG swap ranks 1 and 2: a change. */
  lemma RankSwapScenario()
    ensures LadderChanged([Team("1", "Aces", "1", "", map[]), Team("2", "APG", "2", "", map[])],
                          [Team("1", "APG", "1", "", map[]), Team("2", "Aces", "2", "", map[])])
  {
    var olds := [Team("1", "Aces", "1", "", map[]), Team("2", "APG", "2", "", map[])];
    var news := [Team("1", "APG", "1", "", map[]), Team("2", "Aces", "2", "", map[])];
    StandingChangeIsChange(olds, news, 0, 1);
  }

  /** APG's points go from 9 to 13: a change. */
  lemma PointsRaiseScenario()
    ensures LadderChanged([Team("1", "Aces", "1", "10", map[]), Team("2", "APG", "2", "9", map[])],
                          [Team("1", "Aces", "1", "10", map[]), Team("2", "APG", "2", "13", map[])])
  {
    var olds := [Team("1", "Aces", "1", "10", map[]), Team("2", "APG", "2", "9", map[])];
    var news := [Team("1", "Aces", "1", "10", map[]), Team("2", "APG", "2", "13", map[])];
    StandingChangeIsChange(olds, news, 1, 1);
  }

  /** Only APG's `TotalSetsA` differs: no change. */
  lemma TotalSetsScenario()
    ensures !LadderChanged([Team("1", "Aces", "1", "", map[]), Team("2", "APG", "2", "", map["TotalSetsA" := "something"])],
                           [Team("1", "Aces", "1", "", map[]), Team("2", "APG", "2", "", map["TotalSetsA" := "something else"])])
  {
    var olds := [Team("1", "Aces", "1", "", map[]), Team("2", "APG", "2", "", map["TotalSetsA" := "something"])];
    var news := [Team("1", "Aces", "1", "", map[]), Team("2", "APG", "2", "", map["TotalSetsA" := "something else"])];
    assert UniqueKeys(olds);
    SelfIsUnchanged(olds);
    OtherFieldsIgnored(olds, olds, olds, news);
  }
}
