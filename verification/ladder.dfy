/**
 * vq/ladder.go: the ladder records returned by the competition's data API and
 * `GetLadderResponseBody.ToString`, which renders them as a Discord message.
 */
module Ladder {
  /**
   * The fields of one ladder row that the core reads. The source has about
   * ninety more string fields (set counts, ratios, duty rosters, ...); they
   * are kept together in `rest`, keyed by their JSON names, so that the model
   * can say that they are ignored.
   */
  datatype LadderFields = LadderFields(
    teamNameLookup: string,
    rank: string,
    competitionPoints: string,
    teamName: string,
    nextMatchDetail: string,
    rest: map<string, string>)

  datatype LadderRecord = LadderRecord(id: string, fields: LadderFields)

  datatype GetLadderResponseBody = GetLadderResponseBody(records: seq<LadderRecord>, offset: string)

  /** The opening line, built from `fmt.Sprintf("Ladder: %s\n\n", ...)`. */
  const Header: string := "Ladder: https://vqmetro23s3.softr.app/ladder-m1 ```\n\n"

  /** The closing code fence. */
  const Fence: string := "```"

  /** `"%s. %s\n"` of rank and display name. */
  function RankLine(f: LadderFields): string {
    f.rank + ". " + f.teamName + "\n"
  }

  /** `"\tpoints: %s\n"` of the competition points. */
  function PointsLine(f: LadderFields): string {
    "\tpoints: " + f.competitionPoints + "\n"
  }

  /** `"\tnext game: %s\n"` of the next match. */
  function NextGameLine(f: LadderFields): string {
    "\tnext game: " + f.nextMatchDetail + "\n"
  }

  /** The four lines one record contributes, the last one empty. */
  function Block(f: LadderFields): string
  {
    RankLine(f) + PointsLine(f) + NextGameLine(f) + "\n"
  }

  /** What one record contributes, written out as one string. */
  lemma BlockText(f: LadderFields)
    ensures Block(f) == f.rank + ". " + f.teamName + "\n\tpoints: " + f.competitionPoints
                        + "\n\tnext game: " + f.nextMatchDetail + "\n\n"
  {
  }

  /** The blocks of `records`, in order. */
  function Blocks(records: seq<LadderRecord>): string
    decreases |records|
  {
    if records == [] then "" else Block(records[0].fields) + Blocks(records[1..])
  }

  /** The message for a ladder: header, one block per record, closing fence. */
  function LadderText(records: seq<LadderRecord>): string
  {
    Header + Blocks(records) + Fence
  }

  /** Every message opens with the header and closes with the fence. */
  lemma HeaderAndFence(records: seq<LadderRecord>)
    ensures var text := LadderText(records);
            |text| >= |Header| + |Fence| &&
            text[..|Header|] == Header &&
            text[|text| - |Fence|..] == Fence
  {
    var text := LadderText(records);
    assert text[..|Header|] == Header;
    assert text[|text| - |Fence|..] == Fence;
  }

  lemma {:induction false} BlocksAppend(a: seq<LadderRecord>, b: seq<LadderRecord>)
    ensures Blocks(a + b) == Blocks(a) + Blocks(b)
    decreases |a|
  {
    if a == [] {
      assert a + b == b;
    } else {
      assert (a + b)[0] == a[0];
      assert (a + b)[1..] == a[1..] + b;
      BlocksAppend(a[1..], b);
    }
  }

  /** The blocks of the first i + 1 records are those of the first i followed
      by the block of record i. */
  lemma BlocksSnoc(records: seq<LadderRecord>, i: nat)
    requires i < |records|
    ensures Blocks(records[..i + 1]) == Blocks(records[..i]) + Block(records[i].fields)
  {
    assert records[..i + 1] == records[..i] + [records[i]];
    BlocksAppend(records[..i], [records[i]]);
    assert Blocks([records[i]]) == Block(records[i].fields) by {
      assert [records[i]][1..] == [];
    }
  }

  /** The block of record k sits right after the blocks of the records
      before it and right before those of the records after it, so blocks
      appear in input order. */
  lemma BlocksInOrder(records: seq<LadderRecord>, k: nat)
    requires k < |records|
    ensures Blocks(records) == Blocks(records[..k]) + Block(records[k].fields) + Blocks(records[k + 1..])
  {
    assert records == records[..k + 1] + records[k + 1..];
    BlocksAppend(records[..k + 1], records[k + 1..]);
    BlocksSnoc(records, k);
  }

  /** An empty ladder is the header followed directly by the closing fence. */
  lemma EmptyLadder()
    ensures LadderText([]) == "Ladder: https://vqmetro23s3.softr.app/ladder-m1 ```\n\n```"
  {
  }

  /** Two records render the same whenever rank, display name, points and
      next-match detail agree: the lookup key, the id and every other field
      are not shown. */
  predicate SameDisplay(a: LadderRecord, b: LadderRecord)
  {
    && a.fields.rank == b.fields.rank
    && a.fields.teamName == b.fields.teamName
    && a.fields.competitionPoints == b.fields.competitionPoints
    && a.fields.nextMatchDetail == b.fields.nextMatchDetail
  }

  lemma {:induction false} OnlyDisplayedFieldsMatter(a: seq<LadderRecord>, b: seq<LadderRecord>)
    requires |a| == |b|
    requires forall k :: 0 <= k < |a| ==> SameDisplay(a[k], b[k])
    ensures LadderText(a) == LadderText(b)
  {
    BlocksAgree(a, b);
  }

  lemma {:induction false} BlocksAgree(a: seq<LadderRecord>, b: seq<LadderRecord>)
    requires |a| == |b|
    requires forall k :: 0 <= k < |a| ==> SameDisplay(a[k], b[k])
    ensures Blocks(a) == Blocks(b)
    decreases |a|
  {
    if a != [] {
      assert SameDisplay(a[0], b[0]);
      BlocksAgree(a[1..], b[1..]);
    }
  }

  /** Appending a block's lines one by one appends the block. */
  lemma AppendLines(header: string, done: string, rankLine: string, pointsLine: string, nextLine: string)
    ensures header + done + rankLine + pointsLine + nextLine + "\n"
         == header + (done + (rankLine + pointsLine + nextLine + "\n"))
  {
  }

  /** `ToString`: the message built by appending to a string builder in a
      loop over the records. */
  method ToString(ladder: GetLadderResponseBody) returns (s: string)
    ensures s == LadderText(ladder.records)
  {
    var records := ladder.records;
    var sb := Header;
    for i := 0 to |records|
      invariant sb == Header + Blocks(records[..i])
    {
      var fields := records[i].fields;
      BlocksSnoc(records, i);
      AppendLines(Header, Blocks(records[..i]), RankLine(fields), PointsLine(fields), NextGameLine(fields));
      sb := sb + RankLine(fields);
      sb := sb + PointsLine(fields);
      sb := sb + NextGameLine(fields);
      sb := sb + "\n";
    }
    assert records[..|records|] == records;
    sb := sb + Fence;
    return sb;
  }
}
