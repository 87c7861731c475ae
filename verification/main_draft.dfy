/**
 * main.go: the draft `CheckPage` over the package variable `lastData`, and
 * `CheckPageLoop`, whose skip of an empty status is commented out, so every
 * tick sends its status.
 */
module MainDraft {
  import opened Fetch
  import opened Draft
  import opened Notify

  /** The package-level variables of main.go that the core touches. */
  class Globals {
    var lastData: string

    /** Go's zero value: nothing has been seen. */
    constructor ()
      ensures lastData == ""
    {
      lastData := "";
    }

    /** `CheckPage`: the same draft check as bot.go's `monitorPage`. */
    method CheckPage(f: FetchResult) returns (status: string)
      modifies this
      ensures DraftResult(status, lastData) == DraftStep(old(lastData), f)
    {
      match f
      case TransportErr =>
        return FailedRequest;
      case ReadErr(_) =>
        return FailedRead;
      case Ok(_, body) =>
        if lastData == "" {
          lastData := body;
        }
        if lastData != body {
          lastData := body;
          return DataChanged;
        } else {
          return Unchanged;
        }
    }
  }

  /** The body of one tick of `CheckPageLoop` once the status is known: with
      no skip of the empty status, only a `UserGuilds` error stops the
      tick's deliveries. */
  method LoopTick(status: string, guilds: GuildList) returns (sent: seq<Message>)
    ensures guilds.GuildsErr? ==> sent == []
    ensures guilds.Guilds? ==> sent == Deliveries(guilds.guilds, status)
  {
    if guilds.GuildsErr? {
      return [];
    }
    var skipped;
    sent, skipped := SendToGuilds(guilds.guilds, status);
  }

  /** One whole tick: `CheckPage`, then the delivery of its status. */
  method LoopTickOnce(g: Globals, f: FetchResult, guilds: GuildList) returns (status: string, sent: seq<Message>)
    modifies g
    ensures DraftResult(status, g.lastData) == DraftStep(old(g.lastData), f)
    ensures sent == TickSends(status, guilds)
  {
    status := g.CheckPage(f);
    sent := LoopTick(status, guilds);
  }

  /**
   * `CheckPageLoop` over a finite run of ticks: on tick k the HTTP client
   * produced `fetches[k]` and `UserGuilds` produced `guildLists[k]`. Every
   * tick sends its status, "unchanged" and the error strings included, to
   * every resolvable guild, and a `UserGuilds` error skips only its tick.
   */
  method CheckPageLoop(g: Globals, fetches: seq<FetchResult>, guildLists: seq<GuildList>)
    returns (log: seq<seq<Message>>)
    requires |fetches| == |guildLists|
    modifies g
    ensures |log| == |fetches|
    ensures forall k :: 0 <= k < |log| ==>
      log[k] == TickSends(DraftStatuses(old(g.lastData), fetches)[k], guildLists[k])
    ensures g.lastData == DraftFinal(old(g.lastData), fetches)
  {
    ghost var start := g.lastData;
    ghost var statuses: seq<string> := [];
    log := [];
    for i := 0 to |fetches|
      invariant |log| == i
      invariant statuses == DraftStatuses(start, fetches[..i])
      invariant g.lastData == DraftFinal(start, fetches[..i])
      invariant forall k :: 0 <= k < i ==> log[k] == TickSends(statuses[k], guildLists[k])
    {
      assert fetches[..i + 1] == fetches[..i] + [fetches[i]];
      DraftRunAppend(start, fetches[..i], fetches[i]);
      var status, sent := LoopTickOnce(g, fetches[i], guildLists[i]);
      statuses := statuses + [status];
      log := log + [sent];
    }
    assert fetches[..|fetches|] == fetches;
  }

  /** An unchanged page is still announced: a tick that repeats the body
      already held sends "unchanged" to every resolvable guild. */
  lemma UnchangedIsStillSent(lastData: string, status: int, guilds: seq<Guild>)
    requires lastData != ""
    ensures TickSends(DraftStep(lastData, Ok(status, lastData)).status, Guilds(guilds))
         == Deliveries(guilds, Unchanged)
  {
  }
}
