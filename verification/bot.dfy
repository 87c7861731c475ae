/**
 * bot/bot.go: the draft `monitorPage` over the package variable `lastData`,
 * and `MonitorPageHandler`, which on every tick sends the answered status to
 * every guild unless the status is empty.
 */
module BotDraft {
  import opened Fetch
  import opened Draft
  import opened Notify

  /** The package-level variables of bot.go. */
  class Globals {
    var lastData: string

    /** Go's zero value: nothing has been seen. */
    constructor ()
      ensures lastData == ""
    {
      lastData := "";
    }

    /** `monitorPage`: the draft check, answering a status string. */
    method MonitorPage(f: FetchResult) returns (status: string)
      modifies this
      ensures DraftResult(status, lastData) == DraftStep(old(lastData), f)
    {
      if f.TransportErr? {
        return FailedRequest;
      }
      if f.ReadErr? {
        return FailedRead;
      }
      var body := f.body;
      if lastData == "" {
        lastData := body;
      }
      if lastData != body {
        lastData := body;
        return DataChanged;
      } else {
        return Unchanged;
      }
    }
  }

  /** The body of one tick of `MonitorPageHandler` once `monitorPage` has
      answered: an empty status is skipped, a `UserGuilds` error skips the
      tick, otherwise the status goes to every guild whose channel resolves. */
  method HandlerTick(status: string, guilds: GuildList) returns (sent: seq<Message>)
    ensures status == "" || guilds.GuildsErr? ==> sent == []
    ensures status != "" && guilds.Guilds? ==> sent == Deliveries(guilds.guilds, status)
  {
    if status == "" {
      return [];
    }
    if guilds.GuildsErr? {
      return [];
    }
    var skipped;
    sent, skipped := SendToGuilds(guilds.guilds, status);
  }

  /** One whole tick: `monitorPage`, then the delivery of its status. */
  method HandlerTickOnce(g: Globals, f: FetchResult, guilds: GuildList) returns (status: string, sent: seq<Message>)
    modifies g
    ensures DraftResult(status, g.lastData) == DraftStep(old(g.lastData), f)
    ensures sent == TickSends(status, guilds)
  {
    status := g.MonitorPage(f);
    sent := HandlerTick(status, guilds);
  }

  /**
   * `MonitorPageHandler` over a finite run of ticks: on tick k the HTTP
   * client produced `fetches[k]` and `UserGuilds` produced `guildLists[k]`.
   * Because `monitorPage` never answers the empty string, the skip never
   * fires: every tick whose `UserGuilds` call succeeds sends its status,
   * "unchanged" and the error strings included, and a failing tick does not
   * stop the loop.
   */
  method MonitorPageHandler(g: Globals, fetches: seq<FetchResult>, guildLists: seq<GuildList>)
    returns (log: seq<seq<Message>>)
    requires |fetches| == |guildLists|
    modifies g
    ensures |log| == |fetches|
    ensures forall k :: 0 <= k < |log| ==>
      log[k] == TickSends(DraftStatuses(old(g.lastData), fetches)[k], guildLists[k])
    ensures g.lastData == DraftFinal(old(g.lastData), fetches)
  {
    ghost var start := g.lastData;
    ghost var statuses: seq<string> := [];
    log := [];
    for i := 0 to |fetches|
      invariant |log| == i
      invariant statuses == DraftStatuses(start, fetches[..i])
      invariant g.lastData == DraftFinal(start, fetches[..i])
      invariant forall k :: 0 <= k < i ==> log[k] == TickSends(statuses[k], guildLists[k])
    {
      assert fetches[..i + 1] == fetches[..i] + [fetches[i]];
      DraftRunAppend(start, fetches[..i], fetches[i]);
      var status, sent := HandlerTickOnce(g, fetches[i], guildLists[i]);
      statuses := statuses + [status];
      log := log + [sent];
    }
    assert fetches[..|fetches|] == fetches;
  }
}
