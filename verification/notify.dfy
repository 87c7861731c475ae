/**
 * The per-guild delivery loop shared by `MonitorPageHandler` (bot/bot.go) and
 * `CheckPageLoop` (main.go): for each guild the bot belongs to, the updates
 * channel is resolved (found or created); a guild whose channel cannot be
 * resolved is skipped and the loop goes on with the next one. Channel
 * resolution and message transport are Discord calls; their outcomes are
 * inputs here.
 */
module Notify {
  import opened Wrappers

  /** A guild and the outcome of resolving its updates channel:
      the channel id, or None when `createChannelIfNotExists` failed. */
  datatype Guild = Guild(id: string, channel: Option<string>)

  /** The outcome of `UserGuilds`: an error, or the guilds. */
  datatype GuildList = GuildsErr | Guilds(guilds: seq<Guild>)

  /** One `ChannelMessageSend`. */
  datatype Message = Message(channelId: string, text: string)

  /** The messages sent to `guilds`, in guild order: one per guild whose
      channel resolved. */
  function Deliveries(guilds: seq<Guild>, text: string): seq<Message>
    decreases |guilds|
  {
    if guilds == [] then [] else Delivery(guilds[0], text) + Deliveries(guilds[1..], text)
  }

  /** The message sent to one guild: none if its channel did not resolve. */
  function Delivery(g: Guild, text: string): seq<Message>
  {
    match g.channel
    case None => []
    case Some(c) => [Message(c, text)]
  }

  /** The ids of the guilds skipped because their channel did not resolve. */
  function Skipped(guilds: seq<Guild>): seq<string>
    decreases |guilds|
  {
    if guilds == [] then [] else Skip(guilds[0]) + Skipped(guilds[1..])
  }

  /** The id of one guild if it is skipped. */
  function Skip(g: Guild): seq<string>
  {
    if g.channel.None? then [g.id] else []
  }

  lemma Assoc<T>(x: seq<T>, y: seq<T>, z: seq<T>)
    ensures x + (y + z) == (x + y) + z
  {
  }

  lemma {:induction false} DeliveriesAppend(a: seq<Guild>, b: seq<Guild>, text: string)
    ensures Deliveries(a + b, text) == Deliveries(a, text) + Deliveries(b, text)
    decreases |a|
  {
    if a == [] {
      assert a + b == b;
    } else {
      DeliveriesAppend(a[1..], b, text);
      var ab := a + b;
      assert ab[0] == a[0] && ab[1..] == a[1..] + b;
      assert Deliveries(ab, text) == Delivery(a[0], text) + Deliveries(a[1..] + b, text);
      Assoc(Delivery(a[0], text), Deliveries(a[1..], text), Deliveries(b, text));
    }
  }

  lemma {:induction false} SkippedAppend(a: seq<Guild>, b: seq<Guild>)
    ensures Skipped(a + b) == Skipped(a) + Skipped(b)
    decreases |a|
  {
    if a == [] {
      assert a + b == b;
    } else {
      SkippedAppend(a[1..], b);
      var ab := a + b;
      assert ab[0] == a[0] && ab[1..] == a[1..] + b;
      assert Skipped(ab) == Skip(a[0]) + Skipped(a[1..] + b);
      Assoc(Skip(a[0]), Skipped(a[1..]), Skipped(b));
    }
  }

  /** Handling guild i after guilds 0..i-1 extends both lists by guild i's
      share. */
  lemma Snoc(guilds: seq<Guild>, i: nat, text: string)
    requires i < |guilds|
    ensures Deliveries(guilds[..i + 1], text) == Deliveries(guilds[..i], text) + Delivery(guilds[i], text)
    ensures Skipped(guilds[..i + 1]) == Skipped(guilds[..i]) + Skip(guilds[i])
  {
    assert guilds[..i + 1] == guilds[..i] + [guilds[i]];
    DeliveriesAppend(guilds[..i], [guilds[i]], text);
    SkippedAppend(guilds[..i], [guilds[i]]);
    assert [guilds[i]][1..] == [];
  }

  /** Every guild is attempted: each one either receives a message or is
      skipped, never both and never neither. */
  lemma {:induction false} EveryGuildAttempted(guilds: seq<Guild>, text: string)
    ensures |Deliveries(guilds, text)| + |Skipped(guilds)| == |guilds|
    decreases |guilds|
  {
    if guilds != [] {
      EveryGuildAttempted(guilds[1..], text);
    }
  }

  /** Every message sent carries the text. */
  lemma {:induction false} AllCarryText(guilds: seq<Guild>, text: string)
    ensures forall m :: m in Deliveries(guilds, text) ==> m.text == text
    decreases |guilds|
  {
    if guilds != [] {
      AllCarryText(guilds[1..], text);
    }
  }

  /** A guild whose channel cannot be resolved costs only its own message:
      the guilds before and after it are delivered to as if it were absent. */
  lemma SkipOnlyThatGuild(before: seq<Guild>, g: Guild, after: seq<Guild>, text: string)
    requires g.channel.None?
    ensures Deliveries(before + [g] + after, text) == Deliveries(before + after, text)
  {
    var rest := [g] + after;
    assert rest[0] == g && rest[1..] == after;
    assert Deliveries(rest, text) == Deliveries(after, text);
    Assoc(before, [g], after);
    DeliveriesAppend(before, rest, text);
    DeliveriesAppend(before, after, text);
  }

  /** A guild whose channel resolves receives the text on that channel. */
  lemma {:induction false} ResolvedGuildReceives(guilds: seq<Guild>, k: nat, text: string)
    requires k < |guilds| && guilds[k].channel.Some?
    ensures Message(guilds[k].channel.value, text) in Deliveries(guilds, text)
    decreases k
  {
    if k > 0 {
      ResolvedGuildReceives(guilds[1..], k - 1, text);
    }
  }

  /**
   * The inner `for _, guild := range guilds` loop: resolve each guild's
   * channel, skip the guild on error, otherwise send `text` to the channel.
   */
  method SendToGuilds(guilds: seq<Guild>, text: string) returns (sent: seq<Message>, skipped: seq<string>)
    ensures sent == Deliveries(guilds, text)
    ensures skipped == Skipped(guilds)
    ensures |sent| + |skipped| == |guilds|
  {
    sent, skipped := [], [];
    for i := 0 to |guilds|
      invariant sent == Deliveries(guilds[..i], text)
      invariant skipped == Skipped(guilds[..i])
    {
      var guild := guilds[i];
      Snoc(guilds, i, text);
      if guild.channel.None? {
        skipped := skipped + [guild.id];
        continue;
      }
      sent := sent + [Message(guild.channel.value, text)];
    }
    assert guilds[..|guilds|] == guilds;
    EveryGuildAttempted(guilds, text);
  }

  /** What one tick sends once its status is known: nothing if `UserGuilds`
      failed, otherwise the status to every resolvable guild. */
  function TickSends(status: string, guilds: GuildList): seq<Message>
  {
    match guilds
    case GuildsErr => []
    case Guilds(gs) => Deliveries(gs, status)
  }
}
