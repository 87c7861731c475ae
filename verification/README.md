# Metro volleyball bot: change detection, in Dafny

This project models the change-detection core of the metro volleyball Discord
bot. The bot polls a web page or the competition's ladder API and tells Discord
guilds when something changed. Three pieces of sequential logic sit inside
that loop, and the model covers them:

- **The snapshot monitor.** A one-field state machine keeps the last fetched
  body (`prevResponse`, or the package variable `lastData` in the drafts).
  Each fetch result is compared with it, the field is updated, and the call
  reports whether anything changed. The empty string doubles as "never
  fetched". The canonical version is `DataSourceMonitor`
  (monitor/monitor.go). `Web` (bot/page.go) is an older copy. Two drafts,
  `monitorPage` (bot/bot.go) and `CheckPage` (main.go), answer status strings
  instead.
- **The ladder change detector.** `DetectLadderChanges`
  (vq/change-detector.go) compares two ladders by team key, rank and
  competition points.
- **The ladder text.** `GetLadderResponseBody.ToString` (vq/ladder.go) renders
  a ladder as a Discord message.

The network is not modelled. A fetch is an input value:
`Ok(status, body)`, `TransportErr`, or `ReadErr(status)`. `ReadErr` carries
the status because the checked fetch looks at the status before it reads the
body. The Discord session is not modelled either: each guild comes with the
outcome of resolving its updates channel, and each `UserGuilds` call has an
outcome (`GuildsErr` or a list of guilds).

Modules, one per source file or shared concept:

- `Fetch` (fetch.dfy): the status-checking fetch of monitor.go and page.go, and page.go's unchecked `MonitorPage`
- `Snapshot` (snapshot.dfy): the compare-and-update step shared by monitor.go and page.go, and its multi-step behaviour
- `SourceMonitor` (monitor.dfy): `DataSourceMonitor` (class with `prevResponse`)
- `WebPage` (page.dfy): `Web` (class with `prevResponse`)
- `Draft` (draft.dfy): the status-string step shared by `monitorPage` and `CheckPage`
- `Notify` (notify.dfy): the per-guild send loop shared by bot.go and main.go
- `BotDraft` (bot.dfy): bot.go: global `lastData`, `monitorPage`, `MonitorPageHandler`
- `MainDraft` (main_draft.dfy): main.go: global `lastData`, `CheckPage`, `CheckPageLoop`
- `Ladder` (ladder.dfy): ladder records and `ToString`
- `ChangeDetector` (change_detector.dfy): `DetectLadderChanges` and its functional definition

## Model

| member | source | states |
|---|---|---|
| `Fetch.Get` | src/metro-volleyball-bot/monitor/monitor.go:55-75 | The fetch succeeds exactly when the response arrived, its status is in [200,299] and its body was read; the body is then the response body. Every error comes with an empty body. A transport error is reported as such. A status outside [200,299] is a status error even when the body could not be read. |
| `Fetch.GetUnchecked` | src/metro-volleyball-bot/bot/page.go:77-93 | The package-level `MonitorPage` succeeds on any readable response, whatever its status. Errors come with an empty body. |
| `Fetch.GetAgreesOnSuccessStatus` | src/metro-volleyball-bot/bot/page.go:61-63 | On a 2xx response the checked and unchecked fetches give the same result. |
| `Snapshot.Transition` | src/metro-volleyball-bot/monitor/monitor.go:30-52 | A failed fetch reports no change, keeps the snapshot and passes the error on. A successful fetch always leaves its body as the snapshot. Against the empty snapshot it reports no change (baseline). Against a non-empty snapshot it reports a change exactly when the body differs. |
| `Snapshot.RepeatedBodyIsNoChange` | src/metro-volleyball-bot/monitor/monitor.go:46-48 | From any state, fetching the same body twice reports no change on the second call and leaves the snapshot as it was. |
| `Snapshot.BaselineThenChange` | src/metro-volleyball-bot/monitor/monitor.go:41-51 | From the never-fetched state, a non-empty body A followed by a different body B reports no change, then a change, and the snapshot becomes B. |
| `Snapshot.EmptyBodyKeepsBaseline` | src/metro-volleyball-bot/monitor/monitor.go:41-44 | Fetching the empty body from the never-fetched state stays in that state, so the next body is taken as a baseline and reports no change. |
| `Snapshot.ReplayHoldsLastSuccess` | src/metro-volleyball-bot/monitor/monitor.go:30-52 | After any sequence of fetches, the snapshot is the body of the last successful fetch, or the initial data if none succeeded. |
| `SourceMonitor.DataSourceMonitor.New` | src/metro-volleyball-bot/monitor/monitor.go:22-28 | The snapshot is seeded with the configured initial data. |
| `SourceMonitor.DataSourceMonitor.CheckForChanges` | src/metro-volleyball-bot/monitor/monitor.go:30-52 | The reported change, the returned snapshot, the error and the new `prevResponse` are those of `Transition` applied to the checked fetch. The returned string always equals `prevResponse` after the call. |
| `SourceMonitor.BadStatusKeepsSnapshot` | src/metro-volleyball-bot/monitor/monitor.go:63-65 | A response outside [200,299] gives a status error, no change, and the unchanged snapshot. |
| `WebPage.Web.NewWeb` | src/metro-volleyball-bot/bot/page.go:21-27 | A new `Web` starts with the empty snapshot. |
| `WebPage.Web.CheckPageForChanges` | src/metro-volleyball-bot/bot/page.go:29-50 | The reported change, the error and the new `prevResponse` are those of `Transition` applied to the checked fetch. |
| `WebPage.FreshWebSeesSecondBody` | src/metro-volleyball-bot/bot/page.go:38-49 | On a fresh `Web`, 2xx fetches of a non-empty body A and then a different body B return false, then true. |
| `Draft.DraftStep` | src/metro-volleyball-bot/bot/bot.go:75-107 | The answer is always one of "failed request", "failed read", "data changed" or "unchanged", so it is never empty. A transport error answers "failed request" and a read error "failed read"; both leave `lastData` alone. A readable response of any status replaces `lastData`. "data changed" is answered exactly when a non-empty `lastData` differs from the body; otherwise, including the seeding fetch, the answer is "unchanged". |
| `Draft.DraftAgreesWithMonitor` | src/metro-volleyball-bot/main.go:158-193 | On a 2xx response the drafts answer "data changed" exactly when the canonical monitor reports a change, and they keep the same snapshot. |
| `Draft.DraftStoresErrorPages` | src/metro-volleyball-bot/bot/bot.go:78-97 | On a non-2xx response the canonical monitor keeps its snapshot, but the drafts (which have no status check) store the error page as data. |
| `Draft.DraftStatuses` | src/metro-volleyball-bot/bot/bot.go:46-53 | A run of draft calls answers one status per fetch, and none of them is empty. |
| `Notify.DeliveriesAppend` | src/metro-volleyball-bot/main.go:145-153 | Messages go out in guild order: the deliveries to a concatenation of guild lists are the deliveries to each list, one after the other. |
| `Notify.EveryGuildAttempted` | src/metro-volleyball-bot/bot/bot.go:61-69 | Every guild is attempted. Each one is either sent the message or skipped, so the number of messages plus the number of skipped guilds is the number of guilds. |
| `Notify.AllCarryText` | src/metro-volleyball-bot/bot/bot.go:61-69 | Every message sent carries the tick's status text. |
| `Notify.SkipOnlyThatGuild` | src/metro-volleyball-bot/bot/bot.go:61-69 | A guild whose channel cannot be resolved loses only its own message; the guilds before and after it receive theirs as if it were absent. |
| `Notify.ResolvedGuildReceives` | src/metro-volleyball-bot/main.go:145-153 | A guild whose channel resolves is sent the text on that channel. |
| `Notify.SendToGuilds` | src/metro-volleyball-bot/main.go:145-153 | The per-guild loop sends exactly the deliveries and skips exactly the guilds whose channel did not resolve; together they account for every guild. |
| `BotDraft.Globals.constructor` | src/metro-volleyball-bot/bot/bot.go:73 | `lastData` starts as Go's zero value, the empty string. |
| `BotDraft.Globals.MonitorPage` | src/metro-volleyball-bot/bot/bot.go:75-107 | The answered status and the new `lastData` are those of `DraftStep` on the old `lastData`. |
| `BotDraft.HandlerTick` | src/metro-volleyball-bot/bot/bot.go:47-70 | An empty status or a `UserGuilds` error sends nothing. Otherwise the status goes to every guild whose channel resolves. |
| `BotDraft.HandlerTickOnce` | src/metro-volleyball-bot/bot/bot.go:48-70 | One tick runs `monitorPage` and then sends its status to the resolvable guilds, unless `UserGuilds` failed. |
| `BotDraft.MonitorPageHandler` | src/metro-volleyball-bot/bot/bot.go:46-71 | Over any run of ticks, one entry is logged per tick. Tick k sends the k-th draft status, including "unchanged" and the error strings, to the resolvable guilds. The empty-status skip never fires. A `UserGuilds` error skips only that tick. `lastData` ends as the run's final value. |
| `MainDraft.Globals.constructor` | src/metro-volleyball-bot/main.go:20 | `lastData` starts as the empty string. |
| `MainDraft.Globals.CheckPage` | src/metro-volleyball-bot/main.go:158-193 | The answered status and the new `lastData` are those of `DraftStep` on the old `lastData`. |
| `MainDraft.LoopTick` | src/metro-volleyball-bot/main.go:133-153 | With the empty-status skip commented out, only a `UserGuilds` error stops a tick's deliveries. Otherwise the status goes to every resolvable guild. |
| `MainDraft.LoopTickOnce` | src/metro-volleyball-bot/main.go:132-153 | One tick runs `CheckPage` and then sends its status to the resolvable guilds, unless `UserGuilds` failed. |
| `MainDraft.CheckPageLoop` | src/metro-volleyball-bot/main.go:131-155 | Over any run of ticks, one entry is logged per tick. Tick k sends the k-th status to the resolvable guilds. A `UserGuilds` error skips only its tick and the loop goes on. |
| `MainDraft.UnchangedIsStillSent` | src/metro-volleyball-bot/main.go:133-137 | A tick that fetches the body already held still sends "unchanged" to every resolvable guild. |
| `Ladder.HeaderAndFence` | src/metro-volleyball-bot/vq/ladder.go:24-39 | Every message starts with the header "Ladder: https://vqmetro23s3.softr.app/ladder-m1 ```" followed by two newlines, and ends with the closing fence "```". |
| `Ladder.BlockText` | src/metro-volleyball-bot/vq/ladder.go:29-33 | A record contributes exactly its rank, ". ", its display name, "\n\tpoints: ", its points, "\n\tnext game: ", its next match, and "\n\n". |
| `Ladder.BlocksAppend` | src/metro-volleyball-bot/vq/ladder.go:28-34 | The blocks of a concatenation of record lists are the blocks of each list, one after the other. |
| `Ladder.BlocksInOrder` | src/metro-volleyball-bot/vq/ladder.go:28-36 | The block of record k comes right after the blocks of the records before it and right before those of the records after it. |
| `Ladder.EmptyLadder` | src/metro-volleyball-bot/vq/ladder.go:26-36 | An empty ladder renders as the header directly followed by the closing fence. |
| `Ladder.OnlyDisplayedFieldsMatter` | src/metro-volleyball-bot/vq/ladder.go:29-32 | Two ladders render the same when their records agree, position by position, on rank, display name (`TeamName`), points and next match. The lookup key, the id and all other fields are not shown. |
| `Ladder.ToString` | src/metro-volleyball-bot/vq/ladder.go:24-39 | The string built by appending to the builder in the loop is the header, then the records' blocks in input order, then the closing fence. |
| `ChangeDetector.FirstMatch` | src/metro-volleyball-bot/vq/change-detector.go:18-23 | The result is the index of the first new record carrying the key: that record carries it and none before it does. No result means no record carries it. |
| `ChangeDetector.DetectLadderChanges` | src/metro-volleyball-bot/vq/change-detector.go:5-46 | The nested search with its early exits answers exactly the functional definition: the ladders differ in length, or some old team has no record in the new ladder, or the first new record of that team differs in rank or points. Different lengths are always a change. |
| `ChangeDetector.MissingTeamIsChange` | src/metro-volleyball-bot/vq/change-detector.go:38-41 | An old team that no new record carries is a change. |
| `ChangeDetector.StandingChangeIsChange` | src/metro-volleyball-bot/vq/change-detector.go:27-33 | An old team whose first record in the new ladder differs in rank or in points is a change. |
| `ChangeDetector.NoChangeMeansAllMatched` | src/metro-volleyball-bot/vq/change-detector.go:45 | "No change" means the lengths agree and every old team is found in the new ladder with the same rank and points. |
| `ChangeDetector.FirstMatchByKeys` | src/metro-volleyball-bot/vq/change-detector.go:21-23 | Which record is matched depends on the keys alone. |
| `ChangeDetector.OtherFieldsIgnored` | src/metro-volleyball-bot/vq/change-detector.go:21-33 | Changing any field other than the key, the rank and the points, in either ladder, never changes the answer. |
| `ChangeDetector.LaterDuplicateIgnored` | src/metro-volleyball-bot/vq/change-detector.go:18-35 | Only the first new record with a key is compared. A later record with the same key can be replaced by any record with that key without changing the answer. |
| `ChangeDetector.UniqueMatch` | src/metro-volleyball-bot/vq/change-detector.go:18-25 | When keys are unique, the record matched for a key is the one record that carries it. |
| `ChangeDetector.SelfIsUnchanged` | src/metro-volleyball-bot/vq/change-detector.go:14-45 | A ladder whose team keys are unique is never reported as changed against itself. |
| `ChangeDetector.DuplicateKeysSelfChange` | src/metro-volleyball-bot/vq/change-detector.go:18-35 | With a duplicated key a ladder can be reported as changed against itself: the team's second record is compared with its first. |
| `ChangeDetector.OrderOfNewIgnored` | src/metro-volleyball-bot/vq/change-detector.go:14-45 | When the new ladder's keys are unique, any rearrangement of its records gives the same answer. |
| `ChangeDetector.RankSwapIsChange` | src/metro-volleyball-bot/vq/change-detector.go:27-29 | With unique keys, swapping the ranks of two teams that have different ranks, all else equal, is a change. |
| `ChangeDetector.RankSwapScenario` | src/metro-volleyball-bot/vq/change-detector_test.go:20-62 | Aces and APG swapping ranks 1 and 2 is a change. |
| `ChangeDetector.PointsRaiseScenario` | src/metro-volleyball-bot/vq/change-detector_test.go:63-110 | APG's points going from 9 to 13 is a change. |
| `ChangeDetector.TotalSetsScenario` | src/metro-volleyball-bot/vq/change-detector_test.go:111-156 | A difference only in APG's `TotalSetsA` is not a change. |

## Behaviour followed where the design and the code differ

- The design treats an empty payload as distinct from "never fetched". The
  code uses the empty string as the "never fetched" sentinel, and so does the
  model. Fetching an empty body leaves the monitor in its baseline state
  (`Snapshot.EmptyBodyKeepsBaseline`). So the sequence "", then "x" reports no
  change, where the design expects a change.
- The design says the snapshot is replaced on every successful fetch. The code
  skips the write when the body equals the snapshot. The resulting state is the
  same (`Snapshot.Transition`: after a success the snapshot is always the body).
- The design lets the ladder detector also compare the display name. This code
  compares only `Rank` and `CompetitionPoints` (`ChangeDetector.OtherFieldsIgnored`).
- The design says the notifier runs only when something changed. In the
  drafts, every tick's status is sent, including "unchanged" and the error
  strings: bot.go's skip tests for a status `monitorPage` never answers, and
  main.go's skip is commented out.

## Left out

- HTTP transport (`client.Get`, `http.Get`, `io.ReadAll`, closing bodies): replaced by the `FetchResult` input. The URL, the `http.Client` in `Config`/`WebConfig` and the bot's `Config` (URL, channel name, tick speed) are therefore not modelled.
- The text of the wrapped errors (`fmt.Errorf`) and all logging (`slog`, `fmt.Println`): errors are modelled by their kind only.
- `sync.Mutex` in monitor.go and page.go, and the concurrent race test: the model is sequential. page.go's lock is commented out in the source anyway.
- `time.Tick` loops: they run forever. The model runs the loop body over any finite sequence of ticks.
- Signal handling, `main`, `ready`, `guildCreate`, `ReadyHandler`, `createChannelIfNotExists` and bot/commands.go: these are Discord session calls. Channel resolution is an input outcome per guild, and `UserGuilds` an input outcome per tick.
- `ChannelMessageSend` failures: the source ignores its result, and the model records each send as a message.
- JSON decoding and the ~90 `LadderFields` string fields the core never reads: the fields are collapsed into one `rest` map. `GetLadderResponseBody.Offset` is carried but unused.
- vq/client.go, vq/vq.go, vq/games.go (`ParseGameDayTime`), storage/storage.go, cfg/vq_config.go, the web-scraper and the scratch-pad programs: request building, HTTP POSTs, time parsing, an unimplemented interface and constants. None of these is part of this model.
- `ChangeDetector.SelfIsUnchanged`, `ChangeDetector.OrderOfNewIgnored` and `ChangeDetector.RankSwapIsChange` assume unique team keys. Without that they do not hold (`ChangeDetector.DuplicateKeysSelfChange`).
- `ChangeDetector.NoChangeMeansAllMatched` states one direction only. With duplicate keys the converse fails, because a later duplicate may match while the first record compared does not.
