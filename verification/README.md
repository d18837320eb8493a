# Verification of the relay's stateful core

A Dafny model of the parts of the Go relay whose correctness spans several calls: world pairing and
cross-world permissions, the alert spike tracker, the test-run event stream, the dotenv editor and
the secrets file, merged pagination, the Redis-locked cron jobs, the request counter, the start-up
migrations, and the documentation generator's scanners. One module per file, the module named after
the file.

Where the source changes state step by step, so does the model: `RelayServer.Server`,
`AlertTracker.Tracker`, `TestRun.Runner`, `Secrets.Config`, `RequestCounter.Counter`,
`CronLock.Cluster`, `SchemaTables.Database` and `StartupRepairs.Database` are classes, the `x[:0]`
filters and the dotenv rewriting work in place on arrays, and every loop is a loop. Each such method
is proved equal to a function of the old state, and the theorems are about those functions, over
every run or every interleaving of them.

## How to read it

- `Wrappers`, `Text`: options, and the pieces of `strings` and `bufio` the parsers rest on.
- `Stores`: the tables, what `Upsert` preserves, what a `LIMIT 1` lookup may answer, and the
  comma-separated lists. Lookups without an order may answer with any matching row; the theorems hold
  for every choice.
- `Handlers`: what each handler does to the tables, and runs of handlers. `RelayServer`: the same
  handlers as they run.
- `OriginSeparation`, `Repairing`, `Permissions`, `DeviceFlow`: the theorems about runs of whole handlers.
  `PairRace`, `DeleteRace`, `PollRace`: the same handlers taken apart into store accesses.
- `AlertTracker`, `TestRun` with `EventStream`, `DotEnv`, `Secrets`, `ActivityMerge`, `CronLock`,
  `RequestCounter`, `SchemaMigration` with `SchemaTables`, `StartupRepairs`, `SourceScanners`: one component
  each.

## Main results

- Origin separation. Over any run of all modelled handlers, under one account a clientId is never
  handed to two different non-empty origins without surrounding blanks, whichever lookup chose it. For
  arbitrary origins `OriginTurnsExact` says exactly which pairs can share a clientId: the comparison
  trims the stored origin only. The "add browser" branch has no origin check of its own;
  `AddBrowserExact` says exactly when one such exchange keeps the origins compatible: when its origin
  fits the bound world or, if that world has been deleted since, all earlier issues of its id. The
  run theorems assume that of add-browser exchanges, and nothing else but fresh ids and true lookup
  answers.
- Permission lists. No list names its own world and every list without `*` names living worlds of the
  account, over any run without approvals. With approvals, no list names its own world over any run in
  which approved targets are clean and no exchange resolves to a target of its code; approvals that only
  upgrade never break that. Exactly which codes can break it is `ExchangeSafeExact`: those that name
  any living world of their account.
- Device flow. A request moves pending, approved, exchanged, or to denied, or to expired; its code
  comes out at most once; what was approved is what the paired world holds after the exchange,
  whatever happened in between.
- Concurrency, store access by store access, in every interleaving of any number of calls with the other
  handlers: exactly which interleavings keep a pairing code single-use, exactly which send a device its
  code only once, and exactly which pairings that run into a deletion leave a token without a world.
- Alerts. Soundness and rate of `Track`, and the least number of calls in a window's length that is
  sure to be noticed: T for T at most 1, otherwise 2T-2. That is one better than the obvious 2T-1, and
  `BoundIsTight` shows it cannot be improved for T of at least 3.
- Event stream. No panic, nothing missed or repeated while no buffer overflows, and resuming by the
  last id loses nothing even when it does.
- Dotenv and secrets. Write-then-parse for arbitrary files, and stability of the secrets over any
  sequence of starts.
- Scope attribution. The one-variable scan agrees with a reading of nested blocks, wherever handlers
  stand, if and only if no line ends with a declaring block closed inside another one and no scope
  declared since.
- Merged pagination. Exactly when the activity page is right whatever the rows. Connections are fetched
  by time, but requests and module events by id (`model/remote_request_log.go:166`,
  `model/module_event_log.go:123`), so an overlong one of these can lose its newest row even on the
  first page (`FirstPageCanBeWrong`). If ids follow times, a hypothesis of `HandlerPageExactInOrder`,
  the first page is always right.
- Cron locks and schema replay (of every table, in any interleaving): the properties with their exact
  conditions.

## Where the code and its comments disagree

The model follows the code.

- `connection_tokens.go:304-309` says that of two concurrent calls with one code only one succeeds in
  marking it used. `MarkUsed` (`model/pairing_code.go:130-135`) is an UPDATE that sets the flag
  whatever it was and does not look at the number of rows, so both calls succeed.
  `PairRace.TwoTokensForOneCode` is the interleaving, `SingleUseExact` says exactly which interleavings
  keep the code single-use, and `ConditionalClaimIsSingleUse` that a claim that fails on a used code
  would make all of them so.
- `activity_log.go:107` says that offset+limit rows are fetched from each source. The fetch
  (`model/connection_log.go:113-165`, and alike in the other two stores) takes offset plus limit of the
  filters it is given, and the offset was just set to 0, so each source is cut at `limit`.
  `ActivityMerge.PageExact` says exactly when the page is right all the same; `PageOfTopK` is the theorem
  with the prefixes the comment promises.
- `alerts.go:113` calls the window sliding. It is a tumbling one, opened by the first call after the
  previous one ended; `AlertTracker.BoundIsTight` is a burst that a sliding window would notice.
- `pair_request.go:314-318` says a world can never be granted access to itself. The stripped ids are
  those known at approval; the exchange may resolve to another world, which
  `Permissions.ApprovalCanNameItself` shows. `ExchangeSafeExact` says exactly which codes are safe from
  it.
- `pair_request.go:63-65` says that a requesting module should never be able to pre-select all worlds.
  The wildcard is stripped as a whole value, before values are joined with commas;
  `DeviceFlow.WildcardStrippedExact` says when that is enough, and `HiddenWildcardIsShown` that it is not
  always.
- `pair_request.go:151` says a code is returned once. Two polls that overlap both return it;
  `PollRace.SingleReleaseExact` says exactly which interleavings do not.
- `connection_tokens.go:292-295` answers an expired code with 410. `FindByCode`
  (`model/pairing_code.go:74-91`) does not return expired codes, so the answer is 404.

## Model

| member | source | states |
|---|---|---|
| `OriginSeparation.OriginTurnsExact` | go-relay/internal/handler/connection_tokens.go:612-625 | for all origins a and b: some run issues one id to a and later to b, if and only if they are equal, or a is blank, or a trimmed is b |
| `OriginSeparation.OriginsStayCompatible` | go-relay/internal/handler/connection_tokens.go:325-438 | over any run of all handlers with any origins, whenever one account's id goes to two non-empty origins, the earlier may turn into the later |
| `OriginSeparation.OriginsStaySeparated` | go-relay/internal/handler/connection_tokens.go:325-438 | over such runs with origins without surrounding blanks, an id never goes to two different non-empty origins |
| `OriginSeparation.ChosenIsFreeOrConsistent` | go-relay/internal/handler/connection_tokens.go:335-400 | the id an exchange chooses has a row whose stored origin fits, or is new, or is a deleted world's whose history fits |
| `OriginSeparation.RunKeepsRecorded` | go-relay/internal/handler/connection_tokens.go:402-438 | the run invariant: a live row paired from a known origin stores one that it may have turned into |
| `OriginSeparation.RunKeepsWitnessed` | go-relay/internal/model/known_client.go:170-244 | the converse invariant: every stored origin was put there by a pairing |
| `OriginSeparation.AddBrowserExact` | go-relay/internal/handler/connection_tokens.go:335-337 | an add-browser exchange keeps the origins compatible if and only if its origin fits the bound world or, that deleted, every earlier issue of its id |
| `OriginSeparation.DeletedWorldReturnsAnywhere` | go-relay/internal/handler/connection_tokens.go:335-337 | for all a and b: a run in which a code bound to a world paired from a outlives it and hands its id to b |
| `OriginSeparation.BlanksBreakSeparation` | go-relay/internal/handler/connection_tokens.go:612-625 | so some run with a blank-padded origin issues one id to two origins |
| `Repairing.RepairKeepsId` | go-relay/internal/handler/connection_tokens.go:338-353 | a module that returns with its id from the same origin gets that id, after any run that left its row |
| `Repairing.RepairByFingerprintOverRuns` | go-relay/internal/handler/connection_tokens.go:354-363 | without an id, after any run that left its row, the one world with the fingerprint gets its id again from its origin |
| `Repairing.RepairByWorldOverRuns` | go-relay/internal/handler/connection_tokens.go:364-374 | with neither, after any run that left its row, the one world with the worldId and origin gets its id again |
| `Repairing.NewOriginGetsNewWorld` | go-relay/internal/handler/connection_tokens.go:375-400 | over any run, a server at a new origin gets a new id when all worlds sharing its worldId were paired from other known origins |
| `Repairing.RepairByFingerprint` | go-relay/internal/handler/connection_tokens.go:354-363 | without an id, the one world with the fingerprint comes back before any worldId match |
| `Repairing.RepairByWorldAndOrigin` | go-relay/internal/handler/connection_tokens.go:364-374 | among worlds sharing the worldId, the one at this origin is chosen |
| `Repairing.ReuseHasAReason` | go-relay/internal/handler/connection_tokens.go:325-400 | an id is reused only through one of the four lookups with its guard; otherwise it is new |
| `Repairing.SharedWorldIdStaysApart` | go-relay/internal/handler/connection_tokens.go:375-391 | servers that share a worldId at different known origins do not collapse onto one id |
| `Stores.CsvRoundTrip` | go-relay/internal/handler/connection_tokens.go:581-595 | a list of clean values stored by PATCH is read back unchanged |
| `Stores.JoinedReadsAsPieces` | go-relay/internal/model/scopes.go:217-220 | a list stored by an approval reads back as the comma-separated pieces of its values |
| `Stores.PiecesMember` | go-relay/internal/model/known_client.go:58-71 | membership in the list read back, value by value |
| `Stores.ReadersAgree` | go-relay/internal/model/scopes.go:196-215 | the two readers of stored lists, one of which trims the text first, see the same list |
| `Permissions.ListsStayOk` | go-relay/internal/handler/connection_tokens.go:1154-1353 | over any run without approvals: no self target, and only living worlds of the account outside wildcards |
| `Permissions.PatchStores` | go-relay/internal/handler/connection_tokens.go:1154-1207 | an accepted PATCH stores the wanted list without the world itself, and touches no other row |
| `Permissions.RevokedReads` | go-relay/internal/handler/connection_tokens.go:1312-1345 | revoking removes exactly the deleted id from a sibling and leaves a wildcard list whole |
| `Permissions.DeleteRevokes` | go-relay/internal/handler/connection_tokens.go:1294-1346 | after DELETE the row and its tokens are gone and no sibling list names it; all else is unchanged |
| `Permissions.DeleteKeepsLists` | go-relay/internal/handler/connection_tokens.go:1252-1353 | DELETE keeps the list invariant |
| `Permissions.ExchangeKeepsLists` | go-relay/internal/handler/connection_tokens.go:402-448 | exchanging a plain code keeps the list invariant |
| `Permissions.NoSelfOverCarefulRuns` | go-relay/internal/handler/pair_request.go:314-404 | over any run of all handlers with clean approved targets, and no exchange resolving to a target of its code, no world names itself |
| `Permissions.NoSelfOverUpgrades` | go-relay/internal/handler/pair_request.go:314-359 | in particular over any run whose approvals only upgrade, with clean targets, whatever the exchanges resolve to |
| `Permissions.UpgradeNoSelfExact` | go-relay/internal/handler/pair_request.go:314-359 | an upgrade-only approval keeps the no-self property if and only if no surviving target hides the world's id |
| `Permissions.HiddenSelfIsStored` | go-relay/internal/handler/pair_request.go:319-359 | for any account and world: an upgrade approval with such a target leaves the world naming itself |
| `Permissions.CleanTargetsHideNothing` | go-relay/internal/handler/pair_request.go:319-337 | targets free of commas and blanks hide nothing |
| `Permissions.ApproveNamesLiveExact` | go-relay/internal/handler/pair_request.go:296-404 | an approval keeps lists naming living worlds only, if and only if it writes none or the pieces it writes are living worlds of the account or include the wildcard |
| `Permissions.ExchangeSafeExact` | go-relay/internal/handler/connection_tokens.go:335-448 | every answer to every request to exchange a code with targets keeps the no-self property, if and only if the code is bound to a world not among them or, unbound, names no living world of its account |
| `Permissions.CrossedApproval` | go-relay/internal/handler/pair_request.go:303-334 | an approval whose worldId lookup answers with one world and whose target is its namesake |
| `Permissions.ApprovalCanNameItself` | go-relay/internal/handler/pair_request.go:314-334 | exchanging that approval's code leaves a world naming itself |
| `DeviceFlow.JourneyIsOneOfThree` | go-relay/internal/handler/pair_request.go:123-169 | over any run a request's statuses are a prefix of one of the three journeys |
| `DeviceFlow.MoveHasOneCause` | go-relay/internal/handler/pair_request.go:270-435 | each status change has one handler as its cause, and changes nothing else of the request |
| `DeviceFlow.ReleasedAtMostOnce` | go-relay/internal/handler/pair_request.go:138-168 | over any run of whole handlers the pairing code is released at most once, exactly once if polled after approval, never when upgrading |
| `PollRace.SingleReleaseExact` | go-relay/internal/handler/pair_request.go:127-156 | with polls split into read and mark: in every completed interleaving each code is released at most once if and only if no poll reads the approved request between another's read and mark |
| `PollRace.TwoReleasesOfOneCode` | go-relay/internal/model/pair_request.go:134-138 | from any tables, two overlapping polls release one code twice |
| `PollRace.AtomicPoll` | go-relay/internal/handler/pair_request.go:122-169 | the two accesses in a row are the one-step poll |
| `DeviceFlow.RequestShowsTargets` | go-relay/internal/handler/pair_request.go:63-105 | a request's clean targets come to the approval page in order, less the wildcard |
| `DeviceFlow.WildcardStrippedExact` | go-relay/internal/handler/pair_request.go:63-74 | for any targets, the page sees no wildcard if and only if none hides it between commas or blanks |
| `DeviceFlow.HiddenWildcardIsShown` | go-relay/internal/handler/pair_request.go:63-74 | a target that hides the wildcard behind a comma shows it |
| `DeviceFlow.CodesStayOverRuns` | go-relay/internal/model/pairing_code.go:93-135 | a code's record never changes but for becoming used |
| `DeviceFlow.CodeHasOneMaker` | go-relay/internal/handler/pair_request.go:339-394 | codes come only from the dashboard and from approvals that do not merely upgrade |
| `DeviceFlow.CarriedSettings` | go-relay/internal/handler/connection_tokens.go:440-448 | after an exchange the world holds the code's settings, or its own when the code has none |
| `DeviceFlow.ApprovedSettingsArrive` | go-relay/internal/handler/pair_request.go:361-410 | approval, any run, exchange: the resolved world holds exactly the approved targets, scopes and rate |
| `DeviceFlow.UpgradeSettingsArrive` | go-relay/internal/handler/pair_request.go:339-359 | an upgrade writes exactly the approved settings on the requested world, makes no code, touches no other row |
| `PairRace.SingleUseExact` | go-relay/internal/handler/connection_tokens.go:281-311 | in every completed interleaving a code gives at most one token if and only if no read of it falls between another call's read and mark |
| `PairRace.TwoTokensForOneCode` | go-relay/internal/model/pairing_code.go:130-135 | from any tables, two interleaved calls get two tokens for one code |
| `PairRace.ConditionalClaimIsSingleUse` | go-relay/internal/handler/connection_tokens.go:304-311 | with the claim that the comment describes, every interleaving is single-use |
| `PairRace.TokensStayLive` | go-relay/internal/handler/connection_tokens.go:402-438 | in every interleaving of calls with each other and with all other handlers, the storing of token and world and each other handler in one step, every token names a known client of its account |
| `DeleteRace.DanglingExact` | go-relay/internal/handler/connection_tokens.go:402-438 | with token, world and settings stored separately and deletions split too: in every interleaving that leaves no pairing between token and world, some token names no known client if and only if a pairing fell between a deletion's two removals and nothing made up for it |
| `DeleteRace.PairingInsideDeletion` | go-relay/internal/handler/connection_tokens.go:1294-1304 | such an interleaving, for any living world and any code of its account |
| `DeleteRace.PlayFollows` | go-relay/internal/handler/connection_tokens.go:1252-1353 | the invariant behind it: tokens and rows are what the order of accesses makes them, over every interleaving |
| `DeleteRace.AccessesInARow` | go-relay/internal/handler/connection_tokens.go:402-448 | the accesses in a row are the one-step pairing and deletion |
| `PairRace.ServedStays` | go-relay/internal/handler/connection_tokens.go:402-438 | in every interleaving that does not delete that world, a finished call keeps its token, which names a known client of the code's account |
| `PairRace.FinishedIsKnown` | go-relay/internal/handler/connection_tokens.go:402-438 | the last access of a call leaves exactly one more token, naming a known client of the code's account |
| `PairRace.PlayKeepsConsistent` | go-relay/internal/handler/connection_tokens.go:281-438 | the invariant behind them holds over every interleaving |
| `PairRace.AtomicExchange` | go-relay/internal/handler/connection_tokens.go:258-461 | the three accesses in a row are the one-step exchange of the other modules |
| `RelayServer.FilterInPlace` | go-relay/internal/handler/pair_request.go:326-334 | filtering into the array being read equals the order-preserving filter |
| `RelayServer.CaptureSettings` | go-relay/internal/handler/pair_request.go:198-244 | the approval page shows the settled world's settings with the world itself stripped |
| `RelayServer.SettledByClient` | go-relay/internal/handler/pair_request.go:212-217 | a clientId match is settled on wherever it stands in the list |
| `RelayServer.SettledByWorld` | go-relay/internal/handler/pair_request.go:218-226 | without one, the first worldId match is, or else none |
| `RelayServer.SettledIsRight` | go-relay/internal/handler/pair_request.go:212-226 | the two together |
| `RelayServer.Server.Pair` | go-relay/internal/handler/connection_tokens.go:258-461 | the handler's whole new state and answer, for some truthful lookup answers |
| `RelayServer.Server.ResolveClientId` | go-relay/internal/handler/connection_tokens.go:325-400 | the step-by-step lookup computes the priority choice for truthful answers |
| `RelayServer.Server.NewPairingCode` | go-relay/internal/handler/connection_tokens.go:48-102 | a dashboard code, bound only to a world the account has |
| `RelayServer.Server.PatchKnownClient` | go-relay/internal/handler/connection_tokens.go:1124-1208 | the whole new state, with every refusal |
| `RelayServer.Server.DeleteKnownClient` | go-relay/internal/handler/connection_tokens.go:1252-1353 | the whole new state, with every refusal |
| `RelayServer.Server.RevokeFromSiblings` | go-relay/internal/handler/connection_tokens.go:1306-1346 | the cleanup loop, in any order of the siblings, revokes from each of them |
| `RelayServer.Server.OpenPairRequest` | go-relay/internal/handler/pair_request.go:35-120 | the whole new state: validated scopes, wildcard stripped |
| `RelayServer.Server.PollPairRequest` | go-relay/internal/handler/pair_request.go:122-169 | the whole new state and answer of a poll |
| `RelayServer.Server.ApprovePairRequest` | go-relay/internal/handler/pair_request.go:269-416 | the whole new state of an approval, for some truthful lookup answer |
| `RelayServer.Server.DenyPairRequest` | go-relay/internal/handler/pair_request.go:418-435 | the whole new state of a denial |
| `Handlers.SomeAnswers` | go-relay/internal/model/known_client.go:264-312 | truthful lookup answers always exist, so the run theorems are never about nothing |
| `AlertTracker.Tracker.Track` | go-relay/internal/alerts/alerts.go:115-134 | the new entries and the answer of one call |
| `AlertTracker.KeysAreIndependent` | go-relay/internal/alerts/alerts.go:111-134 | calls for other keys never change a key's entry or answers |
| `AlertTracker.WindowShape` | go-relay/internal/alerts/alerts.go:122-127 | the counted calls are the last ones, and the window opened at the first of them |
| `AlertTracker.FiringIsABurst` | go-relay/internal/alerts/alerts.go:129-132 | a true answer means at least T calls lie in the last window's length |
| `AlertTracker.FiringsAreApart` | go-relay/internal/alerts/alerts.go:129-131 | two true answers are more than the cooldown apart |
| `AlertTracker.FiringRate` | go-relay/internal/alerts/alerts.go:129-131 | n true answers span more than n-1 cooldowns |
| `AlertTracker.BurstIsNoticed` | go-relay/internal/alerts/alerts.go:113-134 | enough calls in any closed interval of the window's length include one that fires or falls in a cooldown |
| `AlertTracker.BoundIsTight` | go-relay/internal/alerts/alerts.go:113-127 | one call fewer can pass without a firing |
| `AlertTracker.Tracker.Remember` | go-relay/internal/alerts/alerts.go:145-150 | one append to the bounded buffer |
| `AlertTracker.RecentIsTheNewest` | go-relay/internal/alerts/alerts.go:85-100 | the buffer holds the newest 200 alerts in order |
| `TestRun.Runner.AppendEvent` | go-relay/internal/handler/admin_testrunner.go:50-60 | log and channels after an append |
| `TestRun.Runner.FinalizeRun` | go-relay/internal/handler/admin_testrunner.go:62-71 | status, subscribers and channels after the end |
| `TestRun.Runner.Subscribe` | go-relay/internal/handler/admin_testrunner.go:82-94 | a new channel, registered or closed |
| `TestRun.Runner.SnapshotAndSubscribe` | go-relay/internal/handler/admin_testrunner.go:96-112 | the log as it is and a new channel, registered or closed |
| `TestRun.OfferAllReaches` | go-relay/internal/handler/admin_testrunner.go:53-58 | an append offers the event to each subscriber once, dropping it for full ones, and touches nothing else |
| `TestRun.CloseAllReaches` | go-relay/internal/handler/admin_testrunner.go:66-69 | the end closes each subscriber once and no other channel |
| `EventStream.WriteSnapshot` | go-relay/internal/handler/admin_testrunner.go:283-291 | the frames after Last-Event-ID, each under its log index |
| `EventStream.RunsKeepOk` | go-relay/internal/handler/admin_testrunner.go:50-112 | the invariant tying every session's frames, drops and channel to the log, over every interleaving |
| `EventStream.NeverPanics` | go-relay/internal/handler/admin_testrunner.go:50-112 | no channel is closed twice or sent to after it is closed |
| `EventStream.NothingMissedOrRepeated` | go-relay/internal/handler/admin_testrunner.go:96-112 | without drops, snapshot and pulled events are a prefix of the log, and all of it once the closed channel is drained |
| `EventStream.EndsAtFinalize` | go-relay/internal/handler/admin_testrunner.go:62-71 | a session ends with the log as it was when the run ended |
| `EventStream.IdsNeverOverstate` | go-relay/internal/handler/admin_testrunner.go:294-304 | drops or not, a frame's id is at most its event's log index, and equal without drops |
| `EventStream.ResumeLosesNothing` | go-relay/internal/handler/admin_testrunner.go:281-291 | reconnecting with the last id sends every later log entry in order, and no earlier one without drops |
| `DotEnv.ParseDotEnv` | go-relay/internal/handler/admin_testrunner.go:571-601 | the map of the lines' meanings, the last of a repeated key winning |
| `DotEnv.ReplaceInPlace` | go-relay/internal/handler/admin_testrunner.go:619-634 | the line array after the in-place rewriting, and the keys written |
| `DotEnv.CollectMissing` | go-relay/internal/handler/admin_testrunner.go:636-644 | the assignments to append |
| `DotEnv.WriteDotEnvKeys` | go-relay/internal/handler/admin_testrunner.go:607-655 | the written text |
| `DotEnv.WriteThenParse` | go-relay/internal/handler/admin_testrunner.go:574-655 | for any file, updated keys read back their new values and every other key reads as before |
| `DotEnv.WriteIsIdempotent` | go-relay/internal/handler/admin_testrunner.go:607-655 | editing again changes nothing that can be read |
| `DotEnv.ValueReadsExact` | go-relay/internal/handler/admin_testrunner.go:586-598 | an assignment reads back its value if and only if the value is trimmed and not quote-wrapped |
| `DotEnv.RenderReads` | go-relay/internal/handler/admin_testrunner.go:652-655 | rendering lines and scanning them back keeps their meaning |
| `DotEnv.SameKey` | go-relay/internal/handler/admin_testrunner.go:621-629 | editor and parser agree on which key a line assigns |
| `DotEnv.EditedLinesMean` | go-relay/internal/handler/admin_testrunner.go:619-634 | the rewritten lines define the same keys, updated ones with their new values |
| `DotEnv.MissingMeans` | go-relay/internal/handler/admin_testrunner.go:636-650 | the appended lines define exactly the listed non-empty updates that no line had |
| `Secrets.LoadSecretsFile` | go-relay/internal/config/config.go:250-269 | the pairs of the file's lines, split at the first "=" |
| `Secrets.WriteSecretsFile` | go-relay/internal/config/config.go:271-281 | the written text |
| `Secrets.Config.EnsureSecrets` | go-relay/internal/config/config.go:197-248 | environment, else file, else generated and written |
| `Secrets.LoadAfterWrite` | go-relay/internal/config/config.go:250-281 | load after write gives back exactly the two secrets, "=" padding included |
| `Secrets.StartKeepsSecrets` | go-relay/internal/config/config.go:197-248 | one start keeps and uses what the file holds, and generates only what nobody supplies |
| `Secrets.SecretsAreStable` | go-relay/internal/config/config.go:197-281 | over any sequence of starts with any overrides a stored secret is never changed or regenerated |
| `ActivityMerge.SortByTime` | go-relay/internal/handler/activity_log.go:184-187 | some newest-first ordering of the same events |
| `ActivityMerge.MergeActivityLogs` | go-relay/internal/handler/activity_log.go:102-199 | the page of some newest-first ordering of what was fetched, and the total |
| `ActivityMerge.TopKAgrees` | go-relay/internal/handler/activity_log.go:184-198 | merging sources each fetched whole or at least to its newest k rows agrees with the full merge on k positions, however ties fall |
| `ActivityMerge.PageOfTopK` | go-relay/internal/handler/activity_log.go:106-198 | with each source whole or its newest offset+limit rows in hand, the page is the full merge's page |
| `ActivityMerge.PageExact` | go-relay/internal/handler/activity_log.go:106-107 | as fetched, only the first source known to be listed by time: the page is right for all times if and only if it starts past the end, or the other two are not cut and it is the first or the first source is not cut either |
| `ActivityMerge.PageExactInOrder` | go-relay/internal/handler/activity_log.go:106-107 | all three sources listed by time: if and only if it is the first, past the end, or no source is cut |
| `ActivityMerge.HandlerPageExact` | go-relay/internal/handler/activity_log.go:102-199 | the handler's own page, for a type filter: right for all rows listed as the three queries list them and any tie-breaking, if and only if it starts past the last match, or no matching request or event is cut and it is the first or no matching connection is cut |
| `ActivityMerge.HandlerPageExactInOrder` | go-relay/internal/handler/activity_log.go:102-199 | if rows were numbered in the order of their times: if and only if it is the first, past the last match, or no matching log is cut |
| `ActivityMerge.FirstPageCanBeWrong` | go-relay/internal/model/remote_request_log.go:164-167 | any two requests numbered against their times make the first page of one row wrong |
| `ActivityMerge.HandlerPageIsRight` | go-relay/internal/handler/activity_log.go:102-199 | the handler's page and total under either condition, for its own rows and any tie-breaking |
| `CronLock.Cluster.BeginJob` | go-relay/internal/cron/scheduler.go:99-110 | a job starts only if its key is missing or expired, and then sets it for five minutes |
| `CronLock.Cluster.EndJob` | go-relay/internal/cron/scheduler.go:109-110 | the deferred delete, whoever set the key |
| `CronLock.RunKeepsHeld` | go-relay/internal/cron/scheduler.go:99-154 | the run invariant: every running job still holds the key it set |
| `CronLock.ExclusionExact` | go-relay/internal/cron/scheduler.go:99-154 | exclusion and releasing one's own lock hold over every schedule if and only if no run reaches the expiry |
| `CronLock.OverrunIsShared` | go-relay/internal/cron/scheduler.go:270-281 | a run that outlasts its lock is joined by a second one |
| `RequestCounter.Counter.Add` | go-relay/internal/counter/counter.go:31-36 | one more pending request for one user |
| `RequestCounter.Counter.Flush` | go-relay/internal/counter/counter.go:39-54 | every pending count is written once, except where the store reports an error |
| `RequestCounter.RequestsAreConserved` | go-relay/internal/counter/counter.go:31-54 | in every interleaving: added = pending + in flight + written + lost to reported errors |
| `RequestCounter.QuietStoreIsExact` | go-relay/internal/counter/counter.go:37-54 | once all is flushed without errors the store has every request |
| `SchemaTables.Database.Migrate` | go-relay/internal/database/db.go:1217-1552 | every table's columns after one start |
| `SchemaTables.DatabaseReplayExact` | go-relay/internal/database/db.go:1217-1552 | for any database and any interleaving of the tables' statements: a second start changes nothing if and only if no limit of ApiKeys or KeyRequests has both old spellings and not its new name |
| `SchemaTables.DatabaseSettles` | go-relay/internal/database/db.go:1217-1552 | from the third start on no database ever changes |
| `SchemaTables.TablesAreOrderly` | go-relay/internal/database/db.go:1218-1548 | the statements of all thirteen tables meet the ordering the theorems ask for, and only two tables have chains |
| `SchemaTables.AlteredAllMeans` | go-relay/internal/database/db.go:1393-1395 | tables do not disturb each other: each sees its own added and dropped columns only |
| `SchemaTables.RenamedAllMeans` | go-relay/internal/database/db.go:1549-1552 | nor do the renames |
| `SchemaTables.GroupedIsShipped` | go-relay/internal/database/db.go:1402-1548 | the statements table after table are such an interleaving |
| `SchemaMigration.SecondStartExact` | go-relay/internal/database/db.go:1393-1552 | for any orderly lists: a second start changes nothing if and only if no rename chain starts with two live names and ends in a free one |
| `SchemaMigration.UnchainedReplays` | go-relay/internal/database/db.go:1393-1552 | orderly lists without chains replay unconditionally |
| `SchemaMigration.TwoStartsSettle` | go-relay/internal/database/db.go:1393-1552 | from the third start on nothing ever changes |
| `SchemaMigration.AlteredMeans` | go-relay/internal/database/db.go:1218-1395 | what the added and dropped columns come to |
| `SchemaMigration.SecondPassExact` | go-relay/internal/database/db.go:1549-1552 | the same exact condition for the renames alone |
| `SchemaTables.ApiKeysAreOrderly` | go-relay/internal/database/db.go:1402-1420 | the ApiKeys statements meet the ordering the theorems ask for |
| `SchemaTables.ApiKeysReplayExact` | go-relay/internal/database/db.go:1402-1420 | for ApiKeys: unless a renamed limit has both old spellings and not its new name |
| `SchemaTables.KeyRequestsReplayExact` | go-relay/internal/database/db.go:1524-1540 | for KeyRequests: unless its suggested limit has |
| `StartupRepairs.Database.Repair` | go-relay/internal/database/db.go:1397-1570 | the data after the fixes of one start |
| `StartupRepairs.Database.ForceRotationIfNeeded` | go-relay/internal/database/db.go:911-960 | all accounts must rotate, once |
| `StartupRepairs.Database.BackfillAPIKeyHashes` | go-relay/internal/database/db.go:715-753 | every key without a hash gets the hash of its text |
| `StartupRepairs.Database.PurgeUnknownWorldRows` | go-relay/internal/database/db.go:879-909 | worlds without a world id go, once |
| `StartupRepairs.Database.BackfillEmailVerified` | go-relay/internal/database/db.go:779-810 | all accounts count as verified, once |
| `StartupRepairs.Database.BackfillUserAPIKeyHashes` | go-relay/internal/database/db.go:812-877 | accounts without a hash get one and must rotate, once |
| `StartupRepairs.FirstStartRepairs` | go-relay/internal/database/db.go:779-960 | what the first start makes of every account, key and world |
| `StartupRepairs.FixingTwiceIsOnce` | go-relay/internal/database/db.go:715-777 | the two unguarded fixes are idempotent and leave a sound key alone |
| `StartupRepairs.RestartsAreInvisible` | go-relay/internal/database/db.go:779-960 | a history with restarts and the same one without end in the same accounts and worlds, and keys at most fixed |
| `StartupRepairs.LaterStartsTouchNothing` | go-relay/internal/database/db.go:779-960 | so accounts and worlds added or changed after the first start are untouched by later ones |
| `SourceScanners.SplitTopLevel` | go-relay/cmd/docgen/main.go:650-678 | the parts the scan leaves |
| `SourceScanners.SplittingIsLossless` | go-relay/cmd/docgen/main.go:650-678 | rejoining the parts gives back any text up to a dropped blank last part |
| `SourceScanners.PartsAreWhole` | go-relay/cmd/docgen/main.go:650-678 | parts of balanced text are balanced and without a comma at depth 0 |
| `SourceScanners.PartsComeBack` | go-relay/cmd/docgen/main.go:650-678 | and such parts come back from their joined text |
| `SourceScanners.ParseHandlerScopes` | go-relay/cmd/docgen/main.go:290-361 | the scopes the one-variable scan assigns |
| `SourceScanners.ScopeInForceExact` | go-relay/cmd/docgen/main.go:301-325 | after every line, scan and block reading have the same scope in force if and only if the reading is not lost |
| `SourceScanners.AttributionExact` | go-relay/cmd/docgen/main.go:290-361 | they give every handler the same scope, for every placement of handlers, if and only if no line ends lost |
| `SourceScanners.ScanAgreesWithBlocks` | go-relay/cmd/docgen/main.go:301-325 | so they do wherever no scope group nests inside another |
| `SourceScanners.NestedGroupsAreForgotten` | go-relay/cmd/docgen/main.go:309-317 | with a nested group the outer scope is lost when the inner one closes |

## Left out

- HTTP decoding, cookies, sessions, bcrypt, SHA-256 and random bytes: ids, codes and hashes are parameters; fresh ids and codes that exist already are distinguished, their spelling is not.
- SQL text, store errors and transactions: tables are maps, store calls succeed, except the counter's writes, whose errors are modelled.
- WebSocket-time updates of a world's stored origin (`internal/ws`): origin separation is about pairing, approval, edit and deletion only.
- Other columns of known clients, tokens and requests (titles of systems, versions, online flags, names, user agents): copied through unchanged or shown only.
- The hourly deletion of expired and of used pairing codes (`model/pairing_code.go:137-145`): codes stay in the tables for ever, and their spelling is never drawn again. An expired code is refused with the same 404 as a missing one; a used one with 410 instead of, after the deletion, 404.
- Handlers read one clock value each; between interleaved accesses `PairRace` lets it differ per call.
- `PairRace.TokensStayLive`: storing the token, the world and its settings is one access, and so is every other handler; `DeleteRace` takes these and deletions apart.
- `DeleteRace.DanglingExact`: the lookups are not accesses of their own, since any clientId may be chosen; revoking from the siblings, which removes no row, is one access. Edits and approvals stay whole.
- `DeviceFlow.ReleasedAtMostOnce`: polls are whole handlers there; `PollRace` takes them apart.
- `key_request.go`: the same approval automaton as pair requests, with easier claims.
- Disconnecting live clients on DELETE, and e-mail and Discord dispatch in `Fire`: I/O.
- `AlertTracker.BurstIsNoticed`: clock readings lie more than one cooldown after the zero time, as every real clock's do; the clock never runs backwards.
- `EventStream.RunsKeepOk`: a client that disconnects is one that pulls no more; `Snapshot`, which only copies, is not modelled.
- Run timestamps, cancelling and launching processes in `admin_testrunner.go`: I/O.
- `DotEnv.WriteThenParse`: about the parsed meaning, not the bytes, since repeated writes erode trailing blank lines; the scanner's limit on line length and the temporary file are not modelled.
- `Secrets.WriteSecretsFile`: the wording of the header comment is a parameter; file permissions are not modelled.
- `ActivityMerge.SortByTime`: an insertion sort on values stands in for `sort.Slice`; nothing about it is used but that it orders the same events newest first. Events keep the fields that identify them.
- `CronLock.ExclusionExact`: Redis stays connected; without Redis every instance runs every job. What the jobs then do to the database is not modelled.
- `RequestCounter.Counter.Flush`: as one call; its interleavings with other calls are in the state machine beside it.
- Column types, defaults, indexes and the creation of missing tables, which changes no existing one, are not modelled, nor the SQLite path of the migrations.
- `SourceScanners.ParseHandlerScopes`: the regular expressions are not modelled; a line comes with what they matched.
- `extractFuncBody`, the description unescaping and the collect-and-reverse loops of the documentation generator: they would add only simple scans.
- Route tables, admin list views, user interface code and the load tester: data and display.
