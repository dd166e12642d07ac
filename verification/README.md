# shcr: a verified model

shcr records shell commands on several devices, keeps them in an append-only event log, merges the
logs through a shared bucket, and ranks the merged history for a picker. This project models that
machinery in Dafny and proves what it is relied on for.

**The event log and its view** (`Events`, `Rows`, `Store`). Each device has an event table keyed by
event id. Every command's row and its search entry are rebuilt from the command's events, ordered by
created_at and event id. The row is defined field by field from the last event of each kind; the
replay loop is proved to compute it, and the tables are a function of the event set.

**The sync protocol** (`Lex`, `Calendar`, `BatchKeys`, `Protocol`, `WriterSafety`, `ReaderSafety`,
`SkippedBatch`, `Convergence`, `Engine`, `Fleet`, `HistoryImport`). N devices share a bucket. A step system has one step for
each call a push or a pull makes: append, collect, name, put batch, put manifest, mark synced, poll,
list, fetch, apply one event, advance, save cursor, crash. Three hypotheses are stated as predicates
on steps and never hidden in a precondition: a device's cycles are serialised (a node has one phase);
`OwnAndCoherent`, that a device records only its own events and an id stands for one event; and H
(`KeyAboveAll`), that each batch key put under a prefix exceeds every key already there. The code
orders a new key against the manifest only. The exact condition on clock and stored keys under which a
push keeps H is proved, H is derived from either of two conditions on whole runs, and a family of runs
shows exactly when a torn push makes a batch be skipped for ever. `Engine` holds the imperative engine:
each method is proved to move the whole system along steps of the protocol, whatever call fails; `Fleet`
runs every device's engine over one bucket until all agree. Keys
are numbers in the protocol; `BatchKeys` proves that the real key strings sort as those numbers do.

**The ranking cache and the frecency counter** (`Frecency`, `CommandStats`, `StatsCache`). The decay is
any function with the laws of an exponential. The incremental cache is compared with a rebuild over
every run of appends and overlapping passes.

**Matching and ranking** (`Matcher`, `Score`, `Ranking`, `RankingTies`). The greedy subsequence search, the tiers, the
score, the two-phase list with its cut at 200. Cube root and log1p are functions with the monotonicity
used; the letter classes of Unicode are parameters.

**History files** (`Undated`, `ZshHistory`, `FishHistory`). Dating undated entries in nanosecond and
millisecond arithmetic, zsh's stored form against a writer for it, fish's escaping.

**The scheduler, the spool and the sweep** (`SyncLoop`, `Spool`, `Sweep`). A timed state machine over any
schedule; the spool with hooks writing and the daemon dying between any two steps; the orphan sweep.

Where the code and its own words differ, the model follows the code:

- `internal/store/stats.go:38-41` expects the next pass to mend the cache after a redaction has changed a
  row's text. The old text's entry is not among the changed ones, so it stays until a rebuild; a pass is
  enough if and only if no non-empty text was taken away (`StatsCache.PassIsExactIff`,
  `StatsCache.GoneTextStaysUntilRebuild`). The branch that deletes an entry with no runs is never taken.
- `internal/sync/engine.go:131-140` promises that each new key sorts after all this device published
  before. It sorts after the one its manifest names, and only before the year 10000
  (`BatchKeys.NextKeySortsAfter`); it sorts after every stored one if and only if they are of earlier
  milliseconds than it carries (`ReaderSafety.PushKeepsHIff`, `SkippedBatch.TornPushSkipsIff`).
- `internal/histimport/histimport.go:106-128` derives an import's id without the device, so two devices
  importing one line disagree about its device and host (`HistoryImport.SameLineImportedTwice`).
- `internal/rank/frecency.go:57-60` means a late arrival inside an existing burst to be suppressed. It is
  compared with the latest counted execution only (`Frecency.SuppressedIff`), so the weight has no bound
  out of order (`Frecency.LateArrivalsPassAnyBound`).
- `internal/rank/score.go:22-25` clamps the multiplier at 2.0, which no context reaches
  (`Score.MultiplierRange`).
- `internal/rank/score.go:78-82` calls a command debugged when its most recent execution has failed. The
  code asks whether any has, within the window (`Ranking.ContextOfHistory`, `Ranking.DebuggingAfterSuccess`).
- `internal/sync/loop.go:48-49` calls MaxBackoff a cap. The first backoff is the floor, also above it, and
  that is the only case (`SyncLoop.CapKeptInRunsIff`, `SyncLoop.CapExceeded`).
- `internal/sync/loop.go:81-83` has every trigger end in a sync. One taken while syncing is turned off is
  used up by an attempt that does not sync (`SyncLoop.TriggerServedIff`, `SyncLoop.OffUsesUpTrigger`).
- `internal/daemon/daemon.go:272-290` removes the replayed file also when the store refused a line or the
  scanner gave up on a long one; what is lost is stated exactly (`Spool.Drainer.DrainFile`,
  `Spool.NothingStrandedIff`, `Spool.Drainer.OverlongLineIsLost`).

`dafny verify dfyconfig.toml` checks the whole project.

## Model

| member | source | states |
|---|---|---|
| Calendar.CivilOrder | internal/sync/engine.go:32-35 | Comparing two instants field by field, year to millisecond, is comparing the instants: nothing about leap years or month lengths breaks the order of the written timestamp. |
| BatchKeys.StampRoundTrip | internal/sync/engine.go:160-171 | Parsing the written timestamp returns exactly the millisecond it was written from, for every instant of the years 0000 to 9999. |
| BatchKeys.StampOrder | internal/sync/engine.go:141-157 | The written timestamps of two instants are in byte order exactly when the instants are in time order. |
| BatchKeys.KeyTimeRoundTrip | internal/sync/engine.go:160-171 | The time recovered from a batch key is the time it was named with, whatever the device id and the random suffix. |
| BatchKeys.KeyOrder | internal/sync/engine.go:141-157 | Two keys of one device sort as (millisecond, suffix) pairs do; this is what lets the protocol model use numbers for keys. |
| BatchKeys.KeysDistinct | internal/sync/engine.go:141-157 | Two keys of one device are the same string exactly when millisecond and suffix agree. |
| BatchKeys.NextKeySortsAfter | internal/sync/engine.go:141-157 | For every clock value, also one in the past or in the same millisecond, and every two suffixes, the next key sorts after the previous one if and only if the previous key is not in the last millisecond of the year 9999. |
| BatchKeys.KeyChainAscends | internal/sync/engine.go:141-157 | Along any chain of completed pushes every later key sorts after every earlier one, whatever the clock did in between, as long as clock readings and chain stay short of the year 10000. |
| BatchKeys.NextAboveIff | internal/sync/engine.go:141-157 | The next key sorts above a stored one whatever suffix it draws if and only if the stored one is of an earlier millisecond than the key will carry: the clock's, or the one after the manifest's if that is later. |
| BatchKeys.NewKeyAtNextPosition | internal/sync/engine.go:141-157 | The string the engine names and the number the protocol model steps to are the same key. |
| BatchKeys.FirstKeyAtNextPosition | internal/sync/engine.go:141-157 | The same for a device that has no manifest yet. |
| Events.ListingUnique | internal/store/store.go:154-165 | Ordering a command's events by created_at and event_id leaves one sequence for a set of events, whatever order they were stored in. |
| Rows.LastWhereGreatest | internal/store/store.go:154-297 | The event a field is read from is the greatest of its kind in the set, so the replay does not depend on arrival. |
| Rows.OutcomeOfView | internal/store/store.go:235-261 | Exit code and end time are those of the end event with the greatest created_at, the greatest id among equals; the status follows from that code, and without an end event from an orphan, then an import. |
| Rows.OriginOfView | internal/store/store.go:178-234 | Text, host, shell, start time and device are those of the start or import with the greatest created_at; any redact replaces the text. |
| Rows.SessionOfView | internal/store/store.go:178-222 | Session, directory, process group and background flag are those of the latest start; the branch is that of the latest start that names one; without end or start time the duration is that of the latest import that has one. |
| Rows.SameEventsSameViews | internal/store/store.go:125-297 | Any two histories of appends that end with the same event set end with the same rows and the same search entries, but for the device of a row no start or import names. |
| Rows.DeviceFieldDetermined | internal/store/store.go:230-234 | That device is determined if and only if a start or import names one or all of the command's events come from one device. |
| Rows.RowsOnlySettle | internal/store/store.go:154-297 | Adding events never lowers a row's state (running, imported, orphaned, ended), and a redacted text does not come back. |
| Rows.TablesOnlySettle | internal/store/store.go:125-297 | The same for whole tables: no row disappears, none unsettles, and after a redact neither the row nor its search entry shows anything but the marker. |
| Rows.TextChangesOnlyBy | internal/store/store.go:178-222 | Only a start, an import or a redact can change the text a row shows. |
| Store.Replayed | internal/store/store.go:154-297 | The replay loop computes the row that is defined field by field from the last event of each kind, and fails exactly when one of the events does not decode. |
| Store.EventStore.Recompute | internal/store/store.go:154-297 | Rebuilds the one row a transaction touches so that it is the view of the event set, for any device the unordered LIMIT 1 may return. |
| Store.EventStore.QueryCommand | internal/store/store.go:154-165 | All of the command's events and no others; created_at never falls along them, and events of one moment stand in order of their ids. |
| Store.EventStore.Append | internal/store/store.go:125-151 | A known id changes nothing; a new event is stored, flagged, given the next rowid, and its row and single search entry are rebuilt; an event that does not decode leaves everything as it was. |
| Store.EventStore.UnsyncedEvents | internal/store/store.go:484-509 | The device's own pending events, oldest first: in the answer created_at never falls and events of one moment stand in order of their ids; no pending event left out is older than one in it; as many as there are, up to the limit (500 when none is given). |
| Store.EventStore.MarkSynced | internal/store/store.go:511-531 | Exactly the named events that exist are flagged, all or none. |
| Store.EventStore.Cursor | internal/store/store.go:640-650 | An unknown peer starts from the beginning. |
| Store.EventStore.SaveCursor | internal/store/store.go:652-662 | Only that peer's cursor changes, and only if the write succeeds. |
| Store.EventStore.LiveCommands | internal/store/store.go:437-446 | Exactly the running rows of one device, each once. |
| WriterSafety.WriterStep | internal/sync/engine.go:224-287 | Every step of every device, crash included, keeps the writers' invariant. |
| WriterSafety.ReachableWriters | internal/sync/engine.go:203-287 | With no hypothesis at all, in every reachable state: a batch under a device's prefix holds that device's own events only, at most 500; a manifest names a stored batch; every own event marked synced lies in a stored batch at or below the manifest. |
| WriterSafety.LogsGrow | internal/store/store.go:125-151 | No step of any device removes or rewrites an event in any log. |
| ReaderSafety.ReaderStep | internal/sync/engine.go:353-449 | Every step that keeps hypothesis H keeps the readers' invariant: all that lies at or below a cursor has been applied, also half way through a pull. |
| ReaderSafety.NothingSkipped | internal/sync/engine.go:353-416 | Nothing is lost: in every state N devices can reach under H, with crashes and unreadable batches anywhere, the id of every event of every peer batch at or below a device's cursor is in its log. |
| Convergence.NothingSkippedOrAltered | internal/sync/engine.go:353-449 | With an id standing for one event, what the log holds under that id is the event itself, as its device recorded it. |
| ReaderSafety.PassedBatchesAreHeld | internal/sync/engine.go:353-416 | Under H every batch a cursor has passed is held in full. |
| ReaderSafety.RereadChangesNothing | internal/sync/engine.go:418-449 | Fetching, applying and passing over a batch whose events are held, as those of every passed batch are, is a run that ends with the same log, synced flags and saved cursors. |
| ReaderSafety.PushKeepsHIff | internal/sync/engine.go:224-275 | H, push by push: the key made in a given millisecond exceeds every stored key of the device, whatever its suffix, if and only if all stored ones are of earlier milliseconds than it carries; and for one suffix if and only if they all lie below that key. |
| ReaderSafety.UntornPushesAscend | internal/sync/engine.go:261-275 | H follows if no push stops between its two Puts, whatever the clocks do. |
| ReaderSafety.RisingClocksAscend | internal/sync/engine.go:141-157 | H follows if each device's millisecond clock rises from push to push, wherever pushes stop. |
| SkippedBatch.TornPushSkipsIff | internal/sync/engine.go:224-287 | H is needed, and exactly when: for all clock readings and suffixes, after a push torn between its Puts and a later full one, a reader has skipped the later batch if and only if its key does not lie above the torn one; otherwise the reader's next pull brings it. |
| SkippedBatch.SkipInClockTerms | internal/sync/engine.go:141-157 | That is: the clock has stepped back behind the torn key's millisecond, or stands on it and drew no larger a suffix. |
| SkippedBatch.TornPushAndBackwardClockSkipABatch | internal/sync/engine.go:224-287 | One such run, with keys made in milliseconds 10, 20 and 15. |
| SkippedBatch.SkippedForGood | internal/sync/engine.go:353-416 | Such a batch stays unread: no step of any device brings its events back. |
| Convergence.OwnEventsEverywhere | internal/sync/engine.go:175-199 | When nothing is pending and every cursor has reached every manifest, each event its own device recorded is in every log. |
| Convergence.QuietDevicesAgree | internal/sync/engine.go:175-199 | In such a world all logs are equal if and only if no id stands for two different events. |
| Convergence.QuietDevicesShowTheSame | internal/sync/engine.go:175-199 | Then all devices show the same rows and find the same text. |
| HistoryImport.SameImportIff | internal/histimport/histimport.go:106-128 | One history line gets one id wherever it is imported, and one event only on one device under one host name. |
| HistoryImport.SameLineImportedTwice | internal/histimport/histimport.go:106-128 | So the hypothesis fails for imports: two devices that import one line, whatever digest names it, differ in every state they can reach. |
| Convergence.OneIdTwoEventsNeverAgree | internal/store/store.go:125-151 | Two logs that hold different events under one id never become equal. |
| Convergence.TwoRoundsQuiet | internal/sync/engine.go:175-199 | Two rounds of cycles that each end drained and caught up, in any order of the devices, leave nothing pending and every manifest read. |
| Fleet.SyncOne | internal/sync/engine.go:175-199 | A device's SyncOnce is such a cycle, and leaves every other engine over the bucket valid in the new world. |
| Fleet.SyncRound | internal/sync/engine.go:175-199 | Every engine syncing once in turn is a round, and a run of the protocol. |
| Fleet.TwoRounds | internal/sync/engine.go:175-199 | From any state, two such rounds leave nothing pending and every manifest read; if the state is reachable under the hypotheses and the clocks keep H, all devices then hold the same events, rows and search entries. |
| Convergence.TwoRoundsConverge | internal/sync/engine.go:175-199 | Under the hypotheses all devices then hold the same events. |
| Engine.Bucket.List | internal/sync/storage.go:31-41 | The keys after a bound, in ascending order, none missing. |
| Engine.Bucket.Children | internal/sync/storage.go:43-50 | Every device id under which a batch or a manifest is stored, each once. |
| Engine.Bucket.PutBatch | internal/sync/storage.go:123-149 | An atomic write: afterwards the object is there or it is not, and a call may fail after having stored it. |
| Engine.SyncEngine.PushBatch | internal/sync/engine.go:224-287 | One push takes the head of the queue, stores it under a key above the manifest's, moves the manifest to that key and marks exactly those events; stopped anywhere it is a run of the protocol. |
| Engine.SyncEngine.Upload | internal/sync/engine.go:259-277 | The two Puts: both done, or the engine stops where the failing one left the bucket. |
| Engine.SyncEngine.PushOnce | internal/sync/engine.go:203-222 | Terminates; the batches sent are a partition of the front of the queue in order, and whatever fails exactly the rest of the queue is still pending; when it succeeds the whole queue was sent, as batches of 1 to 500 events under ascending keys, and nothing is pending. |
| Engine.SyncEngine.ApplyBatch | internal/sync/engine.go:418-449 | Applies a batch event by event and counts the new ones, also when it stops early; pulled events never join the queue; a batch whose events are held changes no table, row or search entry. |
| Engine.SyncEngine.ReadListed | internal/sync/engine.go:376-393 | Applies listed batches up to the first that cannot be read; the position it reports is the last one applied. |
| Engine.SyncEngine.PullPeer | internal/sync/engine.go:353-416 | A clean pull ends with the cursor at or past the peer's manifest and counts exactly the new events; one that stops early counts no more than it added and keeps the progress it counted; either way the log only grows, exactly what is new is flagged as synced, and no other cursor moves. |
| Engine.SyncEngine.PullOnce | internal/sync/engine.go:326-351 | Fails exactly if the devices cannot be listed, or there are some and every pull failed; every peer whose pull did not fail is read to its manifest, so a success has read one or found none; what is added is flagged as synced and nothing else is. |
| Engine.SyncEngine.Peers | internal/sync/engine.go:310-323 | Each other device that has anything in the bucket, once, and never this device itself. |
| Engine.SyncEngine.SyncOnce | internal/sync/engine.go:175-199 | A full cycle is a run of the protocol, whatever fails. It succeeds exactly if the push drains the queue and then not every pull fails; a failed push reads nothing; the counts are those of the events that left the queue and of the events added. With nothing failing the device ends drained and caught up, which is what the convergence lemmas ask of a round. |
| Frecency.ObservedIsDecayedSum | internal/rank/frecency.go:41-68 | After positive times in any order the counter holds, as of the latest, the sum of the decays of the executions it counted. |
| Frecency.ValueIsSum | internal/rank/frecency.go:71-76 | From the latest time on, the value is that sum at every later moment. |
| Frecency.Counter.Observe | internal/rank/frecency.go:41-68 | The counter's in-place update is the specified next state, suppression included. |
| Frecency.Counter.ValueIsDecayedSum | internal/rank/frecency.go:71-76 | The same for a counter object, whatever sequence of calls it has seen. |
| Frecency.AnyOrderSameValue | internal/rank/frecency.go:41-76 | Executions pairwise further apart than a burst give the same value in every order. |
| Frecency.CountedOncePerBurst | internal/rank/frecency.go:57-67 | In ascending order the counted executions are more than a burst apart. |
| Frecency.AscendingWeightBounded | internal/rank/frecency.go:41-68 | In ascending order the weight never exceeds 1 / (1 - decay(window + 1 ms)), however many executions there are. |
| Frecency.SuppressedIff | internal/rank/frecency.go:57-67 | An execution is suppressed if and only if it lies within a burst of the latest one counted so far, whatever earlier ones it lies close to. |
| Frecency.LateArrivalsAllCounted | internal/rank/frecency.go:57-67 | So out of order late arrivals of one moment, more than a burst before the latest, are every one counted. |
| Frecency.LateArrivalsWeight | internal/rank/frecency.go:41-68 | n of them bring the weight to 1 + n times the decay of their age. |
| Frecency.LateArrivalsPassAnyBound | internal/rank/frecency.go:41-68 | The bound of the ascending order, or any other, is passed by enough of them. |
| CommandStats.TallyUnique | internal/store/stats.go:147-197 | A text's statistics depend on the set of its executions only: rows with equal start times may come in any order. |
| CommandStats.StatFor | internal/store/stats.go:147-197 | The loop over the query computes those statistics. |
| CommandStats.RunsCountExecutions | internal/store/stats.go:147-197 | The run count is the number of rows with the text. |
| CommandStats.CountsByKind | internal/store/stats.go:161-195 | Each execution is counted under its one kind: exit code 0, 126 or 127, 129 to 165, any other, or no result at all; the kinds add up to the runs. |
| CommandStats.LatestTimes | internal/store/stats.go:161-195 | The two times are those of the latest execution and of the latest failed one, 0 when there is none. |
| StatsCache.CoveredCacheIsRebuild | internal/store/stats.go:45-144 | A cache in which every event is covered is the rebuilt cache, and conversely. |
| StatsCache.ArrivalKeepsCovered | internal/store/stats.go:38-48 | An event that gives its row its first text or leaves the text alone uncovers nothing. |
| StatsCache.PassCovers | internal/store/stats.go:45-144 | A pass covers everything up to the bound it read first, and uncovers nothing, also when it started from an old watermark. |
| StatsCache.CacheEqualsRebuild | internal/store/stats.go:45-208 | In every run of appends and overlapping passes whose events take no row's text away, with events landing between the bound and the transaction, one pass to the end of the log gives exactly the rebuilt cache, for every text. |
| StatsCache.PassIsExactIff | internal/store/stats.go:38-48 | From an exact cache, one event and one incremental pass give the rebuilt cache if and only if the event does not take a non-empty text away from its row. |
| StatsCache.GoneTextStaysUntilRebuild | internal/store/stats.go:65-79 | A text no row shows any more survives every incremental pass and goes with the rebuild. |
| StatsCache.RankingCache.RefreshCommandStats | internal/store/stats.go:45-144 | One call, with any events landing after the bound is read: the new cache and watermark are those of the specified pass, or nothing changes. |
| Matcher.Subsequence | internal/rank/rank.go:165-189 | Succeeds exactly when the token embeds in order; the positions end where the earliest embedding ends, and each is the latest any embedding with that end allows, so the span is the shortest with that end. |
| Matcher.CapitalRun | internal/rank/rank.go:203-224 | Inside a word a run of capitals starts a word at its first capital, and at its last one exactly if a lower-case letter follows. |
| Matcher.WordStarts | internal/rank/rank.go:205-224 | Marks exactly the word starts: the first character; after a separator every character but another separator; elsewhere capitals only, and every one that follows no capital. |
| Matcher.WordsMatchAsWords | internal/rank/rank.go:97-119 | A token that is the folded beginning of a word, one that opens the command or follows a separator, matches with the prefix tier. |
| Matcher.HasPrefixAt | internal/rank/rank.go:191-201 | True exactly if the token stands verbatim at that place. |
| Matcher.RatingRange | internal/rank/rank.go:131-155 | A token's score lies in (0, 1] and is 1 exactly if its characters are adjacent and each starts a word. |
| Matcher.RatingOfAdjacent | internal/rank/rank.go:121-155 | A token that stands verbatim inside one word scores 1 or 0.4 for its first character, as that starts a word or not, and 0.7 for each other, over its length. |
| Matcher.TokenScore | internal/rank/rank.go:131-155 | The loop computes mean placement times softened compactness. |
| Matcher.MatchesOnce | internal/rank/rank.go:97-119 | A token matches a text in at most one way. |
| Matcher.TierSaysHow | internal/rank/rank.go:97-119 | The tier is prefix exactly if the token begins some word, else substring exactly if it stands verbatim somewhere, else fuzzy. |
| Matcher.MatchToken | internal/rank/rank.go:97-119 | Fails exactly if the token is empty or embeds nowhere; otherwise returns the first place of the best tier and its score. |
| Matcher.MatchCommand | internal/rank/rank.go:63-95 | Succeeds exactly if every token matches; its tier and score are those of the query as a function; a query for the beginning of a word of the command gets the prefix tier. |
| Matcher.QueryRange | internal/rank/rank.go:63-95 | The tier is the lowest of the tokens' tiers, and the score lies in (0, 1]. |
| Matcher.TokenOrderIrrelevant | internal/rank/rank.go:47-63 | Permuting the query's tokens changes neither the verdict nor tier nor score. |
| Score.MultiplierRange | internal/rank/score.go:89-118 | The context multiplier lies between 0.6 and 1.878525, a value it takes: the upper clamp of 2.0 is never reached. With no signal it is 1. |
| Score.LowerClampReached | internal/rank/score.go:89-118 | The lower clamp can matter only for a command that was never found and is known from imports only. |
| Score.SignalsPullOneWay | internal/rank/score.go:89-118 | Whatever the other signals say: standing where the command was run never lowers the multiplier; a higher failure rate, an import-only past and never having been found never raise it; debugging lifts the penalty for failing. |
| Score.LessIsTotalOrder | internal/rank/score.go:136-144 | The comparison is a strict total order on tier, score and time: only equal keys tie. |
| Ranking.SortSorts | internal/tui/ranking.go:76-81 | The sort is a permutation in order. |
| Ranking.SortIsStable | internal/tui/ranking.go:76-81 | Candidates with equal keys keep the order they came in. |
| Ranking.TiersNeverIncrease | internal/tui/ranking.go:60-117 | Down the list tiers never rise, whatever the contexts say, and within a tier scores do not. |
| Ranking.SmallListsRankInFull | internal/tui/ranking.go:82-108 | With at most 200 matches the list shows the same keys in the same order as a full ranking of everything. |
| Ranking.SmallListsSameIff | internal/tui/ranking.go:82-108 | It is the very same list if and only if the two rankings agree on the order of exact ties. |
| RankingTies.ABMatches | internal/rank/rank.go:63-95 | The query ab matches the commands ab and aB as a word, with scores 0.85 and 1. |
| RankingTies.BurstTally | internal/store/stats.go:147-197 | Any number of runs at one moment weigh 1, with their successes and failures counted. |
| RankingTies.TieCanSwap | internal/tui/ranking.go:82-108 | They can disagree: for the query ab over a cache with ab, five successes, and aB, three failures in five, the full scores tie and the two-phase list is not the full ranking. |
| Ranking.WhatTheCutCanCost | internal/tui/ranking.go:82-108 | No dropped candidate has a better tier than a kept one, and within a tier its full score is at most 1.878525 / 0.6 times any kept one's. |
| Ranking.CandidatesFromPhaseOne | internal/tui/ranking.go:60-75 | Every candidate of phase one over cached statistics is a real match with a non-negative cheap score, which is what the bound above assumes. |
| Ranking.CandidatesInOrder | internal/tui/ranking.go:60-75 | The candidates are exactly the cached commands that match, in the order of the cache. |
| CommandStats.WeightNonNegative | internal/store/stats.go:147-197 | No text's weight is negative. |
| Ranking.FailureRateInRange | internal/tui/ranking.go:130-136 | The failure rate lies between 0 and 1. |
| Ranking.ContextOfHistory | internal/tui/ranking.go:121-142 | The context in terms of the executions: the failed share of those that ended or could not be run; never found if some could not be run and none ended; debugging if one failed in the last quarter of an hour; imported if all are. |
| Ranking.DebuggingAfterSuccess | internal/tui/ranking.go:140 | A recent failure counts as debugging also when the command has succeeded since. |
| Ranking.RankedResults | internal/tui/ranking.go:21-117 | The answer keeps the order of the list it comes from, the two-phase ranking or without tokens the first 200 of the history, passing over the commands without a row and no others; when all have one it is their rows place by place; tiers never rise along it. |
| Undated.ApproximateUndated | internal/histfile/histfile.go:302-346 | The in-place pass dates each entry as its neighbours say: dated ones are left alone, each undated one gets its place in its run. |
| Undated.RunsIncrease | internal/histfile/histfile.go:302-346 | Inside an undated run times come out strictly increasing, for any neighbours, also equal or reversed ones. |
| Undated.RunEndsBefore | internal/histfile/histfile.go:302-346 | A run ends strictly before the dated entry after it, or before the file's time. |
| Undated.RunStartsAfterIff | internal/histfile/histfile.go:314-338 | A run of n starts after the dated entry before it if and only if the gap is at least n + 1 milliseconds. |
| Undated.SecondApart | internal/histfile/histfile.go:314-338 | Unless the dated entry before leaves less room, the entries of a run come out one second apart, the last a second before the next time. |
| Undated.FileIncreasesIff | internal/histfile/histfile.go:302-346 | The whole file comes out strictly increasing if and only if every dated entry is followed by such a gap. |
| ZshHistory.HeaderReadsBack | internal/histfile/histfile.go:132-151 | A header line reads back as the two numbers and the rest it was written with. |
| ZshHistory.UnmetafiedMetafied | internal/histfile/histfile.go:227-243 | zsh's byte escaping is undone byte for byte. |
| ZshHistory.Unmetafy | internal/histfile/histfile.go:227-243 | The loop, with its shortcut when nothing is escaped, computes that decoding. |
| ZshHistory.ContinuesLine | internal/histfile/histfile.go:356-362 | True exactly if the line ends in an odd number of backslashes. |
| ZshHistory.GatherWritten | internal/histfile/histfile.go:186-197 | Joining the lines of a stored command gives the command back. |
| ZshHistory.ParseZsh | internal/histfile/histfile.go:165-215 | The parser's loops compute the specified entries, undated ones placed by position. |
| ZshHistory.FileRoundTrip | internal/histfile/histfile.go:165-215 | Any sequence of non-blank commands, written the way zsh stores them with or without a header, parses back to the same commands and durations; those with a header keep their start times and those without are dated by position, provided every line ends in an even number of backslashes, the numbers fit, and the first line of a command without a header is not blank and does not look like one. |
| ZshHistory.OneCommandReadsBackIff | internal/histfile/histfile.go:348-362 | That condition is exact: a single stored command with a header reads back if and only if it is not blank and none of its lines ends in an odd number of backslashes. |
| FishHistory.RoundTrip | internal/histfile/histfile.go:400-424 | Decoding undoes fish's escaping on every string. |
| FishHistory.UnescapeFish | internal/histfile/histfile.go:400-424 | The one-pass loop computes that decoding. |
| FishHistory.KeptIff | internal/histfile/histfile.go:400-424 | A value decodes to itself if and only if no backslash in it stands before an n or another backslash: unknown escapes are kept. |
| SyncLoop.WithDefaults | internal/sync/loop.go:61-76 | Whatever the configuration says, the loop runs on a positive floor, a ceiling no lower than it and a positive cap; a sound configuration is kept. |
| SyncLoop.TriggerNeverDelays | internal/sync/loop.go:132-140 | Taking a trigger never moves the next deadline later, whatever jitter is drawn, and further triggers do not move it at all. |
| SyncLoop.CeilingHolds | internal/sync/loop.go:172-200 | A deadline is never before the floor and never after the ceiling plus jitter, or the floor if that is later; before the first success it is the floor. |
| SyncLoop.BackoffDoubles | internal/sync/loop.go:219-230 | Failure after failure the backoff is the floor, then doubles up to the cap. |
| SyncLoop.BackoffBounded | internal/sync/loop.go:219-230 | It stays at or below the larger of floor and cap. |
| SyncLoop.CapKeptInRunsIff | internal/sync/loop.go:219-230 | Along every run the backoff is within the cap if and only if the failures in a row are not exactly one or the floor is within the cap. |
| SyncLoop.CapExceeded | internal/sync/loop.go:219-224 | One failure under a floor of thirty seconds and a cap of ten waits thirty. |
| SyncLoop.TurnKeepsInv | internal/sync/loop.go:111-170 | Every turn of the loop keeps the spacing, the earned backoff and the memory of triggers. |
| SyncLoop.EveryRun | internal/sync/loop.go:111-170 | Over every schedule of triggers, receives, timer firings and outcomes, from any configuration: attempts start at least the floor and the backoff their failures earned apart; the backoff stays bounded; no call to Trigger is dropped before an attempt at or after it. |
| SyncLoop.CallIsAnswered | internal/sync/loop.go:78-90 | Every call to Trigger is followed by an attempt that starts at or after it, in every schedule in which afterwards the running attempt ends, the loop receives and a due timer is selected. |
| SyncLoop.CallIsAnsweredInTime | internal/sync/loop.go:111-170 | A timer selected later than the call by the larger of floor and cap is due, whatever has failed in between. |
| SyncLoop.TriggerServedIff | internal/sync/loop.go:141-168 | The attempt that takes a trigger uses it up; it has been synced for if and only if syncing was on and the sync succeeded. A failure is tried again at the floor, an attempt made while syncing is off not before the ceiling. |
| SyncLoop.OffUsesUpTrigger | internal/sync/loop.go:151-156 | A run in which a trigger is taken while syncing is off: nothing is left queued and nothing was synced. |
| SyncLoop.Loop.Trigger | internal/sync/loop.go:84-90 | A call never blocks; with a trigger queued already it changes nothing but the record. |
| SyncLoop.Loop.Delay | internal/sync/loop.go:172-207 | The timer is set for the deadline, or fires at once when that is past. |
| SyncLoop.Loop.End | internal/sync/loop.go:158-168 | Failure and success move backoff, last success and history as specified. |
| SyncLoop.Loop.Run | internal/sync/loop.go:111-170 | The loop goes through exactly the states the schedule calls for. |
| Spool.Drainer.Replay | internal/daemon/daemon.go:277-290 | The log grows by the events of the lines the store took and by no other, whether or not the daemon dies on the way: under each new id stands what the first taken line with that id says; nothing is flagged as synced; a working store takes every line that holds something to record. |
| Spool.Drainer.Ingest | internal/daemon/daemon.go:159-192 | One line adds at most the event it says, under its own id, not yet synced; the rest of the log, the flags and the cursors stay. |
| Spool.NothingStrandedIff | internal/daemon/daemon.go:264-291 | With a working store a drained file loses nothing if and only if every line from the first over-long one on has nothing to record, or an event that was in the log or is on a line before it. |
| Spool.Drainer.OverlongLineIsLost | internal/daemon/daemon.go:272-290 | An over-long line whose event is neither in the log nor on an earlier line goes with its file: after the drain it is in no log and no file. |
| Spool.Drainer.DrainFile | internal/daemon/daemon.go:264-291 | At every crash point each recordable line ever spooled is in the log or in one of the two files; a removed file loses exactly the lines whose event was not in the log and on no line the store took. |
| Spool.Drainer.Rename | internal/daemon/daemon.go:250-255 | The spool is moved aside over nothing. |
| Spool.Drainer.DrainSpool | internal/daemon/daemon.go:230-260 | The same for the whole drain with hooks writing between any two steps: what the log gains is what spooled lines say, and all of it joins the events waiting to be uploaded; with a working store and no over-long line nothing is lost; a completed drain leaves no set-aside file, and with no hook writing every line ever spooled is in the log. |
| Sweep.OrphanSettles | internal/store/store.go:154-297 | An orphan event turns a running row orphaned. |
| Sweep.SweepOrphans | internal/daemon/daemon.go:331-358 | After a sweep every command that has been running on the device for five seconds under a shell has that shell alive; only such commands with a dead shell changed, to orphaned; each of them got one orphan event, counted, and these events wait to be uploaded; a repeat with the same clock and process table appends nothing. |

## Left out

- SQL, SQLite locking, migrations and FTS tokenisation: tables are maps and sequences, a transaction is one assignment that happens or does not, the search index is a map from row to text.
- Encryption and JSON: a stored batch reads back as it was written or the read fails; payloads are typed values, one of which stands for a payload that does not decode.
- The stamp parser accepts canonical stamps only; Go's also takes a one-digit hour and a comma before the fraction, which the engine never writes.
- `internal/sync/gcs.go`, retries, hostnames in manifests, key loading and logging: no part in the invariants.
- Engines running at the same time: a method of `Engine.SyncEngine` moves its own device only, and `Fleet` runs one engine after another; the interleavings are the step system's.
- Infinite schedules: that a receive and a due timer are selected at last is a condition on a finite schedule in `SyncLoop.CallIsAnswered`.
- 64-bit overflow of durations and times, save in `ZshHistory`, where ParseInt's saturation and the wrap of the product are modelled.
- Floating-point rounding in `Frecency`, `Matcher`, `Score` and `Ranking`: reals.
- `internal/redact` and the skip rules: a spooled line is mapped to the event it makes the daemon record, or to none.
- The number of lines that `DrainSpool` reports: a log message, and it also counts lines that record nothing.
- Status filters of the picker and the splitting of a query into tokens: the ranker is modelled with no filter and given its tokens.
- Engine.SyncEngine.PushOnce: speaks of a queue nobody appends to while it drains; a queue that keeps growing need not empty.
- bash's parser and fish's line format, sniffing and discovery of history files: they add easy members beside zsh's.
- `internal/histimport` but for the event of one entry: counters, dry runs and export.
- The pull's defensive skip of listed keys at or below the cursor: the Storage contract never lists one.
- A hook that opened the spool before the rename and writes after it: opening and writing are one step here.
- Picker UI, web server, shell hooks, configuration and paths: user interface and plumbing.
