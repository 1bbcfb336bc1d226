# WeeklyNet, modelled and proved in Dafny

WeeklyNet turns MeshCore packets heard over MQTT into weekly check-ins. It stores every packet and
derives check-ins, links and observer badges from it. A background pruner throws old packets away,
and a leaderboard is computed from what remains. This project models that pipeline and proves that
its parts keep their promises to each other.

| file | models |
|---|---|
| `Calendar.dfy` | local days, week starts, the retention window and the count of weeks |
| `ClockChanges.dfy` | the same where a clock change skips a midnight |
| `Tables.dfy` | the four tables: UNIQUE keys, foreign keys with cascade, one function per SQL statement |
| `Retention.dfy` | what a prune scans and what it keeps |
| `Protocol.dfy` | handlers, one pruner and one restore run, interleaved one statement at a time |
| `Lateness.dfy` | why the timing assumption is needed; redelivery; one message from start to finish |
| `LinkSafety.dfy` | which links a prune can take, and which it cannot |
| `Provenance.dfy` | where links and check-ins come from, and rebuilding links from raw packets |
| `Misfiling.dfy` | a run in which a restore files a packet under its old week |
| `Convergence.dfy` | ingest does not depend on order |
| `Views.dfy` | the two read queries and the export bundle |
| `Store.dfy` | the store object: migration, chunked deletion, the prune loop |
| `Journal.dfy` | what the log of the database says was done for one message |
| `Ingest.dfy` | the ingest service: `HandleMessage`, busy retries, the restore run |
| `Meshcore.dfy` | the packet decoder and the packet hash |
| `Checkins.dfy`, `Extraction.dfy` | channel decryption, text parsing, and the path from hex to check-in |
| `Streaks.dfy`, `Leaderboard.dfy`, `Season.dfy`, `Attendance.dfy` | streaks, ranking, the bounds on the numbers shown, and what they say about attendance |
| `Text.dfy`, `TextFormats.dfy`, `Dates.dfy`, `Sets.dfy`, `Wrappers.dfy` | text, observer names and dates kept as text, small helpers |

## How it is modelled

- An instant is a number of Unix seconds and a time zone is an offset function. `time.Date` is modelled
  as the Go library resolves it: the offset is looked up for the wall clock read as UTC, then again for
  the instant that gives. A zone is `Regular` if every local midnight exists and offsets never swing by
  24 hours or more. It is `Spaced` if wall-clock times may be skipped, but briefly and at least eight
  days apart, and `Orderly` if in addition later wall-clock times are later instants. Every zone with a
  single change of at most six hours is orderly (`Calendar.OneChangeIsOrderly`). Counting weeks needs
  `SmallSwings` too: offsets that never differ by 24 hours or more.
- A SQL statement is one atomic step. Any statement may fail and any handler may die between two. In the
  methods a failure is a nondeterministic choice, so their contracts hold whatever the database does. A log
  records what the database answered, so that no method can make up an error or skip a statement.
- Dates are day numbers. `Dates.EveryDayHasADate` says which calendar dates these are, and
  `Dates.TextOrderIsDayOrder` that the stored text compares as the numbers do.
- Histories start from any store in order; where rows must stem from the fixed configuration (`Prov`), from
  the empty store (`Provenance.EmptyStoreHasProvenance`) or any other for which that holds.
- SHA-256, HMAC, the AES block, JSON and Unicode case mapping are abstract functions. The only
  assumptions about them are that the packet digest is injective, that block decryption inverts block
  encryption, that lower-casing is right on ASCII and produces no ASCII capital letter, and that a text cut
  to a number of bytes is no longer than that.
- The results about whole runs hold in any zone, and so do the bounds on the leaderboard's numbers. The runs
  assume only that a prune never starts so late that it would not retain a message still being handled
  (`Timely`). `Protocol.TimelyIsInDays` and `Lateness.TimelyExactly` say what that means in days, and
  `Lateness.LateHandlerLosesCheckin` shows that it cannot be dropped.

## What turned out not to hold

The model follows the code in each of these; the rows named give the exact condition.

- The count of weeks is one short as soon as clocks have moved forward since the season began
  (`Calendar.CountWeeksExactly`, for zones that skip no midnight; an instance is
  `Calendar.SpringForwardUndercounts`). Where midnights may be skipped it is also short when the last week
  start lands on the day before (`ClockChanges.CountWeeksIff`, with an instance in
  `ClockChanges.SkippedSundayUndercounts`). A user who missed a week then still gets a full ring
  (`Attendance.RingMeansAttendance`); or, where the first week start lands early, nobody does
  (`Attendance.RingInOrderlyZone`).
- If a clock change skips midnight, the week start can land on the day before (`Calendar.WeekStartCorrectIff`,
  with an instance in `Calendar.SkippedMidnightMovesWeek`), and is then not the start of its own week
  (`ClockChanges.WeekStartIdempotentIff`). A streak over such a day is cut
  (`Attendance.StreakIsAttendanceIff`, with an instance in `Attendance.SkippedSundayBreaksStreak`).
- If a clock change skips midnight, a prune can drop the oldest week it is meant to keep: exactly when its
  cutoff lands late (`ClockChanges.WindowExactly`), which `ClockChanges.LateThisWeekIff` and
  `ClockChanges.LateIffSkippedForward` trace to the skipped midnight (an instance is
  `ClockChanges.SkippedMidnightShortensWindow`). The margin of six days plus the retained weeks then does not
  protect a message still being handled (`Lateness.TimelyExactly`, `Lateness.DayBoundIsNotEnough`, with an
  instance in `Lateness.LostOverSkippedMidnight`).
- The streak scan compares neighbours only, so a check-in on another weekday (after the net's day was
  changed) hides a run that it falls into (`Streaks.ScanFindsLongestIff`).
- An observer name with a comma is shown as two names (`TextFormats.NamesMatchKeysIff`, with an instance in
  `TextFormats.CommaShowsTwo`).
- The repository's README says the observer key is capped whether it comes from the envelope or the
  topic. The code does not cap the topic's key when a JSON envelope names no origin (`Ingest.EnvelopeLimits`,
  with an instance in `Ingest.LongDeviceKeyPasses`).
- One packet sent with and without a `0x` prefix is stored twice; nothing else about the text matters to
  deduplication (`Meshcore.HashIsPacketAndPrefix`, with an instance in `Meshcore.PrefixEvadesDedupe`).
- Links made by a restore that runs beside a prune can be deleted by it: exactly those made for a row the
  prune does not retain (`LinkSafety.RestoredLinkSafeIff` and `LinkSafety.LinkStaysIffSafe`, with an instance
  in `LinkSafety.RestoreRacesPrune`).
- A restore that runs beside a prune can file a packet under the week it had before it was pruned: exactly
  when the packet has been ingested again in another week since its row was read
  (`Provenance.RestoredLinkIsDueIff`, with a run in `Misfiling.ReingestedPacketIsMisfiled`). It cannot happen
  if no prune deletes rows while a restore is under way (`Provenance.UndisturbedIsCurrent`).
- A packet delivered in two weeks counts for the week it came in first (`Convergence.FirstWeekWins`).

## Model

| member | source | states |
|---|---|---|
| Protocol.NoCheckinLost | internal/ingest/service.go:50-147 | in every interleaving of handlers, prune steps and restore steps, with any failure or crash: keys and foreign keys hold, one check-in per user and week, each check-in has a link with its own hash, and no check-in ever disappears |
| LinkSafety.NoLinkLost | internal/storage/retention.go:25-79 | a link whose row the prune under way retains, or any link while none is under way, is never lost, whatever handlers, prunes and restores are interleaved later |
| LinkSafety.HandlerLinkNeverLost | internal/ingest/service.go:121-130 | a link that a handler stores is never lost, however many restores and prunes run before, beside and after it |
| LinkSafety.RestoredLinkSafeIff | internal/ingest/service.go:174-190 | a link that a restore stores is safe if and only if no prune is under way or the prune retains its row |
| LinkSafety.LostLinkIsRash | internal/storage/retention.go:25-79 | every link that is ever lost was stored by a restore, during a prune, for a row that prune did not retain |
| LinkSafety.LinkStaysIffSafe | internal/storage/retention.go:36-76 | after any run the safe links are exactly those that survive every way it can go on; any other is deleted if the prune just carries on with its batches and chunks |
| LinkSafety.FinishedPruneLeavesRetained | internal/storage/retention.go:36-78 | a prune that ends by its own scan, whatever handlers and restores ran beside it, leaves only rows that its cutoff or the snapshot it started from retains |
| Protocol.StepKeepsInv | internal/storage/retention.go:36-76 | each single step keeps the invariant behind this: rows waiting to be deleted are unprotected and outside the window, rows of check-ins and of handlers in flight are retained |
| Protocol.DeleteCascadesNothing | internal/storage/sqlite.go:79-109 | the ON DELETE CASCADE of a chunk delete removes no check-in, and no link whose row is retained, whatever other links there are |
| Protocol.TimelyIsInDays | internal/storage/retention.go:141-150 | in a regular zone the timing assumption means exactly that no prune starts more than six days and the retained weeks after a message still being handled; the weekday guard is what makes this a matter of whole days |
| Lateness.TimelyExactly | internal/storage/retention.go:25-31 | in every orderly zone, midnights skipped or not, it means that and, when the cutoff of the prune lands late, that no message from the oldest of these days is still being handled |
| Lateness.DayBoundIsNotEnough | internal/storage/retention.go:25-31 | whenever the cutoff lands late there is a run that keeps the day bound in every state and loses the check-in of a message from the oldest day |
| Lateness.LostOverSkippedMidnight | internal/storage/retention.go:25-31 | an instance: a message on a Thursday and a prune on the Friday whose midnight is skipped |
| Lateness.LateHandlerLosesCheckin | internal/storage/retention.go:26-31 | whenever a message in flight is out of the window of a prune that starts, there is a run in which its check-in is stored and then cascaded away: the timing assumption cannot be weakened |
| LinkSafety.RestoreRacesPrune | internal/ingest/service.go:174-178 | a run in which a link just restored is deleted by a prune |
| Lateness.RedeliveryChangesNothing | internal/ingest/service.go:111-114 | delivering a stored packet again changes no raw row, link or check-in, whichever statements fail |
| Lateness.SettleIsARun | internal/ingest/service.go:50-150 | any run can go on with a handler run by itself to where its script stops, and then stands where that handler leaves the store |
| Lateness.SettleKeepsStore | internal/ingest/service.go:50-150 | a handler, however far it gets and whichever statements fail, keeps every key, foreign key, check-in and link, and each check-in linked |
| Provenance.ProvAlways | internal/ingest/service.go:53-147 | in every run: every raw row lies on the target weekday and decodes to its hash; every check-in says what its packet says; every row that carries a check-in has its link, will get it, or is on record as missed |
| Provenance.LinksDueAlways | internal/ingest/service.go:121-130 | every link says what its packet says, as long as no restore meets a packet pruned and ingested again in another week |
| Provenance.RestoredLinkIsDueIff | internal/ingest/service.go:174-190 | a link that a restore stores says what its packet says if and only if the packet has not been ingested again in another week since the row was read |
| Provenance.UndisturbedIsCurrent | internal/ingest/service.go:164-190 | that is so whenever no prune deletes rows while a restore is under way |
| Provenance.RebuildIsExact | internal/ingest/service.go:152-195 | after any history, rebuilding links from raw packets gives a superset of the links there are exactly when each link says what its packet says; with no handler in flight it adds only links on record as missed, and with none missed it gives the same links exactly in that case |
| Provenance.UndisturbedRebuild | internal/ingest/service.go:152-195 | so it is after any history in which no prune deleted rows while a restore was under way |
| Misfiling.ReingestedPacketIsMisfiled | internal/ingest/service.go:164-190 | a restore reads a row, a prune deletes it, the packet comes again in another week, and the restored link says what no stored packet says |
| Convergence.Converge | internal/ingest/service.go:50-150 | two stores that heard the same packets from the same observers in the same weeks, in any order, multiplicity and interleaving and at whatever times, end with the same (week, user) check-ins and the same observers for each |
| Convergence.FirstWeekWins | internal/ingest/service.go:111-114 | the assumption that a packet's deliveries fall in one week is needed: in two orders the check-ins agree if and only if the weeks do |
| Ingest.IngestConverges | internal/ingest/service.go:50-150 | the same convergence for the actual decoder and extractor |
| Ingest.Service.HandleMessage | internal/ingest/service.go:50-150 | a message that fails a check changes nothing; otherwise the store ends where the stepwise handler leaves it when run to its end, the log shows each of the at most four statements run with its retries, and one counts as failed only if the database said so; a new packet handled without any error is stored with its observation and, if it carries a check-in, its link and check-in; a store in order stays in order and loses no check-in or link |
| Ingest.PlainMessageIsPrepared | internal/ingest/service.go:53-78 | an ordinary message in plain hex on the target weekday is accepted, with the region and device of its topic and the packet as sent |
| Ingest.EnvelopeIsPrepared | internal/ingest/service.go:255-285 | so is one in a JSON envelope, with the origin it names as observer |
| Ingest.RefusedMessages | internal/ingest/service.go:53-78 | whatever is accepted was heard on the target weekday, under a topic of the right form, and decodes; packet text, hash and time are those of the message |
| Lateness.MessageOutcomes | internal/ingest/service.go:80-147 | what a new packet with a check-in leaves, by which statements succeeded: a failed raw insert stops everything, a failed observation nothing else, a failed link the check-in |
| Lateness.OtherOutcomes | internal/ingest/service.go:80-119 | a new packet without a check-in leaves its row and observation only |
| Journal.UntroubledStores | internal/ingest/service.go:80-147 | with no error in the log every statement a new packet calls for has been run and has taken effect |
| Ingest.Service.WithBusyRetry | internal/ingest/service.go:222-240 | at most sixteen attempts, each on the log; the statement takes effect once or not at all; gives up on a busy database only after sixteen busy attempts, and otherwise only on another error or when the context is done |
| Ingest.Service.RestoreCheckinPacketsFromRaw | internal/ingest/service.go:152-195 | adds only links due to stored rows, every one of them unless its own insert failed, none if they are there already; the counters are the numbers of rows read, rows that decode, that carry a check-in (none counted without a hashtag), that were also heard on the target weekday, of links stored and of inserts that failed |
| Ingest.TopicsAccepted | internal/ingest/service.go:197-206 | a topic splits into the four parts exactly when it is meshcore/iata/device/packets, and is then taken apart as written |
| Ingest.AcceptedTopic | internal/ingest/service.go:197-206 | every accepted topic has that form |
| Ingest.EnvelopeLimits | internal/ingest/service.go:255-291 | packet text handed on is trimmed, non-empty and within its limit; the observer key is within its limit exactly unless a JSON envelope without origin meets an over-long device key |
| Ingest.LongDeviceKeyPasses | internal/ingest/service.go:255-291 | an instance: an envelope that holds only a packet, and a device key of any length |
| Tables.DeleteRawWellFormed | internal/storage/sqlite.go:62-109 | deleting raw rows with their cascade keeps every key and foreign key |
| Tables.SurvivorsKeepChildren | internal/storage/sqlite.go:79-109 | exactly the check-ins, observations and links of surviving packets survive |
| Tables.DeleteRawTwice | internal/storage/retention.go:152-195 | deleting two chunks one after the other is deleting them together |
| Views.UnprotectedDeletionInvisible | internal/storage/sqlite.go:244-391 | deleting raw rows that nothing refers to changes neither query, for any region filter, week and date, observers and the EXISTS clause included |
| Views.ProtectedDeletionVisible | internal/storage/sqlite.go:79-90 | deleting a row that a check-in refers to is always visible |
| Views.BundleRoundTrip | scripts/export_checkins_bundle.sh:9-28 | an export bundle holds all check-ins and links, the packets they refer to and the observations of those, satisfies every key and foreign key of the schema, shows readers exactly what they saw before, and exporting it again gives the same bundle |
| Views.UnfilteredViews | internal/storage/sqlite.go:244-266 | without filter the week view shows each check-in in its own week with all who observed a packet of its user that week, and the other view all check-ins from a date on |
| Views.FilterSelectsRegions | internal/storage/sqlite.go:269-283 | a region list shows exactly the check-ins whose user was heard that week in one of the regions |
| Views.FiltersAdd | internal/storage/sqlite.go:269-283 | filtering by two lists together shows what either of them shows, in both queries |
| Views.FilteringOnlyHides | internal/storage/sqlite.go:269-283 | a region list only takes rows away, in both queries |
| Provenance.FreshCheckinIsShown | internal/ingest/service.go:131-143 | a check-in just stored is shown in its week, also to readers who filter by the region its message came from |
| Store.PruneLeavesRetained | internal/storage/retention.go:141-150 | a completed prune leaves exactly the rows to be retained, with check-ins, links and both views unchanged |
| Store.LaterPruneAbsorbs | internal/storage/retention.go:25-79 | pruning now and again with a later or the same cutoff is pruning with the later cutoff |
| Store.LaterDayAbsorbs | internal/storage/retention.go:25-79 | in a regular zone that is so for any later, or the same, local day |
| Store.PartIsInvisible | internal/storage/retention.go:63-66 | a prune cut short by an error leaves the store in order and both views unchanged |
| Store.SQLiteStore.PruneRawPackets | internal/storage/retention.go:25-79 | run alone, for any batch and chunk size, the prune loop ends, deletes exactly the rows not retained and returns their number; on an error, which the database or the context must have reported, it has deleted only such rows and the number returned is a lower bound, short by at most one batch |
| Store.SQLiteStore.DeleteRawPacketIDs | internal/storage/retention.go:152-195 | on success all the ids are gone and the count is exact; on an error a prefix of them is gone and the count is a lower bound, exact unless the row count itself could not be read; a busy database is given up on after nine busy attempts |
| Store.BatchIsRetained | internal/storage/retention.go:58-61 | moving the scan position past a batch skips no row and leaves fewer rows ahead |
| Store.ChunksPruned | internal/storage/retention.go:63-75 | re-scanning from the same position after a deletion makes progress, and only rows to be deleted have gone |
| Store.MigrateRepairs | internal/storage/sqlite.go:122-145 | from any legacy duplicates: exactly the least id of each user and week survives, the key set is kept, the unique index is valid and every survivor has a link; a link added has the time of its check-in, and nothing else changes |
| Store.MigrateTwice | internal/storage/sqlite.go:122-145 | migrating again changes nothing |
| Store.MigrateIdempotent | internal/storage/sqlite.go:122-145 | nor does migrating any store that is in order |
| Store.SQLiteStore.Migrate | internal/storage/sqlite.go:61-148 | the statements of the migration, in order, have that effect; if one fails, the store is one that migrating again repairs with the same result |
| Store.SQLiteStore.Open | internal/storage/sqlite.go:40-55 | opening a store migrates the tables found, or fails and leaves tables that opening again repairs |
| Calendar.WeekStartCorrectIff | internal/checkins/service.go:86-95 | the week start is the local midnight of the latest target weekday not after the local day if and only if neither that midnight nor the day's own midnight is skipped by a clock change |
| Calendar.SkippedMidnightMovesWeek | internal/checkins/service.go:86-95 | an instance: the week start of a Sunday without midnight falls on the Saturday before |
| Calendar.LatestIsLatest | internal/checkins/service.go:92 | the day the week start steps back to is the last target weekday not after the local day |
| Calendar.RegularWeekStart | internal/checkins/service.go:86-95 | in a regular zone it always is |
| Calendar.WeekStartIdempotent | internal/checkins/service.go:86-95 | in a regular zone the week start of a week start is itself |
| ClockChanges.WeekStartIdempotentIff | internal/checkins/service.go:86-95 | in every orderly zone it is if and only if the day has its midnight or is the target weekday, and the midnight of that weekday is not skipped backward |
| Calendar.StoredInstantKeepsDay | internal/storage/sqlite.go:168 | dropping fractions of a second when an instant is stored does not change its local day |
| Calendar.WindowInDays | internal/storage/retention.go:141-150 | in a regular zone target-weekday traffic is inside the retention window exactly until six days and the retained weeks after its day |
| ClockChanges.WindowExactly | internal/storage/retention.go:25-31 | in every orderly zone, midnights skipped or not: target-weekday traffic is kept for exactly six days and the retained weeks, except the oldest of these days when the cutoff lands late |
| ClockChanges.LateThisWeekIff | internal/storage/retention.go:26-27 | with no retained weeks the cutoff lands late if and only if the midnight of the prune's own day is skipped forward and that day is not the target weekday |
| ClockChanges.LateIffSkippedForward | internal/storage/retention.go:26-27 | for any number of weeks: never if the prune's own day and its week start have their midnights; else, with no clock change close to the oldest day, exactly when the midnight of its own day, or if that exists of its week start, is skipped forward |
| ClockChanges.SkippedMidnightShortensWindow | internal/storage/retention.go:26 | an instance: a prune on a Friday without midnight counts all traffic of the Thursday before as older than its own week |
| Calendar.CountWeeksExactly | internal/checkins/mesh_weeks.go:8-22 | in a regular zone the count of weeks is right exactly when the season has at most one week or clocks have not moved forward in between; otherwise it is one less |
| ClockChanges.CountWeeksIff | internal/checkins/mesh_weeks.go:8-22 | in every orderly zone it is the length of the season, less one exactly when, in a season of two or more weeks, the forward shift of the clocks between the two counted midnights, plus how early the last week start lands, less how early the first does, is positive; or, in a season of one week, the week start moves backward within it |
| ClockChanges.EarlyFromSkew | internal/checkins/mesh_weeks.go:19-20 | how early a week start lands for the count: a day if it is skipped back onto the day before, minus the hours it is late if its own midnight is skipped forward, and otherwise nothing |
| ClockChanges.SkippedSundayUndercounts | internal/checkins/mesh_weeks.go:8-22 | an instance: two Sundays, the second without midnight, are counted as one week though clocks did not move between the two week starts |
| Calendar.SpringForwardUndercounts | internal/checkins/mesh_weeks.go:18-21 | two Mondays with the change to summer time in between are counted as one week |
| Streaks.LongestWeeklyStreak | internal/leaderboard/service.go:63-94 | for every order and multiplicity of input: the longest unbroken run of weeks seven days apart, and the earliest start of one that long |
| Streaks.Compact | internal/leaderboard/service.go:70-75 | compacting into the front of the array being read never reads a cell already overwritten with another value, and keeps each day once |
| Streaks.ScanRuns | internal/leaderboard/service.go:77-93 | one pass over neighbours finds that run |
| Streaks.ScanFindsLongestIff | internal/leaderboard/service.go:81-92 | for any set of weeks the scan finds the plain longest run, with its start, if and only if no entry lies between the weeks of that run |
| Streaks.AgreesIffUninterrupted | internal/leaderboard/service.go:81-92 | it does so on a set of weeks and all its parts if and only if no entry lies between two weeks seven days apart |
| Leaderboard.Compute | internal/leaderboard/service.go:23-60 | whatever order users come out of the map in, the result is a ranked list with one right entry for every user |
| Leaderboard.BoardIsUnique | internal/leaderboard/service.go:51-59 | at most one list meets that specification |
| Leaderboard.BoardTotals | internal/leaderboard/service.go:23-35 | no user appears twice and the totals add up to the number of rows |
| Leaderboard.HigherMeans | internal/leaderboard/service.go:51-59 | on a board nobody has more check-ins than someone above, of those with as many nobody a longer streak, and of those with as long a one the lesser name comes first |
| Leaderboard.NameShown | internal/leaderboard/service.go:25-35 | the name shown is the first non-empty display name in row order, else the user name |
| Season.BoardIsInSeason | internal/web/server.go:233-243 | for every user, in any zone: 1 <= streak <= check-ins = distinct weeks <= weeks of the season |
| Attendance.StreakIsAttendanceIff | internal/leaderboard/service.go:63-94 | whether or not midnights are skipped, the streak is the plain longest run of the user's weeks, is never longer than the longest run of days attended, and is that run, with its start, if and only if all its days are filed alike |
| Attendance.StreakInSpacedZone | internal/leaderboard/service.go:63-94 | that is, if the midnights of all days of the run are skipped backward, or of none |
| Attendance.StreakInRegularZone | internal/leaderboard/service.go:63-94 | in a regular zone it always is |
| Attendance.SkippedSundayBreaksStreak | internal/leaderboard/service.go:81-86 | an instance: three Sundays in a row, the second without midnight, are a streak of one |
| Attendance.RingMeansAttendance | internal/web/server.go:48-57 | in a regular zone the ring of check-ins is full exactly for users with no missed week, or one missed week when the count of weeks is one short; the ring of the streak likewise, except that then the week missed must not cut the streak |
| Attendance.RingInOrderlyZone | internal/web/server.go:48-57 | in every orderly zone the weeks of the season are counted right, one short or one too many, by which midnights are skipped and how clocks moved; the rings are full exactly for users who reach the count, so for nobody if it is one too many |
| Attendance.RingShowsPercent | internal/web/server.go:48-57 | the ring shows check-ins per week in whole per cents, rounded down and at most a hundred, and nothing when there are no weeks |
| Season.HistoryInSeason | internal/storage/sqlite.go:329-356 | every history of the store, in any zone and restores beside prunes included, meets what these results ask of it if no check-in is dated after now |
| Meshcore.DecodePacket | internal/meshcore/decode.go:68-146 | the decoder with its moving offset and path loop computes the recursive decoding function |
| Meshcore.AcceptsExactlyFrames | internal/meshcore/decode.go:58-146 | the decoder accepts exactly the encodings of well-formed frames |
| Meshcore.DecodeEncodes | internal/meshcore/decode.go:68-146 | decoding an encoded frame gives that frame |
| Meshcore.EncodeDecodes | internal/meshcore/decode.go:68-146 | re-encoding a decoded packet gives the input bytes back |
| Meshcore.PathConcatenates | internal/meshcore/decode.go:122-141 | the path groups concatenate to the path hex and are as many as the path length says |
| Meshcore.WireLayout | internal/meshcore/decode.go:58-146 | which byte of an accepted packet is what: version, type and route in the first; two codes, low byte first, exactly for routes 0 and 3; size and number of hops; the hops; the payload |
| Meshcore.KnownFlood | internal/meshcore/decode.go:13-18 | an instance: route 1 has no transport codes |
| Meshcore.KnownLengthByte | internal/meshcore/decode_test.go:6 | an instance: the length byte 0x82 |
| Text.KnownHex | internal/meshcore/decode.go:73-76 | an instance: hex digits of either case |
| Meshcore.EqualHashEqualPacket | internal/meshcore/decode.go:148-151 | two texts with one hash that both decode give equal packets |
| Meshcore.HashIsPacketAndPrefix | internal/meshcore/decode.go:148-151 | two decodable texts have one hash if and only if they decode to one packet and both or neither have the optional prefix |
| Meshcore.PrefixEvadesDedupe | internal/meshcore/decode.go:69 | so for every packet the optional prefix gives a second hash |
| Extraction.HashDeterminesCheckin | internal/ingest/service.go:111-116 | packets with one hash carry the same check-in, so stopping at a duplicate loses nothing |
| Extraction.GroupTextRoundTrip | internal/checkins/service.go:28-48 | a sender and message encrypted to a channel, framed and sent as hex come back unchanged exactly when the hashtag, in any case, occurs in the message, unless an earlier key also yields text |
| Extraction.PlainTextRoundTrip | internal/checkins/service.go:50-77 | a payload that is not decrypted and not JSON is read as text: sender and message come back under the same condition, from the first 280 characters |
| Extraction.JsonRoundTrip | internal/checkins/service.go:56-70 | a JSON payload with a name and a message that has the hashtag is taken as it is |
| Extraction.RightKeyRecovers | internal/checkins/service.go:153-193 | the channel's own key recovers sender and message |
| Checkins.DecryptGroupTextPayload | internal/checkins/service.go:153-193 | the key loop returns the result of the first key that passes every check and yields text |
| Checkins.DecryptsIff | internal/checkins/service.go:153-193 | exactly those payloads are decrypted, of three bytes and one or more whole blocks, for which some channel key of sixteen bytes has the right hash, gives the right MAC and yields text |
| Extraction.ForgedMacIsRefused | internal/checkins/service.go:175-177 | a group text whose MAC has been altered is not decrypted |
| Checkins.DecryptAES128ECB | internal/checkins/service.go:208-221 | the output buffer filled block by block is the blockwise decryption |
| Checkins.DecryptEncrypts | internal/checkins/service.go:208-221 | blockwise decryption inverts blockwise encryption |
| Checkins.DecodeNullTerminatedUTF8 | internal/checkins/service.go:223-236 | the text is what precedes the first zero byte, trimmed, or nothing if that is not UTF-8 |
| Text.Utf8Encodes | internal/checkins/service.go:232-234 | text is accepted only in its one valid encoding: no overlong forms, surrogates or truncated sequences |
| Text.KnownRunes | internal/checkins/service.go:232-234 | an instance: one code point of each width (section 3 of RFC 3629) |
| Text.TrimSpaceTakesSpaces | internal/checkins/service.go:235 | trimming takes away white space at the ends and nothing else |
| Text.KnownSpaces | internal/checkins/service.go:235 | which of the first 256 code points are white space |
| Checkins.ParseInverts | internal/checkins/service.go:238-250 | parsing recovers sender and message from "sender: message" for a sender of 1 to 79 bytes without brackets or colons |
| Checkins.SenderFoundIff | internal/checkins/service.go:238-250 | a sender is found exactly where the first ": " ends a name of 1 to 79 bytes that is not blank and has no brackets or colons |
| Checkins.NoColonNoSender | internal/checkins/service.go:238-250 | without a ": " there is no sender and the text is the message |
| Checkins.SenderImpliesMessage | internal/checkins/service.go:238-250 | whenever a sender is found the message is not empty |
| Checkins.NoSenderNoCheckin | internal/checkins/service.go:29-46 | a text decrypted without a sender never becomes a check-in: the second parse cannot succeed |
| Checkins.UsernamesAreStable | internal/checkins/service.go:97-104 | a user name is a non-empty word of a-z, 0-9 and underscore, and normalising it again changes nothing |
| Checkins.WordsAreJoined | internal/checkins/service.go:97-104 | words on both sides of any other character are joined by one underscore |
| Checkins.NameOfTwoWords | internal/checkins/service.go:97-104 | so a name of two words becomes one with an underscore |
| Checkins.NamelessIsAnonymous | internal/checkins/service.go:100-102 | a name without any letter, digit or underscore is anonymous |
| TextFormats.ParseObserverNames | internal/storage/sqlite.go:454-470 | the loop computes the sorted, trimmed, non-empty parts |
| TextFormats.NamesAreTrimmedParts | internal/storage/sqlite.go:454-470 | these names are the parts between commas, trimmed, without the empty ones, in order |
| TextFormats.NamesMatchKeysIff | internal/storage/sqlite.go:257 | joining the observer keys and parsing them gives the same keys, sorted, if and only if each is non-empty, trimmed and free of commas |
| TextFormats.CommaShowsTwo | internal/storage/sqlite.go:454-470 | an instance: one observer with a comma in the name is shown as two |
| Dates.DatesCompareAsText | internal/storage/sqlite.go:333-335 | dates stored as text (section 5.1 of RFC 3339) compare in calendar order |
| Dates.TextOrderIsDayOrder | internal/storage/sqlite.go:333-335 | and so as the numbers of the days do, for years up to 9999 |
| Dates.KnownText | internal/storage/sqlite.go:333-335 | an instance: the text of 2026-05-04 |
| Dates.EveryDayHasADate | internal/storage/sqlite.go:317-318 | the numbers of the days are those of the calendar dates, one for each, without gaps |
| Dates.KnownDates | internal/storage/retention_test.go:48 | the numbering starts at 1970-01-01, and 2026-05-04 is a Monday |

## Left out

- Protocol.NoCheckinLost: one pruner and one restore run at a time, as the server and the maintenance command start them.
- Store.SQLiteStore.PruneRawPackets: proved with no other writer; what holds beside concurrent writers is proved of the same scan, retain and delete functions in `Protocol`.
- Ingest.Service.RestoreCheckinPacketsFromRaw: proved with no other writer; rows are read in id order, since the order by `observed_at` affects neither links nor counters.
- Columns that no modelled query reads (topic, device key, payload and route type names, path length, received time) and the ids of links and observations.
- The ORDER BY of the two views: they are sets of rows, and `Season` takes the rows in any order.
- Text that is not valid UTF-8: strings are code points, so an observer key cut in the middle of a rune is the result of an abstract `cut`.
- `Ingest.Environment` and `Checkins.Primitives`: JSON parsing, upper-casing and the lenient reading of bytes as text in the undecrypted fallback are abstract.
- The `TrackedFrom` column of the leaderboard and the formatting of its dates: constants and output text.
- Rows whose stored time does not parse: stored instants are numbers here.
- The MQTT client, HTTP handlers, templates, logging, configuration parsing, leaderboard snapshots, WAL checkpointing and space statistics: input and output, or foreign behaviour.
- Clock readings stored with links and check-ins: any value.
- Waiting times: the bounded numbers of attempts are modelled, the delays between them are not.
