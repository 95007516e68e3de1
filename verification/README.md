# BlueBird Kiosk OS: a verified model of the on-device control plane

A school kiosk shows a slideshow, signage or a check-in page for years against a backend, a
network, a disk, a clock and operators that all misbehave. These Dafny modules model the state
machines that keep it right and prove, for every run, what they promise. `dafny verify
dfyconfig.toml` checks the whole project.

| Part of the kiosk | Modules |
|---|---|
| Sync engine, its SQLite cache, the slideshow | `LocalCache`, `SyncEngine`, `SyncClients`, `MirrorAgreement`, `MediaCache`, `FetchBudget`, `Strays`, `KilledVideos`, `KilledTicks`, `BackgroundVideos`, `VideosAsListed`, `LostVideos`, `EventQueue`, `Renderer`, `CatchUp`, `FileNames` |
| kiosk.conf and the heartbeat | `ConfigText`, `ConfigFile`, `ConfigLines`, `ConfigRoundTrip`, `UrlLines`, `LinesAsWritten`, `ShellWords`, `Heartbeat`, `DerivedUrls`, `RestartProofs`, `AssignmentsInConf`, `WholeBeats` |
| Watchdog | `Watchdog` |
| Display apply / confirm / revert | `DisplayRevert`, `DisplayOutcomes`, `PersistedSettings`, `DisplayListing`, `DisplayReports` |
| Touch gestures, PIN lockout, incident poller | `Gesture`, `GesturesAsMade`, `PinLockout`, `IncidentPolling` |

## How it is built

Each object whose methods change state is a class with the same fields and the same loops
(`KioskLocalCache`, `SyncClient`, `KioskConf`, `HeartbeatService`, `WatchdogLoop`, `DisplayAdmin`,
`TouchWatcher`, `LockoutState`, `IncidentPoller`). Its methods are proved to take the old state to
exactly the state a step function gives, and the theorems are about those step functions over
whole runs. The step functions' own meaning is stated beside them in terms of the inputs alone:
the fields of a row, the characters of a URL, a line or a key, the four health checks, the outcome
of each reply (`VideosAsListed`, `AssignmentsInConf`, `LinesAsWritten`, `DisplayOutcomes`,
`DisplayReports`, `GesturesAsMade` and the lemmas whose names end in `Exactly`). An endless loop is
the method for one turn plus a fold of turns over any sequence of inputs.

Everything the kiosk does not control is an argument chosen by an adversary: each reply of the
backend, each outcome of a disk write or `unlink`, every clock reading, whether a device command
works, when a tick is killed. A table is a map keyed by its primary key; one `with` block is one
transaction; ids are SQLite's 64-bit integers and an id that `int()` or SQLite refuses raises, as
in Python. Tick-long requests are modelled as answered at one moment: what the backend changes
between answering and the kiosk's last write commutes with the rest of the tick.

## Where the code and its comments differ

The model follows the code. The lemma named after each point says exactly when the promise holds
or shows what happens instead.

- "We'd re-fetch" an updated row: cached bytes are never fetched again (`CachedBytesAreFinal`).
- "If a media row was tombstoned, drop the on-disk blob": not if the tick is killed in between
  (`KillStrandsExactly`). The same rows again, one per id, do not do it (`RedeliveryNeverPurges`); a later
  batch that tombstones the id does exactly if some tombstone in it still finds a row
  (`StrayIsClearedExactly`).
- "Treat any zero-byte file as a cache miss so it gets re-fetched": a record keeps its etag when its
  file is lost, and a 304 to that etag counts as a fetched file and restores nothing, however often
  it comes (`A304SpendsTheBudget`, `A304NeverRestores`). A download cut short under such a record
  counts as failed, yet its leftovers pass for the file from then on (`FetchedAgainstCached`).
- A video record can outlive its file (`RecordOutlivesFile`), and no 304 brings the file back
  (`LostVideoStaysLost`).
- `read_config` does not undo `write_config` for a value with a single quote: it comes back longer
  on every write (`RoundTripExactly`, `QuotedValueGrowsForever`). Where the quote sits decides
  whether the kiosk then restarts once, twice or on every heartbeat (`RestartsExactly`).
- An apply answered with an error may have changed rotation or mode, which nothing then reverts:
  exactly what took effect before the failure stays (`ErrorsChangeNothingExactlyWhen`). A brightness
  change saves a pending rotation, which stays on disk after its revert (`DiskIsAgreedExactly`), and a second apply makes a revert go back to
  the first (`OverlappingApplyForgetsTheOriginal`).
- Back to alive after a blocked reboot, the watchdog keeps its streak (`CooldownKeepsTheStreak`).
- The slideshow's `created_at` fallback never takes effect (`CreatedAtNeverOrders`).
- The PIN lockout is "5 minutes after 3 wrong attempts"; the count is never reset by the passing of
  time, so after the first lockout every single wrong PIN locks again (`GuessesAreSlow`).

## Model

| member | source | states |
|---|---|---|
| LocalCache.KioskLocalCache.ApplyRows | apps/bluebird_kiosk/services/local_cache.py:148-199 | The loop applies a batch in one transaction: an unusable id raises and rolls every row back, otherwise the mirror is the batch applied in order and the counts are the upserts and the removals that found a row |
| LocalCache.AfterRowsElsewhere | apps/bluebird_kiosk/services/local_cache.py:163-198 | A batch leaves every key it does not name untouched |
| LocalCache.LastRowDecides | apps/bluebird_kiosk/services/local_cache.py:163-198 | Within a batch the last row for an id decides: a tombstone leaves nothing, any other row leaves exactly itself with its cursor column |
| LocalCache.LostKeyIsCounted | apps/bluebird_kiosk/services/local_cache.py:169-177 | A key that disappears was named by a tombstone and made the deleted count positive |
| LocalCache.RowCountsBalance | apps/bluebird_kiosk/services/local_cache.py:161-199 | The reported counts account for the change in the table's size |
| LocalCache.UpsertsAddUp | apps/bluebird_kiosk/services/local_cache.py:161-199 | The upsert count of a batch is one per row with an id and no deleted_at, wherever it stands |
| LocalCache.KioskLocalCache.QueueEvent | apps/bluebird_kiosk/services/local_cache.py:387-400 | An event is stored under the next AUTOINCREMENT id, or SQLite is full and nothing changes |
| SyncClients.SyncClient.PurgeMediaFile | apps/bluebird_kiosk/services/sync_client.py:283-289 | Deletes the record and tries to unlink the file it named; no record, no change |
| SyncClients.SyncClient.ApplyTable | apps/bluebird_kiosk/services/sync_client.py:153-160 | One table: its transaction, then, only for media with a positive deleted count, the purge of every tombstoned id |
| SyncClients.SyncClient.PullManifest | apps/bluebird_kiosk/services/sync_client.py:114-169 | Every branch of a pull: refused with its error and nothing changed, raised with a prefix of the tables applied and the cursor kept, or applied with the cursor advanced |
| SyncClients.SyncClient.StreamToFile | apps/bluebird_kiosk/services/sync_client.py:241-273 | Writes a body, whatever the disk does, and reports success only for a complete non-empty file |
| SyncClients.SyncClient.Download | apps/bluebird_kiosk/services/sync_client.py:213-281 | One media download: 304 succeeds untouched, 404 purges, other failures keep the record, success records the file |
| SyncClients.SyncClient.FetchMissingMedia | apps/bluebird_kiosk/services/sync_client.py:173-211 | The fetch loop visits mirrored ids in order, skips cached ones and stops at the budget |
| SyncClients.SyncClient.DownloadVideoPart | apps/bluebird_kiosk/services/sync_client.py:347-409 | One video part: fetched, skipped or errored, with 404 purging it |
| SyncClients.SyncClient.SyncVideoParts | apps/bluebird_kiosk/services/sync_client.py:326-339 | The three parts of one video in turn, absent URLs purged, outcomes counted |
| SyncClients.SyncClient.PurgeRotationVideos | apps/bluebird_kiosk/services/sync_client.py:502-516 | Dropping the stale ids one by one drops all their parts and files at once |
| SyncClients.SyncClient.SyncRotationVideos | apps/bluebird_kiosk/services/sync_client.py:426-469 | The rotation loop with its growing set of kept ids, then the purge of the rest |
| SyncClients.SyncClient.FetchBackgroundVideo | apps/bluebird_kiosk/services/sync_client.py:293-345 | Wall video and rotation from one backgrounds reply, with the stats or the error it returns; any failure changes nothing |
| SyncClients.SyncClient.FlushEvents | apps/bluebird_kiosk/services/sync_client.py:520-547 | Posts the oldest batch, deletes exactly it on a status below 400, and reports the number sent or the error |
| SyncClients.SyncClient.RunOnce | apps/bluebird_kiosk/services/sync_client.py:551-573 | One tick: pull, then fetch, videos and flush; only flush if refused; nothing more if the pull raised; with the stats of each phase that ran |
| MirrorAgreement.StepsApplyPrefix | apps/bluebird_kiosk/services/sync_client.py:150-163 | A pull applies whole tables up to the first unusable id and leaves the cursor to the end |
| MirrorAgreement.TickPulls | apps/bluebird_kiosk/services/sync_client.py:551-573 | Of a whole tick only the pull touches the mirror and the cursor |
| MirrorAgreement.TickFlushes | apps/bluebird_kiosk/services/sync_client.py:551-565 | Every tick drains one batch whether the pull succeeded or was refused |
| MirrorAgreement.TickReports | apps/bluebird_kiosk/services/sync_client.py:551-573 | A tick reports the pull, and only after an applied one the fetch pass and the videos; its push is the batch of the queue as it was before the tick; a raised pull reports nothing |
| MirrorAgreement.PullAnswers | apps/bluebird_kiosk/services/sync_client.py:114-169 | Which replies to a pull are refused and as what, changing nothing; an applied one reports the totals over its tables and advances the cursor if it brings one |
| MirrorAgreement.FullPullIsExact | apps/bluebird_kiosk/services/sync_client.py:147-163 | An honest reply fully applied to a mirror in step leaves exactly the live rows |
| MirrorAgreement.StepStaysInStep | apps/bluebird_kiosk/services/sync_client.py:114-169 | Backend edits, ticks and kills at any point keep every key unchanged since the cursor mirrored faithfully |
| MirrorAgreement.MirrorIsExactAfterEveryPull | apps/bluebird_kiosk/services/sync_client.py:114-169 | From an empty cache, over any run of edits, failures, rollbacks and kills, each tick whose pull succeeds leaves mirrored exactly the backend rows whose deleted_at is empty, each as its own payload, with updated_at or else created_at as its cursor column |
| MediaCache.PurgesTheTombstoned | apps/bluebird_kiosk/services/sync_client.py:155-160 | The purge drops the record of every tombstoned id, and leaves record and file of every other id alone |
| MediaCache.TableStaysUsable | apps/bluebird_kiosk/services/sync_client.py:152-160 | Applying a table keeps every media record backed by its own non-empty file, and by a mirrored row if it was |
| MediaCache.EveryRecordIsBacked | apps/bluebird_kiosk/services/sync_client.py:551-573 | Whatever the backend replies, after any run of uninterrupted ticks each media record has its row in the mirror and names its own existing non-empty file |
| FetchBudget.DownloadSettlesOne | apps/bluebird_kiosk/services/sync_client.py:213-281 | On any device: exactly when a missing id ends cached, also through leftover bytes under an old record, and that record and file of no other id are affected |
| FetchBudget.PassIsExact | apps/bluebird_kiosk/services/sync_client.py:173-211 | On any device: a pass counts min(limit, successes), failures never use the budget, and exactly those attempted ids become cached that were served whole or whose old record meets leftover bytes |
| FetchBudget.PassCountsEveryId | apps/bluebird_kiosk/services/sync_client.py:173-211 | Every attempted id is counted as fetched or errored, and a pass that does not use up its budget counts every mirrored id once |
| FetchBudget.RefusedIdsAreForgotten | apps/bluebird_kiosk/services/sync_client.py:231-240 | An attempted id answered 404 loses its record, and the file it named unless that cannot be unlinked |
| FetchBudget.FetchedAgainstCached | apps/bluebird_kiosk/services/sync_client.py:173-211 | Fetched plus leftovers equals newly cached plus 304s; the ids counted as fetched are the newly cached ones if and only if there are no 304s and no leftovers |
| FetchBudget.CountsCanAgreeByAccident | apps/bluebird_kiosk/services/sync_client.py:188-240 | A 304 and a leftover cancel out in the counts although the fetched id is not the cached one |
| FetchBudget.PassCachesTheMinimum | apps/bluebird_kiosk/services/sync_client.py:173-211 | Without 304 replies a pass counts exactly min(limit, missing ids served with bytes) and caches those plus the leftovers; there are none where every record has its file |
| FetchBudget.A304SpendsTheBudget | apps/bluebird_kiosk/services/sync_client.py:227-230 | On any device, also one whose recorded files are gone: all-304 replies report min(limit, missing) fetched and change nothing at all |
| FetchBudget.A304NeverRestores | apps/bluebird_kiosk/services/sync_client.py:227-230 | A vanished file stays missing through any number of ticks in which its download is answered 304 |
| FetchBudget.WinnersHoldTheBody | apps/bluebird_kiosk/services/sync_client.py:241-281 | Every id a pass fetches with bytes ends with the served etag and exactly the served bytes |
| Strays.RemovalsExactly | apps/bluebird_kiosk/services/local_cache.py:163-178 | A batch counts a removal exactly when a tombstone names a row mirrored before or put there by an earlier row of the batch |
| Strays.KilledDuringPurge | apps/bluebird_kiosk/services/sync_client.py:153-160 | A tick killed between the media transaction and the end of its purge, after any number of its steps, strands a record exactly when some recorded id's last row is a tombstone the purge has not come to |
| Strays.KillStrandsExactly | apps/bluebird_kiosk/services/sync_client.py:114-345 | Over every point of a tick: a kill leaves a record without a row exactly when it comes after the media transaction and before its purge has come to a recorded id whose last row is a tombstone |
| Strays.StrayIsClearedExactly | apps/bluebird_kiosk/services/sync_client.py:155-160 | A media batch that tombstones an id drops its record, stray or not, exactly when one of its tombstones, for whatever id, finds a row |
| Strays.StrayIsClearedByALiveTombstone | apps/bluebird_kiosk/services/sync_client.py:155-160 | With one row per id: exactly when some tombstone names a row that is still mirrored |
| Strays.RedeliveryNeverPurges | apps/bluebird_kiosk/services/sync_client.py:155-160 | The very same batch again therefore purges nothing |
| Strays.PullDropsExactly | apps/bluebird_kiosk/services/sync_client.py:147-163 | Over all tables of a pull: exactly when the record of an id is dropped; otherwise record and file stay as they are |
| Strays.CachedBytesAreFinal | apps/bluebird_kiosk/services/sync_client.py:199-205 | A cached id keeps its record and bytes through any tick whose pull does not drop it, and has no record after a pull that does |
| Strays.CachedBytesStayFinal | apps/bluebird_kiosk/services/sync_client.py:199-205 | The same over any number of ticks, for strays as well |
| KilledVideos.KilledVideosStayInTheirLane | apps/bluebird_kiosk/services/sync_client.py:293-516 | Wherever the video phase is killed, in the middle of a part or of dropping a rotation video, every video record names its own file and nothing but videos has changed |
| KilledTicks.KillStaysUsable | apps/bluebird_kiosk/services/sync_client.py:114-516 | Wherever a tick is killed, every media record left names its own non-empty file |
| KilledTicks.KillIsBetweenTables | apps/bluebird_kiosk/services/sync_client.py:147-163 | Wherever a tick is killed, mirror and cursor are those of a kill between two tables or after the pull |
| KilledTicks.RecordsSurviveKills | apps/bluebird_kiosk/services/sync_client.py:551-573 | Over any run of ticks, each completed or killed at any point, every media record names its own existing non-empty file |
| BackgroundVideos.RecordOutlivesFile | apps/bluebird_kiosk/services/sync_client.py:372-392 | Exactly which replies leave a video record whose file is missing or empty |
| BackgroundVideos.PartsAreIndependent | apps/bluebird_kiosk/services/sync_client.py:326-339 | Each part of a video ends as if handled alone, present parts are counted once, nothing outside the video's own slots moves |
| BackgroundVideos.RotationMirrorsTheList | apps/bluebird_kiosk/services/sync_client.py:426-516 | After rotation sync only listed ids have records, the purged count is the number of distinct unlisted ids, every present part is counted once, the wall video and media are untouched |
| BackgroundVideos.ListedPartsAreIndependent | apps/bluebird_kiosk/services/sync_client.py:435-462 | Each part of an id that only one entry of the list addresses ends as if handled alone |
| BackgroundVideos.PartsEndAsServed | apps/bluebird_kiosk/services/sync_client.py:347-409 | A listed part without URL or answered 404 keeps no record, one served whole is on disk as served, a 304 or any other refusal changes nothing |
| BackgroundVideos.VideosStayInTheirLane | apps/bluebird_kiosk/services/sync_client.py:293-345 | The video phase never touches the mirror, the queue or the media cache |
| VideosAsListed.KeptExactly | apps/bluebird_kiosk/services/sync_client.py:435-448 | An id is kept exactly if some entry is a dict with that id whose video URL is a + "video_id=" + b for some a and b |
| VideosAsListed.RotationEndsAsServed | apps/bluebird_kiosk/services/sync_client.py:426-462 | The three files of an id addressed by one entry end by that entry's three URLs and replies: dropped without URL or on a 404, as before on a 304, a refusal or no reply, else overwritten, with a new record only for a whole non-empty body |
| VideosAsListed.UnlistedIsPurged | apps/bluebird_kiosk/services/sync_client.py:463-516 | An id that no such entry addresses keeps no record and no recorded file; the purged count is the number of such ids that had a record |
| VideosAsListed.RotationCounts | apps/bluebird_kiosk/services/sync_client.py:426-469 | The rotation stats are the tallies of the addressed entries' parts: fetched if bytes came and stayed, skipped on a 304, errored otherwise, uncounted without URL |
| VideosAsListed.WallEndsAsServed | apps/bluebird_kiosk/services/sync_client.py:293-345 | The whole video phase: each failure changes nothing and is reported as what it is; else the wall's three files end by their own URLs and replies, or all go if there is no enabled video |
| LostVideos.LostVideoStaysLost | apps/bluebird_kiosk/services/sync_client.py:347-392 | A lost or empty video file, of the wall or the rotation, stays lost through any number of ticks in which its part is answered 304 or not at all |
| LostVideos.WallOf304IsSkipped | apps/bluebird_kiosk/services/sync_client.py:326-344 | A wall whose parts are all answered 304 reports three skipped and changes nothing, whether or not a file is there |
| EventQueue.SendStays | apps/bluebird_kiosk/services/sync_client.py:521-534 | A POST sends exactly the first min(limit, pending) events of the pending queue, starting at the first unaccepted event; with nothing pending or a batch in flight there is none |
| EventQueue.AcceptStays | apps/bluebird_kiosk/services/sync_client.py:545-547 | Deleting an accepted batch keeps accepted plus pending equal to all queued events, in order |
| EventQueue.EnqueueStays | apps/bluebird_kiosk/services/local_cache.py:387-400 | Queueing while a batch is in flight keeps the same |
| EventQueue.NothingLostNothingReordered | apps/bluebird_kiosk/services/sync_client.py:520-547 | From an empty queue, over every interleaving of queueing, posts, answers and crashes: accepted batches then pending events are all queued events in order, and every accepted event was posted |
| EventQueue.FlushIsSendThenAnswer | apps/bluebird_kiosk/services/sync_client.py:520-547 | A whole flush is a send followed by its answer |
| EventQueue.FlushTakesTheHead | apps/bluebird_kiosk/services/sync_client.py:520-547 | A flush takes the oldest min(limit, pending) events off the queue exactly if the POST is answered below 400, and reports their number or the error |
| Renderer.CollectSlideshow | apps/bluebird_kiosk/services/renderer.py:31-59 | The list holds exactly the downloaded, not unpublished rows, newest first by taken_at then id |
| Renderer.SlideshowUnique | apps/bluebird_kiosk/services/renderer.py:25-59 | The order is total: the list is determined by its entries |
| Renderer.NewestFirstExactly | apps/bluebird_kiosk/services/renderer.py:25-59 | Newest first means: the taken_at that is larger at the first differing code point, or longer, comes first, and on equal ones the greater id |
| Renderer.EverySlideCanBeServed | apps/bluebird_kiosk/services/renderer.py:62-74 | After any run of ticks, completed or killed at any point, every slide resolves to an existing non-empty file |
| Renderer.RecordedIdsResolve | apps/bluebird_kiosk/services/renderer.py:62-74 | After any such run a media request resolves exactly for the recorded ids, to the recorded path, which is an existing non-empty file |
| Renderer.WallShowsTheBackend | apps/bluebird_kiosk/services/renderer.py:31-59 | With the mirror caught up and nothing missing the wall shows exactly the backend's live published media |
| CatchUp.TickShrinks | apps/bluebird_kiosk/services/sync_client.py:551-573 | One such tick takes 50 off the backlog, whatever its video phase and flush do |
| CatchUp.HonestPullIsSteady | apps/bluebird_kiosk/services/sync_client.py:147-163 | While the backend is not edited, an honest successful pull leaves an exact mirror exact and drops no record of a mirrored id |
| CatchUp.BacklogDrains | apps/bluebird_kiosk/services/sync_client.py:173-177 | With the mirror steady and every blob served, k whole ticks leave max(0, n - 50 k) of n missing ids |
| CatchUp.WallCatchesUp | apps/bluebird_kiosk/services/renderer.py:31-59 | From an empty cache through any edits, failures and kills: once a pull has succeeded, ceil(n / 50) quiet ticks later the wall shows exactly the backend's published media |
| Renderer.CreatedAtNeverOrders | apps/bluebird_kiosk/services/renderer.py:27-28 | Changing created_at never changes what is a slideshow |
| FileNames.NamesAreDistinct | apps/bluebird_kiosk/services/sync_client.py:454-456 | Media files, wall parts and rotation parts never share a file name |
| ConfigFile.KioskConf.ReadConfig | apps/bluebird_kiosk/config.py:56-69 | Reads line by line over the defaults, later lines winning |
| ConfigFile.KioskConf.WriteConfig | apps/bluebird_kiosk/config.py:72-84 | Rewrites the file as the header and one quoted line per merged key |
| LinesAsWritten.PlainLineParses | apps/bluebird_kiosk/config.py:60-68 | An indented or plain line KEY=value sets exactly the keys of capitals, digits and underscores that do not start with a digit |
| LinesAsWritten.PrintedBareExactly | apps/bluebird_kiosk/config.py:79-81 | A value is printed bare exactly if it is not empty and all letters, digits and the ten signs shlex lets pass; any other stands between single quotes |
| AssignmentsInConf.LastLineDecides | apps/bluebird_kiosk/config.py:56-69 | A key reads as the last line of the file that sets it says, and if none does as its default |
| ConfigText.RereadExactly | apps/bluebird_kiosk/config.py:68-81 | Quoting then stripping gives a value back exactly when it has no single quote |
| ConfigText.RereadGrows | apps/bluebird_kiosk/config.py:68-81 | A value with a single quote comes back at least two characters longer, still with one |
| UrlLines.EscapedValueSets | apps/bluebird_kiosk/config.py:60-81 | Quoting adds no settings to the lines of a value |
| UrlLines.TailIsHarmless | apps/bluebird_kiosk/config.py:60-81 | A value with line breaks, no line of whose tail sets a key, cannot disturb that key |
| ConfigLines.ReadFileable | apps/bluebird_kiosk/config.py:56-69 | Any file at all reads as distinct well-formed keys with one-line values |
| ConfigLines.PrintedLineParses | apps/bluebird_kiosk/config.py:60-81 | A printed line parses to its key and its value after one round of quoting and stripping |
| ConfigLines.DoubleQuotedLineParses | apps/bluebird_kiosk/config.py:67-68 | A hand-written line with a double-quoted value reads as that value |
| ConfigRoundTrip.ReadAfterWrite | apps/bluebird_kiosk/config.py:56-84 | One write, then one read, key by key, whatever the other keys hold as long as none of their lines sets this key |
| ConfigLines.ReadAfterAnyWrite | apps/bluebird_kiosk/config.py:56-84 | After a write of any values at all the file reads as the defaults overlaid by what the lines of each merged setting hold, several for a value with line breaks; nothing runs over into the next setting |
| ConfigRoundTrip.RoundTripExactly | apps/bluebird_kiosk/config.py:56-84 | For every key and whatever else is written with it: a value reads back exactly when it has no single quote and no line break, unless a later setting has a line of its own that sets the key, which then decides |
| ConfigRoundTrip.RoundTripAmongHarmless | apps/bluebird_kiosk/config.py:56-84 | Among values none of whose lines sets the key: exactly when it has no single quote and no line break |
| ConfigRoundTrip.LineBreaksNeverReadBack | apps/bluebird_kiosk/config.py:60-68 | A value with a line break never reads back |
| ConfigRoundTrip.LatestValueReadsBack | apps/bluebird_kiosk/config.py:56-84 | Over any sequence of writes a quote-free key reads as its latest written value, else the original file's, else the default |
| ConfigRoundTrip.QuotedValueGrowsForever | apps/bluebird_kiosk/config.py:68-81 | A value with a single quote grows by two characters per write without end |
| ShellWords.ShellReadsBackEverything | apps/bluebird_kiosk/config.py:72-81 | POSIX quote removal turns the printed word back into the value, for every string |
| Heartbeat.HeartbeatService.ApplyDisplayAssignment | apps/bluebird_kiosk/services/heartbeat.py:717-760 | Rewrites kiosk.conf and requests one restart exactly when mode or either URL differs from the target |
| Heartbeat.HeartbeatService.BuildContent | apps/bluebird_kiosk/services/heartbeat.py:653-673 | The loop builds one entry per output that is a dict |
| Heartbeat.HeartbeatService.ApplyOutputAssignments | apps/bluebird_kiosk/services/heartbeat.py:643-714 | All four outcomes: unchanged, content rewritten only, independent with restart, back to mirror with restart |
| DerivedUrls.BaseChanges | apps/bluebird_kiosk/config.py:131-156 | A rewrite never empties the backend part of a URL, changes it exactly when the setting has a single quote, and leaves no quote at the setting's end |
| DerivedUrls.UrlAfterReread | apps/bluebird_kiosk/config.py:68-81 | After a rewrite the URL derived anew is the stored one read back exactly when no single quote follows the backend part: not in the tail, not as the setting's last character |
| RestartProofs.OneHeartbeat | apps/bluebird_kiosk/services/heartbeat.py:730-758 | One heartbeat: nothing if its target is in force, else a restart with mode kept and URL and backend setting both reread |
| RestartProofs.ReapplyingIsQuiet | apps/bluebird_kiosk/services/heartbeat.py:717-760 | Such a target, applied again on any later heartbeat with any other settings written in between, writes nothing and restarts nothing |
| RestartProofs.LaterHeartbeat | apps/bluebird_kiosk/services/heartbeat.py:748-758 | A heartbeat after a write restarts once more exactly when a single quote follows the backend part of the URL |
| RestartProofs.RestartsExactly | apps/bluebird_kiosk/services/heartbeat.py:717-760 | How often n heartbeats restart, exactly, for every file and every assignment no line of whose URL is itself a backend setting: 0 if the target is in force, n if the URL has a line break or its tail a single quote, 1 if no quote follows the backend part, 2 if only the backend setting's last character is one |
| RestartProofs.LineBreakTargetAlwaysRestarts | apps/bluebird_kiosk/services/heartbeat.py:748-758 | A heartbeat whose target URL has a line break restarts whatever the file holds |
| RestartProofs.LineBreaksRestartEveryTime | apps/bluebird_kiosk/services/heartbeat.py:748-758 | n heartbeats with a line break in the URL's tail restart n times as long as there is a backend to derive it from, whatever else their lines change |
| RestartProofs.OutputsRestartExactly | apps/bluebird_kiosk/services/heartbeat.py:652-703 | A non-empty map restarts exactly when the layout was not independent, no content was stored, or outputs or touch flags changed; it is in force afterwards |
| RestartProofs.RestartsFollowTouches | apps/bluebird_kiosk/services/heartbeat.py:681-703 | Over a run of maps each restarts exactly when its outputs or touch flags differ from the previous map's |
| RestartProofs.ContentAfterReread | apps/bluebird_kiosk/services/heartbeat.py:653-672 | Rewriting the backend setting changes a map's content exactly when the setting has a single quote and some output's URL derives from it |
| RestartProofs.RepeatedMapIsIdle | apps/bluebird_kiosk/services/heartbeat.py:679-697 | Repeating a map never restarts, and changes nothing at all exactly unless the first application rewrote a backend setting with a single quote that some output's URL derives from |
| RestartProofs.ContentHoldsEveryOutput | apps/bluebird_kiosk/services/heartbeat.py:653-673 | With distinct names the content holds exactly each output's own entry |
| AssignmentsInConf.SignageLands | apps/bluebird_kiosk/services/heartbeat.py:717-760 | After a signage assignment, with any slashes around its parts, DISPLAY_MODE reads signage, SIGNAGE_URL the backend + "/" + slug + "/beacon/d/" + key and VISITOR_URL nothing, if that URL has no quote and no line break; one restart exactly if the file did not say so before |
| AssignmentsInConf.VisitorLands | apps/bluebird_kiosk/services/heartbeat.py:717-760 | The same for a visitor assignment with backend + "/" + slug + "/visitor-kiosk" under VISITOR_URL |
| AssignmentsInConf.LegacyWallLands | apps/bluebird_kiosk/services/heartbeat.py:717-760 | Without an assignment, with any other mode, or with a part missing that the URL needs, both URLs read empty and the mode is legacy_wall |
| AssignmentsInConf.LayoutLands | apps/bluebird_kiosk/services/heartbeat.py:643-714 | DISPLAY_LAYOUT reads independent after any non-empty map and mirror after a map goes away, with the content removed if that works; otherwise nothing changes |
| AssignmentsInConf.OutputLands | apps/bluebird_kiosk/services/heartbeat.py:653-673 | Every output of a map is stored under its own name with its touch flag, a url output with exactly its web URL, and as legacy_wall without one |
| AssignmentsInConf.SignageOutputLands | apps/bluebird_kiosk/services/heartbeat.py:653-673 | A signage output is stored with backend + "/" + slug + "/beacon/d/" + key |
| Heartbeat.HeartbeatService.HandleReply | apps/bluebird_kiosk/services/heartbeat.py:825-835 | The end of a heartbeat: the single assignment, then the outputs, on the same kiosk.conf |
| WholeBeats.BeatRestartsExactly | apps/bluebird_kiosk/services/heartbeat.py:825-835 | Each of the two restarts exactly when it would on the files as they were: what the first writes does not matter to the second |
| WholeBeats.NextBeatIsQuiet | apps/bluebird_kiosk/services/heartbeat.py:825-835 | With no quote in backend setting and URL and no line break in the URL, the next heartbeat with the same reply changes neither file and restarts nothing |
| WholeBeats.OnlyTheFirstBeatActs | apps/bluebird_kiosk/services/heartbeat.py:825-835 | However many heartbeats bring the same reply, only the first changes or restarts anything |
| Watchdog.WatchdogLoop.Turn | apps/bluebird_kiosk/services/watchdog.py:302-376 | One turn of the loop: state, streak, probes, stamp and action in every branch |
| Watchdog.TurnExactly | apps/bluebird_kiosk/services/watchdog.py:302-376 | With the four checks spelt out, what every turn does from every state: a good poll leaves nothing behind, and which bad one restarts, reboots or is held back, and what it leaves |
| Watchdog.FailuresRestart | apps/bluebird_kiosk/services/watchdog.py:314-350 | From a fresh process, failThreshold polls in a row that fail any of the four checks, the last configured and past grace, restart the session exactly at the last one |
| Watchdog.LadderIsClimbed | apps/bluebird_kiosk/services/watchdog.py:338-373 | recoveringProbes more such polls reboot the box exactly if the stamp is a cooldown old and are held back otherwise |
| Watchdog.StreakIsHistory | apps/bluebird_kiosk/services/watchdog.py:314-325 | The streak never counts more than the unbroken run of failed polls before it |
| Watchdog.RestartsAreEarned | apps/bluebird_kiosk/services/watchdog.py:338-350 | A session restart ends at least failThreshold consecutive failed polls |
| Watchdog.RebootsAreEarned | apps/bluebird_kiosk/services/watchdog.py:338-373 | Every reboot follows an earned session restart, then no passing poll and at least recoveringProbes eligible failures |
| Watchdog.RestartsKeepTheirDistance | apps/bluebird_kiosk/services/watchdog.py:314-367 | Two session restarts are at least min(FT + 1, max(FT, RP + 1)) polls apart, hence min(FT, RP) + 1, also through the cooldown path |
| Watchdog.RebootsAreSpaced | apps/bluebird_kiosk/services/watchdog.py:226-245 | With a steady clock and successful stamp writes recorded reboots are a cooldown apart across process restarts |
| Watchdog.RebootRateIsBounded | apps/bluebird_kiosk/services/watchdog.py:226-245 | A span of T seconds holds at most 1 + T / cooldown recorded reboots |
| Watchdog.RebootsThroughoutExactly | apps/bluebird_kiosk/services/watchdog.py:226-245 | While reboots do not take effect, every eligible failed poll reboots again exactly as long as the stamp on disk, whatever became of it, is a cooldown old |
| Watchdog.WithoutAStampItRebootsEveryPoll | apps/bluebird_kiosk/services/watchdog.py:237-245 | So if no stamp write succeeds, a box that stays down with a missing or old stamp reboots at every poll |
| Watchdog.CooldownKeepsTheStreak | apps/bluebird_kiosk/services/watchdog.py:364-367 | After a blocked reboot the next eligible failure restarts the session exactly when the kept streak reaches the threshold |
| DisplayRevert.DisplayAdmin.AdminApply | apps/bluebird_kiosk/server.py:670-727 | Apply: captures, changes up to the first failure, then a pending revert with its timer, or a snapshot |
| DisplayRevert.DisplayAdmin.AdminConfirm | apps/bluebird_kiosk/server.py:729-739 | Confirm clears the pending change and saves the snapshot only if there was one |
| DisplayRevert.DisplayAdmin.AdminRevertNow | apps/bluebird_kiosk/server.py:741-757 | Revert-now restores what was captured and clears the pending change |
| DisplayRevert.DisplayAdmin.AutoRevert | apps/bluebird_kiosk/server.py:655-668 | An expired timer restores only if its token is the pending one |
| DisplayOutcomes.ApplyChanges | apps/bluebird_kiosk/server.py:686-700 | An apply succeeds exactly if each thing it asks for is valid and works, and changes rotation and mode of the named output alone, up to the first failure |
| DisplayOutcomes.ApplyKeepsTheWayBack | apps/bluebird_kiosk/server.py:670-727 | A failed apply keeps nothing to go back to; a rotation or mode change keeps the output's rotation as rotation and mode as mode, under a new token, for the operator and one timer; any other apply saves the enabled named outputs |
| DisplayOutcomes.ConfirmSaves | apps/bluebird_kiosk/server.py:729-739 | A confirm saves rotation and mode of exactly the enabled named outputs, nothing if the file cannot be written and an empty list if the outputs cannot be read |
| DisplayOutcomes.WhoGoesBack | apps/bluebird_kiosk/server.py:655-757 | Revert-now goes back to what the pending change replaced; a timer does the same exactly if its own change is the pending one |
| DisplayRevert.OneTimerCanAct | apps/bluebird_kiosk/server.py:655-757 | Over any interleaving exactly the pending change's own timer can act |
| DisplayRevert.NoTimerActsAfterASettlement | apps/bluebird_kiosk/server.py:655-757 | After a confirm or revert-now no earlier timer ever changes anything, whatever follows |
| DisplayRevert.StepStaysFaithful | apps/bluebird_kiosk/server.py:655-757 | Each disciplined step keeps the agreed settings live or exactly restorable |
| DisplayRevert.UnconfirmedNeverSticks | apps/bluebird_kiosk/server.py:655-757 | In a disciplined run each change is confirmed or undone exactly and only agreed settings are ever persisted |
| DisplayRevert.ErrorsChangeNothingExactlyWhen | apps/bluebird_kiosk/server.py:686-700 | An apply answered with an error schedules and saves nothing, and leaves the settings alone exactly when nothing that took effect before the failure differs from what was live |
| DisplayRevert.FailedModeStrandsRotation | apps/bluebird_kiosk/server.py:686-695 | So a failing mode after a working rotation leaves the rotation with nothing pending, unless it was live before |
| DisplayRevert.FailedBrightnessStrandsBoth | apps/bluebird_kiosk/server.py:696-700 | A failing brightness strands whatever rotation and mode came with it |
| DisplayRevert.WhenApplyPersists | apps/bluebird_kiosk/server.py:718-721 | An apply saves the live settings exactly when it changes neither rotation nor mode, pending change or not |
| DisplayRevert.RevertUndoesOneApply | apps/bluebird_kiosk/server.py:680-757 | A successful apply then a revert goes back to what was live at that apply exactly when what it replaced can be set again |
| DisplayRevert.OverlappingApplyForgetsTheOriginal | apps/bluebird_kiosk/server.py:680-711 | After two applies a revert restores the settings from before both exactly when the first changed nothing, whatever the two set |
| PersistedSettings.DiskIsAgreedExactly | apps/bluebird_kiosk/server.py:655-757 | With brightness changes at any time: the settings on disk are the agreed ones, or those from the start, exactly unless they were last saved by a brightness change while another change was pending that makes a difference to the file |
| PersistedSettings.UnconfirmedOutlivesItsRevert | apps/bluebird_kiosk/server.py:655-727 | After a change, a brightness change and the change's own timer, the settings are back and the disk holds what was undone |
| DisplayListing.ListOutputs | apps/bluebird_kiosk/services/display.py:57-127 | The line loop with its pending block, flushed at each header and at the end |
| DisplayListing.OneMoreBlock | apps/bluebird_kiosk/services/display.py:98-126 | Blocks are independent: a named block adds one output described by its own lines, the last line of a kind deciding, and changes no other |
| DisplayListing.NothingBeforeHeaders | apps/bluebird_kiosk/services/display.py:76-99 | Lines before the first header list nothing |
| DisplayReports.ReportReadsBack | apps/bluebird_kiosk/services/display.py:88-127 | The report the display tool prints for any list of outputs is read back as exactly those outputs: names, states, modes with rounded rates, current modes and rotations |
| Gesture.TouchWatcher.ReadEvent | apps/bluebird_gesture/__main__.py:216-234 | One input event: slot switch, coordinate, touch, or lift with its known position |
| Gesture.TouchWatcher.WakeUp | apps/bluebird_gesture/__main__.py:208-277 | One turn of the loop: reading, corner taps, finger hold, cooldown |
| Gesture.CornersSurviveRotation | apps/bluebird_gesture/__main__.py:132-138 | What is a corner does not change when the panel is turned or mirrored |
| GesturesAsMade.CornerExactly | apps/bluebird_gesture/__main__.py:132-138 | A corner is within 15 percent of an end of both axes at once; an unknown position or range is none |
| Gesture.ActiveIsTouching | apps/bluebird_gesture/__main__.py:224-238 | At any step the active fingers are exactly those whose latest tracking event is a touch |
| Gesture.PositionIsLatest | apps/bluebird_gesture/__main__.py:218-231 | A lift is judged by the latest x and y of that finger since its previous lift |
| Gesture.PrunedTapsAreRecent | apps/bluebird_gesture/__main__.py:256-266 | The pruned tap list is the full history since the last corner launch filtered to four seconds |
| GesturesAsMade.TapsAreCornerLifts | apps/bluebird_gesture/__main__.py:216-252 | A batch adds one tap per lift of a finger whose latest x and y since its previous lift are in a corner, judged by the whole input history |
| Gesture.CornerLaunchExactly | apps/bluebird_gesture/__main__.py:260-266 | A corner launch happens exactly on five recent corner lifts with the cooldown over |
| Gesture.HoldLaunchIsEarned | apps/bluebird_gesture/__main__.py:268-277 | A hold launch means five fingers down at every step for at least two seconds |
| GesturesAsMade.StepExactly | apps/bluebird_gesture/__main__.py:208-277 | Each gesture launches exactly under its own condition, never both, and what a launch resets |
| GesturesAsMade.HoldLaunchExactly | apps/bluebird_gesture/__main__.py:268-277 | A finger launch happens exactly when five fingers are down, have been for two seconds since the hold began, the last launch is five seconds ago and no corner launch is due |
| Gesture.LaunchesAreSpaced | apps/bluebird_gesture/__main__.py:262-275 | Launches by either gesture are at least five seconds apart |
| PinLockout.LockoutState.VerifyPin | apps/bluebird_kiosk/services/pin.py:50-68 | Verification in every branch: malformed, locked out, no hash, match, mismatch |
| PinLockout.AnswersExactly | apps/bluebird_kiosk/services/pin.py:50-90 | A PIN is accepted exactly if well formed, matching and entered outside a lockout, which clears everything; what every other entry is answered and leaves |
| PinLockout.AcceptedExactly | apps/bluebird_kiosk/services/pin.py:50-68 | Over every run exactly the correct PINs entered outside a lockout are accepted |
| PinLockout.AcceptanceStartsAnew | apps/bluebird_kiosk/services/pin.py:60-90 | After an accepted PIN everything, the three-guess count and the bounds on guesses included, is as from a fresh lock |
| PinLockout.WrongComparisonsLock | apps/bluebird_kiosk/services/pin.py:86-90 | From the third wrong comparison each one locks out everything for 300 seconds |
| PinLockout.GuessesAreSlow | apps/bluebird_kiosk/services/pin.py:50-90 | As long as no PIN is accepted, the n-th wrong comparison comes at least 300 (n - 3) seconds after the third |
| PinLockout.GuessRateIsBounded | apps/bluebird_kiosk/services/pin.py:50-90 | As long as no PIN is accepted, a stretch of T seconds allows at most 3 + floor(T / 300) wrong comparisons |
| IncidentPolling.IncidentPoller.PollOnce | apps/bluebird_kiosk/services/incident_poller.py:84-140 | One poll in every branch, including one that raises and changes nothing |
| IncidentPolling.ShownExactly | apps/bluebird_kiosk/services/incident_poller.py:84-140 | An incident is on screen exactly when everything since its announcement failed within the grace or raised, and it is that announcement's payload |
| IncidentPolling.ShownIsLatestAndFresh | apps/bluebird_kiosk/services/incident_poller.py:84-140 | What is on screen is the latest announcement's payload, younger than 30 seconds plus the longest gap between returning polls |

## Left out

- HTTP, SQLite, threads, systemd, sway and the file system appear only as the outcomes they can
  have; SQLite errors other than a refused id are not modelled.
- Backend correctness is assumed only where a lemma states the contract on manifest replies.
- Writes of kiosk.conf and display-content.json succeed; a JSON reply of an unexpected shape is
  a refused id or an unparseable body.
- JSON encoding is the identity; a row keeps the columns the code reads and one string for the rest.
- bcrypt is a yes, no or absent hash; random tokens are fresh numbers.
- Python's floating-point rounding: clocks and screen fractions are real numbers, and parsing a
  refresh rate is a parameter.
- A slideshow entry whose id Python accepts but SQLite cannot store counts as unparseable.
- `video_blobs` and `rotation_video_blobs` are one map, whose keys never meet.
- The order in which stale rotation ids are deleted is any order.
- `fetched_at` and the watchdog's mirrored state file, which nothing reads back.
- Touch-to-wake and the last-input stamp of the gesture daemon: two independent debounces.
- Brightness in the saved display snapshot, which no revert concerns.
- The diagnostics refresh at the end of a tick, `_execute_commands`, the legacy-wall URL, the
  device-id and license helpers: one-step wrappers.
- Web pages, installer, ISO scripts, power scheduler, print agent, network and system wrappers.
- EveryRecordIsBacked: states uninterrupted ticks with no outside change to the media directory; what
  kills leave is `RecordsSurviveKills` and, for the row a record should have, `KillStrandsExactly`.
- RestartsExactly: leaves out URLs with a line of their own that sets the backend; each of their
  heartbeats restarts while there is a backend (`LineBreaksRestartEveryTime`).
