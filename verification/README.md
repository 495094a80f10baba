# Verification of the vibes backend

A Dafny model of the parts of the backend that keep a listening room consistent, with proofs.

- **The room event stream.** Many callers append to a bounded Redis stream with separate trim, add and expiry commands.
  A subscriber reads batches, checks that nothing was trimmed under it, compacts the batch, delivers it and moves its
  cursor. `EventStream`, `Compaction`, `CompactionTightness`, `Subscription`, `SubscriptionEnds` and `Reconnect` prove
  that it never skips a record, that compaction keeps the meaning of a log and drops all that cannot show, and that
  capturing the cursor before the snapshot makes the latest-value components of a new connection converge.
- **The queue.** `QueueOrder`, `ListingOrder`, `RoomQueue`, `RoomStore`, `QueueInvariant`, `QueueOperations` and
  `RoundRobin` model the statements that order, add to, vote on and advance the queue; `QueueDeltas` the one-item
  records, `QueueRecords` and `QueuePayloads` what each handler appends and sends. `LiveQueue`, with `LiveHandlers`,
  puts queue, handlers, stream and connection together: what a client shows, whoever overtakes whom. `QueueConvergence`
  says exactly when that is sure to be the stored order, with runs that `QueueRuns` builds to order. `PlaybackWrites`
  adds the playback rows that are written back from an earlier read.
- **Leased and coordinated work.** `PlaylistImport`, `Generation`, `Reservations`, `SearchClaim` and `RateLimit` are
  state machines of any number of workers whose statements and commands interleave. `ImportedQueue` and `ImportFills`
  join the import with the queue it fills, `ImportProgress` and `SearchRuns` say what undisturbed workers reach and that
  bounds are tight, `GenerationRooms` the generations with the room names, `GenerationOutcomes` follows a generation to
  its end; `RateLimitRaces` says exactly for which limits racing calls stay within them.
- **Arithmetic and paging.** `Duration`, `PlaybackClock`, `YouTubePlaylist` and `SoundCloudPlaylist`, with
  `Deduplication` as the reference for both lists.

Every Redis command and every prepared SQL statement is one atomic step, and all parts of a statement read the state
before it (PostgreSQL manual, section 7.8.4). Steps of different callers interleave freely. IDs, names, tokens and
sources are numbers; stream IDs are ordered numbers and grow over the whole history of a topic. Fresh tokens and UUIDs
are numbers never used before. Times are integers passed in by the caller. Statements are value-level functions; the
classes (`RoomStore.Store`, `EventStream.Stream`, `PlaylistImport.Imports`, `Generation.Generations`,
`Reservations.Tables`, `RateLimit.RateLimiter`, `PlaybackClock.Playback`) change their fields in place and are proved
against them.

What the proofs found:

- With remove-on-play and nothing current, the skip statement plays nothing although an item may be playable
  (`RoomQueue.StatementRefinesProcedure` says exactly when statement and procedure agree).
- A client can end with another queue order than the stored one. It is sure not to exactly if, from some record that
  delivers the whole queue on, all records were read at once and arrive in order, up to the last statement; or if all
  records were and did, and the snapshot was at most one update ahead (`QueueConvergence.ShowsIff`). A handler that
  reads its listing behind another handler's statement, or two handlers that append in the other order, are each enough
  to go wrong with no update ahead, even if a whole queue came before; so is a record that was never appended, if no
  whole queue comes. The item record of an advance never delivers the whole queue.
- A latest-value component can go wrong exactly if an older value is appended behind the newest one
  (`Reconnect.ShowsIff`).
- A worker that finds an import exhausted can delete it after a late completion has moved it on; that costs claims
  exactly when the row's attempts are below the maximum (`PlaylistImport.GiveUpIsDeserved`).
- The counted rate limits hold for calls that do not interleave. For interleaved calls the identity limit holds exactly
  up to one, and the address limit only where nothing is allowed at all (`RateLimitRaces.IdentityBoundIff`,
  `RateLimitRaces.AddressBoundIff`).
- The last allowed attempt of a generation is not leased: the next poll fails the generation while its worker is still
  at it (`Generation.WorkIsLeased`).
- Re-anchoring a playing item drops the started millisecond (`PlaybackClock.PlaysStandStill`); the position is exact if
  and only if no such remainder is left (`PlaybackClock.ExactIffInStep`).
- A pause, play or seek, and the automatic start of a first song, can make a song current that has left the queue in
  between (`PlaybackWrites.WriteKeepsIff`, both directions).

`dafny verify dfyconfig.toml` checks the whole project.

## Model

| member | source | states |
|---|---|---|
| Subscription.GapFree | client/redis/replay.go:385-461 | For every interleaving of any appenders' commands with the subscriber's reads, boundary checks and deliveries: what a subscription with a start other than 0-0 has taken is, batch by batch, a contiguous segment of the append history behind its start, and what it has sent is a prefix of that segment's deliveries |
| Subscription.NeverSkips | client/redis/replay.go:407-420 | Once the record behind the cursor is trimmed, with no batch under delivery and no earlier first ID read by the check, no further step delivers anything: the subscription can only close |
| Subscription.ViewOfHistory | client/redis/replay.go:385-461 | Whenever its batches are delivered in full, the client's view equals the view of every single record of the history up to the cursor |
| Subscription.StepKeeps | client/redis/replay.go:385-461 | Every subscriber step and every Redis command of any appender keeps the invariant that ties batch, cursor and history |
| Subscription.RunKeeps | client/redis/replay.go:385-461 | The invariant holds after every run |
| Subscription.RedisKeeps | client/redis/replay.go:226-261 | An appender's trim, add or expiry leaves what a subscriber holds, at any phase, a segment of the history |
| Subscription.ReadIsContiguous | client/redis/replay.go:463-545 | A read returns the records behind the cursor without a gap unless a record between the cursor and the first stored one is gone |
| Subscription.ReadLastKeeps | client/redis/replay.go:409-420 | The check after the read, made with two separate boundary reads, lets only contiguous batches through |
| Subscription.UptoIsStable | client/redis/replay.go:463-545 | Positions the history has passed do not move when more is appended |
| Subscription.RoundDelivers | client/redis/replay.go:385-461 | A subscriber whose cursor is still stored is not turned away: one undisturbed round delivers the batch it reads and moves the cursor to its last record |
| SubscriptionEnds.TurnedAwayIff | client/redis/replay.go:407-420 | With something to read, a waiting subscriber is turned away, with nothing delivered, exactly when the stream begins behind its cursor; one that starts at 0-0 is not checked |
| SubscriptionEnds.ClosesOnlyWhen | client/redis/replay.go:409-420 | A step closes a subscription only by cancelling it, or when the first and last stored ID, read separately, do not enclose the cursor |
| SubscriptionEnds.CancelEnds | client/redis/replay.go:446-461 | A cancelled subscription delivers nothing more in any run, and its cursor stays at the last delivered event |
| SubscriptionEnds.BatchesAreBounded | client/redis/replay.go:463-545 | Over every run no batch is empty and none holds more records than are read at once |
| EventStream.StreamIsBoundedSuffix | client/redis/replay.go:214-264 | Every interleaving of any callers' trim, add and expiry commands leaves the stream a suffix of the append history of at most maxEvents records |
| EventStream.ExecuteKeeps | client/redis/replay.go:226-261 | Each command keeps the stream a suffix of a history that only grows, and brings no trimmed record back |
| EventStream.AppendEffect | client/redis/replay.go:226-261 | An undisturbed append keeps the newest records that are young enough and puts the new one behind them |
| EventStream.RecordIsRetained | client/redis/replay.go:226-261 | Over every run of any callers' commands a record stays stored as long as no trimming by age reaches it, no more records than the limits allow are stored from it on, and the key does not lapse |
| EventStream.Lapses | client/redis/replay.go:254-261 | A stored stream can be set to expire; when it lapses all its records go at once, and an empty one cannot be set to expire |
| EventStream.DropBelowIsExact | client/redis/replay.go:228-232 | Trimming by age keeps exactly the records with an ID from the cutoff on |
| EventStream.Stream.Append | client/redis/replay.go:214-264 | The four commands in place: the new contents, history and expiry |
| EventStream.Stream.Do | client/redis/replay.go:226-261 | One command in place |
| EventStream.CompareIsByRank | client/redis/replay.go:691-705 | Comparing millisecond and sequence parts is a total order with equality only for equal IDs |
| EventStream.WithinBoundsIsByRank | client/redis/replay.go:652-668 | The bounds test accepts exactly the IDs from the first to the last |
| Compaction.CompactReplayMessages | client/redis/replay.go:553-599 | The two passes return exactly the records that no later record of the batch supersedes, in order; CompactionTightness.SupersedesIff says what that means for a view |
| Compaction.MarkKept | client/redis/replay.go:553-590 | The seen flags of the backward pass mark exactly the surviving records |
| Compaction.CompactionPreservesView | client/redis/replay.go:422-459 | For every log and every way of cutting it into batches, folding the delivered events over a client's view ends in the view of every record on its own |
| Compaction.BatchPreservesView | client/redis/replay.go:422-459 | The same for one batch, with the promotion of its queue record |
| Compaction.KeptFolds | client/redis/replay.go:553-599 | Dropping superseded records does not change what the promoted batch does to any view |
| Compaction.PromotedFolds | client/redis/replay.go:439-444 | Promoting faithful queue records to snapshots does not change the view |
| Compaction.CompactionPreservesLatest | client/redis/replay.go:422-459 | The latest-value components need no assumption about the queue records |
| Compaction.LastIsDelivered | client/redis/replay.go:453-457 | The last record of a batch is always delivered, so the cursor ends at its ID |
| Compaction.CompactionIsTight | client/redis/replay.go:553-599 | No compacted record supersedes an earlier one |
| CompactionTightness.SupersedesIff | client/redis/replay.go:558-590 | A type of record replaces another exactly when no view and no two records of these types let the earlier one make a difference once the later one is applied |
| CompactionTightness.KeptIff | client/redis/replay.go:553-590 | A record is kept exactly when it may still make a difference behind every later record of its batch, judged by their types |
| CompactionTightness.DeliveredMatters | client/redis/replay.go:553-599 | Of any two delivered records of one batch there are a view and bodies of their types for which the earlier one shows behind the later one |
| CompactionTightness.SentPayload | vibe/eventsv3.go:104-114 | A record is sent as it is stored, but a client is never sent a queue update: it gets the whole queue, or the record for one item if its batch is a single update that carries one |
| CompactionTightness.NothingIsOverwritten | client/redis/replay.go:576-586 | No two delivered records of a batch write the same latest-value component, nothing that touches the users stands before a users update and nothing that touches the queue before a queue update |
| LiveQueue.ClientShowsListing | server/internal/handler/roomv3.go:303-382 | From database to client, over every run in which handlers store, read the listing and append in any interleaving or fail, other appenders append and trim, and one connection captures its cursor, reads a snapshot and replays: once it is caught up, the client shows exactly the queue as it was after the statement that the schedule of its records tells, by a rule on when each was stored, read and delivered whole |
| LiveQueue.RunKeeps | server/internal/handler/roomv3.go:614-645 | Over every such run each handler's record carries the listing it read and, if read at once, tells what its statement did; the stream holds the appended records in order, and the snapshot is the queue after some statement |
| LiveQueue.ActKeeps | server/internal/handler/roomv3.go:740-808 | The same for each single action: a statement, a reading, an append, a failure, a connection, a snapshot or anybody else's command |
| LiveQueue.SlotsShow | client/redis/replay.go:422-459 | Record by record: the whole queue brings any view to where it was read; a lone record prepared at once brings a view from just before or just behind its statement to just behind it |
| LiveQueue.EffectiveFolds | client/redis/replay.go:436-444 | Whatever the view, right or wrong, batches deliver what every record does on its own, with the queue updates of larger batches promoted |
| LiveQueue.InOrderFits | server/internal/handler/playback.go:31-65 | Records in the order of their statements, each prepared at once, fit one after the other and lead to the last listing |
| LiveHandlers.RoomIsStatements | server/internal/handler/roomv3.go:303-382 | Over every run, whatever handlers, appenders and connections do in between, the room is what the statements alone make of it in their order |
| LiveHandlers.DoneIsSilent | server/internal/handler/roomv3.go:614-645 | A handler that has appended its record, or failed before it could, never appends one again in any run |
| LiveHandlers.ReadyAtOnce | server/internal/handler/playlists.go:262-271 | An import's lone addition can be appended at once, every other record waits until its handler has read the listing, and is built from it |
| QueueConvergence.ShowsIff | client/redis/replay.go:436-444 | Over all runs and all their traits: a client is sure to end in the stored order if and only if its records settle it (from some whole queue on, in order, read at once, up to the last statement), or none of its records was read late, overtaken or missing and either the snapshot was at most one update ahead or a whole queue came |
| QueueConvergence.SafeShows | server/internal/handler/roomv3.go:1193-1223 | That condition is enough for every single run |
| QueueConvergence.OverlapDiverges | server/internal/handler/roomv3.go:303-377 | One listing read behind another handler's statement, or two appends in the other order, and a run exists that ends wrong, for any number of updates ahead, with or without a whole queue, unless settled |
| QueueConvergence.MissingDiverges | server/internal/handler/roomv3.go:377-385 | A record that was never appended does the same, unless a whole queue came |
| QueueConvergence.AheadDiverges | server/internal/handler/roomv3.go:1209-1223 | With everything in order, so does a snapshot two or more updates ahead, for every such number, if nothing comes whole |
| QueueRuns.PlayedOut | client/redis/replay.go:385-461 | For any statements with records, reading times, snapshot time and deliveries there is a run of handlers, appenders and subscriber with exactly this schedule, and its client shows what the deliveries make of the snapshot |
| QueueRecords.StepTells | server/internal/handler/roomv3.go:762-808 | For each of the seven statements, on any room of the invariant: its handler's record, if built from the listing right behind it, fits the listing before and tells the one behind, also when replayed once more; without a record the listing is unchanged |
| QueueRecords.BuiltCarries | server/internal/handler/playlists.go:177-208 | Whatever listing a handler reads, its queue update is well formed and carries exactly that listing |
| QueuePayloads.SentFor | server/internal/handler/roomv3.go:303-382 | For each statement what its record sends: alone the one item it touched and in a batch the listing its handler read; always the listing for an expiry, a retried import and a vote that is there already; never more than one item for an advance and an import's new item |
| QueuePayloads.SilentIff | server/internal/handler/roomv3.go:740-808 | Exactly which statements send nothing about the queue |
| QueueRecords.AllFittingAreFaithful | vibe/eventsv3.go:104-114 | Records that fit one after the other are faithful, which is what compaction assumes: converted as they are or promoted, they take the old listing to the new one |
| QueueRecords.SearchIsPosition | server/internal/handler/roomv3.go:336-375 | The record found by the handlers' search of the listing is the one of the position query |
| QueueRecords.PlaceEditsOne | server/internal/handler/playback.go:31-65 | The record of the one touched item edits the old listing into the new one, and the new one into itself |
| Reconnect.Convergence | server/internal/handler/roomv3.go:1040-1099 | Cursor first, then snapshot, then replay, with values appended in any order: once a connection has taken every record, each latest-value component it read holds the stored value, unless an older value was appended behind the newest one |
| Reconnect.ShowsIff | server/internal/handler/roomv3.go:1193-1320 | Over all runs: a client is sure to show the stored value of a latest-value component if and only if the newest value was not overtaken |
| Reconnect.RunKeeps | server/internal/handler/roomv3.go:1193-1320 | Over every run the store leads the log by the values still to be appended, except for an overtaken one, and every snapshot value is current or followed by another record |
| Reconnect.ActKeeps | server/internal/handler/roomv3.go:1193-1320 | The same for one action of a writer, a publisher, an appender or the connection |
| Reconnect.FreshRoom | server/internal/handler/roomv3.go:1040-1060 | A room with an empty stream and nobody connected satisfies the invariant, whatever is stored |
| RoomQueue.StatementRefinesProcedure | client/database/playback.go:476-604 | The single skip statement on the snapshot before it equals clearing the votes, removing or requeuing the current item and playing the head, if and only if an item is current, remove-on-play is off or nothing is playable |
| RoomQueue.SelectedIsHead | client/database/playback.go:522-577 | The next item the statement selects is the head of the queue as it is afterwards |
| RoomQueue.SettledRows | client/database/playback.go:288-318 | Items, votes and skip votes are left as by the sequential procedure, whatever is current |
| RoomQueue.IdleSelectsNothing | client/database/playback.go:553-562 | With remove-on-play and nothing current, three-valued logic leaves no candidate |
| RoomQueue.HeadIsAnItem | client/database/playback.go:727-818 | A queue has a head exactly when it has an eligible item, and the head is one of them |
| QueueOrder.OrderIsUnique | client/database/playlists.go:943-1010 | There is one way to list any set of rows; ListingOrder.ListedInOrder says which |
| QueueOrder.Order | client/database/playlists.go:943-1010 | The order lists exactly the rows, sorted; ListingOrder.ListedInOrder says by what |
| ListingOrder.ListedInOrder | client/database/playlists.go:967-973 | Told from the stored votes and times alone: of two listed items the one with more votes comes first, at equal counts the one whose last vote is earlier, and with none or at the same time the one added earlier; no item is listed twice |
| ListingOrder.ListedIs | client/database/playlists.go:943-1010 | Exactly the stored items of enabled providers are listed, but for live videos, each with the number of its votes |
| ListingOrder.HeadComesFirst | client/database/playback.go:563-566 | What a limit-one query picks is the item that comes first in that order among those it chooses from |
| ListingOrder.VoteMoves | client/database/playlists.go:1634-1657 | A new vote puts its item behind every listed item that already had more votes, before every other one, and leaves the order of the others as it was |
| ListingOrder.AdvancePlaysFirst | client/database/playback.go:476-604 | An advance drops the votes of what was playing, removes it or makes it the last one added, leaves every other item and vote alone, and plays from the start whatever comes first among what is left |
| QueueOrder.FirstIsUnique | client/database/playback.go:563-566 | The limit-one row is the one that precedes all others |
| RoomStore.Store.Advance | client/database/playback.go:476-604 | The statement in place, row by row: the new state is the statement's |
| RoomStore.Store.Add | client/database/playlists.go:1183-1430 | The add in place: the resolved row, the vote, the outcome and the error case are the statement's |
| RoomStore.Store.HeadOf | client/database/playlists.go:943-1010 | One pass over the rows finds the head of the queue order |
| RoomStore.Store.Aggregate | client/database/playlists.go:943-1010 | Counting votes and their latest time yields the row of the queue order |
| RoomStore.Store.FindDuplicate | client/database/playlists.go:1256-1372 | The search finds the row an add resolves to, if there is one |
| RoomStore.Store.InsertVote | client/database/playlists.go:1634-1657 | A second vote of the same user changes nothing |
| RoomStore.Store.Remove | client/database/playlists.go:1586-1607 | Removal deletes the item with its votes and stops it if it plays |
| RoomStore.Store.ExpireMetadata | client/database/playlists.go:527-574 | Expiry deletes exactly the old YouTube items with their votes and stops one that plays |
| RoomStore.Store.StartIfIdle | client/database/playback.go:727-818 | An idle room plays the head, any other room is left alone |
| RoomStore.Store.ClearVotes | client/database/playback.go:288-301 | Exactly the item's votes go |
| RoomStore.FirstIsHead | client/database/playlists.go:943-1010 | The row a limit-one query returns is the head of the listing |
| QueueInvariant.RunKeeps | client/database/playlists.go:1277-1372 | Every run of adds, votes, skip votes, removals, expiries, advances and starts keeps all votes on items in the queue, one vote per user and item, the current item empty or in the queue, playing only with a current item, and no two guarded duplicates |
| QueueInvariant.StepKeeps | client/database/playlists.go:1586-1657 | Each of the seven operations keeps that invariant |
| QueueInvariant.AddKeeps | client/database/playlists.go:1256-1372 | The add statement keeps guarded sources unique |
| QueueInvariant.AdvanceKeeps | client/database/playback.go:477-604 | The advance keeps votes, guards and the current item consistent |
| PlaybackWrites.WriteKeepsIff | client/database/playback.go:683-719 | Over every run of statements, reads and writes: a playback row written back from an earlier read keeps the queue's invariant if and only if the item held was not removed, expired or dropped by a remove-on-play advance since, or was added again; a row read without an item, unless a seek writes it back as playing; the row of a first song just added, if and only if that song has not left |
| PlaybackWrites.RunKeeps | client/database/playback.go:427-443 | Over every such run, harmful writes included, votes, guards and what each caller knows of its item stay consistent |
| PlaybackWrites.KeysChange | client/database/playlists.go:1586-1607 | Removal, expiry and a remove-on-play advance take items out of the queue, adds put one in, and no other statement changes which items are there |
| PlaybackWrites.UndisturbedWrite | client/database/playback.go:683-719 | Undisturbed, a play, pause or seek stores the item read, as playing, paused or as it was, at the position written, and nothing else |
| PlaybackWrites.IdleCallerStarts | client/database/playback.go:427-443 | With nothing current a caller starts the room and holds what it plays, or reads again and holds no item if nothing may be played |
| PlaybackWrites.FirstSongStarts | server/internal/handler/roomv3.go:386-402 | Undisturbed, a song added to a room that lists nothing else is played from the start, one added to others is left to the queue |
| PlaybackWrites.PlayWithoutItemStarts | client/database/playback.go:683-719 | A play by a caller that holds no item starts the room instead of writing |
| PlaybackWrites.PhasesInOrder | client/database/playback.go:427-443 | Callers go through their reads and writes in order, each by its own actions |
| PlaybackWrites.RemovalBetweenDangles | server/internal/handler/roomv3.go:386-402 | That happens: a pause writes back a song removed between its read and its write, and the first song added is played after its removal |
| QueueOperations.AddOutcome | client/database/playlists.go:1277-1418 | An add stores the item or merges it into a stored one, leaves every other item and vote alone, leaves the asked-for vote, and its outcome tells which happened |
| QueueOperations.AddSucceedsIff | client/database/playlists.go:1256-1372 | An add fails exactly for a disabled provider, a live video, or a stored ID added anew without standing for a duplicate; it stores the item exactly when neither its ID nor a guarded duplicate is stored |
| QueueOperations.SecondAddMerges | client/database/playlists.go:1256-1372 | In a room without duplicates a second add of the same source under another ID votes for the first item instead |
| QueueOperations.RemovalsAreExact | client/database/playlists.go:527-574 | An expiry takes out exactly the YouTube items whose metadata is at least 25 days old and a removal exactly its item, each with its votes and skip votes and no others; a room that played such an item stops |
| QueueOperations.SkipVoteIsStored | client/database/skip.go:145-154 | A skip vote for a stored item is there afterwards, one for another item is not stored, and nothing else changes |
| QueueOperations.StartEndsIdleness | client/database/playback.go:727-818 | A start leaves a room idle exactly when nothing can be played, leaves any other room alone, and a second start changes nothing |
| RoundRobin.EveryItemOnce | client/database/playback.go:310-350 | With remove-on-play off, N advances over N eligible items play every item exactly once, whatever the starting votes |
| RoundRobin.PlayedCyclically | client/database/playback.go:522-577 | Any number of advances plays the items cyclically, in the order of the queue at the start |
| RoundRobin.AdvanceRotates | client/database/playback.go:310-350 | One advance moves the playing item behind all others and plays the head |
| RoundRobin.CycleIsFair | client/database/playback.go:522-577 | The cycle holds every playable item once |
| QueueDeltas.DeltaIsFaithful | server/internal/handler/roomv3.go:336-382 | Editing the previous order with the one record of the touched item yields exactly the newly computed order |
| QueueDeltas.CompactDelta | server/internal/handler/roomv3.go:336-375 | The handlers' search loop yields the item's place in the new listing, or its removal |
| QueueDeltas.AddDelta | server/internal/handler/roomv3.go:336-382 | The record after an add, a merged duplicate included |
| QueueDeltas.RemoveDelta | server/internal/handler/roomv3.go:614-632 | The record after a removal |
| QueueDeltas.VoteDelta | server/internal/handler/roomv3.go:762-808 | The record after a vote |
| QueueDeltas.AdvanceDelta | server/internal/handler/playback.go:31-65 | The record after an advance is for the item that was playing, and suffices |
| QueueDeltas.AdvancePublishesDelta | server/internal/handler/playback.go:31-65 | The record built from the position query after an advance yields the new order |
| QueueDeltas.PositionRecordIsDelta | client/database/playlists.go:820-867 | The position query gives the item's place in the listing, or nothing for an unlisted item |
| QueueDeltas.RowNumberIsIndex | client/database/playlists.go:820-867 | The row number minus one is the index in the ordered listing |
| QueueDeltas.ImportAppends | server/internal/handler/playlists.go:262-273 | An imported item, unvoted and newest, is listed last, so its lone addition suffices |
| PlaylistImport.ImportInOrder | client/database/playlists.go:139-223 | Over every run of several workers with expired leases, crashes and retries: the staged rows are exactly next_position..n-1, positions are completed in order, each once and only after being added, granted claims are bounded, and at the end everything is completed unless the import was given up |
| PlaylistImport.StepKeeps | client/database/playlists.go:341-385 | Each statement of each worker keeps that invariant |
| PlaylistImport.RunKeeps | server/internal/handler/playlists.go:222-310 | The invariant holds after every run |
| PlaylistImport.StaleCompletion | client/database/playlists.go:341-385 | A worker completing a position that is already completed changes nothing and is told so |
| PlaylistImport.EffectiveCompletion | client/database/playlists.go:341-385 | A completion has an effect if and only if it is of the position the row is at |
| PlaylistImport.GrantWaitsForLeases | client/database/playlists.go:141-170 | A claim is granted only when every earlier lease on that position has run out |
| PlaylistImport.CreateChecksForGaps | client/database/playlists.go:58-66 | Count, minimum and maximum accept exactly the gapless staging |
| PlaylistImport.ClaimsRunOut | client/database/playlists.go:155-182 | No step of anybody adds claims, and each granted claim uses one up |
| PlaylistImport.LastClaimEnds | server/internal/handler/playlists.go:231-239 | With none left, the next claim that is due gives the import up, so every import ends |
| PlaylistImport.RoundCompletes | server/internal/handler/playlists.go:222-310 | An undisturbed worker completes exactly the next position, and the last one ends the import |
| ImportProgress.ImportCompletes | server/internal/handler/playlists.go:222-310 | Every import, however long, that one worker is left alone with is staged, created, added and completed in full |
| ImportProgress.CrashedClaimIsRetried | client/database/playlists.go:141-182 | A claim whose worker crashed keeps everybody out for five minutes; then the item is claimed again, or given up after its fifth claim |
| ImportProgress.CreatedIff | client/database/playlists.go:58-66 | An import is created exactly once, for positions 0 to count - 1 without a gap |
| ImportProgress.CompletionIs | client/database/playlists.go:341-385 | A completion takes the staged item out, and the row moves on to the next position with all its claims, or goes with the last item |
| PlaylistImport.NextIsFresh | client/database/playlists.go:356-370 | After a completion the next position can be claimed at once, with all its attempts |
| PlaylistImport.GiveUpIsDeserved | server/internal/handler/playlists.go:231-239 | In every reachable state a give-up deletes a next item with claims left if and only if the row's attempts are below the maximum at that moment, and then the position found exhausted was completed meanwhile; otherwise every attempt was granted |
| PlaylistImport.OvertakenGiveUpDropsItems | server/internal/handler/playlists.go:222-239 | That happens: with five-minute leases, a worker that found the import exhausted is overtaken by a late completion and then deletes an item nobody ever claimed |
| ImportedQueue.AddedOncePerRemoval | client/database/playlists.go:1256-1372 | For every run of import workers among any other statements on the room: a staged item is reported as added at most once between two removals of it, and every completed position was reported |
| ImportedQueue.RunKeeps | server/internal/handler/playlists.go:240-310 | What that rests on: an item once reported as added is in the queue until a statement removes it |
| ImportFills.ImportFillsQueue | server/internal/handler/playlists.go:222-310 | The statements of an import that nobody disturbs put all its addable items into the queue, one after the other, and change nothing else |
| ImportFills.ImportedInOrder | client/database/playlists.go:967-973 | The imported items are listed in the order of the playlist, behind everything that was listed before |
| ImportFills.FailedAddIsLeft | server/internal/handler/playlists.go:222-246 | A worker whose add fails adds nothing and leaves its item to the next claim |
| PlaylistImport.Imports.Claim | client/database/playlists.go:139-223 | The claim statement in place |
| PlaylistImport.Imports.CompleteItem | client/database/playlists.go:341-385 | The completion statement in place, with its updated count |
| PlaylistImport.Imports.Delete | client/database/playlists.go:438-446 | Deletion removes the staged rows and the import |
| Generation.Lifecycle | client/database/generate.go:134-188 | For every interleaving of workers a generation is attached to at most one room and keeps it, is claimed at most the maximum number of times and never both completes and fails |
| Generation.OlderAttemptsAreFenced | client/database/generate.go:136-143 | Once a later attempt is claimed, no run of any workers attaches a room for an earlier one |
| Generation.LatestAttaches | client/database/generate.go:136-143 | An attempt that attaches is the latest claim of a generation without a room |
| Generation.FinishedIsFinal | client/database/generate.go:667-673 | A completed or failed generation stays exactly as it is until it is cleaned up |
| GenerationOutcomes.CompletionIsKept | client/database/generate.go:667-673 | After any run: when the room that a worker attached to a generation is reported complete while the generation is unfinished, it is completed and not failed, in every later run until it is cleaned up, and is never polled or attached again |
| GenerationOutcomes.FailureIsKept | client/database/generate.go:703-712 | Likewise a report of failure makes it failed and not completed, whatever attempts it had left |
| GenerationOutcomes.ReportsConcernTheirRoom | client/database/generate.go:667-712 | A report finishes exactly the unfinished generations of its room, with its outcome and time, and changes no other row |
| GenerationOutcomes.EndedStays | client/database/generate.go:468-525 | An ended generation keeps its outcome in every run, and no run polls it or attaches a room to it |
| GenerationOutcomes.PollClaimsIff | client/database/generate.go:476-513 | A poll claims exactly an unfinished generation with claims left that is new or was untouched for five minutes, and gives the worker its next attempt |
| GenerationOutcomes.LatestClaimAttaches | client/database/generate.go:136-161 | A worker attaches a room exactly to an unfinished generation without one of which it has the latest claim, if the name is free |
| GenerationOutcomes.SecondAttemptCompletes | client/database/generate.go:468-525 | A new generation whose first worker crashed is claimed by another one five minutes later, gets its room, is completed and cleaned up, and its ID is not used again |
| GenerationOutcomes.OnlyFinishedGoes | client/database/generate.go:749-754 | Only a finished generation leaves the table, by being cleaned up |
| Generation.ExhaustedIsFailed | client/database/generate.go:504-513 | A generation claimed the maximum number of times is claimable at once, and the poll fails it |
| Generation.ClaimsAreSpaced | client/database/generate.go:476-487 | A repeated claim waits until the row was untouched for five minutes |
| Generation.WorkIsLeased | client/database/generate.go:476-487 | A claim or an attached room keeps other workers out for five minutes, but the last attempt is not protected: the next poll fails the generation |
| Generation.StepKeeps | client/database/generate.go:468-525 | Every statement of every worker keeps the invariant of claims, attempts and attachments |
| Generation.RunKeeps | client/database/generate.go:703-712 | The invariant holds after every run |
| Generation.Generations.CreateGenerationRoom | client/database/generate.go:196-245 | The loop attaches the first free candidate name, returns the room attached before, and changes nothing without the claim |
| Generation.Generations.ProcessNext | client/database/generate.go:468-525 | The poll in place |
| GenerationRooms.RoomsAreTheirOwn | client/database/generate.go:134-188 | The statement that creates a generation's room, with both tables: over every run no room is attached to two generations and no generation to two rooms, and every attached room was created by that very step |
| GenerationRooms.ReportsAreForOne | client/database/generate.go:667-712 | Of the generations attached to rooms a report for a room concerns only the one attached to it |
| GenerationRooms.ReservedNameIsAttached | client/database/generate.go:143-161 | A name reserved by a generation's owner becomes its room for a worker that has the token, and for nobody without it |
| GenerationRooms.NewRoomsAreAccountedFor | client/database/generate.go:143-161 | A new room comes from an ordinary creation or has just been attached to a generation |
| GenerationRooms.OwnersStay | client/database/generate.go:134-143 | A generation's owner never changes, in any run |
| GenerationRooms.RunKeeps | client/database/generate.go:134-188 | The invariants of generations and of names hold together over every such run |
| Reservations.CreationIsSafe | client/database/rooms.go:635-718 | A room is only created for an ID that has none, its name is consumed, and if it was under a live reservation the creator was its owner with its latest token |
| Reservations.ReservationIsKept | client/database/rooms.go:927-998 | Whatever everybody else does until it expires, a reservation stays, no room takes its name, and its owner can create the room with exactly its token |
| Reservations.NamesAreSafe | client/database/rooms.go:1054-1144 | Every run of reserve, suggest, create, create-for-generation, deletion and cleanup keeps: at most one reservation per name and owner, rooms' names consumed, no room under a live reservation, and a further step creates a reserved room only for its owner's latest token |
| Reservations.StepKeeps | client/database/rooms.go:927-998 | The same for each statement |
| Reservations.EmptyIsFine | client/database/rooms.go:927-998 | The invariant holds before anything is reserved |
| Reservations.OthersLeaveIt | client/database/rooms.go:944-990 | One step of anybody but the owner leaves a live reservation alone |
| Reservations.ConsumedIsForever | client/database/rooms.go:946-963 | A consumed name is never reserved or suggested again |
| Reservations.OlderTokenIsVoid | client/database/rooms.go:971-994 | Reserving again voids the older token |
| Reservations.GrantLasts | client/database/rooms.go:971-994 | A granted name, reserved or suggested, is its owner's at once and until exactly the time to live has passed; from then on anybody can create it without a token |
| Reservations.CreatedIff | client/database/rooms.go:642-665 | A room is created without a token exactly when no room has the name and no reservation of it lasts, with a token exactly when none has it and the owner's reservation with that token lasts; a generation's room exactly when it can be attached, the name was never consumed and no reservation by others lasts; what is created is the room and nothing else changes |
| Reservations.GrantedIff | client/database/rooms.go:943-994 | A name is reserved exactly when it was never consumed, names no room and nobody else's reservation of it lasts, and suggested exactly when generated and unreserved; the grant replaces the owner's other reservations and no one else's |
| Reservations.ReservationRunsOut | client/database/rooms.go:656-665 | Over every run that leaves a name alone: once its reservation has run out, anybody can create it without a token |
| Reservations.CleanupIsInvisible | client/database/rooms.go:1225-1228 | The cleanup takes out exactly the reservations that have run out, and no answer of any statement depends on it |
| Reservations.DeletedNameIsFree | client/database/rooms.go:642-665 | The name of a deleted room can be created again by anybody but is never reserved, suggested or given to a generation |
| Reservations.CreatedMeansNew | client/database/generate.go:143-161 | Creation is reported exactly when the room is new |
| Reservations.Tables.ReserveRoomName | client/database/rooms.go:927-998 | The reservation statement in place |
| Reservations.Tables.CreateRoom | client/database/rooms.go:635-718 | The creation statement in place |
| Reservations.Tables.DeleteExpiredReservations | client/database/rooms.go:1225-1228 | The cleanup in place |
| SearchClaim.SingleFlight | client/redis/search.go:18-73 | For every interleaving of callers: one successful provider search, and at most one more for each claim that expired, each cache entry that lapsed and each answer that never reached the cache |
| SearchRuns.BoundIsReached | client/redis/search.go:18-73 | That bound is exact: whatever the number of expired claims, lapsed entries and lost answers, there is a run with one search more than these |
| SearchRuns.CountersAreExact | client/redis/search.go:18-131 | Each counter counts just the steps it is named after, told from the states before and behind |
| SearchClaim.OneHolder | client/redis/search.go:75-102 | While no claim has expired, at most one caller holds it |
| SearchClaim.SentOnEmptyCache | client/redis/search.go:50-65 | A caller is sent to the provider only if the cache was empty after it won the claim |
| SearchClaim.ReleaseIsOwn | client/redis/search.go:103-131 | Even with expiries, a claim goes away only by its own holder's release or by expiring |
| SearchClaim.OneSearchServesAll | client/redis/search.go:18-73 | Undisturbed, the caller that wins the claim searches once and everybody reading later is served from the cache |
| SearchClaim.CachedMeansAnswered | server/internal/handler/generate.go:476-520 | For every interleaving the cache is filled only once the provider has answered |
| SearchClaim.FailureIsRetried | server/internal/handler/generate.go:500-507 | After a failed search and its release nothing is cached and the next caller is sent to the provider |
| SearchClaim.StepKeepsBound | server/internal/handler/generate.go:476-520 | Each step of claiming, searching, caching and releasing keeps the count of searches that are still possible |
| SearchClaim.StepKeepsExclusive | client/redis/search.go:18-131 | Each step keeps the claim exclusive until one expires |
| RateLimit.WindowBound | client/redis/ratelimit.go:14-71 | For every sequence of whole checks, every window of the route's length holds at most the limit of allowed calls per identity and per IP address |
| RateLimit.PeriodBound | client/redis/ratelimit.go:14-71 | In particular no rate milliseconds hold more allowed calls than the limits |
| RateLimit.RefusedOnlyWhenFull | client/redis/ratelimit.go:14-71 | A call is refused only when the window ending with it is full for its identity or its address |
| RateLimit.LimitOneHoldsInterleaved | client/redis/ratelimit.go:49-62 | With a limit of one, no two calls of an identity are allowed within a window, however their commands interleave |
| RateLimitRaces.IdentityBoundIff | client/redis/ratelimit.go:40-62 | Over all policies and all interleavings of the commands: every window holds at most the limit of allowed calls per identity if and only if the limit is at most one or the address limit allows nothing |
| RateLimitRaces.AddressBoundIff | client/redis/ratelimit.go:40-71 | The same per IP address: if and only if one of the two limits allows nothing |
| RateLimit.ChecksAreCommands | client/redis/ratelimit.go:14-71 | A call whose commands nothing interrupts is a whole check |
| RateLimit.RateLimiter.CheckRateLimit | client/redis/ratelimit.go:14-96 | The check in place: the verdict and the fields it sets, or no change |
| RateLimit.CheckKeeps | client/redis/ratelimit.go:14-96 | One check keeps all windows within both limits |
| RateLimit.WindowIsLive | client/redis/ratelimit.go:73-96 | Every earlier allowed call of a window is still counted at the window's last call |
| PlaybackClock.ExactIffInStep | client/database/playback.go:674-724 | For any play, pause and in-range seek calls at any non-decreasing times, the reported position equals a clock that ticks while playing and stops at the end if and only if every call and report made while playing, since the last seek or end of the item, comes whole milliseconds after the one before |
| PlaybackClock.DriftIsBounded | client/database/playback.go:77-98 | At any non-decreasing times the report is never ahead of that clock, and behind it by less than a millisecond for each call and the report |
| PlaybackClock.PlaysStandStill | client/database/playback.go:77-98 | That loss is real: play calls less than a millisecond apart keep the position still for any number of calls |
| PlaybackClock.FetchedIsBehind | client/database/playback.go:77-98 | One report loses exactly the started millisecond at most |
| PlaybackClock.UpdatedIsBehind | client/database/playback.go:674-724 | The same for one call |
| PlaybackClock.SecondsPass | client/database/playback.go:77-98 | A playing item moves on by a thousand milliseconds for every second up to its end, and a paused one stands still |
| PlaybackClock.StaysWithinItem | client/database/playback.go:77-98 | Whatever was stored, even by a clock that is ahead, what a playing item reports and what a play or pause of it stores lies within the item |
| PlaybackClock.TickedIs | client/database/playback.go:82-92 | Ticking one by one and stopping at the end is the capped sum |
| PlaybackClock.Playback.UpdatePlayback | client/database/playback.go:674-724 | The state rewritten in place: re-anchored, then changed by the action |
| Duration.YoutubeDurationSeconds | client/youtube/generate.go:276-366 | The loop accepts precisely the strings P[nD][T[nH][nM][nS]] with a component, one after T, and a total that fits, and returns that total |
| Duration.ParseExact | client/youtube/generate.go:276-366 | The scanner's verdict is a success with n exactly for the strings that denote n |
| Duration.ParseSound | client/youtube/generate.go:276-366 | What is accepted is such a string, with that total |
| Duration.ParseComplete | client/youtube/generate.go:276-366 | Every such string is accepted |
| Duration.GuardIsExact | client/youtube/generate.go:349-352 | The overflow guard never divides by zero and rejects exactly the totals that do not fit |
| Duration.ReadUnit | client/youtube/generate.go:302-356 | One unit character of the loop |
| Duration.UnitAndMultiplier | client/youtube/generate.go:317-340 | The unit's rank and length, none for a character out of place |
| Duration.DurationISO8601 | vibe/search.go:77-93 | The printer's text, and that parsing it gives the number back exactly for the nonnegative numbers of the integer range |
| Duration.CanonicalIff | vibe/search.go:77-93 | Every nonnegative number of seconds is printed in its one canonical form: no days, fewer than 60 minutes and seconds, no leading zeros and no zero component but the seconds of an empty duration |
| Duration.PlainIff | vibe/search.go:77-93 | A number is printed as the one digit string without a leading zero that denotes it |
| Duration.RoundTrip | vibe/search.go:77-93 | Parsing what is printed gives the same seconds, zero and missing components included |
| YouTubePlaylist.GetProviderPlaylist | client/youtube/playlist.go:42-98 | For every sequence of responses, cyclic or endless: exactly the requests up to the first that is not answered, exceeds the limits or leads to no new page, at most 100; and a list exactly as specified, truncated exactly when more videos or another page were there |
| YouTubePlaylist.ChainIsListed | client/youtube/playlist.go:42-98 | Pages linked without a cycle, at most 100 and with at most 5000 videos, are all read and listed in full |
| YouTubePlaylist.AddPage | client/youtube/playlist.go:83-93 | One page adds its new videos in order, up to 5000, and is cut exactly when more remain |
| YouTubePlaylist.ListsEachOnce | client/youtube/playlist.go:83-93 | No video is listed twice |
| YouTubePlaylist.ReadPage | client/youtube/playlist.go:52-98 | One request keeps the list complete or ends the loop |
| Deduplication.FirstSeenIsDistinct | client/youtube/playlist.go:83-93 | The reference list has the same members as the pages and no repetitions |
| Deduplication.FirstSeenInOrder | client/youtube/playlist.go:83-93 | It is in the order of first occurrences |
| SoundCloudPlaylist.ResolveProviderPlaylist | client/soundcloud/playlist.go:75-154 | For every sequence of responses: exactly the page requests up to the first that is not answered, exceeds the limits or leads to no new page, at most 25; success exactly when every request made is answered with its metadata, and a list of the first playable occurrences as specified |
| SoundCloudPlaylist.ChainIsListed | client/soundcloud/playlist.go:75-154 | Pages linked without a cycle, at most 25, all answered and with no more tracks than fit, are all read and all their playable tracks listed |
| SoundCloudPlaylist.ProgressIsFirstSeen | client/soundcloud/playlist.go:120-131 | The tracks seen are the first occurrences in the pages so far, and the next page adds the ones that come next |
| SoundCloudPlaylist.SeenIff | client/soundcloud/playlist.go:120-131 | The tracks seen are exactly those with an ID, a title and a permalink on one of the pages |
| SoundCloudPlaylist.ListedIff | client/soundcloud/playlist.go:120-148 | From pages taken in full exactly the tracks are listed that are new on their page and reported as playable |
| SoundCloudPlaylist.ListedInOrder | client/soundcloud/playlist.go:120-148 | They are listed in the order in which the pages first name them |
| SoundCloudPlaylist.ListsEachOnce | client/soundcloud/playlist.go:121-131 | No track is listed twice, and at most 5000 are listed |
| SoundCloudPlaylist.CollectTracks | client/soundcloud/playlist.go:120-131 | One page's new tracks as far as there is room, and whether it was cut |
| SoundCloudPlaylist.ReadPage | client/soundcloud/playlist.go:84-150 | One page and its metadata keep the list complete or end the loop |

## Left out

- HTTP, JSON, SSE framing, cookies, OAuth, tracing, metrics, admin reports and analytics: no hard state.
- Answers of providers and of the playlist generator are arbitrary inputs; prompts are not modelled.
- Redis and PostgreSQL internals: row locks, SKIP LOCKED fairness, deadlocks and connection errors. A step that fails is a step that did not happen.
- Protocols with several parties (subscription, reconnect, import, generation, reservations, search claims, interleaved rate-limit commands) are state machines on values, since a method in place cannot be interrupted; aliasing and thread scheduling inside one process are not modelled.
- Continuity from cursor 0-0, which the code does not check: subscriptions start at another cursor, and a connection to an empty stream is not modelled.
- Plain topics, whose subscribers neither check continuity nor compact.
- Reconnecting from an ID inside a compacted batch, and the filter for a client's own events.
- Reading stream IDs from text; IDs are pairs of numbers below 2^63.
- Redis IDs going backwards after a key expires, and wall-clock skew between servers.
- The meaning of a delta to a client is taken from docs/flows/songs.md:10-16: updates move or insert at their position, additions append, removals drop.
- Reconnect.Convergence: states the stored value of the playback component; the handler sends its position moved on to the time of reading, which PlaybackClock covers.
- LiveQueue.ClientShowsListing: the records of a metadata refresh, and the lone addition of a generated song, which is an import's, are left out; a handler that has stored its statement reads the listing once.
- QueueOperations.AddOutcome: room existence, room type, session names and who may add are decided before the add and left out; so is the per-user limit on continuous adds.
- RoomQueue.StatementRefinesProcedure: the skip for a restricted item, which excludes that item, and the choice of the room whose playback expired are left out; so is a row whose item the upsert has set to an empty string, which compares as a value and not as NULL.
- QueueOrder.OrderIsUnique: the enabled providers are the same over a run, added times are distinct and now is later than every stored added time; the database leaves the order of exact ties open.
- PlaybackWrites.WriteKeepsIff: written positions are arbitrary, and permissions and the room's mode are decided before.
- Skip-vote thresholds and host permissions, which are comparisons with stored settings, and SkipPlaylistItem, which runs several statements that can race with another call.
- ImportFills.ImportFillsQueue: the start of an idle room that follows an add is a statement of its own, and changes the playback only.
- PlaylistImport.ImportInOrder: one import at a time with one staging statement; the choice among several imports and the daily cleanup of abandoned staging rows are left out.
- Generation.Lifecycle: daily limits and the index that allows one active generation are left out, and completion and failure, which the code keys by room, may come from any worker.
- Reservations.NamesAreSafe: the random choice of a suggested name may be any eligible one, and text rules for names are left out.
- SearchClaim.SingleFlight: one key; the 12-second wait of a caller is a crash at any time.
- RateLimit.WindowBound: one route with fixed limits; a count may include expired fields that Redis has not removed yet.
- PlaybackClock.DriftIsBounded: one reading of the time per call, and stored times are not rounded to microseconds.
- YouTubePlaylist.GetProviderPlaylist: retries of a request and the metadata filter after paging are left out.
- SoundCloudPlaylist.ResolveProviderPlaylist: which tracks are playable is an arbitrary answer for each page's new tracks.
