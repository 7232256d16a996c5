# Verification of the libtorrent web UI's protocol cores

This project models the parts of the web UI back end (and of its JavaScript client) where a mistake
would go unnoticed for a long time, and proves what they promise.

**Delta synchronisation.** Five history classes (`torrent_history`, `piece_history`, `peer_history`,
`file_history`, `piece_state_history`) each hold a live table, a "last changed" frame per field,
bounded tombstones and a horizon, and answer "what changed since frame K". Each is a Dafny class
whose methods are proved to compute a function on a value type. A client that applies the answers is
a value too, and the main theorems say what it holds after any run: torrents with a filter that may
change at every poll (`TorrentSession`, `TorrentGhosts`), pieces (`PieceSync`, `PieceWire`), peers
(`PeerSync`), files through the bytes of the response (`FileSync`, `FileCodec`), and finished pieces
(`PieceStateHistory`). `TorrentCodec` is the torrent response itself, byte by byte.
Which torrents a filter selects is stated bit by bit (`TorrentFilters`), and what a delta may and may
not leave out is stated over runs (`TorrentMinimal`, `PieceMinimal`, `PeerMinimal`).

**Streaming.** `FileStreamer` is the connection that serves an HTTP range from piece alerts and write
completions; `StreamerRuns` proves safety and progress over every run of events; `FileRange` and
`RangeHeader` add the `Range` header and the piece arithmetic, end to end.

**Parsing and bookkeeping.** `Jsmn` is the tokenizer, proved against a grammar of trees
(`JsonGrammar`); `JsonUtil` the member lookup on its tokens; `JsonPrint` what both make of any JSON
text; `Base64` the resumable decoder; `LoginThrottler` the bounded failure log against an unbounded
one; `QueueMoves` the ordered queue operations.

## What the proofs found

Some laws do not hold of the code without a condition. For each there is an exact condition, and
where it matters a concrete run that fails.

* **Filtered torrent sync.** A tombstone stores the filter inputs at removal, but a delta asks whether
  the client had the torrent at its own frame. If a torrent changes between the client's frame and
  its removal so that the old filter no longer matches it, the client is never told it is gone.
  `TorrentSession.FilteredSyncCanFail` is such a run with one torrent and one filter;
  `TorrentSession.PollSyncsExactly` says a poll is right if and only if no tombstone hides its
  removal. The comment at src/torrent_history.cpp:228-233 says a missed removal must not happen; the
  code path that misses it is src/torrent_history.cpp:171. Over any session, with no condition on what
  is hidden, the client holds exactly what matches now and the overlooked torrents that have gathered
  (`TorrentGhosts.SessionExactly`). Without a filter the sync is always right
  (`TorrentSession.UnfilteredSync`).
* **Pipelined polls.** The client says that another request may be sent before an answer arrives
  (bt/libtorrent-webui.js:418-423). A torrent that comes after the cursor, is shown by the first
  answer and leaves before the second is never taken back: the second answer takes it for one the
  client has not seen. `TorrentPipelining.PipeliningCanFail` is such a run and
  `TorrentPipelining.PipelinedPollsExactly` the exact condition without filters. With filters not even
  an event is needed: a request that narrows the filter and one that takes it back before the first
  answer arrives leave the client without a torrent it should show
  (`TorrentPipelining.FilterPipeliningCanFail`); `TorrentPipelining.FilteredPipeliningExactly` is the
  exact condition for any three filters.
* **Piece and peer deltas.** Coming back erases a tombstone and the next one says "added" later. A key
  that was live at the client's frame, left, came back and left again is not reported
  (`PieceSync.LingeringHappens`). A poll after any run is right if and only if it is a snapshot or
  there is no such key (`PieceSync.RunIsRightIff`, `PeerSync.RunIsRightIff`), and over many polls the
  client holds exactly the ghosts that have gathered since the last snapshot
  (`PieceSync.SessionExactly`, `PeerSync.SessionExactly`).
* **Piece response counts.** The counts of a piece response have sixteen bits, and the largest count
  of removals also stands for a snapshot. A client can always tell the two apart if and only if
  histories are made with fewer than 65535 tombstones (`PieceWire.ToldApartIff`). The handler makes
  them with 1000 (src/piece_history.hpp:40), so there no removal is ever lost and no delta is taken for
  a snapshot (`PieceWire.HandlerRemovalsFit`). The other two lists can be cut: a snapshot is right if
  and only if there are at most 65535 pieces (`PieceWire.SnapshotIsRightIff`; `PieceWire.TooManyPieces`
  is a run of the handler's history with one more), and a delta, lingering pieces apart, if
  and only if what is left out is what the client has already (`PieceWire.DeltaOverTheWire`, `PieceWire.RightOverTheWireIff`).
* **Queue moves.** The handlers sort by the position in the last status the history received
  (src/torrent_history.cpp:269-280), which a queue move does not refresh. `queue_top` and
  `queue_bottom` keep the order of the selection if the cached positions have that order, and, when no
  two of them are equal, only then (`QueueMoves.TopKeepsOrder`, `QueueMoves.BottomKeepsOrder`);
  `QueueMoves.StaleTop` and `QueueMoves.StaleBottom` are runs that lose it. `queue_up`, with cached
  positions in the queue's order, keeps it if and only if the landing places of the selected torrents
  are in that order (`QueueMoves.UpKeepsOrderIff`). For a list without repetitions that means: unless
  the two torrents at the very top are both selected (`QueueMoves.SpacedIffNotTop`). A repeated hash
  can also lift a torrent over one above it (`QueueMoves.UpLosesOrder`). Whatever the cached positions,
  the order is kept when there is room for every torrent below the place of the one above it
  (`QueueMoves.UpKeepsOrderAnyway`); without room it can be lost (`QueueMoves.StaleUp`).
* **Range headers.** A header without a dash (`bytes=5`) is read as one with an open end, and a suffix
  range (`bytes=-500`) as no range at all: the whole file is sent. `RangeHeader.ReadIffAsked` is the
  exact condition on the text of a header for being read as a range.
* **Base64 lookup.** The range check of `base64_decode_value` lets the index one past the table
  through, for the byte `{` and no other (`Base64.LookupInBoundsIff`). The decoder's theorems are
  about inputs without that byte.
* **Login throttler.** Two small facts about limits of zero, which the constructor accepts: recording a
  failure pops from a non-empty deque for every entry if and only if at least one failure is allowed
  (`LoginThrottler.PopIsSafeIff`), and a full table has an entry to evict if and only if at least one
  entry is allowed (`LoginThrottler.VictimExistsIff`). The other throttler theorems are about limits
  that allow both (`LoginThrottler.Config`), with any window: a failure always counts itself, also in an
  empty window (`LoginThrottler.CountsItselfIff`).

Elsewhere comments and code differ without harm, and the model follows the code:
src/torrent_history.hpp:229 says new matches are filled with the current frame, the code uses the
client's frame plus one (src/torrent_history.cpp:239-243); src/torrent_history.hpp:244-247 says a tag
call returns true when the value changed, the code also does so the first time a tag is delivered
(src/torrent_history.cpp:301-305); src/file_history.hpp:29 says a frame of 0 means never updated, but
frames start at 1; and src/libtorrent_webui.cpp:719-721 explains why the order of `queue_up` is kept,
which leaves out the top of the queue, repeated hashes and stale positions.

## How it is modelled

Calls that run under a mutex are single steps. Frames are natural numbers and the tag's all-ones
sentinel is a constructor of its own (`TorrentHistory.Frame`). Libtorrent's answers (statuses,
download queues, peer lists, piece buffers, file modes) are arbitrary inputs; the steps of a torrent
run are those of `TorrentTracking.Allowed`, which asks that the handle in an alert is the torrent's
and that no two live torrents share one. The random choice of the throttler is an outcome the caller
cannot predict, clocks are parameters that do not go back, and the positions a queue handler sorts by
are a parameter of the call. `std::sort` is `Sorting.Sort`, a stable sort; the queue theorems hold for
any order of equal keys.

Classes state their whole new state by a function of the old one (`ensures Model() == ...`), and the
lemmas are about those functions.

## Model

| member | source | states |
|---|---|---|
| Tombstones.Evict | src/torrent_history.cpp:126-131 | eviction keeps the newest tombstones up to the limit, and the new horizon is past every dropped one and no further than it has to be |
| Tombstones.DropOldest | src/piece_history.cpp:96-100 | the eviction loop computes exactly that |
| Tombstones.ReportedExactly | src/torrent_history.cpp:164-174 | stopping at the first old tombstone loses nothing: a key is reported iff some tombstone with it was added by the client's frame, removed after it, and passes the filter |
| Tombstones.ScanReported | src/torrent_history.cpp:169-173 | the scan loop computes that list |
| TorrentHistory.TorrentHistory.constructor | src/torrent_history.cpp:69-78 | a new history is empty at frame 1 with no deferred frame |
| TorrentHistory.TorrentHistory.OnAddTorrent | src/torrent_history.cpp:84-94 | the whole new state after an added torrent, including that a known info-hash is not entered twice |
| TorrentHistory.TorrentHistory.OnTorrentRemoved | src/torrent_history.cpp:95-133 | the whole new state after a removal: entry and tag gone, tombstone in front, oldest evicted, horizon moved, frame deferred |
| TorrentHistory.TorrentHistory.MakeTombstone | src/torrent_history.cpp:98-124 | the tombstone records the frame the torrent was added in and its filter inputs as they are before anything is erased |
| TorrentHistory.TorrentHistory.OnStateUpdate | src/torrent_history.cpp:134-151 | the loop over an update list moves each known torrent to the front and stamps exactly the fields that differ |
| TorrentHistory.TorrentHistory.SetTagBits | src/torrent_history.cpp:282-328 | the new tag, the sparse tag map, the first-delivery rule of the sentinel, and when nothing at all changes |
| TorrentHistory.TorrentHistory.CurrentFrame | src/torrent_history.cpp:343-350 | reading the frame consumes the deferred slot, once |
| TorrentHistory.TorrentHistory.QuerySince | src/torrent_history.cpp:176-192 | the unfiltered answer, with its early break and horizon promotion |
| TorrentHistory.TorrentHistory.QueryWithFilters | src/torrent_history.cpp:194-249 | the filtered answer for any pair of filters |
| TorrentHistory.TorrentHistory.VisitQueue | src/torrent_history.cpp:200-244 | the loop sends and drops exactly what the per-torrent ruling says, on the part of the list it visits |
| TorrentHistory.TorrentHistory.AppendRemoved | src/torrent_history.cpp:164-174 | removals are listed for a delta and never for a snapshot |
| TorrentHistory.StatusBitsMean | src/torrent_history.cpp:30-55 | what each bit of a torrent's filter inputs means, and that exactly one of the four state bits is set |
| TorrentHistory.SetTagSettles | src/torrent_history.hpp:242-250 | a tag call sets exactly the masked bits of that torrent and no other, and repeating it changes nothing and says so |
| TorrentFilters.MatchedIff | src/torrent_history.cpp:58-66 | bit by bit: a filter selects a torrent iff every status bit under the mask is that of the value and, if the filter has tags, the torrent has one of them |
| TorrentFilters.SnapshotSelects | src/torrent_history.cpp:194-249 | a snapshot lists exactly the live torrents the filter selects in that sense, whatever the previous filter, and no removals |
| TorrentFilters.ViewSelects | src/torrent_history.hpp:43-58 | the view the session theorems promise a client holds exactly those torrents |
| TorrentMinimal.StepKeepsSlot | src/torrent_history.cpp:352-433 | a step that does not change what a slot of a torrent holds does not stamp it either |
| TorrentMinimal.OnlyChangesAreSent | src/libtorrent_webui.cpp:468-487 | over any run behind a cursor, a field is in the bitmask of a torrent that stayed only if one of its slots was changed at some step |
| TorrentMinimal.UnchangedIsDelta | src/torrent_history.cpp:221-243 | over any run that leaves the filter inputs of a torrent alone, it is listed as removed iff the client has it and should lose it, is sent as a delta if the client has it, and whole if not |
| TorrentMinimal.ShippedSlots | src/libtorrent_webui.cpp:162-228 | the field table maps to each wire field exactly the slots the serializer reads to write it |
| TorrentMinimal.ChangeIsSent | src/libtorrent_webui.cpp:468-611 | over any run behind a cursor, a change of anything that is read for a requested field puts the field in the bitmask |
| TorrentMinimal.TagIsSentUntilSet | src/torrent_history.hpp:177-183 | from the add until the first set_tag with some mask, every delta that looks at the torrent carries its tag, whatever the cursor |
| TorrentMinimal.FirstTagIsStamped | src/torrent_history.cpp:300-305 | the first set_tag with some mask is delivered even if it changes nothing |
| TorrentMinimal.RunStaysSparse | src/torrent_history.cpp:307-314 | over every run the tag map has no entry with value 0 |
| TorrentLookup.LookupTouched | src/torrent_history.cpp:184-187 | in a list sorted newest first, the early break shows exactly the torrents touched after the client's frame |
| TorrentTracking.TracksNow | src/torrent_history.cpp:176-192 | a table just read is tracked at the current frame |
| TorrentTracking.StepTracks | src/torrent_history.cpp:82-162 | every step keeps the invariant (sorted, unique, keys at most the newest frame, tags only of live torrents, bounded tombstones) and keeps track of the table of every earlier frame |
| TorrentTracking.AdvanceStep | src/torrent_history.cpp:343-350 | consuming the deferred frame loses nothing that is tracked |
| TorrentTracking.NeverRevived | src/torrent_history.hpp:172-178 | a torrent that is there since an old frame was there since that frame before every step |
| TorrentClient.ShippedFields | src/libtorrent_webui.cpp:162-228 | with the shipped field table exactly the wire fields 0 to 23 can be had |
| TorrentClient.SentAt | src/torrent_history.cpp:210-244 | what the filtered loop and the serializer send about one torrent is the ruling on that torrent alone |
| TorrentClient.DroppedAt | src/torrent_history.cpp:228-237 | a torrent is listed as fallen out of the view iff the ruling on it says so |
| TorrentSync.StableInputs | src/torrent_history.hpp:186-196 | stable since K implies: added by K, with the status bits and tag it had at K |
| TorrentSync.DeltaRecord | src/libtorrent_webui.cpp:468-487 | merging the fields chosen by the serializer's bitmask into the old record gives the current record |
| TorrentSync.SurvivorRuling | src/torrent_history.cpp:221-243 | a torrent live since K is passed over, sent as a delta or dropped only where that leaves the client right |
| TorrentSync.NewcomerRuling | src/torrent_history.cpp:221-243 | a torrent added after K is never dropped and is sent whole when it matches |
| TorrentSync.SnapshotPoll | src/torrent_history.cpp:207-208 | a snapshot leaves the client with exactly the matching part of the live table, whatever it held |
| TorrentSync.DeltaPoll | src/torrent_history.cpp:194-249 | after a filtered delta the client holds what matches now plus exactly the removals its old filter hid |
| TorrentSync.FilteredPollExact | src/torrent_history.cpp:164-249 | the filtered poll is right iff no tombstone hides its removal from this client |
| TorrentSync.UnfilteredPoll | src/torrent_history.cpp:176-192 | with no old filter the poll is always right |
| TorrentEarlyBreak.EarlyBreakRefinesFullScan | src/torrent_history.cpp:200-211 | with an unchanged filter the breaking loop gives the same removals and the same client view as visiting every torrent |
| TorrentSession.RunTracks | src/torrent_history.cpp:82-162 | over every run the server keeps track of a table that was current once |
| TorrentSession.StabilityIsSound | src/torrent_history.hpp:190-196 | in every reachable state the stability predicate is sound with respect to the state when K was current, never-tagged torrents included |
| TorrentSession.PollSyncs | bt/libtorrent-webui.js:374-600 | one poll at which nothing is hidden brings a client in sync to the current view |
| TorrentSession.FilteredSync | src/torrent_history.cpp:164-249 | for any interleaving of adds, removals, updates, tags and polls whose filters change arbitrarily, the client ends up with exactly the torrents that match, with current fields, if nothing is hidden at a poll |
| TorrentSession.ShippedSync | src/libtorrent_webui.cpp:162-228 | the same with the shipped field table: the client holds those of the twenty-four wire fields it asked for |
| TorrentSession.PollSyncsExactly | src/torrent_history.cpp:228-236 | a poll leaves the client right iff nothing is hidden: the condition cannot be weakened |
| TorrentSession.FilteredSyncCanFail | src/torrent_history.cpp:171-172 | a concrete run in which the client keeps a torrent that is gone |
| TorrentSession.UnfilteredSync | src/torrent_history.cpp:176-192 | without filters every poll of every run leaves the client equal to the live table, re-adds within one interval included |
| TorrentSession.StepStamps | src/torrent_history.hpp:312-320 | everything a step changes carries the frame after the current one |
| TorrentSession.EventsLandOnce | src/torrent_history.hpp:312-320 | over every session, what an action stamps lies after every cursor the client had before it and not after any cursor a later poll hands out |
| TorrentSession.EventsBetweenPolls | src/torrent_history.hpp:312-320 | between two consecutive polls every new slot and tombstone is stamped later than the first cursor and not later than the second |
| TorrentSession.CursorsGrow | src/torrent_history.cpp:343-350 | cursors never decrease, so the interval an event lands in is unique |
| TorrentSession.IdlePoll | src/torrent_history.cpp:194-249 | polling again with nothing in between and any unchanged filter is empty unless the cursor is behind the horizon |
| TorrentGhosts.ExtendedPoll | src/torrent_history.cpp:164-249 | one filtered poll of a client that also holds torrents it should not: what matches now, the removals overlooked this time, and the earlier ones that outlast the poll |
| TorrentGhosts.SessionExactly | src/torrent_history.cpp:164-249 | over any session from an empty server with filters that change at every poll, and no condition on what is hidden, the client holds what matches now plus exactly the ghosts gathered, none of which matches |
| TorrentCodec.ValueInverts | src/libtorrent_webui.cpp:499-612 | each of the seven ways a field is written reads back as it was meant |
| TorrentCodec.WriteTorrent | src/libtorrent_webui.cpp:487-611 | the loop over the fields writes hash, bitmask and fields, or nothing for an empty bitmask |
| TorrentCodec.Write | src/libtorrent_webui.cpp:450-620 | the loops, and the count filled in at the end, produce the specified bytes |
| TorrentCodec.ReadBits | bt/libtorrent-webui.js:442-559 | the loop over the 32 low mask bits, skipping unknown fields |
| TorrentCodec.ReadUpdates | bt/libtorrent-webui.js:431-561 | the loop over the torrents computes the specified decoding, or fails when the message is too short |
| TorrentCodec.ReadResponse | bt/libtorrent-webui.js:424-570 | the whole reader, removals and the snapshot marker included |
| TorrentCodec.MessageInverts | bt/libtorrent-webui.js:424-570 | for any number of torrents, masks and fields the client reads back the frame, the kind of answer, every field sent and the removed torrents, and consumes every byte |
| TorrentCodec.RangesAreInfo | src/libtorrent_webui.cpp:499-612 | all values of the ranges of MessageIsLossless can be sent |
| TorrentCodec.MessageIsLossless | src/libtorrent_webui.cpp:499-612 | nothing is lost: for every field the values of its range (64-bit counts below 2^53, 32-bit numbers, one byte of state, 64-bit tags, texts of up to 65535 bytes) arrive as they are, and the low 32 bits of the flags |
| TorrentCodec.FieldWidths | bt/libtorrent-webui.js:446-556 | how many bytes each field takes |
| TorrentCodec.TorrentWidth | src/libtorrent_webui.cpp:487-495 | twenty bytes of hash and eight of bitmask precede the fields |
| TorrentPipelining.SecondAnswerExactly | bt/libtorrent-webui.js:418-425 | an answer computed for an older cursor, applied on top of a newer one, gives the live table plus exactly the torrents the first answer showed that were not there at the cursor and are gone |
| TorrentPipelining.PipelinedPollsExactly | bt/libtorrent-webui.js:418-425 | over every run, two requests in flight with one cursor leave the client right iff the second answer is a snapshot or no torrent came after the cursor, was shown by the first answer and was gone by the second |
| TorrentPipelining.PipeliningCanFail | bt/libtorrent-webui.js:418-423 | a concrete run in which the client keeps a torrent that is gone |
| TorrentPipelining.FilteredPipeliningExactly | bt/libtorrent-webui.js:418-425 | over every run and for any three filters, the client ends up right iff the second answer is a snapshot or the server is wrong about no torrent the client holds or lacks |
| TorrentPipelining.FilterPipeliningCanFail | bt/libtorrent-webui.js:418-425 | with nothing happening, a filter put on and taken off in two requests in flight loses a torrent |
| Presence.RemovalStep | src/piece_history.cpp:47-57 | one turn of a removal loop adds a tombstone iff the key is gone |
| Presence.RefreshTracks | src/piece_history.cpp:22-103 | replacing the key set keeps the tombstone invariant and what is known of every earlier key set |
| Presence.RefreshSame | src/peer_history.cpp:111-120 | when the same keys come back only the frame moves |
| Presence.RemovedExactly | src/piece_history.cpp:118-123 | a delta removes exactly the keys that were there, are gone and do not linger, and nothing that is live |
| Presence.LingersIff | src/piece_history.cpp:89-94 | over every run within the horizon, of the keys that were there and are gone exactly those linger that left, came back and left again |
| PieceHistory.PieceHistory.UpdateQueue | src/piece_history.cpp:22-103 | sorting, the two-pointer removal, insertion, tombstone purge and eviction together replace the table by the polled one |
| PieceHistory.PieceHistory.RemoveAbsent | src/piece_history.cpp:45-57 | the two-pointer walk keeps exactly the polled pieces and leaves a tombstone for each of the others |
| PieceHistory.PieceHistory.AddOrUpdate | src/piece_history.cpp:59-83 | new pieces get the frame throughout, others only where a block changed or was added |
| PieceHistory.PieceHistory.ForgetReturned | src/piece_history.cpp:85-94 | skipping the purge when nothing was inserted changes nothing |
| PieceHistory.PieceHistory.QuerySince | src/piece_history.cpp:105-150 | the query loops compute the specified full pieces, block updates and removals |
| PieceSync.RunKnows | src/piece_history.cpp:22-103 | over every run, unchanged blocks are still what they were at the client's frame |
| PieceSync.PatchIsWhole | src/piece_history.cpp:125-147 | both encodings rebuild the same block array |
| PieceSync.DeltaExactly | src/piece_history.cpp:105-150 | applying a delta gives the current pieces and blocks plus exactly the pieces that linger |
| PieceSync.DeltaIsRightIff | src/piece_history.cpp:89-94 | it gives the current pieces iff no piece the client holds went away after coming back since its frame |
| PieceSync.SnapshotExactly | src/piece_history.cpp:112-116 | a snapshot gives exactly the current pieces |
| PieceSync.ListsAreDisjoint | src/piece_history.cpp:118-147 | removed, whole and patched pieces are disjoint, so the order of application does not matter |
| PieceSync.DeltaOverRuns | src/piece_history.cpp:22-150 | the exact characterisation for every run before and after the client's frame |
| PieceSync.RunIsRightIff | src/piece_history.cpp:22-150 | a poll after any run is right iff it is a snapshot or no piece left, came back and left again since the last one |
| PieceSync.SessionExactly | src/piece_history.cpp:22-150 | over any number of polls the client holds the current pieces plus exactly the ghosts gathered since the last snapshot |
| PieceWire.CountsFitIff | src/libtorrent_webui.cpp:1494-1510 | the client reads what the query returned iff the three lists fit their sixteen-bit counts |
| PieceWire.DeltaOverTheWire | src/libtorrent_webui.cpp:1494-1528 | for every run and every limit below 65535, through the capped response: a snapshot is right iff there are at most 65535 pieces, and a delta is the exact characterisation iff what is left out is what the client has already |
| PieceWire.RightOverTheWireIff | src/libtorrent_webui.cpp:1494-1528 | for every run and every limit below 65535, exactly when the client is right through the capped response: no harmful cut, and no piece that left, came back and left again |
| PieceWire.SnapshotIsRightIff | src/libtorrent_webui.cpp:1494-1516 | a snapshot is right iff there are at most 65535 pieces |
| PieceWire.HandlerRemovalsFit | src/libtorrent_webui.cpp:1484-1510 | with the handler's 1000 tombstones, over every run, no removal is cut and a delta is read as a delta |
| PieceWire.ToldApartIff | src/piece_history.hpp:40-40 | over all runs and cursors a delta is told apart from a snapshot iff fewer than 65535 tombstones are kept |
| PieceWire.FewAreHarmless | src/libtorrent_webui.cpp:1494-1528 | with at most 65535 whole pieces and block updates nothing is left out |
| PieceWire.TooManyPieces | src/libtorrent_webui.cpp:1494-1516 | a run of the handler's history whose snapshot loses a piece |
| PieceSync.DeltaIsCheapest | src/piece_history.cpp:139-146 | the bytes of a delta are the least possible, piece by piece: six plus one per block, or seven per changed block |
| PieceMinimal.BlockKeepsFrame | src/piece_history.cpp:73-82 | over any run, a block that is not reported in another state keeps its frame |
| PieceMinimal.RunBounded | src/piece_history.cpp:60-82 | over any run no block is older than its piece and nothing is newer than the history |
| PieceMinimal.OnlyChangesAreSent | src/piece_history.cpp:105-150 | over any run behind a cursor, a delta has no update of a block that did not change, and says nothing of a piece of which no block did |
| PieceSync.LingeringHappens | src/piece_history.cpp:85-94 | a concrete run in which a client keeps a piece that is gone |
| PeerHistory.PeerHistory.UpdatePeers | src/peer_history.cpp:87-170 | sorting, dropping repeated identifiers, and either path, together replace the table by the polled one |
| PeerHistory.PeerHistory.UpdateInPlace | src/peer_history.cpp:111-120 | the fast path updates each entry where it is |
| PeerHistory.PeerHistory.MergeWalk | src/peer_history.cpp:122-167 | the merge walk builds the sorted next vector, the tombstones and the horizon |
| PeerHistory.PeerHistory.QuerySince | src/peer_history.cpp:172-203 | the query loops compute the specified updates and removals for any requested mask |
| PeerHistory.FastPathRefinesMerge | src/peer_history.cpp:111-163 | with an unchanged identifier set, updating in place gives the peers, frames, tombstones and horizon of the full update |
| PeerHistory.WalkEnds | src/peer_history.cpp:141-162 | at the end of the walk the new vector is strictly sorted and is the next table, and the tombstones are those of the full update |
| PeerHistory.DistinctPollIsKept | src/peer_history.cpp:103-109 | when no two polled peers share an identifier, none is dropped |
| PeerHistory.FirstPolledIsKept | src/peer_history.cpp:96-113 | exactly one of several polled peers with one identifier is kept: with the stable sort of this model, the one polled first |
| PeerSync.RecordAfter | src/peer_history.cpp:62-72 | merging the changed fields into what the client had of a peer gives its current record |
| PeerSync.TwentyFields | src/peer_history.hpp:25-47 | exactly the twenty fields of a peer can be had |
| PeerSync.RunKnows | src/peer_history.cpp:87-170 | over every run, a field whose frame has not passed the client's still has its value |
| PeerSync.DeltaExactly | src/peer_history.cpp:172-203 | for every requested mask a delta gives the current peers plus exactly those that linger |
| PeerSync.DeltaIsRightIff | src/peer_history.cpp:134-138 | it gives the current peers iff none the client holds lingers |
| PeerSync.SnapshotExactly | src/peer_history.cpp:181-185 | a snapshot gives exactly the current peers |
| PeerSync.DeltaOverRuns | src/peer_history.cpp:87-203 | the exact characterisation for every run before and after the client's frame, with polls in any order and repeated identifiers |
| PeerSync.RunIsRightIff | src/peer_history.cpp:87-203 | a poll after any run is right iff it is a snapshot or no peer left, came back and left again since the last one |
| PeerSync.SessionExactly | src/peer_history.cpp:87-203 | over any number of polls with one field mask the client holds the current peers plus exactly the ghosts gathered since the last snapshot |
| PeerMinimal.FieldKeepsFrame | src/peer_history.cpp:205-230 | over any run, a field that is always polled with the same value keeps its frame |
| PeerMinimal.OnlyChangesAreSent | src/peer_history.cpp:172-203 | over any run behind a cursor, a delta reports a peer that stayed only with requested fields that were polled with another value, and only if there is one |
| FileHistory.FileHistory.UpdateOpenModes | src/file_history.cpp:22-89 | for an unsorted list without repetitions the merge walk sets every mode and frame as the difference of the two tables, and the new list is strictly sorted and in range |
| FileHistory.FileHistory.UpdateProgress | src/file_history.cpp:100-107 | progress is taken over, and stamped, exactly where it differs, for lists of any length |
| FileHistory.FileHistory.UpdatePriorities | src/file_history.cpp:109-116 | the same for priorities |
| FileHistory.FileHistory.UpdateAll | src/file_history.cpp:91-121 | the whole new state; fields that were not fetched keep value and frame |
| FileHistory.FileHistory.QueryMasks | src/file_history.cpp:123-147 | the loop computes, per file, the requested fields that are newer than the client's frame |
| FileSync.ModesAreThePoll | src/file_history.cpp:51-86 | each file's mode becomes the polled one or the default, and its frame moves iff it was opened, was closed or changed mode |
| FileSync.RunConsistent | src/file_history.cpp:67-74 | over every run a file that is not open has the default mode |
| FileSync.RunKnows | src/file_history.cpp:91-121 | over every run, with any fields fetched each time, a field whose frame has not passed the client's has its value |
| FileSync.ClearBitMeansUnchanged | src/file_history.hpp:60-67 | a requested field that a query leaves out has the value it had at the client's frame |
| FileSync.FirstPoll | src/file_history.cpp:129-132 | a client at frame 0 gets every requested field, static ones included |
| FileSync.NothingPolledYet | src/file_history.hpp:25-34 | before any poll a file has no progress, the default priority and no open mode |
| FileSync.ClientSyncs | src/libtorrent_webui.cpp:1204-1257 | over any run and through the bytes, the client reads the response to its end and then holds the current value of every requested field |
| FileCodec.Write | src/libtorrent_webui.cpp:1214-1257 | the writer's loops produce the specified bytes |
| FileCodec.PresenceByte | src/libtorrent_webui.cpp:1226-1234 | the byte has exactly the bits of the files that have an update, the first file highest |
| FileCodec.WriteFields | src/libtorrent_webui.cpp:1239-1256 | the fields of a mask in protocol order, long names cut |
| FileCodec.ReadUpdates | bt/libtorrent-webui.js:728-780 | the reader's loops compute the specified decoding, and fail exactly when the message is too short |
| FileCodec.ReadBits | bt/libtorrent-webui.js:748-778 | the loop over the sixteen mask bits, skipping unknown fields |
| FileCodec.ResponseInverts | bt/libtorrent-webui.js:728-784 | decoding what was encoded gives back exactly the fields sent, for any number of files and masks, and consumes every byte |
| FileCodec.ResponseIsLossless | src/libtorrent_webui.cpp:1239-1256 | nothing is lost: one-byte fields, byte counts below 2^53 and names of up to 65535 bytes arrive as they are, and only the fields of the mask |
| FileCodec.FieldWidths | bt/libtorrent-webui.js:748-778 | how many bytes each field takes |
| Bytes.ReadU64Inverts | bt/libtorrent-webui.js:49-55 | the two halves of a 64-bit number are put together again |
| PieceStateHistory.PieceStateHistory.OnPieceFinished | src/piece_state_history.cpp:24-47 | the whole new state; unknown and repeated pieces change nothing |
| PieceStateHistory.PieceStateHistory.RunQuery | src/piece_state_history.cpp:49-73 | the query loop computes the specified snapshot or list |
| PieceStateHistory.HaveSetSyncs | src/piece_state_history.cpp:24-73 | over every run and for any bound, a delta has no duplicates, nothing the client had, one piece per frame, and makes its have-set the current one; otherwise the whole bitfield is sent |
| PieceStateHistory.FrameCountsPieces | src/piece_state_history.hpp:43-45 | the frame counts the pieces completed since the history was made, whatever was evicted |
| FileStreamer.FileRequestConn.constructor | src/file_downloader.cpp:42-62 | a connection starts out writing its header |
| FileStreamer.FileRequestConn.OnPieceAlert | src/file_downloader.cpp:82-104 | the whole new state and everything done to the outside for a piece or an error, in and out of order |
| FileStreamer.FileRequestConn.OnWriteDone | src/file_downloader.cpp:106-135 | the same for a write completion, failed or not |
| FileStreamer.FileRequestConn.SetPieceDeadlines | src/file_downloader.cpp:138-153 | the loop asks for exactly the pieces up to the end of the prefetch window |
| FileStreamer.FileRequestConn.AbortRequest | src/file_downloader.cpp:155-170 | an abort stops, forgets kept pieces, takes back the outstanding deadlines and reports once |
| StreamerRuns.NextWrite | src/file_downloader.cpp:92-97 | the next write stays inside the piece's buffer, a short last piece included, and continues the range |
| StreamerRuns.StepKeeps | src/file_downloader.cpp:82-184 | every event keeps the invariant |
| StreamerRuns.StreamsTheRange | src/file_downloader.cpp:82-135 | over every run: a prefix of the range is written, all of it when the last piece is reached, one write is outstanding at most, done is called at most once and reports success only for the whole range, and the connection never waits for a piece it has |
| StreamerRuns.StoppedIsFinal | src/file_downloader.cpp:155-158 | after the stop nothing is written, asked for, taken back or reported |
| StreamerRuns.DeadlinesOnce | src/file_downloader.cpp:138-170 | each piece up to the end of the prefetch window has had its deadline set once, in order; an abort takes back exactly those not yet sent |
| StreamerRuns.PrefetchWindow | src/file_downloader.cpp:138-153 | a piece still to be sent has its deadline set iff it is the next one or ends within four mebibytes from there |
| StreamerRuns.DeliveredMeansFinished | src/file_downloader.cpp:88-134 | with no failure and every piece delivered at least once, the response is complete as soon as no write is outstanding |
| StreamerRuns.KeptPiecesDrain | src/file_downloader.cpp:116-134 | once all remaining pieces are kept, the completions alone finish the response |
| FileRange.ParseRangeInverts | src/file_downloader.cpp:247-274 | a well-formed Range header, spaces around it and an open end included, is read as it was meant |
| RangeHeader.AskedIsRead | src/file_downloader.cpp:247-274 | a header of the form that asks for a part (stated on its text: spaces, `bytes=`, digits, and a dash with or without a 64-bit number, or neither) is read as that part |
| RangeHeader.ReadIffAsked | src/file_downloader.cpp:247-274 | no other header is read as a part |
| RangeHeader.WholeFileOtherwise | src/file_downloader.cpp:348-395 | a request without a Range header, or with one of another form, gets the whole file, and a response that reports success has sent exactly that |
| RangeHeader.PartIffInFile | src/file_downloader.cpp:350-395 | a request that asks for a part gets exactly that part if it lies in the file and is refused if it does not |
| FileRange.HandleOpens | src/file_downloader.cpp:350-395 | any header is either refused with 416 or opens a connection for exactly the bytes the response announces |
| FileRange.ContentIsServed | src/file_downloader.cpp:348-395 | end to end, for any header that is not refused, an absent one included: a prefix of the announced bytes of the file is sent, and all of them on success |
| FileRange.RangeIsServed | src/file_downloader.cpp:348-395 | a well-formed range within the file, spaces and an open end included, is accepted and served as it was meant |
| JsonGrammar.PrimitiveScanned | src/jsmn.c:41-54 | the scan of a primitive stops exactly at the end of the longest run of plain characters before a terminator |
| JsonGrammar.StringScanned | src/jsmn.c:84-118 | the scan of a string succeeds exactly on a closed string with valid escapes, at its closing quote |
| JsonGrammar.RunIsSound | src/jsmn.c:124-214 | what is accepted is a forest of the grammar with nested ranges, and its tokens fit |
| JsonGrammar.RunTree | src/jsmn.c:135-204 | the loop gets through the text of any tree and keeps exactly that tree |
| JsonGrammar.RunIffParses | src/jsmn.c:124-214 | a text is accepted iff it is in the grammar and its tokens fit, and the forest is the only one |
| JsonPrint.PrintFits | src/jsmn.c:124-214 | the text of every JSON value of RFC 8259, with any white space, is in the grammar wherever it stands |
| JsonPrint.PrintedIsParsed | src/jsmn.c:124-214 | every JSON text is accepted iff there is room for its tokens, and the tree has the shape of the value and, at each leaf, the text that was printed |
| JsonPrint.PrintedIsClean | src/jsmn.c:135-135 | a JSON text has no NUL in it |
| JsonPrint.BareWordIsPrimitive | src/jsmn.c:41-54 | without the strict option any run of printable characters other than separators and closing brackets is one primitive |
| JsonPrint.BadEscapeIsInvalid | src/jsmn.c:98-115 | a backslash before anything but the nine legal characters makes the text invalid |
| JsonPrint.BadCharIsInvalid | src/jsmn.c:50-53 | so does a control character or one beyond ASCII in a bare word |
| Jsmn.JsmnParser.AllocToken | src/jsmn.c:8-18 | the first unused token is handed out, or none |
| Jsmn.JsmnParser.ParsePrimitive | src/jsmn.c:34-70 | position, token and error of a primitive |
| Jsmn.JsmnParser.ParseString | src/jsmn.c:75-119 | position, token and error of a string |
| Jsmn.JsmnParser.CloseContainer | src/jsmn.c:151-173 | the two backward searches close the innermost open container and find the one around it, or fail as the grammar machine does |
| Jsmn.JsmnParser.Parse | src/jsmn.c:124-214 | success iff the text is in the grammar and its tokens fit; then the array holds the pre-order listing of the forest, with sizes that count direct children |
| Jsmn.CodesDiffer | src/jsmn.h:18-26 | success and the three errors are told apart |
| JsonUtil.TreesApart | src/jsmn.c:67-94 | the texts of two leaves never touch |
| JsonUtil.EndIsOutside | src/json_util.cpp:40-40 | a NUL at the end of one leaf is outside every leaf |
| JsonUtil.ParsedIsReady | src/json_util.cpp:31-46 | every value at the top of a parsed text can be searched |
| JsonUtil.SkipItem | src/json_util.cpp:19-29 | lands just past the subtree |
| JsonUtil.FindKey | src/json_util.cpp:31-46 | returns the value of the first direct member with that key and kind and never a nested one, or says there is none; terminates exactly the keys it looked at and damages no text |
| JsonUtil.FindText | src/json_util.cpp:48-58 | the value's own text as a C string, or nothing |
| JsonUtil.FindInt | src/json_util.cpp:60-70 | the integer the member's text starts with, or 0 and nothing found |
| JsonUtil.FindBool | src/json_util.cpp:72-78 | true iff the first primitive member of that name reads `true` |
| JsonPrint.ReadInt | src/json_util.cpp:60-70 | parsing any printed object and looking up a name gives the whole part of the first number of that name, clamped to 64 bits |
| JsonPrint.ReadBool | src/json_util.cpp:72-78 | the same for the word `true` |
| JsonPrint.ReadText | src/json_util.cpp:48-58 | the same for the characters between the quotes of a string |
| Numbers.FromCharsIff | src/file_downloader.cpp:258-272 | from_chars accepts exactly the notations of the 64-bit numbers, and reads the number |
| Numbers.StrtollReads | src/json_util.cpp:69-69 | strtoll reads a number in any notation, blanks, sign, zeros and anything behind it included, as that number or the nearest of 64 bits |
| Numbers.StrtollZero | src/json_util.cpp:69-69 | and 0 when there are no digits |
| LoginThrottler.Throttler.ExpireEntry | src/login_throttler.cpp:71-82 | old failures are dropped, and everything once a block has been served |
| LoginThrottler.Throttler.BlockedForKey | src/login_throttler.cpp:84-103 | the remaining seconds, rounded up, and the table after the lazy expiry |
| LoginThrottler.Throttler.PruneTable | src/login_throttler.cpp:105-118 | exactly the expired entries go, in whatever order the walk takes |
| LoginThrottler.Throttler.RecordFailure | src/login_throttler.cpp:120-162 | the whole new table for each outcome, and which outcomes a full table allows |
| LoginThrottler.Throttler.Record | src/login_throttler.cpp:173-191 | a success clears the network, a failure is recorded |
| LoginThrottler.SimExpire | src/login_throttler.cpp:71-82 | expiring an entry early cannot be observed |
| LoginThrottler.SimFail | src/login_throttler.cpp:153-161 | a failure sets the block exactly when it and the failures of the unbounded log inside the window are enough, for any window |
| LoginThrottler.ThrottlerRefinesLog | src/login_throttler.cpp:84-162 | over every run the table stays within its cap and every answer is that of the unbounded log, which queries and pruning never touch |
| LoginThrottler.AnswerCoversBlock | src/login_throttler.cpp:84-103 | over every run: the answer is positive iff the block of the network has not ended, and is the least number of whole seconds that covers what is left of it |
| LoginThrottler.PopIsSafeIff | src/login_throttler.cpp:156-159 | for plain limits, the pop is from a non-empty deque for every entry iff at least one failure is allowed |
| LoginThrottler.VictimExistsIff | src/login_throttler.cpp:136-148 | for plain limits, every full table has an entry to evict iff at least one entry is allowed |
| LoginThrottler.CountsItselfIff | src/login_throttler.cpp:156-161 | counting a failure itself differs from counting the window only for an empty window and a single allowed failure |
| Base64.LookupInBoundsIff | src/cdecode.c:21-24 | the lookup stays inside its table iff the byte is not an opening brace |
| Base64.TableIsAlphabet | src/cdecode.c:12-25 | the table is the inverse of the alphabet of RFC 4648, section 4, and negative elsewhere |
| Base64.OutputBound | src/base64.cpp:24-25 | never more than six bits of output per input character |
| Base64.ChunksDoNotMatter | src/cdecode.c:33-95 | decoding two blocks with the carried state is decoding their concatenation |
| Base64.JunkIsSkipped | src/cdecode.c:53-54 | characters outside the alphabet leave no trace |
| Base64.DecodeState.DecodeBlock | src/cdecode.c:33-95 | the resumable loop computes that decoding, writes only inside its buffer, and saves where it stopped |
| Base64.Base64Decode | src/base64.cpp:19-33 | the buffer of that size is always large enough |
| Base64.DecodedInverts | src/base64.cpp:19-33 | decoding inverts the encoding of RFC 4648, section 4, for every byte string |
| QueueMoves.TopKeepsOrder | src/libtorrent_webui.cpp:736-746 | for any list in descending cached position, with repetitions and unqueued torrents: the listed torrents in ascending cached position, then the others in their order; the queue's order of the selection is kept iff the cached positions have it |
| QueueMoves.BottomKeepsOrder | src/libtorrent_webui.cpp:747-757 | the mirror image for the bottom |
| QueueMoves.ListingIsPick | src/libtorrent_webui.cpp:738-742 | ascending cached positions are the queue's order iff the cached positions order the listed torrents as the queue does |
| QueueMoves.UpKeepsOrderIff | src/libtorrent_webui.cpp:715-725 | for any list in the queue's order, with repetitions and unqueued torrents: the order of the selection is kept iff the landing places are in that order, and then each torrent is at its landing place; the others always keep theirs |
| QueueMoves.SpacedIffNotTop | src/libtorrent_webui.cpp:719-721 | without repetitions the condition fails only when the two torrents at the very top are both listed |
| QueueMoves.UpKeepsOrderAnyway | src/libtorrent_webui.cpp:715-725 | for a list in any order: with room for every torrent below the old place of the one above it, the order is kept and each torrent is at its landing place |
| QueueMoves.Resolve | src/libtorrent_webui.cpp:632-647 | the loop keeps the listed torrents that the history knows |
| QueueMoves.Session.QueueTop | src/libtorrent_webui.cpp:660-676 | the handler's result and count for any list and any cached positions, and exactly when it keeps the order of the selection |
| QueueMoves.Session.QueueBottom | src/libtorrent_webui.cpp:660-676 | the same for the bottom |
| QueueMoves.Session.QueueUp | src/libtorrent_webui.cpp:715-725 | the handler never reorders the others; with cached positions in the queue's order it keeps the selection's order iff the landing places are in that order; with any cached positions it keeps it when there is room |
| QueueMoves.StaleTop | src/torrent_history.cpp:269-281 | a run in which a stale cached position makes queue_top lose the order |
| QueueMoves.StaleBottom | src/torrent_history.cpp:269-281 | the same for queue_bottom |
| QueueMoves.StaleUp | src/torrent_history.cpp:269-281 | the same for queue_up, away from the top of the queue |
| QueueMoves.UpLosesOrder | src/libtorrent_webui.cpp:715-725 | the top two change places, and a repeated hash lifts a torrent over one above it |

## Left out

- Frame numbers: 32-bit wrap-around is not modelled, frames are natural numbers.
- Recreated histories: a history evicted from its LRU list starts its frames again (src/libtorrent_webui.cpp:1484-1489). The theorems are about one instance and a client whose cursor came from it.
- Concrete status fields: the statuses of a torrent are sixty-four opaque slots, of which the three filter inputs have a meaning; the peers' fields are opaque too.
- Tags during serialisation: the serializer reads a torrent's tag again after the query's lock is released; here both happen at once.
- Requested fields: a client keeps its field mask from poll to poll.
- PieceWire.DeltaOverTheWire: the sixteen-bit block count of one piece and the eight-bit block states are not modelled; the lists and their counts are.
- TorrentCodec.MessageInverts: counts are below 2^53, as the reader's comment asks, and texts are byte strings. Which value a status gives a field (the flag bits, the state number, the error text) is an input.
- PeerSync.DeltaOverRuns: which of two peers with the same identifier survives a poll depends on std::sort; here it is the first one polled. The identifier itself is an uninterpreted number.
- FileCodec.ResponseInverts: names are byte strings, so a UTF-8 sequence cut at 65535 bytes is not looked at; byte counts are below 2^53, as the reader's comment asks.
- LoginThrottler.ThrottlerRefinesLog: one table over an arbitrary key type; grouping addresses into networks and the two tables are not part of this model. The two reset outcomes of a full table are events of the run, not probabilities.
- Base64.ChunksDoNotMatter: inputs with the byte `{` are excluded, because the code reads past its table there.
- QueueMoves.Session.QueueUp: with cached positions that disagree with the queue and no room for some torrent, nothing is stated of the selection's order, which then depends on the whole sequence of moves (`QueueMoves.StaleUp`). queue_down is the mirror image of queue_up and is left out.
- FileStreamer.FileRequestConn: keeping a buffer alive during its write is not modelled, and buffers are values.
- FileRange.HandleOpens: path, permission and torrent lookup of the request, and the response headers other than the range, are not modelled. An empty file at the very end of a torrent whose last piece is short is mapped to another piece by libtorrent.
- Jsmn.JsmnParser.Parse: the strict build option is not modelled, nor resuming a parser with a larger token array.
- Sockets, TLS, HTTP, SQLite, PAM, directory scanning, templates, statistics, settings, permissions and the user interface.
