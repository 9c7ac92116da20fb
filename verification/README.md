# Sentrix stream state, modelled and proved in Dafny

Sentrix turns packets into alerts.  Between the packet parsers and the models sit small stateful
structures: an alert correlator, LRU flow tables, tumbling windows, running statistics, two buffered alert
stores, the dashboard's live event stream, a bounded packet reader, a batched detector and a dataset
replayer.  Each of them is cheaper than the specification it stands for (an index instead of a scan, a
buffer instead of a write per alert, a recurrence instead of a sum), and each is used over a long run.  This
project models these structures operation by operation and proves what every run of them means.

One module models one source file (`FlowTables` and `Lru` share one, `Scheduler` covers the scheduler and two of its
extractors).  Every stateful object is a class whose methods
follow the source's branches and loops.  A method is proved against a function on values; the lemmas then
say what that function's result means in terms of the whole history: all packets, all alerts, all
operations, in any order the source allows.

- `Correlator`: the lazily evicted index against a linear scan of every earlier alert.
- `Lru`, `FlowTables`: the bounded table against recency in the whole trace; flow counters against the packets.
- `DottedQuad`, `Ingestor`: the Rust flow tracker, its windows, and the simulated replay clock.
- `AlertStore`, `LiveStream`, `ClickHouseStore`: buffered stores against unbuffered ones, and the cursor protocol
  of the live stream on top of the first.
- `OnlineStats`, `Beaconing`, `Scheduler`: Welford and Count-Min, inter-arrival statistics, and window
  conservation across extractors.
- `DdosDetector`: batch prediction against single prediction.
- `PcapReader`: every interleaving of a producer and a consumer around a bounded queue.
- `DatasetReplay`: cyclic resampling and in-place timestamp remapping.
- `LastSeen`: tables swept of stale keys; what they hold in terms of the whole history, used by `Ingestor` and
  `Scheduler`.
- `Sequences`, `MapSums`, `Quotients`, `Wrappers`: shared definitions.

## Where the code and its promises part

The model follows the code.  Where a promise fails, a lemma gives the failing family, and another the exact
condition under which it holds.

- The correlator's comment promises the answer of a linear scan.  An alert that arrives late can miss earlier
  ones, because a newer alert has already evicted them (`LateAlertMisses`).  `ExactIffLatest` says when the
  two agree: exactly when the new alert is not older than the latest one (or its window starts after it).
- A failed SQLite flush rolls back and then clears the buffer, so the buffered alerts are gone.  Nothing is
  lost exactly when every buffered id was already stored (`FailedFlushLosesIff`).  The ClickHouse store keeps
  its pending list instead (`NothingIsLost`).
- The live stream never sends an alert stored behind its cursor (`LateInsertIsNeverSent`).  As long as ids are not
  reused, that is all that can be missed behind the cursor (`NothingIsMissedIff`).  Ahead of it ticks deliver every
  backlog, prunes included and wherever an idle turn has put the cursor, as long as no timestamp from the cursor
  on is shared by more than 5000 alerts (`PrunedBacklogDrains`); with more ties than that at the last timestamp
  they may never (`TiesNeverDrain`).
- The live stream sends nothing twice until it prunes its set of ids (`NothingSentTwice`).  The first tick that
  takes the set above 10000 can make the next one repeat an alert, and only such a tick can
  (`FirstPruneOpensRepeatIff`); more than 10000 alerts sent and still to send are enough
  (`LongBacklogRepeats`).  `CanRepeatIff` says which states allow a repeat, `CanRepeatBeyondIff` which allow one
  away from the cursor's timestamp.  No run does whose idle turns keep the cursor from going back
  (`RepeatsOnlyAtCursor`); after an idle turn it is possible exactly if an alert sent from after the time of that
  turn is forgotten, with fewer than fifty unsent ones before it (`IdleBackRepeatsIff`): alert times may run
  ahead of the wall clock.  A long backlog leads there (`LongBacklogRepeatsBeyond`).
- The ingestor's per-flow port-scan flag can never be set: a flow is keyed by its destination port, so it
  only ever sees one (`NoRecordIsAPortScan`).
- The flow key sorts addresses and ports separately, so A:1 to B:2 and A:2 to B:1 are one flow
  (`SameFlowIff`).
- The 60 s sweep compares with the boundary of the window it closes, not with the present
  (`SweepIsAgainstPreviousBoundary`).  An idle key therefore outlives its time to live: on a clock that does not
  go back, by less than two windows and the longest pause between packets (`IdleLifetime`), and however long
  that pause is, a key can live through it (`PauseKeepsKey`).
- Resampling repeats references, not copies, so replay remaps a repeated record once per occurrence.  At any speed
  that is harmless exactly when the record occurs once or the pass leaves it where it is
  (`SharingIsHarmlessIff`), and it can turn sorted records round (`RepeatedRecordOvertakes`): away from speed one
  a pass keeps the order whatever the times exactly for records that occur equally often
  (`CountsKeepOrderIff`).  Every pass scales the offsets again (`OffsetsRepeatIff`: only speed one repeats them).
- The textual pair key confuses two pairs only if a source holds an arrow (`PairKeyIsInjectiveIff`).
- A sampling rate above one, or zero, ends the pcap reader's loop at the first packet under pressure
  (`KeepOneIn`, `Conservation`).

## Model

| member | source | states |
|---|---|---|
| Correlator.RunShape | alerting/correlator.py:20-59 | After any arrivals, in any order: the global deque is a suffix of the arrival order, each address's deque is a suffix of that deque projected on the address (two entries when source and destination coincide), and no empty deque is kept. |
| Correlator.RunComplete | alerting/correlator.py:20-32 | Lazy eviction loses nothing at or above the largest cutoff so far: there each deque equals the projection of the whole history. |
| Correlator.CollectedIsSound | alerting/correlator.py:34-47 | In any arrival order, every collected id belongs to an earlier alert that shares an address with the new one and lies in its window. |
| Correlator.CollectedIsCompleteAbove | alerting/correlator.py:20-47 | In any arrival order, every matching earlier alert at or above a bound of all cutoffs so far is collected. |
| Correlator.CollectedIsLinearScan | alerting/correlator.py:13-47 | When no earlier alert is newer, the indexed lookup collects exactly what a scan over all earlier alerts finds. |
| Correlator.LateAlertMisses | alerting/correlator.py:20-47 | For every pair of times where the new alert is older than the latest one, a concrete history whose answer differs from the scan. |
| Correlator.ExactIffLatest | alerting/correlator.py:13-47 | The answer equals the scan on every history with a given latest time if and only if the new alert is not older than it, or its window starts after it. |
| Correlator.IndexSizeBound | alerting/correlator.py:53-59 | All deques of the index together hold at most two references per remembered alert. |
| Correlator.WindowIsRemembered | alerting/correlator.py:17-32 | With timestamps in order, once it has evicted for a new alert, the correlator remembers exactly the alerts of its window, and under each address exactly those that mention it. |
| Correlator.ScanFindsRelated | alerting/correlator.py:35-47 | The linear scan finds exactly the earlier alerts in the window whose flow shares a non-empty source or destination address with the new one's flow, in either role. |
| Correlator.Cap | alerting/correlator.py:49-50 | The capped list is distinct, drawn from the collected set, and has min(20, size) elements. |
| Correlator.GatherIds | alerting/correlator.py:39-47 | The loop over one deque yields exactly the ids inside the window. |
| Correlator.AlertCorrelator.PruneIp | alerting/correlator.py:23-32 | Pops the front references below the cutoff and removes a deque that became empty. |
| Correlator.AlertCorrelator.EvictOld | alerting/correlator.py:20-32 | The nested eviction loops compute the eviction function on both structures. |
| Correlator.AlertCorrelator.Related | alerting/correlator.py:34-47 | The union of the in-window ids of both addresses. |
| Correlator.AlertCorrelator.Remember | alerting/correlator.py:53-59 | The new alert is appended to the global deque and to the deque of each of its non-empty addresses. |
| Correlator.AlertCorrelator.Process | alerting/correlator.py:12-61 | Remembers the alert's own time, id and flow; keeps its related ids and adds distinct ids, at most 20, of earlier alerts in the window whose flow shares a non-empty address with its own; if no earlier alert is newer, min(20, n) of all n of them. |
| Lru.OrderIsBounded | assembler/flow_session_tables.py:43-68 | After any mix of get and get_or_create the keys are distinct and at most the capacity. |
| Lru.RecencyMeaning | assembler/flow_session_tables.py:47-52 | The reference order lists each key of the trace once, by time of last access. |
| Lru.LruMeaning | assembler/flow_session_tables.py:20-24 | The table's key order is exactly the most recently accessed distinct keys, as many as fit, oldest first. |
| Lru.OrderMeaning | assembler/flow_session_tables.py:43-68 | The same with get calls in between: one that hits counts as an access, one that misses does nothing. |
| Lru.SurvivesIff | assembler/flow_session_tables.py:43-62 | A key is in the table if and only if it was accessed and fewer distinct keys than the capacity followed its last access. |
| Lru.NotResetBetween | assembler/flow_session_tables.py:54-62 | Fewer distinct other keys than the capacity between two accesses leave the key in the table. |
| Lru.ApplyKeepsInclusion | assembler/flow_session_tables.py:43-68 | One operation on two tables keeps the smaller one's order a subsequence of the larger one's. |
| Lru.Inclusion | assembler/flow_session_tables.py:43-68 | On one trace a smaller table always holds a subsequence of what a larger one holds, and as much of it as fits. |
| FlowTables.LeqIsTotalOrder | assembler/flow_session_tables.py:81-81 | The string order that `sorted` uses is total and antisymmetric, so the normalised pair is unique. |
| FlowTables.SameFlowIff | assembler/flow_session_tables.py:79-83 | Two packets share a flow key if and only if their protocol, unordered address pair and unordered port pair match. |
| FlowTables.FeedOrder | assembler/flow_session_tables.py:85-106 | One packet acts on the key order as one LRU access, and keeps order and contents in step. |
| FlowTables.RunOrder | assembler/flow_session_tables.py:43-62 | On every packet run the flow table's order is the LRU order of the packets' keys. |
| FlowTables.BirthExists | assembler/flow_session_tables.py:54-62 | Every live flow has a latest creation among the packets. |
| FlowTables.LiveFlowMeaning | assembler/flow_session_tables.py:91-104 | A live flow's packet count, byte count, first and last time and end points are those of its packets since its latest creation. |
| FlowTables.FeedLoad | assembler/flow_session_tables.py:102-104 | One packet: live counters plus what the eviction drops grow by exactly that packet. |
| FlowTables.Conservation | assembler/flow_session_tables.py:20-24 | Over every run live plus evicted counters equal the whole input, in packets and in bytes, and evictions plus table size equal creations. |
| FlowTables.FlowNotReset | assembler/flow_session_tables.py:43-62 | A flow is not reset between two of its packets while fewer other flows than the capacity appear. |
| FlowTables.BoundedTable.EvictLru | assembler/flow_session_tables.py:20-24 | Removes exactly the oldest key, and counts it; nothing on an empty table. |
| FlowTables.BoundedTable.EvictExpired | assembler/flow_session_tables.py:26-41 | Keeps exactly the entries not idle for longer than the time to live, unchanged and in order, and counts the others as evicted. |
| FlowTables.BoundedTable.GetOrCreate | assembler/flow_session_tables.py:43-62 | Returns the table's own entry for the key, refreshed or new, with the order and evictions the LRU policy demands. |
| FlowTables.BoundedTable.Get | assembler/flow_session_tables.py:64-68 | Returns the entry or null, and makes a present key the most recent one. |
| FlowTables.FlowAssembler.ProcessPacketMeta | assembler/flow_session_tables.py:85-106 | Ignores exactly the packets without metadata or protocol; otherwise the table becomes that of the run extended by this packet, and the returned record is the flow's own. |
| DottedQuad.ParseIpRoundTrip | ingest/rust-ingestor/src/main.rs:283-286 | Every IPv4 address survives being printed and parsed. |
| DottedQuad.ParseIpRange | ingest/rust-ingestor/src/main.rs:283-286 | Whatever parses is an address of four bytes. |
| Ingestor.KeyIsFiveTuple | ingest/rust-ingestor/src/main.rs:209-215 | A packet with printed addresses is keyed by exactly those addresses, its ports and its protocol number. |
| Ingestor.SampleMeaning | ingest/rust-ingestor/src/main.rs:223-236 | A packet counts with its own length, time and ports, and as a SYN if and only if the second lowest TCP flag bit is set. |
| Ingestor.AddressMeaning | ingest/rust-ingestor/src/main.rs:210-211 | An address that does not parse counts as 0.0.0.0. |
| Ingestor.WindowMeaning | ingest/rust-ingestor/src/main.rs:231-240 | The open window's packets, bytes, SYNs, ports and start are those of the packets since the last emission. |
| Ingestor.WindowConservation | ingest/rust-ingestor/src/main.rs:233-272 | Over every run, closed windows plus the open one equal the whole input, in packets, bytes and SYNs. |
| Ingestor.WindowPortsSum | ingest/rust-ingestor/src/main.rs:233-236 | The per-port counters of the open window sum to its packet counter. |
| Ingestor.RecordMeaning | ingest/rust-ingestor/src/main.rs:239-257 | An emitted record carries its packet's time; times the time since the previous emission (a millisecond at least) its rates give exactly the packets, the millions of bits and the SYNs since then, and it counts their distinct destination ports. |
| Ingestor.FirstOpening | ingest/rust-ingestor/src/main.rs:232-232 | Before any emission the open window is measured from the first packet. |
| Ingestor.OpeningMeaning | ingest/rust-ingestor/src/main.rs:268-272 | After one, it starts right after the last emission and is measured from its time. |
| Ingestor.EmitsIff | ingest/rust-ingestor/src/main.rs:238-240 | A packet closes a window if and only if it comes at least the window size after the last emission, or after the first packet if there was none. |
| Ingestor.RecordFlowMeaning | ingest/rust-ingestor/src/main.rs:246-260 | An emitted record reports the packets, bytes and duration of its flow since that flow's latest creation. |
| Ingestor.LiveFlowMeaning | ingest/rust-ingestor/src/main.rs:217-229 | A live flow records exactly its packets since its latest creation, and its only destination port is its key's. |
| Ingestor.NoRecordIsAPortScan | ingest/rust-ingestor/src/main.rs:227-264 | Every emitted record has one scanned port and no port-scan flag. |
| Ingestor.FlowConservation | ingest/rust-ingestor/src/main.rs:217-275 | Packet counts of live flows plus those of evicted flows equal the number of updates. |
| Ingestor.UpdateOwn | ingest/rust-ingestor/src/main.rs:246-275 | After an update the packet's own flow is in the map with its updated record, so the unchecked lookup cannot fail. |
| LastSeen.SeenIff | ingest/rust-ingestor/src/main.rs:274-275 | A table that is touched and swept holds a key if and only if every sweep since its last touch keeps the time of that touch. |
| Ingestor.LiveIff | ingest/rust-ingestor/src/main.rs:217-275 | On every run, whatever the timestamps, a flow is live if and only if every emission since its latest packet came less than 60 s after that packet. |
| Ingestor.EvictionIsExact | ingest/rust-ingestor/src/main.rs:274-275 | With nondecreasing timestamps the tracker holds, after an emission, exactly the flows with a packet less than 60 s before it. |
| Ingestor.EvictionOnReplayClock | ingest/rust-ingestor/src/main.rs:384-401 | On the simulated clock that holds after every emission of every replay. |
| Ingestor.ClockStep | ingest/rust-ingestor/src/main.rs:384-393 | Each packet advances the simulated clock by more than 0 and at most 2 seconds. |
| Ingestor.NextClock | ingest/rust-ingestor/src/main.rs:385-393 | By the captured gap if that is above 0 and at most 2 seconds, and by one millisecond otherwise. |
| Ingestor.ClockIsSum | ingest/rust-ingestor/src/main.rs:321-393 | On every replay the clock shows its start plus the captured gaps of at most two seconds plus one millisecond for every other packet. |
| Ingestor.ClockKeepsGaps | ingest/rust-ingestor/src/main.rs:385-393 | Between two packets without a pause or a step back in between, the clock advances exactly as captured. |
| Ingestor.ClockInvariant | ingest/rust-ingestor/src/main.rs:384-411 | On every replay no update is in the clock's future, the open window is younger than its size, and the clock is at most 2 s per unparsed packet ahead of the last update. |
| Ingestor.EmittedWindowBounds | ingest/rust-ingestor/src/main.rs:238-240 | An emitted window lasts at least its size and less than that plus 2 s for the closing packet and each unparsed packet before it. |
| Ingestor.OneSecondWindows | ingest/rust-ingestor/src/main.rs:320-411 | With every packet parsed, each emitted one-second window lasts at least 1 s and less than 3 s. |
| Ingestor.DurationNonNegative | ingest/rust-ingestor/src/main.rs:258-258 | On the replay clock a reported flow duration is never negative. |
| Ingestor.FlowTracker.UpdateFlow | ingest/rust-ingestor/src/main.rs:217-229 | Creates or advances exactly the packet's flow. |
| Ingestor.FlowTracker.UpdateWindow | ingest/rust-ingestor/src/main.rs:231-236 | Counts the packet in the open window and starts the very first one. |
| Ingestor.FlowTracker.CloseWindow | ingest/rust-ingestor/src/main.rs:239-277 | Reports the closed window and the packet's flow, resets the window, and evicts idle flows. |
| Ingestor.FlowTracker.Apply | ingest/rust-ingestor/src/main.rs:217-279 | The tracker's state stays that of the extended run, and a record is emitted exactly when the window closes. |
| Ingestor.FlowTracker.Update | ingest/rust-ingestor/src/main.rs:208-280 | The same for a packet as the parser delivers it. |
| Ingestor.Feed | ingest/rust-ingestor/src/main.rs:395-412 | A packet that does not parse changes nothing; one that parses is counted at the clock's time, and what is sent is the packet's own metadata with the features it closes. |
| Ingestor.EmittedFeatures | ingest/rust-ingestor/src/main.rs:238-278 | The features of the records a replay emits are those of the windows that its updates close, in order. |
| Ingestor.Replay | ingest/rust-ingestor/src/main.rs:320-428 | Over any packet sequence the tracker sees exactly the parsed packets at their simulated times, and exactly the records it emits are sent, metadata and features, in order. |
| AlertStore.FirstWinsMeaning | alerting/store.py:60-70 | The insert-or-ignore table holds each appended id once: the alert that first carried it, and no other row. |
| AlertStore.InsertAllConcat | alerting/store.py:166-173 | Inserting a buffer into a first-write-wins table gives the table of the concatenated log, which is why batching is invisible. |
| AlertStore.FailedFlushLosesIff | alerting/store.py:174-178 | A failed flush, which clears the buffer, loses nothing if and only if every buffered id was already stored. |
| AlertStore.EngineReads | alerting/store.py:193-212 | A query returns the matching rows, each once, oldest first. |
| AlertStore.InsertionEngineSorts | alerting/store.py:209-209 | An order that sorts as the engine is required to exists: insertion sort and its reverse. |
| AlertStore.PagesConcatenate | alerting/store.py:285-290 | Consecutive pages concatenate to the full newest-first list. |
| AlertStore.PageMeaning | alerting/store.py:285-290 | A page is the stretch of the list from the offset on, as long as the limit; a negative offset is none, a negative limit no limit. |
| AlertStore.EngineReadsNewest | alerting/store.py:270-292 | A page is cut from the rows with the detector and severity asked for, each once, newest first. |
| AlertStore.LookupMeaning | alerting/store.py:231-241 | A lookup finds the row with the id if there is one. |
| AlertStore.Store.FlushLocked | alerting/store.py:145-178 | Empties the buffer; on success the log is unchanged and the table is that of the whole log, on failure the buffered alerts are gone. |
| AlertStore.Store.Append | alerting/store.py:118-126 | The log grows by the alert, and the buffer stays below the batch size, whatever the database does. |
| AlertStore.Store.AppendBatch | alerting/store.py:132-138 | The log grows by the batch in order. |
| AlertStore.Store.Flush | alerting/store.py:140-143 | The buffer is emptied and the log is unchanged unless the database fails. |
| AlertStore.Store.Clear | alerting/store.py:101-116 | Nothing is left, neither stored nor buffered. |
| AlertStore.Store.ReadAlerts | alerting/store.py:180-229 | Returns what the unbuffered first-write-wins table of everything appended would return. |
| AlertStore.Store.GetAlertById | alerting/store.py:231-253 | Returns the first alert ever appended with that id, or none if there is none, as a lookup in the unbuffered table would. |
| AlertStore.Store.ReadPaginated | alerting/store.py:255-306 | Returns the full number of matches and the requested page of the newest-first list over everything appended. |
| AlertStore.Store.Perform | alerting/store.py:101-306 | Each attempted operation fails or answers as a store without a buffer holding what was not lost, and leaves what the flush rules say safe and pending. |
| AlertStore.UnbufferedIsFirstWins | alerting/store.py:101-178 | A store without a buffer holds the first writes of everything appended since the last clear. |
| AlertStore.JournalKeepsAppends | alerting/store.py:118-178 | After any attempts the store stands for the appends since the last clear, in order, less those lost in failed flushes; without database errors for all of them. |
| AlertStore.NoErrorAnswers | alerting/store.py:101-306 | Without database errors the reference answers are those of a store that writes every alert at once. |
| AlertStore.Session | alerting/store.py:101-306 | Over any interleaving of appends, batches, flushes, clears and reads, with database errors wherever they fall, the answers are those of an unbuffered store without the appends lost in failed flushes; without errors those of a store that writes every alert at once. |
| LiveStream.PickIsPrefix | dashboard/api/server.py:321-329 | A tick sends a prefix of the unsent rows, as long as its budget of 50 allows. |
| LiveStream.TickFacts | dashboard/api/server.py:320-329 | Everything unsent that a tick leaves behind is at or after its new cursor. |
| LiveStream.TickCount | dashboard/api/server.py:320-329 | A tick sends exactly min(50, unsent alerts at or after the cursor). |
| LiveStream.StartsInvariant | dashboard/api/server.py:268-269 | A new connection satisfies every invariant below. |
| LiveStream.NothingIsMissed | dashboard/api/server.py:319-333 | Over every interleaving of inserts, clears, ticks and idle turns with timely inserts, each stored alert from the session's start up to the cursor has been sent, pruning included. |
| LiveStream.NothingIsMissedIff | dashboard/api/server.py:319-333 | As long as no new alert reuses the id of another one sent, each stored alert from the session's start up to the cursor has been sent, at every point of a run, if and only if every new alert of the run was sent before or falls before the start or at or after the cursor. |
| LiveStream.LateInsertIsNeverSent | dashboard/api/server.py:320-325 | An alert stored behind the cursor is never sent while the replay runs. |
| LiveStream.TickSendsOnlyNew | dashboard/api/server.py:322-331 | A tick without a prune sends only what was never sent, if none came before. |
| LiveStream.NothingSentTwice | dashboard/api/server.py:319-333 | Over every run without a prune, late inserts, clears and idle turns included, no id is sent twice. |
| LiveStream.NewConnectionSendsOnce | dashboard/api/server.py:268-333 | So a new connection sends no id twice until its first prune. |
| LiveStream.CanRepeatIff | dashboard/api/server.py:320-331 | A next tick can repeat an alert if and only if one already sent is stored at or after the cursor with its id forgotten and fewer than 50 unsent alerts older than it. |
| LiveStream.CanRepeatBeyondIff | dashboard/api/server.py:320-331 | A next tick can repeat an alert away from the cursor's timestamp if and only if such an alert lies after the cursor. |
| LiveStream.AlwaysSentIff | dashboard/api/server.py:320-329 | The next tick sends an alert of the backlog, in whatever order equal timestamps are read, if and only if at most 50 alerts of the backlog are no newer. |
| LiveStream.PruneOpensRepeatIff | dashboard/api/server.py:330-331 | From an unpruned state a tick can make a repeat possible if and only if it takes the set above 10000 ids. |
| LiveStream.FirstPruneOpensRepeatIff | dashboard/api/server.py:319-333 | After any run without a prune the next tick repeats nothing, and the one after it can if and only if the next one takes the set above 10000 ids. |
| LiveStream.LongBacklogRepeats | dashboard/api/server.py:320-331 | From any state with more than 10000 alerts sent and still to send, some sequence of ticks leads to a repeat. |
| LiveStream.LongBacklogRepeatsBeyond | dashboard/api/server.py:319-333 | And some sequence of ticks and one idle turn leads to a repeat away from the cursor. |
| LiveStream.StaysBehind | dashboard/api/server.py:322-333 | Nothing sent lies beyond the cursor in any run whose idle turns do not move the cursor back. |
| LiveStream.RepeatsOnlyAtCursor | dashboard/api/server.py:322-333 | In those runs, prunes included, a tick can repeat only alerts at exactly the cursor's timestamp. |
| LiveStream.IdleBackRepeatsIff | dashboard/api/server.py:319-333 | After an idle turn a tick can repeat an alert away from the cursor if and only if one sent from after that turn's time is stored and forgotten with fewer than 50 unsent alerts in between. |
| LiveStream.PruneThenIdleRepeatsBeyond | dashboard/api/server.py:330-333 | Any tick that takes the set above 10000 ids can be followed by an idle turn that makes such a repeat possible. |
| LiveStream.IdleBackRepeats | dashboard/api/server.py:319-333 | After an idle turn to before a forgotten alert every next tick sends it again, away from the cursor, if and only if at most 50 unsent alerts lie from that turn to it. |
| LiveStream.TickDrains | dashboard/api/server.py:320-329 | One tick takes min(50, n) alerts off a backlog of n. |
| LiveStream.BacklogDrains | dashboard/api/server.py:320-329 | Without inserts and prunes a backlog of n is empty after ceil(n / 50) ticks, and not before. |
| LiveStream.TickLowersPotential | dashboard/api/server.py:320-331 | With at most 5000 alerts per timestamp from the cursor on, every tick from any state lowers a weight of reachable alerts and remembered ids, unless there is nothing to send and nothing to prune. |
| LiveStream.PrunedBacklogDrains | dashboard/api/server.py:319-331 | So ticks alone drain every backlog, prunes included and wherever the cursor stands, and if nothing was skipped before, every stored alert from the session's start on has then been sent. |
| LiveStream.TiesNeverDrain | dashboard/api/server.py:319-331 | With 5000 other ids remembered and more than 5000 unsent alerts at the last timestamp, there are arbitrarily long runs of ticks after which the whole backlog is back. |
| LiveStream.Connection.Turn | dashboard/api/server.py:317-333 | One turn of the generator is one tick over what the store returns, or moves the cursor to the present; a database error ends it and sends nothing. |
| LiveStream.Connection.Send | dashboard/api/server.py:321-329 | The send loop yields the first unsent rows, adds their ids and advances the cursor to their maximum. |
| LiveStream.Connection.Prune | dashboard/api/server.py:330-331 | Above 10000 ids exactly 5000 of them are kept. |
| ClickHouseStore.NothingIsLost | alerting/clickhouse_store.py:113-188 | Under any interleaving of appends, timed flushes and failing inserts the appended alerts are a handled prefix followed by the pending list; each well-formed handled alert is in the table in order, and the table holds nothing else if failed inserts write nothing. |
| ClickHouseStore.FlushDeliversAll | alerting/clickhouse_store.py:113-188 | While connected, after a timed or explicit flush or a full batch that is inserted, nothing is pending and everything well-formed appended so far is in the table, in order; with clean failures nothing else is. |
| ClickHouseStore.FailedFlushKeepsPending | alerting/clickhouse_store.py:128-184 | A flush that fails, or without a connection, keeps every pending alert. |
| ClickHouseStore.InsertedAtMostOnce | alerting/clickhouse_store.py:159-184 | If failed inserts write nothing, no alert is inserted more often than it was appended, and malformed ones never. |
| ClickHouseStore.PendingIsBounded | alerting/clickhouse_store.py:113-118 | While connected and while inserts succeed, the pending list stays below the batch size. |
| ClickHouseStore.ClickHouseAlertStore.Append | alerting/clickhouse_store.py:113-118 | An append is one step of the interleaving. |
| ClickHouseStore.ClickHouseAlertStore.WriterTurn | alerting/clickhouse_store.py:120-126 | One turn of the writer thread is one timed flush of the interleaving. |
| ClickHouseStore.ClickHouseAlertStore.Flush | alerting/clickhouse_store.py:186-188 | An explicit flush is one step of the interleaving. |
| ClickHouseStore.ClickHouseAlertStore.FlushLocked | alerting/clickhouse_store.py:128-184 | Skips malformed alerts, clears the pending list on success or when no row is left, and keeps it after a failure or without a client. |
| OnlineStats.WelfordMeaning | features/online_stats.py:4-18 | After any inputs count times mean is their sum and m2 is the sum of squared deviations from the mean. |
| OnlineStats.VarianceMeaning | features/online_stats.py:20-23 | From two inputs on the variance times one less than their number is the sum of their squared deviations from the mean; below it is zero. |
| OnlineStats.WelfordIsOrderIndependent | features/online_stats.py:10-18 | Any permutation of the inputs leads to the same state. |
| OnlineStats.ZeroVarianceIff | features/online_stats.py:20-23 | From two inputs on the variance is zero if and only if all are equal, and positive otherwise. |
| OnlineStats.Welford.Update | features/online_stats.py:13-18 | One update computes the recurrence. |
| OnlineStats.RowSumsToTotal | features/online_stats.py:46-50 | Every row of the sketch sums to the total count. |
| OnlineStats.CellSplits | features/online_stats.py:46-50 | An item's cell is its true count plus the count of the items it collides with in that row. |
| OnlineStats.EstimateBounds | features/online_stats.py:52-57 | For non-negative adds the estimate lies between the true count and the total, is at most the true count plus any one row's collisions, and is exact if some row isolates the item. |
| OnlineStats.CountMinSketch.Add | features/online_stats.py:46-50 | Keeps every cell equal to the count of the items its row sends there, and the total equal to their sum. |
| OnlineStats.CountMinSketch.Get | features/online_stats.py:52-57 | The minimum over the rows is the estimate the bounds are about. |
| Beaconing.PairKeyIsInjective | features/beaconing_features.py:12-12 | The textual pair key keeps pairs apart as long as sources hold no arrow. |
| Beaconing.ArrowCollides | features/beaconing_features.py:12-12 | A source with an arrow shares its key with the source before that arrow. |
| Beaconing.PairKeyIsInjectiveIff | features/beaconing_features.py:12-12 | So a source is kept apart from every arrow-free one if and only if it holds no arrow. |
| Beaconing.GapsTelescope | features/beaconing_features.py:19-24 | Positive gaps sum to last minus first arrival when times never decrease, and to at least that in any order. |
| Beaconing.PairMeaning | features/beaconing_features.py:14-24 | A pair's count times mean gap is the time since its creation when times never decrease, and with two or more positive gaps its variance is zero if and only if they are all equal. |
| Beaconing.RunSumsUp | features/beaconing_features.py:9-51 | On every run of arrivals and sweeps a pair's state sums up exactly its arrival times since it was last created. |
| Beaconing.RunTellsPeriod | features/beaconing_features.py:9-51 | So on every run each live pair's moments tell its time span and whether it is perfectly periodic. |
| Beaconing.RunTellsCv | features/beaconing_features.py:32-38 | On every run the coefficient of variation of a pair with two or more positive gaps is zero if and only if all of them are equal. |
| Beaconing.ReportMeaning | features/beaconing_features.py:28-46 | What is reported about a pair is the mean of its positive gaps since it was last created, and the root of their sample variance over it; zero for fewer than two. |
| Beaconing.BeaconingFeatureExtractor.Update | features/beaconing_features.py:9-26 | Advances or creates exactly the packet's pair, on its own unshared record, and counts its destination. |
| Beaconing.BeaconingFeatureExtractor.Extract | features/beaconing_features.py:28-46 | Reports mean and coefficient of variation of a pair with at least two positive gaps, zero otherwise, and the destination's fan-in estimate. |
| Beaconing.BeaconingFeatureExtractor.SweepStaleState | features/beaconing_features.py:48-51 | Drops exactly the pairs idle for longer than the time to live. |
| Scheduler.Conservation | features/scheduler.py:36-102 | On every run, clock regressions included, the one-second emissions plus the open window equal the stream's SYNs, SYN-ACKs and amplification bytes; for SYNs that equals the recon extractor's cumulative counter. |
| Scheduler.AnchorsIff | features/scheduler.py:73-76 | All windows are anchored anew at the first packet and when the clock is behind the last one-second emission or anchor. |
| Scheduler.EmitsIff | features/scheduler.py:78-88 | Otherwise each window fires if and only if its size has passed since it last fired or was anchored. |
| Scheduler.CountersMeaning | features/ddos_features.py:29-65 | The window counters are those of the packets since the last one-second emission. |
| Scheduler.OneSecondReport | features/scheduler.py:93-102 | The reported SYN to SYN-ACK and amplification ratios are those of the packets since the last emission, with a denominator of one at least; the recon ratio and score are those of the whole stream. |
| Scheduler.AverageIsWeighted | features/online_stats.py:78-94 | The moving average of n values weighs the first by 0.8^(n-1) and each later one by 0.2 and 0.8 for every value after it. |
| Scheduler.WeightsSumToOne | features/online_stats.py:86-91 | Those weights sum to one. |
| Scheduler.DestinationMeaning | features/ddos_features.py:15-27 | On every run a destination's averages weigh exactly the packet counts and lengths filed under it since its record was last created. |
| Scheduler.OneSecondAverages | features/ddos_features.py:48-57 | Those are the averages reported, the packet itself included; an unknown destination is reported with zero. |
| Scheduler.WindowsArePaced | features/scheduler.py:71-91 | Without clock regressions n emissions of a window of any kind take at least n times that size. |
| Scheduler.SpanIsProduct | features/scheduler.py:78-88 | The span of n windows laid end to end is n times the size, which puts the pace in arithmetic terms. |
| Scheduler.BoundaryMeaning | features/scheduler.py:71-88 | The boundary of a sweep is the time of the previous 60 s emission or anchor of the run. |
| Scheduler.KeptIff | features/scheduler.py:71-125 | On every run, clock regressions included, a destination or pair is in its table if and only if its latest arrival is no older, at each 60 s emission since, than its time to live before that emission's boundary; and it is filed with the time of that arrival. |
| Scheduler.SweepIsAgainstPreviousBoundary | features/scheduler.py:86-123 | Without clock regressions a table holds, after a 60 s emission, exactly what arrived no earlier than its time to live (60 s for destinations, 120 s for pairs) before the previous boundary. |
| Scheduler.IdleLifetime | features/scheduler.py:86-125 | With packets at most a gap apart an idle key stays for less than its time to live plus two windows and the gap. |
| Scheduler.PauseKeepsKey | features/scheduler.py:86-123 | However long the pause after a first packet, the emission that ends it keeps that packet's key. |
| Scheduler.DDoSFeatureExtractor.Update | features/ddos_features.py:12-42 | Counts the packet's SYN, SYN-ACK and port-53 bytes and advances exactly its destination. |
| Scheduler.DDoSFeatureExtractor.ResetWindowCounters | features/ddos_features.py:60-65 | Clears the four window counters and leaves the destinations alone. |
| Scheduler.DDoSFeatureExtractor.SweepStaleState | features/ddos_features.py:67-70 | Drops exactly the destinations idle for longer than the time to live. |
| Scheduler.ReconScanFeatureExtractor.Update | features/recon_scan_features.py:10-25 | Counts TCP packets and SYNs, never resetting them. |
| Scheduler.FeatureScheduler.ProcessPacket | features/scheduler.py:36-69 | Scheduler and extractors end in the state of the extended run, and each window fires exactly when due, reporting the extractors as fed with this packet. |
| Scheduler.FeatureScheduler.CheckWindows | features/scheduler.py:71-91 | Anchors all windows on the first packet or a clock regression, then fires and advances each window that is due. |
| Scheduler.FeatureScheduler.Emit1sWindow | features/scheduler.py:93-102 | Reports, then resets the DDoS counters only. |
| Scheduler.FeatureScheduler.Emit60sWindow | features/scheduler.py:113-125 | Reports, then sweeps destinations and pairs against the closing window's own boundary. |
| DdosDetector.DDoSDetector.PredictBatch | models/ddos_detector.py:13-136 | For every list and every model that scores rows independently, entry i of the batch is the single prediction of vector i, with no placeholder left. |
| DdosDetector.DDoSDetector.PredictMeaning | models/ddos_detector.py:13-72 | The rules in order with their thresholds and scores; what none decides gets the model's probability of the second class or its label; and an explanation goes with exactly the scores above one half. |
| DdosDetector.DDoSDetector.TriageAll | models/ddos_detector.py:79-113 | After the first loop every vector has its single verdict or is queued for the model with its own row. |
| DdosDetector.DDoSDetector.FillProbabilities | models/ddos_detector.py:116-126 | Probabilities computed in queue order fill every placeholder with its own vector's verdict. |
| DdosDetector.DDoSDetector.FillLabels | models/ddos_detector.py:127-134 | The same for a model that gives labels. |
| PcapReader.KeepOneIn | ingest/pcap_reader.py:48-48 | The sampling step of a rate is the size of the whole part of its inverse, and at least one if and only if the rate is nonzero and at most one in size; otherwise the division fails. |
| PcapReader.StepKeepsInv | ingest/pcap_reader.py:33-72 | Every step of either thread keeps the invariant of queue, counters and fates. |
| PcapReader.RunKeepsInv | ingest/pcap_reader.py:33-72 | It holds in every state of every interleaving. |
| PcapReader.Conservation | ingest/pcap_reader.py:33-72 | Packets read equal dropped plus queued plus delivered plus the one in the producer's hand or the one whose sampling step failed; the queue stays within its bound and the end marker comes last. |
| PcapReader.DeliveredInOrder | ingest/pcap_reader.py:52-72 | Delivered followed by queued packets are an in-order subsequence of the capture. |
| PcapReader.FateMeaning | ingest/pcap_reader.py:42-56 | In every run a packet whose check finds the queue at or below 80 % of its bound is enqueued; above, it is turned away if and only if the sampling step does not divide its count, and otherwise put unless the queue is then full. |
| PcapReader.DropsOnlyUnderPressure | ingest/pcap_reader.py:44-56 | A packet is dropped only if the queue was above 80 % of its bound at its check, for whatever reason it was dropped. |
| PcapReader.SamplingBound | ingest/pcap_reader.py:44-50 | Among any n consecutive packets that arrive above 80 % at most ceil(n / k) are enqueued, and none without a sampling step. |
| Quotients.QuotientSpread | ingest/pcap_reader.py:48-48 | A stretch of n consecutive counts holds at most ceil(n / k) multiples of k. |
| DatasetReplay.TurnsAreEven | datasource/dataset_replay.py:361-364 | Cyclic sampling uses every pool position floor(target / size) times, the first ones once more. |
| DatasetReplay.CycleMultiplicity | datasource/dataset_replay.py:361-364 | In a pool of distinct records a record occurs as often as its position has turns. |
| DatasetReplay.Sample | datasource/dataset_replay.py:361-364 | The extend-and-cut loop terminates with exactly the cycled pool. |
| DatasetReplay.FilterByScenario | datasource/dataset_replay.py:346-383 | Returns the records themselves without weights or picks, and otherwise some order of the resampled entries. |
| DatasetReplay.ListedFamilyShare | datasource/dataset_replay.py:358-364 | Each listed family that has records contributes exactly floor(total * weight) entries. |
| DatasetReplay.ListedFamilyPortion | datasource/dataset_replay.py:358-364 | That number is the whole part of the number of records times the weight. |
| DatasetReplay.UnlistedFamilyShare | datasource/dataset_replay.py:366-378 | Each family without a weight contributes the same whole share of what the listed ones leave. |
| DatasetReplay.EqualShare | datasource/dataset_replay.py:373-374 | That share is the largest whole number that fits once per such family into what is left, and nothing when the listed families use more than there is. |
| DatasetReplay.ListedRecordShare | datasource/dataset_replay.py:351-383 | Each of distinct records of a listed family occurs in the picked list floor(target / pool size) times or once more. |
| DatasetReplay.UnlistedRecordShare | datasource/dataset_replay.py:351-383 | And each of an unlisted family likewise, the target being that whole share. |
| DatasetReplay.ResampledSize | datasource/dataset_replay.py:356-378 | With weights summing to at most one the result has at most as many entries as there are records, and fewer by less than u if u > 0 families are unlisted. |
| DatasetReplay.ReplayPass | datasource/dataset_replay.py:288-296 | One pass, or the part of it before a stop, remaps every record once per occurrence in it. |
| DatasetReplay.TimeAfterOnce | datasource/dataset_replay.py:294-319 | Where every record occurs once, pass k puts record i at the wall time of the pass plus its original offset divided by speed to the k. |
| DatasetReplay.ScaledIsQuotient | datasource/dataset_replay.py:294-296 | An offset scaled k times is the offset divided by speed to the k. |
| DatasetReplay.FullPasses | datasource/dataset_replay.py:286-319 | Over any list, repeated records included, the full passes put each record where its occurrences and those of the first record put it; distinct records at the wall time of the last pass plus the original offset divided by speed to the k. |
| DatasetReplay.Replay | datasource/dataset_replay.py:273-319 | The same with a last pass that may stop anywhere. |
| DatasetReplay.PassKeepsOrder | datasource/dataset_replay.py:294-296 | Every pass over distinct records keeps their order. |
| DatasetReplay.EqualCountsKeepOrder | datasource/dataset_replay.py:294-296 | At any speed a pass keeps the order of records that occur equally often. |
| DatasetReplay.CountsKeepOrderIff | datasource/dataset_replay.py:294-296 | Whatever their times, a pass keeps the order of two records that occur n and m times if and only if n equals m, or at speed one the earlier record drifts no further than the later one. |
| DatasetReplay.RepeatedRecordOvertakes | datasource/dataset_replay.py:294-296 | Two sorted records that a pass turns round, the first occurring twice. |
| DatasetReplay.OffsetsRepeatIff | datasource/dataset_replay.py:294-319 | A pass repeats the offsets of the one before if and only if speed is one or the offset zero. |
| DatasetReplay.SharedRecordDrifts | datasource/dataset_replay.py:294-296 | At any speed each further occurrence of a record in a pass moves it on by its first move, divided by speed once more. |
| DatasetReplay.SharingIsHarmlessIff | datasource/dataset_replay.py:294-296 | At any speed repetition changes nothing if and only if the record occurs once or the pass leaves it where it is. |
| DatasetReplay.DriftAtSpeedOne | datasource/dataset_replay.py:294-296 | At speed one n occurrences move a record by n times the distance between wall and reference time, and a pass leaves it where it is only if they are equal. |

## Left out

Numbers, time and chance:

- Times and feature values are real numbers: floating-point rounding, not-a-number and the truncation of a
  rounded product are not modelled.  Counters are unbounded, so the 64-bit and 32-bit widths of the ingestor
  are not.
- Wall clocks, capture times, hashes, model scores and the outcome of a database call are parameters.  The
  shuffle, the ids a cap or prune keeps, and the listing order of a set are arbitrary choices.
- Entropy (logarithms) is not modelled; the square root is a parameter.

Single members:

- LiveStream.Connection.Turn: a turn is atomic, so an alert stored while it sends counts as stored after it.
- Ingestor.Replay: does not model the deadline, throttling and telemetry; a replay is any packet sequence.
- DatasetReplay.Replay: pacing, telemetry and the outgoing queue are left out; when it stops is a parameter.
- DatasetReplay.FilterByScenario: records carry their family in upper case already.
- AlertStore.Store.Clear: a failing delete goes through corrupt-file recovery, which also leaves an empty table.
- PcapReader.Conservation: the reader is a state machine on values, because its two threads interleave; the exception path of
  a malformed capture is the producer leaving its loop early.
- DdosDetector.DDoSDetector.PredictBatch: the explanation is a template with its number, not its text, and a model's
  probability row has at least one class.
- OnlineStats.CountMinSketch.Get: a sketch without rows gives no estimate where the source gives infinity; a width
  of zero, on which the source divides by zero, is excluded.
- Scheduler.DDoSFeatureExtractor.Update: the moving averages are values inside the destination record, not objects of
  their own, and the source-entropy sketch is not kept.
- Scheduler.ReconScanFeatureExtractor.Update: the two sketches, which no feature reads, are not kept.
- Scheduler.FeatureScheduler.ProcessPacket: the exfiltration, DNS and TLS extractors are not fed, and the entropy
  feature is not reported.
- Scheduler.FeatureScheduler.CheckWindows: the five-second window is modelled as fired or not, without its contents.

Whole parts:

- The DGA, encrypted-traffic, exfiltration and DNS-exfiltration extractors, whose state no property here needs.
- The DNS and TLS tables of the assembler, which nothing fills; the bounded table is modelled for flows.
- The Kafka and dataset branches of the live stream, webhooks, HTTP routing and JSON encoding.
- SQL text, write-ahead logging, corrupt-file recovery, and the columns no query looks at, which stay one value.
- The ClickHouse connection, schema and read queries.
- Packet, pcap, DNS and TLS parsing, Kafka sending, model training and calibration, dataset file loading.
