# ferriskv: a verified model of the node

ferriskv is a multi-tenant key-value store. This project models what one of its nodes
does with a write, a read, a scan, a sweep, a crash and a restart, and proves what the
node promises about them. Two smaller parts of the cluster code are modelled beside it:
the placement table and rendezvous node selection.

`dafny verify dfyconfig.toml` checks the whole project.

## How it is built

* **Bytes.** `ByteStrings` has the integer encodings and the lexicographic order, `Utf8` what a
  tenant name is, `Crc32` the checksum, `KeyCodec` and `ValueCodec` the stored formats,
  `WalFrames` the log format.
* **Components.** `WriteAheadLog`, `Storage`, `TtlIndex`, `Quota` and `Watch` each hold a
  class that is updated in place, a value that is its abstract view, and functions on that
  value that specify the methods.
* **The node.** `NodeSpec` says what a request does to the value of a whole node.
  `NodeService` is the service object whose methods refine it. `NodeInvariants`,
  `SweepLaws`, `Tenants` and `QuotaRuns` prove what requests keep, and that a node is one
  map with expiry per tenant.
* **Crashes.** Every component records what it does to the disk, in order (`Disk`).
  `Protocol` is the state machine those effects move through, `Recovery` crashes it at any
  byte, `Durability` and `Startup` show that requests and restarts follow it, and
  `Histories`, `HistoryLaws`, `Rotation` and `Settings` state the theorems over whole
  histories. `Concurrency` lets
  any number of requests overlap and says exactly what a crash can then lose and what readers
  then see; `Lives` carries it over any number of crashes and restarts.
* **Readers.** `Scan` proves range scans exact, `WatchFeed` proves the change feed has no
  gaps.
* **Interleavings.** `Accounting` splits writers into their shared steps down to the
  compare-and-swap of the counter, and bounds usage among racing writers. `Sweeper`
  interleaves schedulers, clock and sweeper. `SweepRaces` puts other writers between the
  sweep's look and its delete, `FeedRaces` between a write's store and its announcement.
* **Cluster.** `Placement` and `Rendezvous`.

## What is assumed

* A crash is a process crash: bytes already written to the log file survive, because an
  append flushes the writer but does not sync the file (`crates/ferriskv-node/src/wal.rs:305-306`).
  A durable engine may lose, key by key, anything since its last flush. The in-memory
  engine loses everything.
* `Histories`, `Tenants`, `SweepLaws`, `Scan.SweepKeepsScans`, `QuotaRuns` and `WatchFeed`
  take one write at a time. The code holds no lock across a write's steps, nor across the
  flush and the rotation. What overlapping requests do is stated separately, with the exact
  conditions: `Concurrency` and `Lives` for crashes and reads, `Accounting` for counters and
  quotas, `SweepRaces` for the sweep, `FeedRaces` for watchers.
* Keys and encoded values are shorter than 2^32 bytes, which is exactly when a frame can
  be parsed back (`FrameRoundTrip`). Each tenant's stored bytes stay below 2^64 (`Bounded`).
* The usage records that the node itself stores go straight to storage and not through the
  log, so histories compare all entries except those, and clients do not write under
  those keys.
* The sweeper's timer and the wall clock advance together.
* The clock, the hash function and the configured limits are parameters. Tenant names are
  UTF-8 as section 4 of RFC 3629 defines it.

## Where code and documentation differ

* The log promises that a sequence number is never reused. A crash after a rotation has
  truncated the file and before its header is complete leaves either an empty file, which
  restarts at zero, or a partial header, which is refused at every later start.
  `RotationCrash` and `SequencesResume` give the exact conditions, `ReuseReachable` a history.
  At the largest number the counter stays where it is (`NumbersGiven`).
* Usage counters are meant to follow the data and to be repaired at startup. Concurrent
  writers on one key can leave them apart until then. `InterleavingsExact` gives the exact
  condition for whole interleavings; `SameKeyExact` and `SameKeyLate` give it for the
  outcome of any two writers on one key, in every order of their steps.
* Rotation is said to drop only what storage has made durable. With overlapping requests it
  can drop a record before its write reaches storage, and a flushed write can be one that an
  older write has overwritten; `LossExactly` is the exact condition.
* The sweep is said to be safe against concurrent writes because it looks at the stored entry
  before deleting it. A put between the look and the delete is deleted alive;
  `SweepRaceExact` is the exact condition.

## Model

| member | source | states |
|---|---|---|
| `Histories.CrashSafety` | crates/ferriskv-node/src/service.rs:33-65 | In every state of every history of requests, crashes at any byte of any effect (also while reopening) and restarts, from an empty disk and for both backends: a running node stores exactly the logged writes and keeps every node invariant; a node that is down is refused if and only if its log file is a partial header, and otherwise reopens to exactly the logged writes. |
| `Histories.NothingLost` | crates/ferriskv-node/src/service.rs:180-204 | Along every history the logged writes grow by exactly the writes of an acknowledged request, by a prefix of them when the node crashes inside the request, and by nothing at a restart or a crash while starting. |
| `Histories.SequencesResume` | crates/ferriskv-node/src/wal.rs:220-346 | Until a restart meets an empty file, a running node stands at or past the number it stood at when it last acknowledged a write, and a node that is down resumes there if and only if its file is not empty or nothing was acknowledged. |
| `Histories.StepKeepsSystem` | crates/ferriskv-node/src/service.rs:156-204 | The invariant tying node, disk and logged writes is kept by every event: a request, a crash inside one, a restart, a crash inside a restart. |
| `Histories.HistoryKeeps` | crates/ferriskv-node/src/service.rs:33-102 | That invariant holds in every state of every history. |
| `Histories.CrashTracked` | crates/ferriskv-node/src/wal.rs:291-346 | A crash at any byte of any run of disk effects leaves a disk that explains a prefix of the run's log records, with the sequence number not moved back. |
| `Histories.RotationRaceLosesWrite` | crates/ferriskv-node/src/service.rs:156-204 | The losing rotation as a concrete run of disk effects: another request flushes and rotates between a write's log append and its store; the write is readable, yet a crash can lose it. |
| `HistoryLaws.TenantsSurvive` | crates/ferriskv-node/src/service.rs:33-65 | After any history, running or reopened after a crash, each tenant has exactly the map the logged writes give it, and every read at any time is answered from that map. |
| `HistoryLaws.SegmentExact` | crates/ferriskv-node/src/wal.rs:291-346 | In every running state of every history the open segment is a header and densely numbered records, the node and the disk agree on it, and the tracked size is the file length. |
| `Rotation.RotatesExactly` | crates/ferriskv-node/src/service.rs:156-173 | In every history a put or a delete drops the segment if and only if storage is durable and the log file with the request's own record, 21 bytes and key and stored value, reaches the threshold; the file then has its header only, and otherwise it is longer by that record. |
| `Rotation.LogStaysShort` | crates/ferriskv-node/src/service.rs:156-173 | In every history, whenever a node with durable storage is up its log file is shorter than the threshold or is only the 14-byte header. |
| `Rotation.MemoryLogOnlyGrows` | crates/ferriskv-node/src/service.rs:156-173 | In every history of a node on the memory backend no request shortens the log. |
| `Settings.SettingsKept` | crates/ferriskv-node/src/service.rs:33-102 | In every history a node that is up has the limits, the default limit and the watch window it was configured with. |
| `Settings.OpensAsGiven` | crates/ferriskv-node/src/service.rs:33-102 | A node opens with exactly those settings and with nobody watching. |
| `HistoryLaws.NumbersGiven` | crates/ferriskv-node/src/wal.rs:291-310 | Every request served in a history writes one record per write, numbered densely; until the node forgets, each number is at or past everything acknowledged before, and below what is acknowledged afterwards unless it is the largest there is, where the counter stays. |
| `HistoryLaws.ReuseReachable` | crates/ferriskv-node/src/wal.rs:328-346 | A history in which a durable node acknowledges a write and, after two crashes, hands out number zero again. |
| `Concurrency.ConcurrentCrashSafety` | crates/ferriskv-node/src/service.rs:156-204 | For any number of overlapping requests on either backend: if writes to one key are stored in log order and every rotation drops only what was stored before the flush, then any crash at any point is refused only for a cut header and otherwise recovers exactly the logged writes, and a node with nothing in flight holds exactly them. |
| `Concurrency.LossExactly` | crates/ferriskv-node/src/service.rs:156-204 | At any point of any interleaving, in whatever store order and with rotations at any time: a crash can leave a key at something other than its last logged value if and only if the engine is durable, the log file has no record of the key any more, and at some point since the last flush the running node held something else there. |
| `Concurrency.RunningAgrees` | crates/ferriskv-node/src/service.rs:195-196 | At any point of any interleaving readers see the last logged value of a key if and only if the last write to it that reached storage writes the same or, if none has, nothing logged meanwhile changed it. |
| `Concurrency.LosesAt` | crates/ferriskv-node/src/service.rs:156-173 | A key can be lost if and only if the segment has no record of it and storage can survive at another value. |
| `Concurrency.LostExactly` | crates/ferriskv-node/src/service.rs:156-173 | What that means for one record when each key is stored in log order: the last record of a key, if it changed the key and the earlier ones are stored, can be lost if and only if a rotation dropped it and it was not stored before the last flush. |
| `Concurrency.SettledRotationLoses` | crates/ferriskv-node/src/service.rs:156-204 | A concrete run in which a write is logged, stored and flushed, every rotation waits for storage, and the write is lost for good because an older one was stored after it. |
| `Lives.LivesAreSafe` | crates/ferriskv-node/src/service.rs:33-65 | Over any number of crashes and restarts with overlapping requests in between, under the same two conditions: each life starts with the log the last one ended with, and any crash at any point recovers exactly the log. |
| `Lives.RestartedIsOpened` | crates/ferriskv-node/src/service.rs:33-65 | Opening what any such crash leaves, effect by effect, leads to an opened node with the same log, on either backend. |
| `Concurrency.StoreOrderRace` | crates/ferriskv-node/src/service.rs:195-196 | A concrete run from a fresh node without any rotation: two writes to one key stored against log order leave readers with the older one, and every crash brings back the newer one. |
| `Concurrency.InSegmentRecovers` | crates/ferriskv-node/src/service.rs:320-334 | A key with a record still in the segment is recovered to its logged value whatever storage kept and in whatever order anything was stored. |
| `Concurrency.RunKeeps` | crates/ferriskv-node/src/service.rs:156-204 | What links disk, log, stored and flushed writes holds in every state of every interleaving that stores each key in log order. |
| `Concurrency.AloneIsSafe` | crates/ferriskv-node/src/service.rs:194-202 | A write that has the node to itself meets both conditions: its disk effects are moves in log order with a settled rotation. |
| `Histories.FreshOpens` | crates/ferriskv-node/src/service.rs:33-102 | An empty disk always opens to a running node, so histories exist. |
| `Histories.EveryRequestServed` | crates/ferriskv-node/src/service.rs:180-204 | In every state of a history a running node can serve every admissible request that keeps its totals in range, so histories never get stuck. |
| `Startup.OpenFollows` | crates/ferriskv-node/src/service.rs:33-65 | Starting over any disk a crash can leave (other than a partial header) succeeds, its effects follow the protocol step by step, and the node it yields serves the same logged writes. |
| `Startup.TornFileRecovers` | crates/ferriskv-node/src/wal.rs:220-284 | Opening a segment with a torn tail returns exactly its whole records, counts and cuts the tail, and resumes the sequence after the last whole record. |
| `Startup.HalfHeaderRefused` | crates/ferriskv-node/src/wal.rs:175-196 | A header cut short inside a rotation is always refused. |
| `Startup.ReplayFollows` | crates/ferriskv-node/src/service.rs:326-334 | Replaying a segment from any position is a run of the protocol that ends with the remaining records applied. |
| `Durability.RequestFollows` | crates/ferriskv-node/src/service.rs:180-204 | The disk effects of every put, delete and sweep are a run of the crash protocol that logs exactly the writes of the request, in order. |
| `Durability.WriteFollows` | crates/ferriskv-node/src/service.rs:194-202 | The effects of one admitted write (frame, store, usage record, optional flush and rotation) are a run of the protocol that logs exactly that write. |
| `Durability.SweepFollows` | crates/ferriskv-node/src/ttl.rs:167-203 | The effects of sweeping any list of keys are a run of the protocol that logs exactly the deletes of the keys found expired. |
| `Recovery.CrashAnywhere` | crates/ferriskv-node/src/wal.rs:291-346 | From any tracked disk, a crash after any number of protocol steps and inside any append leaves a disk that is tracked again, whose log is the old one plus the records completed so far. |
| `Recovery.CrashInside` | crates/ferriskv-node/src/wal.rs:291-310 | A crash at any byte strictly inside an append leaves a disk explained by the records before it. |
| `Recovery.RunKeeps` | crates/ferriskv-node/src/service.rs:156-173 | Every run of protocol steps keeps the link between the disk and the logged writes. |
| `Protocol.StepKeeps` | crates/ferriskv-node/src/service.rs:156-204 | Each step of the disk protocol (log, store, usage record, flush, truncate, new header, cut tail, replay one) keeps that link. |
| `Protocol.ReplayNeedsNoCheckpoint` | crates/ferriskv-node/src/service.rs:320-334 | Replaying a whole segment over any state in which each key holds some value it had since the segment began gives the same entry as applying the segment once to its base. |
| `Protocol.ReplayStaysHeld` | crates/ferriskv-node/src/service.rs:320-334 | Every intermediate state of a replay is again such a state, so a crash during replay is harmless. |
| `Protocol.StepFlushes` | crates/ferriskv-core/src/storage.rs:11-23 | After a flush storage holds every record of the segment, so the segment may be dropped. |
| `WriteAheadLog.Open` | crates/ferriskv-node/src/wal.rs:220-284 | Returns the recovery the file determines, refuses what is not a segment, cuts the torn tail or writes a fresh header, and leaves the segment in the state the recovery names. |
| `WriteAheadLog.Wal.Append` | crates/ferriskv-node/src/wal.rs:291-310 | Hands out the next sequence number and adds exactly one frame to the file, the tracked size and the effect log. |
| `WriteAheadLog.Wal.Rotate` | crates/ferriskv-node/src/wal.rs:328-346 | Truncates and then writes a header that carries the sequence forward; two separate disk effects. |
| `WriteAheadLog.AppendKeeps` | crates/ferriskv-node/src/wal.rs:291-310 | After an append the file is again header plus frames, numbered densely from the base, with the tracked size equal to the file length. |
| `WriteAheadLog.RotateKeeps` | crates/ferriskv-node/src/wal.rs:328-346 | After a rotation the segment is empty and based at the next number. |
| `WriteAheadLog.ReopenResumes` | crates/ferriskv-node/src/wal.rs:220-284 | Reopening after a write of which any number of bytes landed gives back the state before it or after it, never anything else, with torn bytes, next number and size exact. |
| `WriteAheadLog.RecoverTorn` | crates/ferriskv-node/src/wal.rs:233-284 | Opening header, whole frames and part of a frame yields exactly the whole frames and cuts exactly the part. |
| `WriteAheadLog.RotationCrash` | crates/ferriskv-node/src/wal.rs:328-346 | After a crash inside a rotation the file opens if and only if none or all of the header landed, and keeps the sequence if and only if all of it did (or nothing was ever numbered). |
| `WriteAheadLog.DenseIncreases` | crates/ferriskv-node/src/wal.rs:291-310 | Numbers in a dense segment strictly increase and stay below the next one. |
| `WalFrames.ParseFramesLoop` | crates/ferriskv-node/src/wal.rs:110-118 | The parsing loop computes the recursive parse of the body. |
| `WalFrames.FrameRoundTrip` | crates/ferriskv-node/src/wal.rs:125-160 | Parsing a frame followed by anything returns the record and its length if and only if its key and value lengths fit 32 bits. |
| `WalFrames.AcceptedIsFrame` | crates/ferriskv-node/src/wal.rs:125-160 | Whatever the parser accepts is byte for byte the frame of the record it returns. |
| `WalFrames.TornFrame` | crates/ferriskv-node/src/wal.rs:125-160 | No proper prefix of a frame parses. |
| `WalFrames.ParseAfterFrames` | crates/ferriskv-node/src/wal.rs:110-118 | Whole frames in front of any bytes are parsed first and leave the rest of the parse unchanged. |
| `WalFrames.WalRoundTrip` | crates/ferriskv-node/src/wal.rs:110-118 | Parsing the concatenation of any appended frames returns the records with everything consumed. |
| `WalFrames.ParseCanonical` | crates/ferriskv-node/src/wal.rs:110-118 | For any bytes the consumed part is exactly the frames of the returned records, and parsing it again returns the same. |
| `WalFrames.TornTail` | crates/ferriskv-node/src/wal.rs:110-118 | Cutting a body at any byte returns exactly the longest run of whole frames that fits. |
| `WalFrames.CorruptFrame` | crates/ferriskv-node/src/wal.rs:146-149 | Changing one byte of a frame outside its length fields makes the parser reject it, whatever follows. |
| `WalFrames.OneByteCorruption` | crates/ferriskv-node/src/wal.rs:110-160 | Changing one byte of frame i outside its length fields makes the parse return exactly the first i records and stop at the offset of frame i. |
| `WalFrames.EarlierRecordsSurvive` | crates/ferriskv-node/src/wal.rs:110-160 | Whatever happens from frame i on, the first i records are still returned. |
| `WalFrames.HeaderExact` | crates/ferriskv-node/src/wal.rs:162-196 | The header parser returns a base exactly for files that start with the header of that base. |
| `WalFrames.HeaderLayout` | crates/ferriskv-node/src/wal.rs:38-45 | The 14 bytes of a header: FKVW, version 1, then the base with the digit of weight 256^i at place 6+i. |
| `ByteStrings.LEDigit` | crates/ferriskv-node/src/wal.rs:162-168 | The byte at i of a little-endian number is its digit of weight 256^i. |
| `ByteStrings.BEDigit` | crates/ferriskv-core/src/value.rs:17-33 | In a big-endian number that digit is i places from the end. |
| `WalFrames.FrameLayout` | crates/ferriskv-node/src/wal.rs:56-69 | Where everything in a frame is: number at 0, operation at 8 (1 for a put, 2 for a delete), key and value behind their lengths, checksum of it all at the end, 21 bytes more than key and value. |
| `Crc32.ChecksumDetects` | crates/ferriskv-node/src/wal.rs:146-149 | Changing one byte of any message changes its checksum; which checksum it is, `Residue` and `CheckValue` say. |
| `Crc32.Residue` | crates/ferriskv-node/src/wal.rs:146-149 | Every message followed by its checksum, low byte first, leaves the register at 0xDEBB20E3, the residue of the CRC-32 of section 8 of RFC 1952; with another polynomial, preset, bit order or final complement it would be another number. |
| `Crc32.CheckValue` | crates/ferriskv-node/src/wal.rs:302 | The checksum of nothing is 0 and that of the digits 1 to 9 is the published check value 0xCBF43926. |
| `Crc32.ShiftByteLinear` | crates/ferriskv-node/src/wal.rs:146-149 | Reading a byte is linear: the register of a sum is the sum of the registers. |
| `Crc32.AbsorbWord` | crates/ferriskv-node/src/wal.rs:146-149 | Reading the four bytes of a word, low byte first, is reading the word at once. |
| `Crc32.UpdateLossless` | crates/ferriskv-node/src/wal.rs:302 | One step of the checksum is injective in the register and in the byte. |
| `Crc32.FoldDetects` | crates/ferriskv-node/src/wal.rs:146-149 | Any byte-wise fold with such a step tells apart messages that differ in one byte. |
| `KeyCodec.CodecBijection` | crates/ferriskv-core/src/key.rs:40-97 | Decode returns a tenant, subspace and payload exactly for the bytes encode makes of them. |
| `KeyCodec.DecodeKey` | crates/ferriskv-core/src/key.rs:78-97 | Decoding an encoded key gives back its three parts. |
| `KeyCodec.KeyOfDecoded` | crates/ferriskv-core/src/key.rs:78-97 | Every accepted key has a legal tenant and encodes back to itself. |
| `KeyCodec.TenantsNeverOverlap` | crates/ferriskv-core/src/key.rs:58-76 | A tenant's prefix starts another tenant's key or prefix only if the tenants are the same. |
| `KeyCodec.KeyOrder` | crates/ferriskv-core/src/key.rs:33-56 | Within a tenant keys sort by subspace byte, then by payload. |
| `KeyCodec.KeyLayout` | crates/ferriskv-core/src/key.rs:33-56 | A tenant name is refused exactly when it is empty or longer than 255 bytes; otherwise the key is its length, the name, the subspace byte (metadata 0, data 1, index 2, statistics 3) and the user key. |
| `Utf8.ValidIsText` | crates/ferriskv-core/src/key.rs:78-97 | The name check accepts a byte string if and only if it is the UTF-8 encoding of some sequence of Unicode scalar values. |
| `ValueCodec.CodecBijection` | crates/ferriskv-core/src/value.rs:17-64 | Decode returns a value and expiry exactly for the bytes encode makes of them. |
| `ValueCodec.ShortcutsAgree` | crates/ferriskv-core/src/value.rs:66-99 | The header-only length and expiry checks agree with a full decode on every input, errors included. |
| `ValueCodec.ValueLayout` | crates/ferriskv-core/src/value.rs:17-33 | A stored value is 0 and the value, or 1, the expiry with its most significant byte first, and the value. |
| `Storage.Storage.Put` | crates/ferriskv-core/src/storage.rs:43-48 | Replaces one entry and nothing else, as one engine effect. |
| `Storage.Storage.Delete` | crates/ferriskv-core/src/storage.rs:50-53 | Removes one entry and nothing else, as one engine effect. |
| `Storage.Storage.Flush` | crates/ferriskv-core/src/storage.rs:194-200 | Reaches the disk only for a durable engine. |
| `Storage.Storage.Scan` | crates/ferriskv-core/src/storage.rs:55-64 | Lists the part of the store under the prefix, whatever order the map yields it in; `ScansExact` says which entries those are. |
| `Storage.Storage.ScanRange` | crates/ferriskv-core/src/storage.rs:66-79 | Lists the part of the store from start up to but excluding end; `ScansExact` says which entries those are. |
| `Storage.ScansExact` | crates/ferriskv-core/src/storage.rs:55-79 | A listing is in key order and has an entry if and only if the store has it and it is under the prefix, or in the half-open range. |
| `Listing.SortEntries` | crates/ferriskv-core/src/storage.rs:55-64 | Sorting distinct entries gives the one ascending listing of the map they come from. |
| `Listing.ListedUnique` | crates/ferriskv-core/src/storage.rs:55-64 | There is only one ascending listing of a map. |
| `TtlIndex.Index.Schedule` | crates/ferriskv-node/src/ttl.rs:42-55 | Adds the key to its bucket, counts it once, and stores a wakeup exactly when it is now the earliest. |
| `TtlIndex.Index.NextDue` | crates/ferriskv-node/src/ttl.rs:58-60 | The least scheduled expiration, if any. |
| `TtlIndex.Index.DrainDue` | crates/ferriskv-node/src/ttl.rs:66-78 | Pops every bucket due, in time order, and leaves the later ones. |
| `TtlIndex.DrainSplits` | crates/ferriskv-node/src/ttl.rs:66-78 | A drain returns exactly the keys of the due buckets, and the drained and remaining sizes add up. |
| `TtlIndex.DrainGoesByTime` | crates/ferriskv-node/src/ttl.rs:66-78 | A drain gives keys in the order of the times they were due at, and in key order where the times are equal. |
| `TtlIndex.TotalIsSize` | crates/ferriskv-node/src/ttl.rs:42-78 | The counted total stays the sum of the bucket sizes, and its saturating subtraction never clips. |
| `Quota.QuotaStore.Check` | crates/ferriskv-node/src/quota.rs:104-185 | Refuses exactly a growing write whose saturated new usage passes a limit that is not zero, naming that usage and that limit; the limit is the tenant's own if it has one, whatever the default is, and the default only if it has none. |
| `Quota.QuotaStore.Apply` | crates/ferriskv-node/src/quota.rs:188-214 | Moves one counter (wrapping up, saturating down), records where it stands in storage, and does nothing for a zero delta. |
| `Watch.WatchHub.Subscribe` | crates/ferriskv-node/src/watch.rs:71-79 | A new reader starts after everything already sent and disturbs no other reader. |
| `Watch.WatchHub.Publish` | crates/ferriskv-node/src/watch.rs:93-114 | Appends to a channel somebody reads, collects one nobody reads, ignores an unknown tenant. |
| `NodeService.Service.PutWithTtl` | crates/ferriskv-node/src/service.rs:180-204 | Refines the put of the specification on the whole node: log, store, index, counters, watchers and order of disk effects. What that put means is stated by `PutRefines`, `PutReads`, `PutSchedules`, `RefusedExactly` and `RotatesExactly`. |
| `NodeService.Service.Delete` | crates/ferriskv-node/src/service.rs:287-295 | Refines the delete of the specification on the whole node. |
| `NodeService.Service.GetValue` | crates/ferriskv-node/src/service.rs:274-285 | Reads the live value, nothing for an absent or expired one, and an error for an undecodable one. |
| `NodeService.Service.SweepOnce` | crates/ferriskv-node/src/ttl.rs:167-203 | Refines the sweep of the specification, count included. |
| `NodeService.Service.PlanAccounting` | crates/ferriskv-node/src/service.rs:214-234 | Works out what a put changes for its tenant, or that the key is not accounted. |
| `NodeService.Service.PlanDeleteAccounting` | crates/ferriskv-node/src/service.rs:237-255 | Works out what a delete frees, if anything. |
| `NodeService.Service.CommitAccounting` | crates/ferriskv-node/src/service.rs:263-272 | Applies a settled plan to the counter and the stored usage record. |
| `NodeService.Service.PublishChange` | crates/ferriskv-node/src/service.rs:119-143 | Announces a change of tenant data under its user key to a watched tenant, and nothing else. |
| `NodeService.Service.RotateWalIfNeeded` | crates/ferriskv-node/src/service.rs:156-173 | Flushes and then rotates if and only if storage is durable and the segment has reached the configured size, and otherwise does nothing to the disk. |
| `NodeService.Replay` | crates/ferriskv-node/src/service.rs:326-334 | Applies every record to storage in write order. |
| `NodeService.Bootstrap` | crates/ferriskv-node/src/service.rs:355-388 | One pass over storage rebuilds the index and replaces the counters. |
| `NodeService.RecoverStorage` | crates/ferriskv-node/src/service.rs:33-65 | Recovers the log, replays it, and flushes and rotates only if storage is durable; refuses what the log refuses. |
| `NodeService.OpenService` | crates/ferriskv-node/src/service.rs:33-102 | Opens to the node the specification names, or refuses with its error. |
| `NodeInvariants.PerformKeeps` | crates/ferriskv-node/src/service.rs:194-202 | Every admitted write keeps the node invariant: values decode, each counter equals the bytes stored, every expiring entry is in its bucket, the index total is exact. |
| `NodeInvariants.PerformUsage` | crates/ferriskv-node/src/service.rs:263-272 | After every admitted write each tenant's counter equals the sum of key and value lengths of what it stores; subtraction never clips and addition never wraps. |
| `NodeInvariants.PerformStore` | crates/ferriskv-node/src/service.rs:194-202 | A write changes its own key and the usage record only, and moves each tenant's total by exactly its plan. |
| `NodeInvariants.PerformTtl` | crates/ferriskv-node/src/service.rs:196-200 | After every admitted write each stored entry that expires later than a given time is in the bucket of its expiry, and the index total is exact. |
| `NodeInvariants.AdmittedPutIsSound` | crates/ferriskv-node/src/service.rs:214-234 | The plan of an admitted put is exactly the change it makes to every tenant's bytes. |
| `NodeInvariants.PlannedDeleteIsSound` | crates/ferriskv-node/src/service.rs:237-255 | Planning a delete never fails on decodable data, and the plan is exactly what the delete frees. |
| `NodeInvariants.BillIsFree` | crates/ferriskv-node/src/quota.rs:188-198 | The usage record billing leaves in storage weighs nothing for any tenant and changes no other entry. |
| `NodeInvariants.BootUsageExact` | crates/ferriskv-node/src/service.rs:363-388 | The startup scan computes exactly each tenant's stored bytes. |
| `NodeInvariants.BootTtlExact` | crates/ferriskv-node/src/service.rs:363-372 | The startup scan indexes exactly the expiring entries, each in its bucket. |
| `NodeInvariants.OpenEstablishes` | crates/ferriskv-node/src/service.rs:67-102 | A node that opens satisfies the node invariant with an exact index, whatever the old counters were. |
| `NodeInvariants.TotalApply` | crates/ferriskv-node/src/quota.rs:283-285 | A tenant's total changes by the change at the written key only. |
| `SweepLaws.SweepIsExact` | crates/ferriskv-node/src/ttl.rs:167-203 | A sweep removes exactly the expired entries, leaves none expired, returns how many distinct keys that was even when stale index entries repeat a key, and keeps the node invariant. |
| `SweepLaws.SweepIsInvisible` | crates/ferriskv-node/src/ttl.rs:167-203 | Every point read at any later time answers the same with or without the sweep. |
| `SweepLaws.SweepReindexes` | crates/ferriskv-node/src/ttl.rs:167-202 | Whatever the index was missing, every key a sweep looks at and leaves in place is scheduled under its own stamp afterwards. |
| `Scan.SweepKeepsScans` | crates/ferriskv-node/src/ttl.rs:167-203 | Every listing of every tenant under every prefix at any later time is the same with or without the sweep. |
| `SweepLaws.SweepManyKeys` | crates/ferriskv-node/src/ttl.rs:167-203 | Sweeping any list of keys, repeats and stale ones included, removes and counts exactly the expired ones among them. |
| `SweepRaces.SweepRaceExact` | crates/ferriskv-node/src/ttl.rs:174-184 | A sweep that found a key expired, with any writes by others before its delete: it removes the key, and removes something alive if and only if the last of those writes to the key was a put whose expiry has not come. |
| `SweepRaces.SweepDeletesFreshPut` | crates/ferriskv-node/src/ttl.rs:174-184 | The failing case spelled out: a put in between is acknowledged and readable, and the sweep deletes it. |
| `Tenants.GetRefines` | crates/ferriskv-node/src/service.rs:274-285 | A read of a user key answers as a lookup in the tenant's own map with expiry. |
| `Tenants.PutRefines` | crates/ferriskv-node/src/service.rs:180-204 | A put either is refused and leaves the whole node (log, store, index, counter, watchers) unchanged, or binds one key of its tenant's map to the value, for good without a lifetime and otherwise until now plus the lifetime or the last 64-bit instant, and touches neither map nor counter of any other tenant. |
| `Tenants.PutReads` | crates/ferriskv-node/src/service.rs:180-204 | After an admitted put, a get at any instant answers the value if there was no lifetime or the instant is before now plus the lifetime, saturated, and otherwise nothing. |
| `Tenants.PutSchedules` | crates/ferriskv-node/src/service.rs:181-200 | An admitted put adds its key to the index under exactly that deadline, adds nothing else, and wakes the sweeper if and only if the deadline comes before every other. |
| `Tenants.DeleteRefines` | crates/ferriskv-node/src/service.rs:287-295 | A delete always succeeds, removes one entry of its tenant's map, and leaves every other tenant alone. |
| `Tenants.SweepRefines` | crates/ferriskv-node/src/ttl.rs:167-203 | A sweep restricts every tenant's map to its live entries. |
| `Tenants.WriteRefines` | crates/ferriskv-node/src/service.rs:194-202 | Every admitted write acts on its tenant's map as the write says and on no other map or counter. |
| `Tenants.RefusedExactly` | crates/ferriskv-node/src/quota.rs:104-185 | A put is refused if and only if it grows the tenant's data past a limit that is not zero, the grown size saturating at the largest counter; the limit is the tenant's own record if it has one and the default if it has none, and the error names the grown size and that limit. |
| `Tenants.UsageRecorded` | crates/ferriskv-node/src/quota.rs:187-199 | Whenever a write changes the size of a tenant's data, storage is left with the new size, eight bytes, most significant first, under the tenant's statistics key. |
| `Tenants.OnlyDataIsBilled` | crates/ferriskv-node/src/service.rs:206-253 | Writing a key that is no tenant's data is never refused, and neither writing nor deleting it moves a counter. |
| `Quota.CounterMoves` | crates/ferriskv-node/src/quota.rs:261-276 | A counter that grows goes around at 2^64, one that shrinks stops at zero, and no other counter and no limit moves. |
| `Quota.UsageRecordIs` | crates/ferriskv-node/src/quota.rs:42-43 | The keys set aside for usage are exactly, for each legal tenant, "usage" in its statistics subspace. |
| `QuotaRuns.QuotaOverRun` | crates/ferriskv-node/src/quota.rs:170-185 | Over any run of requests, one at a time, the limit stays fixed and usage never exceeds the larger of the limit and where it started. |
| `QuotaRuns.QuotaStep` | crates/ferriskv-node/src/service.rs:186-204 | One request leaves usage at most the larger of what it was and the limit. |
| `Accounting.QuotaUnderRaces` | crates/ferriskv-node/src/service.rs:189-200 | In any interleaving of checked writers: if at most some number of bytes of growth is admitted and not yet counted whenever growth is admitted, usage never exceeds the larger of where it started and the limit plus that number. |
| `Accounting.RacingPutsPassLimit` | crates/ferriskv-node/src/service.rs:189-200 | Two puts admitted against the same usage, each within the limit, together pass it. |
| `Accounting.InterleavingsExact` | crates/ferriskv-node/src/service.rs:189-200 | For every interleaving of any writers on any keys (plan, store, load, compare-and-swap as separate steps): counter plus stored-but-unapplied deltas equals the data at every point if and only if every store finds the entry as large as its plan took it to be and every apply neither wraps nor clips. |
| `Accounting.BalancedUnlessClipped` | crates/ferriskv-node/src/service.rs:189-200 | When no two writers are between plan and store on one key, the books balance at every point if and only if no apply wraps or clips. |
| `Accounting.InterleavedAccounting` | crates/ferriskv-node/src/service.rs:189-200 | When no two writers are busy with one key and totals fit, counter plus pending deltas always equals the data, so the two agree whenever no write is in flight. |
| `Accounting.RunKeeps` | crates/ferriskv-node/src/quota.rs:261-276 | The invariant behind the distinct-key case holds in every state of every such run. |
| `Accounting.StepBalances` | crates/ferriskv-node/src/quota.rs:261-276 | From balanced books a single step of any writer leads to balanced books if and only if it is faultless in that sense. |
| `Accounting.SameKeyExact` | crates/ferriskv-node/src/service.rs:214-272 | Two writers on one key that both plan before either stores, applied in either order: the drift is the delta of the one that stored first, and the counter ends equal to the data if and only if that delta is zero, or it is negative and the tenant ends with nothing. |
| `Accounting.SameKeyLate` | crates/ferriskv-node/src/service.rs:214-272 | Two writers on one key where the second plans after the first stored: applied in store order the counter ends equal to the data; applied the other way round, if and only if the second delta alone does not clip it. |
| `Accounting.LateDeleteDrifts` | crates/ferriskv-node/src/quota.rs:261-276 | The clipping case spelled out: a delete overtakes the put it saw, and the counter ends above a tenant that stores nothing. |
| `Accounting.SameKeyDrifts` | crates/ferriskv-node/src/service.rs:214-234 | The failing case spelled out: both plan against an absent key and the counter ends too high by the first entry. |
| `Scan.NextPrefixBound` | crates/ferriskv-node/src/grpc.rs:172-183 | The pop-and-increment loop computes the bound of the prefix. |
| `Scan.BoundExact` | crates/ferriskv-node/src/grpc.rs:172-183 | When there is a bound, a key lies between prefix and bound exactly when it starts with the prefix. |
| `Scan.BoundExists` | crates/ferriskv-node/src/grpc.rs:172-183 | There is a bound if and only if some byte of the prefix is not 0xFF. |
| `Scan.ScanRangeExact` | crates/ferriskv-node/src/grpc.rs:158-170 | The bounds of a tenant and user prefix are never open, and hold exactly the tenant's data keys under that prefix. |
| `Scan.FilterScan` | crates/ferriskv-node/src/service.rs:307-317 | Keeps exactly the live decodable entries, in order, with their values. |
| `Scan.PackChunks` | crates/ferriskv-node/src/grpc.rs:448-468 | The chunks concatenate to the first limit entries with the tenant part stripped; none is empty, none is longer than 256, and all but the last are full. |
| `Scan.ScanExact` | crates/ferriskv-node/src/service.rs:302-317 | Raw scan, filter and strip give exactly the ascending listing of the live part of the tenant's map under the prefix. |
| `Scan.ScanTenant` | crates/ferriskv-node/src/grpc.rs:433-478 | A whole scan request returns the first n entries of that listing, where n is the least of the listing's length, the server's maximum and, if it is not zero, the number asked for; in chunks of 256 of which only the last may be shorter, and none is empty. |
| `WatchFeed.NoGaps` | crates/ferriskv-node/src/grpc.rs:285-352 | In every run a subscriber has received exactly the committed changes since it subscribed, up to where it read, filtered by its prefix; folding them over the snapshot at subscription gives what the node stored under its prefix at some earlier point of the run, and what it stores now once the subscriber has read everything. |
| `WatchFeed.RequestIsChain` | crates/ferriskv-node/src/ttl.rs:167-203 | Every put, delete and sweep is a chain of the writes and index changes those runs are made of, so evictions reach watchers like any other change. |
| `WatchFeed.EarlierFeed` | crates/ferriskv-node/src/service.rs:119-143 | Every beginning of a subscriber's history was its whole history at some earlier point of the run. |
| `WatchFeed.Stream.Next` | crates/ferriskv-node/src/grpc.rs:285-352 | A turn of the client's stream: the next matching change or nothing yet; on a lag the error, with the reader dropped and the stream ended; after that nothing. |
| `WatchFeed.LagReported` | crates/ferriskv-node/src/grpc.rs:285-352 | A turn reports a lag exactly when more was sent than the channel keeps, with the number of changes lost; it then delivers nothing, drops the reader and ends the stream. |
| `FeedRaces.WatcherExact` | crates/ferriskv-node/src/service.rs:194-202 | With storing and announcing as separate steps of any number of writers: a stream that has read everything announced has at a key what is stored there if and only if the last announced write to the key leaves what the last stored one leaves. |
| `FeedRaces.WatcherRight` | crates/ferriskv-node/src/service.rs:194-202 | If changes to each key are announced in the order they were stored, then whenever nothing is left to announce such a stream has exactly what is stored under its prefix. |
| `FeedRaces.SwappedAnnouncements` | crates/ferriskv-node/src/service.rs:194-202 | Two writes to one key stored in one order and announced in the other leave the stream with the older one for good. |
| `WatchFeed.LagEnds` | crates/ferriskv-node/src/grpc.rs:285-352 | Once ended, no move changes the stream, and a further turn answers nothing and touches nothing. |
| `WatchFeed.PullReads` | crates/ferriskv-node/src/grpc.rs:285-352 | A delivered change is the only matching one in what was read, nothing pending means all was read and none matched, and a lag is reported exactly when the window was passed. |
| `WatchFeed.CommitChanges` | crates/ferriskv-node/src/service.rs:119-143 | What a write announces to a tenant is exactly what it changes in that tenant's map. |
| `WatchFeed.WritesAnnounce` | crates/ferriskv-node/src/service.rs:119-143 | An admitted put or delete of tenant data sends its key, and a put its value and a delete no value, to that tenant's channel if somebody reads it; no other channel and no reader changes. |
| `WatchFeed.FilterFolds` | crates/ferriskv-node/src/grpc.rs:285-352 | Folding only the changes under a prefix gives the restriction of folding all of them. |
| `WatchFeed.RunKeeps` | crates/ferriskv-node/src/watch.rs:71-114 | The feed invariant holds in every state of every run of writes, index changes, subscriptions, turns and disconnects. |
| `Sweeper.NoLostWakeup` | crates/ferriskv-node/src/ttl.rs:107-162 | In every interleaving of schedulers, clock and sweeper, while the sweeper waits a wakeup is stored or on its way, or its time has come, or it wakes before the clock passes any scheduled expiration; it never sleeps longer than the fallback. |
| `Sweeper.DueIsSwept` | crates/ferriskv-node/src/ttl.rs:107-144 | Once an entry is due and no scheduler is half-way, the waiting sweeper can wake at once and its pass drains exactly what was due. |
| `Sweeper.StepKeeps` | crates/ferriskv-node/src/ttl.rs:107-162 | Each interleaved step (insert, notify, the reads of the wakeup computation, sleep, wake, drain, time passing) keeps the invariant behind it. |
| `Sweeper.SleepIsShort` | crates/ferriskv-node/src/ttl.rs:146-162 | Sleeping on what was the earliest expiration never oversleeps it, although the timer is read before and the clock after it. |
| `Sweeper.SleepIsExact` | crates/ferriskv-node/src/ttl.rs:146-162 | In every run, from the timer it read, the sweeper sleeps exactly the shorter of the fallback interval and the time left to the earliest expiration it read, and not at all once that has passed. |
| `Sweeper.ScheduleIsInsert` | crates/ferriskv-node/src/ttl.rs:42-55 | The index's own schedule is an insertion followed by its notification. |
| `Placement.PartitionPoint` | crates/ferriskv-coord/src/placement.rs:37-41 | Binary search for the number of entries that start at or before a key. |
| `Placement.RangeMap.Insert` | crates/ferriskv-coord/src/placement.rs:37-41 | Inserts after every entry that starts no later and keeps the table sorted. |
| `Placement.RangeMap.Lookup` | crates/ferriskv-coord/src/placement.rs:43-55 | Finds the last entry that starts at or before the key if it contains the key, otherwise nothing. |
| `Placement.InsertOverrides` | crates/ferriskv-coord/src/placement.rs:37-55 | An insertion changes exactly the lookups of keys at or after its start that no other range starts nearer to, and those it answers; among ranges with the same start the last inserted answers. |
| `Placement.LookupAfterInserts` | crates/ferriskv-coord/src/placement.rs:37-55 | After any inserts of disjoint non-empty ranges, in any order, a lookup finds an entry if and only if it was inserted and contains the key. |
| `Placement.LookupExact` | crates/ferriskv-coord/src/placement.rs:43-55 | The same for any sorted table of disjoint non-empty ranges. |
| `Placement.LookupComplete` | crates/ferriskv-coord/src/placement.rs:43-55 | For any sorted table: the lookup finds an owner of every owned key if and only if no range reaches past a later one into the gap before the next start. |
| `Placement.NestedRangeHides` | crates/ferriskv-coord/src/placement.rs:43-55 | A nested range that makes the lookup miss a key its outer range contains. |
| `Rendezvous.HrwSelect` | crates/ferriskv-core/src/hashing.rs:18-28 | Returns the best n nodes of some ranking by score of all of them. |
| `Rendezvous.SelectsBest` | crates/ferriskv-core/src/hashing.rs:18-28 | The nodes taken come in descending order of the hash of key and node, and no node left out hashes higher than one taken. |
| `Rendezvous.RankingUnique` | crates/ferriskv-core/src/hashing.rs:26-27 | Without ties there is only one ranking of the same nodes. |
| `Rendezvous.SelectionIgnoresOrder` | crates/ferriskv-core/src/hashing.rs:18-28 | Without ties the ranking does not depend on the order the nodes are given in, nor on the sort being unstable. |
| `Rendezvous.SelectionAfterLeave` | crates/ferriskv-core/src/hashing.rs:18-28 | On the node lists the selection returns, without ties: if a node that was not selected leaves, the selection stays; if a selected one leaves, it alone drops out, the others keep their order, and the next best node joins at the end if there is one. |
| `Rendezvous.MinimalDisruption` | crates/ferriskv-core/src/hashing.rs:26-27 | The same on scored rankings, for any results of the unstable sort. |

## Left out

- OneByteCorruption: excludes the two length fields of a frame, because a changed length makes the checksum cover other bytes and rejection is then only likely; `EarlierRecordsSurvive` covers that case.
- CorruptFrame: excludes the length fields for the same reason.
- LostExactly: assumes log order per key and one record in flight on the key; `LossExactly` does not.
- NoGaps: stores and announces in one step; writers in between are in `WatcherExact`.
- QuotaOverRun: one request at a time; racing writers are in `QuotaUnderRaces`.
- SweepIsExact: one request at a time; writers between look and delete are in `SweepRaceExact`.
- QuotaUnderRaces: takes the plan and its check as one step.
- RotationRaceLosesWrite: one run only; the for-all statements about overlapping requests are in `Concurrency`.
- CrashSafety: speaks of one request at a time; overlapping requests are in `ConcurrentCrashSafety`.
- InterleavedAccounting: speaks of distinct keys; all interleavings are in `InterleavingsExact`.
- OpenService: takes the tenants' limits as a parameter where the source loads them from stored JSON records.
- CommitAccounting: has no failing storage write, so the logged-and-ignored error path is not modelled.
- RotateWalIfNeeded: has no failing flush or rotation.
- Collect: models the walk over the map as any order, not the map's own iteration.
- HrwSelect: sorts by insertion where the source uses an unstable library sort; the theorems speak of every ranking.
- Errors from the operating system and from the storage engine, and partial writes inside a live process.
- `Wal::sync`, power loss, and the internals of the Fjall engine, which is known only by its contract.
- The rate limiter (`throttle.rs`) and the limit on operations per second: their behaviour is that of a library.
- Setting, clearing and loading quotas: JSON records outside the write path.
- The order in which concurrent writers materialise the stored usage record.
- Heartbeats of the watch stream and the broadcast channel's internals; the channel is a log with a window and reader positions, and subscribing and publishing are each one step.
- Batch requests, size limits and tenant checks of the RPC layer: one-line checks around the modelled operations.
- Authentication, audit, administration, metrics, configuration and the command line.
