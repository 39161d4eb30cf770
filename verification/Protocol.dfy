/** The order in which a node touches its disk, and why any crash in it is survivable. */
module Protocol {
  import opened ByteStrings
  import opened Disk
  import opened WalFrames
  import opened WriteAheadLog
  import opened NodeSpec
  import opened NodeInvariants
  import ValueCodec
  import Quota

  // --------------------------------------------------- replay needs no checkpoint

  /** `v` is a value that `k` held at some point while `ops` were applied to `base`. */
  ghost predicate HeldSince(base: Store, ops: seq<StoreOp>, k: Bytes, v: Option<Bytes>) {
    exists i: nat | i <= |ops| :: v == Lookup(ApplyAll(base, ops[..i]), k)
  }

  /** The last write to `k` decides, or the value before if there is none. */
  function LastAt(before: Option<Bytes>, ops: seq<StoreOp>, k: Bytes): Option<Bytes> {
    if ops == [] then before
    else if ops[|ops| - 1].key == k then Written(ops[|ops| - 1])
    else LastAt(before, ops[..|ops| - 1], k)
  }

  lemma {:induction false} LookupIsLast(m: Store, ops: seq<StoreOp>, k: Bytes)
    ensures Lookup(ApplyAll(m, ops), k) == LastAt(Lookup(m, k), ops, k)
  {
    if ops != [] {
      LookupIsLast(m, ops[..|ops| - 1], k);
      ApplyOpAt(ApplyAll(m, ops[..|ops| - 1]), ops[|ops| - 1], k);
    }
  }

  /** Starting from a value held along the way changes nothing about where replay ends. */
  lemma {:induction false} LastFromHeld(before: Option<Bytes>, ops: seq<StoreOp>, k: Bytes, i: nat)
    requires i <= |ops|
    ensures LastAt(LastAt(before, ops[..i], k), ops, k) == LastAt(before, ops, k)
    decreases |ops|
  {
    if ops != [] && ops[|ops| - 1].key != k {
      var init := ops[..|ops| - 1];
      if i == |ops| {
        assert ops[..i] == ops && init[..|init|] == init;
        LastFromHeld(before, init, k, |init|);
      } else {
        assert init[..i] == ops[..i];
        LastFromHeld(before, init, k, i);
      }
    } else if ops == [] {
      assert ops[..i] == [];
    }
  }

  /** Replaying the whole segment over a store in which each key holds some value it had
      since the segment began ends where applying the segment once to its base ends. */
  lemma ReplayNeedsNoCheckpoint(m: Store, base: Store, ops: seq<StoreOp>, k: Bytes)
    requires HeldSince(base, ops, k, Lookup(m, k))
    ensures Lookup(ApplyAll(m, ops), k) == Lookup(ApplyAll(base, ops), k)
  {
    var i: nat :| i <= |ops| && Lookup(m, k) == Lookup(ApplyAll(base, ops[..i]), k);
    LookupIsLast(m, ops, k);
    LookupIsLast(base, ops, k);
    LookupIsLast(base, ops[..i], k);
    LastFromHeld(Lookup(base, k), ops, k, i);
  }

  lemma HeldGrows(base: Store, ops: seq<StoreOp>, op: StoreOp, k: Bytes, v: Option<Bytes>)
    requires HeldSince(base, ops, k, v)
    ensures HeldSince(base, ops + [op], k, v)
  {
    var i: nat :| i <= |ops| && v == Lookup(ApplyAll(base, ops[..i]), k);
    assert (ops + [op])[..i] == ops[..i];
  }

  lemma HeldNow(base: Store, ops: seq<StoreOp>, k: Bytes)
    ensures HeldSince(base, ops, k, Lookup(ApplyAll(base, ops), k))
  {
    assert ops[..|ops|] == ops;
  }

  /** Part of a replay over a held state is again a held state. */
  lemma {:induction false} ReplayStaysHeld(m: Store, base: Store, ops: seq<StoreOp>, k: Bytes, i: nat)
    requires i <= |ops| && HeldSince(base, ops, k, Lookup(m, k))
    ensures HeldSince(base, ops, k, Lookup(ApplyAll(m, ops[..i]), k))
  {
    if i > 0 {
      var op := ops[i - 1];
      assert ops[..i][..i - 1] == ops[..i - 1];
      ApplyOpAt(ApplyAll(m, ops[..i - 1]), op, k);
      if op.key == k {
        ApplyOpAt(ApplyAll(base, ops[..i - 1]), op, k);
        assert Lookup(ApplyAll(base, ops[..i]), k) == Written(op);
      } else {
        ReplayStaysHeld(m, base, ops, k, i - 1);
      }
    } else {
      assert ops[..0] == [];
    }
  }

  // ------------------------------------------------------------ the protocol

  /** Agreement on everything clients write. Usage records bypass the log. */
  ghost predicate SameData(m: Store, m': Store) {
    forall k | !Quota.IsUsageRecord(k) :: Lookup(m, k) == Lookup(m', k)
  }

  datatype Phase =
    | Idle                               // nothing under way
    | Logged                             // the last record is in the log, not yet in storage
    | Flushed                            // storage has been fsynced
    | Emptied                            // the segment is gone, its header not yet written
    | HalfHeaded(part: Bytes)            // a crash left part of a fresh header
    | Untrimmed(torn: Bytes)             // opening: the torn tail is still there
    | Replaying(next: nat, from: Store)  // opening: records before `next` are back in storage

  /** `pre` are the writes no longer in the log, `seg` the records in it, `resume` the
      sequence number the process gives out next. */
  datatype Tracker = Tracker(phase: Phase, pre: seq<StoreOp>, base: u64, seg: seq<WalRecord>, resume: u64) {
    function Log(): seq<StoreOp> {
      pre + RecordOps(seg)
    }

    function Before(): Store {
      ApplyAll(map[], pre)
    }

    function Clean(): Bytes {
      Header(base) + Frames(seg)
    }
  }

  /** One step of the protocol, named after what it is for. */
  datatype Mark =
    | LogRecord(r: WalRecord)
    | StoreRecord
    | StoreUsage(op: StoreOp)
    | FlushAll
    | DropSegment
    | NewHeader(base: u64)
    | CutTail
    | ReplayOne

  /** An entry the node itself would store: a key the log can carry, a readable value,
      and no expiry on a usage record. */
  predicate SaneEntry(k: Bytes, v: Bytes) {
    && |k| < 0x1_0000_0000
    && ValueCodec.Decode(v).Ok?
    && (Quota.IsUsageRecord(k) ==> Expiry(v) == None)
  }

  ghost predicate Sane(m: Store) {
    forall k | k in m :: SaneEntry(k, m[k])
  }

  predicate Storable(op: StoreOp) {
    op.StorePut? ==> SaneEntry(op.key, op.value)
  }

  predicate Enabled(durable: bool, t: Tracker, m: Mark) {
    match m
    case LogRecord(r) => t.phase.Idle? && Fits(r) && r.seqno == t.resume && Storable(RecordOp(r))
    case StoreRecord => t.phase.Logged? && t.seg != []
    case StoreUsage(op) => t.phase.Idle? && Quota.IsUsageRecord(op.key) && Storable(op)
    case FlushAll => t.phase.Idle? && durable
    case DropSegment => t.phase.Flushed? && durable
    case NewHeader(base) => t.phase.Emptied? && base == t.resume
    case CutTail => t.phase.Untrimmed?
    case ReplayOne => t.phase.Replaying? && t.phase.next < |t.seg|
  }

  function EffectOf(t: Tracker, m: Mark): Effect
    requires m.StoreRecord? ==> t.seg != []
    requires m.ReplayOne? ==> t.phase.Replaying? && t.phase.next < |t.seg|
  {
    match m
    case LogRecord(r) => AppendFile(Frame(r))
    case StoreRecord => Engine(RecordOp(t.seg[|t.seg| - 1]))
    case StoreUsage(op) => Engine(op)
    case FlushAll => Flush
    case DropSegment => TruncateFile(0)
    case NewHeader(base) => AppendFile(Header(base))
    case CutTail => TruncateFile(|t.Clean()|)
    case ReplayOne => Engine(RecordOp(t.seg[t.phase.next]))
  }

  function Replay(seg: seq<WalRecord>, next: nat, from: Store): Phase {
    if next == |seg| then Idle else Replaying(next, from)
  }

  /** `from` is what storage holds when the tail is cut. */
  function Next(t: Tracker, m: Mark, from: Store): Tracker
    requires m.ReplayOne? ==> t.phase.Replaying?
  {
    match m
    case LogRecord(r) => t.(phase := Logged, seg := t.seg + [r], resume := SaturatingAdd(t.resume, 1))
    case StoreRecord => t.(phase := Idle)
    case StoreUsage(_) => t
    case FlushAll => t.(phase := Flushed)
    case DropSegment => t.(phase := Emptied, pre := t.Log(), seg := [])
    case NewHeader(base) => t.(phase := Idle, base := base)
    case CutTail => t.(phase := Replay(t.seg, 0, from))
    case ReplayOne => t.(phase := Replay(t.seg, t.phase.next + 1, t.phase.from))
  }

  // ------------------------------------------------------ what every step keeps

  /** Every value a crash could leave at a client key is one the key had since the
      segment began. */
  ghost predicate AllHeld(t: Tracker, d: Disk) {
    forall j: nat, k: Bytes | j <= |d.journal| && !Quota.IsUsageRecord(k) ::
      HeldSince(t.Before(), RecordOps(t.seg), k, Lookup(ApplyAll(d.flushed, d.journal[..j]), k))
  }

  ghost predicate AllSane(d: Disk) {
    forall j: nat | j <= |d.journal| :: Sane(ApplyAll(d.flushed, d.journal[..j]))
  }

  /** Part of a frame, possibly none of it. */
  ghost predicate IsTorn(torn: Bytes) {
    exists r, c: nat :: Fits(r) && c < |Frame(r)| && torn == Frame(r)[..c]
  }

  /** Part of a header: some of it, not all. */
  ghost predicate IsHalfHeader(part: Bytes) {
    exists base: u64, c: nat :: 0 < c < HEADER_LEN && part == Header(base)[..c]
  }

  ghost predicate FileMatches(t: Tracker, d: Disk) {
    match t.phase
    case Emptied => d.file == []
    case HalfHeaded(part) => d.file == part && IsHalfHeader(part)
    case Untrimmed(torn) => d.file == t.Clean() + torn && IsTorn(torn)
    case _ => d.file == t.Clean()
  }

  ghost predicate DataMatches(t: Tracker, d: Disk) {
    var ops := RecordOps(t.seg);
    match t.phase
    case Idle => SameData(d.Data(), ApplyAll(t.Before(), ops))
    case Logged => ops != [] && SameData(d.Data(), ApplyAll(t.Before(), ops[..|ops| - 1]))
    case Flushed => d.journal == [] && SameData(d.Data(), ApplyAll(t.Before(), ops))
    case Emptied => d.journal == [] && t.seg == [] && SameData(d.Data(), t.Before())
    case HalfHeaded(_) => d.journal == [] && t.seg == [] && SameData(d.Data(), t.Before())
    case Untrimmed(_) => true
    case Replaying(next, from) =>
      && next <= |ops|
      && d.Data() == ApplyAll(from, ops[..next])
      && forall k | !Quota.IsUsageRecord(k) :: HeldSince(t.Before(), ops, k, Lookup(from, k))
  }

  ghost predicate RecordsFine(durable: bool, t: Tracker) {
    && AllFit(t.seg)
    && Dense(t.base, t.seg)
    && (forall i | 0 <= i < |t.seg| :: Storable(RecordOp(t.seg[i])))
    && (!durable ==> t.pre == [])
    && (t.phase.Emptied? || t.phase.HalfHeaded? || t.resume == SeqAt(t.base, |t.seg|))
  }

  ghost predicate Tracks(durable: bool, t: Tracker, d: Disk) {
    RecordsFine(durable, t) && FileMatches(t, d) && DataMatches(t, d) && AllHeld(t, d) && AllSane(d)
  }

  lemma RecordOpsAppend(rs: seq<WalRecord>, r: WalRecord)
    ensures RecordOps(rs + [r]) == RecordOps(rs) + [RecordOp(r)]
  {}

  lemma HeldAfterOp(t: Tracker, d: Disk, op: StoreOp)
    requires AllHeld(t, d)
    requires forall k | !Quota.IsUsageRecord(k) ::
               HeldSince(t.Before(), RecordOps(t.seg), k, Lookup(ApplyOp(d.Data(), op), k))
    ensures AllHeld(t, d.Do(Engine(op)))
  {
    hide HeldSince, Quota.IsUsageRecord, RecordOps;
    var d' := d.Do(Engine(op));
    forall j: nat, k: Bytes | j <= |d'.journal| && !Quota.IsUsageRecord(k)
      ensures HeldSince(t.Before(), RecordOps(t.seg), k, Lookup(ApplyAll(d'.flushed, d'.journal[..j]), k))
    {
      if j <= |d.journal| {
        assert d'.journal[..j] == d.journal[..j];
      } else {
        assert d'.journal[..j] == d.journal + [op];
        ApplyAllAppend(d.flushed, d.journal, op);
      }
    }
  }

  lemma SaneAfterOp(d: Disk, op: StoreOp)
    requires AllSane(d) && Storable(op)
    ensures AllSane(d.Do(Engine(op)))
  {
    hide SaneEntry;
    var d' := d.Do(Engine(op));
    forall j: nat | j <= |d'.journal| ensures Sane(ApplyAll(d'.flushed, d'.journal[..j])) {
      if j <= |d.journal| {
        assert d'.journal[..j] == d.journal[..j];
      } else {
        assert d'.journal[..j] == d.journal + [op] && d.journal[..|d.journal|] == d.journal;
        ApplyAllAppend(d.flushed, d.journal, op);
        assert Sane(ApplyAll(d.flushed, d.journal[..|d.journal|]));
      }
    }
  }

  lemma DataAfterOp(d: Disk, op: StoreOp)
    ensures d.Do(Engine(op)).Data() == ApplyOp(d.Data(), op)
  {
    ApplyAllAppend(d.flushed, d.journal, op);
  }

  /** Writing to the file changes nothing about storage. */
  lemma FileOnly(t: Tracker, d: Disk, file: Bytes)
    requires AllHeld(t, d) && AllSane(d)
    ensures AllHeld(t, d.(file := file)) && AllSane(d.(file := file))
    ensures d.(file := file).Data() == d.Data()
  {
    hide HeldSince, Sane, ApplyAll, RecordOps, Quota.IsUsageRecord;
    var d' := d.(file := file);
    assert d'.flushed == d.flushed && d'.journal == d.journal;
  }

  lemma HeldAfterLog(t: Tracker, d: Disk, r: WalRecord)
    requires AllHeld(t, d)
    ensures AllHeld(t.(seg := t.seg + [r]), d)
  {
    hide HeldSince, Quota.IsUsageRecord, RecordOps, ApplyAll;
    RecordOpsAppend(t.seg, r);
    forall j: nat, k: Bytes | j <= |d.journal| && !Quota.IsUsageRecord(k)
      ensures HeldSince(t.Before(), RecordOps(t.seg + [r]), k, Lookup(ApplyAll(d.flushed, d.journal[..j]), k))
    {
      HeldGrows(t.Before(), RecordOps(t.seg), RecordOp(r), k, Lookup(ApplyAll(d.flushed, d.journal[..j]), k));
    }
  }

  lemma StepLogs(durable: bool, t: Tracker, d: Disk, r: WalRecord)
    requires Tracks(durable, t, d) && Enabled(durable, t, LogRecord(r))
    ensures Tracks(durable, Next(t, LogRecord(r), map[]), d.Do(AppendFile(Frame(r))))
  {
    hide Frame, Header, IsTorn, IsHalfHeader, AllHeld, AllSane, Quota.IsUsageRecord, RecordOps, ApplyAll;
    hide SameData, Storable;
    var t', d' := Next(t, LogRecord(r), map[]), d.Do(AppendFile(Frame(r)));
    FramesAppend(t.seg, r);
    RecordOpsAppend(t.seg, r);
    assert t.Clean() + Frame(r) == t'.Clean();
    assert RecordOps(t'.seg)[..|t.seg|] == RecordOps(t.seg);
    HeldAfterLog(t, d, r);
    FileOnly(t.(seg := t.seg + [r]), d, d'.file);
    AllHeldSame(t.(seg := t.seg + [r]), t', d');
    assert forall i | 0 <= i < |t'.seg| :: Storable(RecordOp(t'.seg[i]));
  }

  lemma StepStores(durable: bool, t: Tracker, d: Disk)
    requires Tracks(durable, t, d) && Enabled(durable, t, StoreRecord)
    ensures Tracks(durable, Next(t, StoreRecord, map[]), d.Do(EffectOf(t, StoreRecord)))
  {
    hide Frames, Header, IsTorn, IsHalfHeader, HeldSince, Quota.IsUsageRecord, RecordOps, AllHeld, AllSane;
    hide Storable, ApplyAll;
    var ops := RecordOps(t.seg);
    var op := ops[|ops| - 1];
    var t', d' := Next(t, StoreRecord, map[]), d.Do(Engine(op));
    DataAfterOp(d, op);
    assert ops == ops[..|ops| - 1] + [op];
    ApplyAllAppend(t.Before(), ops[..|ops| - 1], op);
    forall k | !Quota.IsUsageRecord(k)
      ensures Lookup(ApplyOp(d.Data(), op), k) == Lookup(ApplyAll(t.Before(), ops), k)
      ensures HeldSince(t.Before(), ops, k, Lookup(ApplyOp(d.Data(), op), k))
    {
      ApplyOpAt(d.Data(), op, k);
      ApplyOpAt(ApplyAll(t.Before(), ops[..|ops| - 1]), op, k);
      HeldNow(t.Before(), ops, k);
    }
    HeldAfterOp(t, d, op);
    SaneAfterOp(d, op);
    AllHeldSame(t, t', d');
  }

  lemma StepStoresUsage(durable: bool, t: Tracker, d: Disk, op: StoreOp)
    requires Tracks(durable, t, d) && Enabled(durable, t, StoreUsage(op))
    ensures Tracks(durable, t, d.Do(Engine(op)))
  {
    hide Frames, Header, IsTorn, IsHalfHeader, HeldSince, Quota.IsUsageRecord, RecordOps, Sane, Storable, ApplyAll;
    var ops := RecordOps(t.seg);
    DataAfterOp(d, op);
    forall k | !Quota.IsUsageRecord(k)
      ensures Lookup(ApplyOp(d.Data(), op), k) == Lookup(d.Data(), k) == Lookup(ApplyAll(t.Before(), ops), k)
      ensures HeldSince(t.Before(), ops, k, Lookup(ApplyOp(d.Data(), op), k))
    {
      ApplyOpAt(d.Data(), op, k);
      HeldNow(t.Before(), ops, k);
    }
    HeldAfterOp(t, d, op);
    SaneAfterOp(d, op);
  }

  lemma StepFlushes(durable: bool, t: Tracker, d: Disk)
    requires Tracks(durable, t, d) && Enabled(durable, t, FlushAll)
    ensures Tracks(durable, Next(t, FlushAll, map[]), d.Do(Flush))
  {
    hide Frames, Header, IsTorn, IsHalfHeader, HeldSince, Quota.IsUsageRecord, RecordOps, Sane, Storable;
    var t', d' := Next(t, FlushAll, map[]), d.Do(Flush);
    var ops := RecordOps(t.seg);
    assert d.journal[..|d.journal|] == d.journal;
    assert Sane(d.Data());
    forall j: nat, k: Bytes | j <= |d'.journal| && !Quota.IsUsageRecord(k)
      ensures HeldSince(t'.Before(), ops, k, Lookup(ApplyAll(d'.flushed, d'.journal[..j]), k))
    {
      HeldNow(t.Before(), ops, k);
    }
    assert AllHeld(t', d');
  }

  lemma StepDrops(durable: bool, t: Tracker, d: Disk)
    requires Tracks(durable, t, d) && Enabled(durable, t, DropSegment)
    ensures Tracks(durable, Next(t, DropSegment, map[]), d.Do(TruncateFile(0)))
  {
    hide Frames, Header, IsTorn, IsHalfHeader, Quota.IsUsageRecord, Sane, Storable;
    var t', d' := Next(t, DropSegment, map[]), d.Do(TruncateFile(0));
    ApplyAllConcat(map[], t.pre, RecordOps(t.seg));
    forall j: nat, k: Bytes | j <= |d'.journal| && !Quota.IsUsageRecord(k)
      ensures HeldSince(t'.Before(), RecordOps(t'.seg), k, Lookup(ApplyAll(d'.flushed, d'.journal[..j]), k))
    {
      HeldNow(t'.Before(), RecordOps(t'.seg), k);
    }
    assert AllHeld(t', d');
  }

  lemma StepHeads(durable: bool, t: Tracker, d: Disk, base: u64)
    requires Tracks(durable, t, d) && Enabled(durable, t, NewHeader(base))
    ensures Tracks(durable, Next(t, NewHeader(base), map[]), d.Do(AppendFile(Header(base))))
  {
    assert RecordOps(t.seg) == [];
    assert ApplyAll(t.Before(), []) == t.Before();
    hide Header, IsTorn, IsHalfHeader, AllHeld, AllSane, Quota.IsUsageRecord, RecordOps, ApplyAll, SameData, Storable;
    var t', d' := Next(t, NewHeader(base), map[]), d.Do(AppendFile(Header(base)));
    assert Frames([]) == [];
    assert t'.Clean() == [] + Header(base);
    FileOnly(t, d, d'.file);
    AllHeldSame(t, t', d');
  }

  lemma AllHeldSame(t: Tracker, t': Tracker, d: Disk)
    requires AllHeld(t, d) && t'.pre == t.pre && t'.seg == t.seg
    ensures AllHeld(t', d)
  {
    hide HeldSince, Quota.IsUsageRecord, RecordOps, ApplyAll;
    assert t'.Before() == t.Before();
  }

  /** Where a replay that starts from a held state stands after `next` records. */
  lemma ReplayPhase(t: Tracker, d: Disk, next: nat, from: Store)
    requires next <= |t.seg|
    requires d.Data() == ApplyAll(from, RecordOps(t.seg)[..next])
    requires forall k | !Quota.IsUsageRecord(k) :: HeldSince(t.Before(), RecordOps(t.seg), k, Lookup(from, k))
    ensures DataMatches(t.(phase := Replay(t.seg, next, from)), d)
  {
    hide HeldSince, Quota.IsUsageRecord, ApplyAll;
    var ops := RecordOps(t.seg);
    if next == |t.seg| {
      assert ops[..next] == ops;
      forall k | !Quota.IsUsageRecord(k) ensures Lookup(d.Data(), k) == Lookup(ApplyAll(t.Before(), ops), k) {
        ReplayNeedsNoCheckpoint(from, t.Before(), ops, k);
      }
    }
  }

  lemma StepCuts(durable: bool, t: Tracker, d: Disk)
    requires Tracks(durable, t, d) && Enabled(durable, t, CutTail)
    ensures Tracks(durable, Next(t, CutTail, d.Data()), d.Do(EffectOf(t, CutTail)))
  {
    hide Frames, Header, IsTorn, IsHalfHeader, Quota.IsUsageRecord, Sane, Storable, HeldSince;
    var t', d' := Next(t, CutTail, d.Data()), d.Do(EffectOf(t, CutTail));
    assert d.file[..|t.Clean()|] == t.Clean();
    assert d.journal[..|d.journal|] == d.journal;
    assert RecordOps(t.seg)[..0] == [];
    ReplayPhase(t, d', 0, d.Data());
    assert AllHeld(t', d');
  }

  lemma StepReplays(durable: bool, t: Tracker, d: Disk)
    requires Tracks(durable, t, d) && Enabled(durable, t, ReplayOne)
    ensures Tracks(durable, Next(t, ReplayOne, map[]), d.Do(EffectOf(t, ReplayOne)))
  {
    hide Frames, Header, IsTorn, IsHalfHeader, Quota.IsUsageRecord, AllHeld, AllSane, Storable, HeldSince, ApplyAll;
    var ops := RecordOps(t.seg);
    var next, from := t.phase.next, t.phase.from;
    var op := ops[next];
    var t', d' := Next(t, ReplayOne, map[]), d.Do(Engine(op));
    DataAfterOp(d, op);
    assert ops[..next + 1] == ops[..next] + [op];
    ApplyAllAppend(from, ops[..next], op);
    assert d'.Data() == ApplyAll(from, ops[..next + 1]);
    forall k | !Quota.IsUsageRecord(k) ensures HeldSince(t.Before(), ops, k, Lookup(ApplyOp(d.Data(), op), k)) {
      ReplayStaysHeld(from, t.Before(), ops, k, next + 1);
    }
    HeldAfterOp(t, d, op);
    SaneAfterOp(d, op);
    ReplayPhase(t, d', next + 1, from);
    AllHeldSame(t, t', d');
  }

  /** Every step of the protocol keeps the tracking invariant. */
  lemma StepKeeps(durable: bool, t: Tracker, d: Disk, m: Mark)
    requires Tracks(durable, t, d) && Enabled(durable, t, m)
    ensures Tracks(durable, Next(t, m, d.Data()), d.Do(EffectOf(t, m)))
  {
    hide Tracks;
    match m
    case LogRecord(r) => StepLogs(durable, t, d, r);
    case StoreRecord => StepStores(durable, t, d);
    case StoreUsage(op) => StepStoresUsage(durable, t, d, op);
    case FlushAll => StepFlushes(durable, t, d);
    case DropSegment => StepDrops(durable, t, d);
    case NewHeader(base) => StepHeads(durable, t, d, base);
    case CutTail => StepCuts(durable, t, d);
    case ReplayOne => StepReplays(durable, t, d);
  }
}
