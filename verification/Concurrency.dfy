/** Crash safety when requests overlap: any number of writes may be logged and not yet
    stored, and anybody may flush and rotate meanwhile. */
module Concurrency {
  import opened ByteStrings
  import opened Disk
  import opened WalFrames
  import opened WriteAheadLog
  import opened NodeSpec
  import opened Protocol
  import Recovery
  import Quota

  // ---------------------------------------------------------------- the machine

  /** `before` are the logged writes a rotation has dropped from the file, `seg` the records
      in it. `stored` says which logged writes have reached storage, by their place in the
      log, and `safe` which had when storage was last flushed. Between the two halves of a
      rotation the file has no header. */
  datatype World = World(disk: Disk, before: seq<StoreOp>, base: u64, seg: seq<WalRecord>, next: u64,
                         headed: bool, stored: set<nat>, safe: set<nat>) {
    function Log(): seq<StoreOp> {
      before + RecordOps(seg)
    }
  }

  /** What some request does next. The log's lock makes an append one step and keeps appends
      out of a rotation; nothing else is excluded. */
  datatype Move = LogIt(r: WalRecord) | StoreIt(i: nat) | Bill(op: StoreOp) | FlushIt | Drop | Head

  predicate Enabled(durable: bool, s: World, m: Move) {
    match m
    case LogIt(r) => s.headed && Fits(r) && r.seqno == s.next && !Quota.IsUsageRecord(r.key)
    case StoreIt(i) => i < |s.Log()| && i !in s.stored
    case Bill(op) => Quota.IsUsageRecord(op.key)
    case FlushIt => durable
    case Drop => durable && s.headed
    case Head => !s.headed
  }

  function EffectOf(s: World, m: Move): Effect
    requires m.StoreIt? ==> m.i < |s.Log()|
  {
    match m
    case LogIt(r) => AppendFile(Frame(r))
    case StoreIt(i) => Engine(s.Log()[i])
    case Bill(op) => Engine(op)
    case FlushIt => Flush
    case Drop => TruncateFile(0)
    case Head => AppendFile(Header(s.next))
  }

  function Next(s: World, m: Move): World
    requires m.StoreIt? ==> m.i < |s.Log()|
  {
    var s1 := s.(disk := s.disk.Do(EffectOf(s, m)));
    match m
    case LogIt(r) => s1.(seg := s.seg + [r], next := SaturatingAdd(s.next, 1))
    case StoreIt(i) => s1.(stored := s.stored + {i})
    case Bill(_) => s1
    case FlushIt => s1.(safe := s.stored)
    case Drop => s1.(before := s.Log(), seg := [], headed := false)
    case Head => s1.(base := s.next, headed := true)
  }

  predicate Step(durable: bool, s: World, m: Move, s': World) {
    Enabled(durable, s, m) && s' == Next(s, m)
  }

  function All(n: nat): (s: set<nat>)
    ensures forall i: nat :: i in s <==> i < n
  {
    if n == 0 then {} else All(n - 1) + {n - 1}
  }

  /** A node that has just opened: everything logged is in storage, and a durable engine has
      flushed it and starts on an empty segment. */
  ghost predicate Opened(durable: bool, s: World) {
    && s.headed && s.disk.file == Header(s.base) + Frames(s.seg)
    && AllFit(s.seg) && Dense(s.base, s.seg) && s.next == SeqAt(s.base, |s.seg|)
    && (forall i | 0 <= i < |s.Log()| :: !Quota.IsUsageRecord(s.Log()[i].key))
    && SameData(s.disk.flushed, ApplyAll(map[], s.before)) && s.disk.journal == RecordOps(s.seg)
    && s.safe == All(|s.before|) && s.stored == All(|s.Log()|)
    && (if durable then s.seg == [] else s.before == [])
  }

  // ------------------------------------------------------------ the two conditions

  /** Writes to one key reach storage in the order they were logged. */
  predicate InOrder(s: World, m: Move) {
    m.StoreIt? && m.i < |s.Log()| ==> forall j: nat | j < m.i && s.Log()[j].key == s.Log()[m.i].key :: j in s.stored
  }

  /** A rotation drops only what was in storage when it was flushed. */
  predicate Settled(s: World, m: Move) {
    m.Drop? ==> All(|s.Log()|) <= s.safe
  }

  /** Any interleaving of any moves of any number of requests. */
  ghost predicate IsRun(durable: bool, worlds: seq<World>, moves: seq<Move>) {
    && |worlds| == |moves| + 1
    && Opened(durable, worlds[0])
    && (forall i | 0 <= i < |moves| :: Step(durable, worlds[i], moves[i], worlds[i + 1]))
  }

  ghost predicate AllInOrder(worlds: seq<World>, moves: seq<Move>)
    requires |worlds| == |moves| + 1
  {
    forall i | 0 <= i < |moves| :: InOrder(worlds[i], moves[i])
  }

  ghost predicate AllSettled(worlds: seq<World>, moves: seq<Move>)
    requires |worlds| == |moves| + 1
  {
    forall i | 0 <= i < |moves| :: Settled(worlds[i], moves[i])
  }

  // ------------------------------------------------------------------- the crash

  /** The file a crash can leave: the segment and perhaps part of one more frame, or part of
      the header a rotation was about to write. */
  ghost predicate CrashFile(s: World, file: Bytes) {
    if s.headed then exists torn :: IsTorn(torn) && file == Header(s.base) + Frames(s.seg) + torn
    else exists c: nat :: c < HEADER_LEN && file == Header(s.next)[..c]
  }

  ghost predicate CanCrash(durable: bool, s: World, file: Bytes, m: Store) {
    CrashFile(s, file) && s.disk.Survives(durable, m)
  }

  /** What replaying the file over what storage kept leaves at a key. */
  function Recovered(file: Bytes, m: Store, k: Bytes): Option<Bytes>
    requires Recover(file).Ok?
  {
    Lookup(ApplyAll(m, RecordOps(Recover(file).value.records)), k)
  }

  /** What the log as a whole says a key holds. */
  function Logged(s: World, k: Bytes): Option<Bytes> {
    Lookup(ApplyAll(map[], s.Log()), k)
  }

  // ----------------------------------------------------------------- the images

  /** What a key holds when exactly the writes in `done` have happened, in log order. */
  function Image(log: seq<StoreOp>, done: set<nat>, k: Bytes): Option<Bytes> {
    if log == [] then None
    else
      var n := |log| - 1;
      if n in done && log[n].key == k then Written(log[n]) else Image(log[..n], done, k)
  }

  lemma {:induction false} ImageCovers(log: seq<StoreOp>, done: set<nat>, k: Bytes)
    requires forall i: nat | i < |log| && log[i].key == k :: i in done
    ensures Image(log, done, k) == Lookup(ApplyAll(map[], log), k)
  {
    if log != [] {
      var n := |log| - 1;
      ApplyOpAt(ApplyAll(map[], log[..n]), log[n], k);
      if log[n].key != k { ImageCovers(log[..n], done, k); }
    }
  }

  lemma {:induction false} ImageTop(log: seq<StoreOp>, done: set<nat>, i: nat)
    requires i < |log| && i in done
    requires forall j: nat | i < j < |log| && log[j].key == log[i].key :: j !in done
    ensures Image(log, done, log[i].key) == Written(log[i])
  {
    var n := |log| - 1;
    if i < n { ImageTop(log[..n], done, i); }
  }

  /** Writes to other keys, or writes not in the log, do not show. */
  lemma {:induction false} ImageSame(log: seq<StoreOp>, done: set<nat>, done': set<nat>, k: Bytes)
    requires forall i: nat | i < |log| && log[i].key == k :: i in done <==> i in done'
    ensures Image(log, done, k) == Image(log, done', k)
  {
    if log != [] { ImageSame(log[..|log| - 1], done, done', k); }
  }

  /** Nor do writes after `n` when none of them to the key has happened. */
  lemma {:induction false} ImagePrefix(log: seq<StoreOp>, done: set<nat>, k: Bytes, n: nat)
    requires n <= |log| && forall i: nat | n <= i < |log| && log[i].key == k :: i !in done
    ensures Image(log, done, k) == Image(log[..n], done, k)
  {
    if n == |log| {
      assert log[..n] == log;
    } else {
      var init := log[..|log| - 1];
      ImagePrefix(init, done, k, n);
      assert init[..n] == log[..n];
    }
  }

  // -------------------------------------------------------------- the invariant

  ghost predicate FileFine(s: World) {
    && AllFit(s.seg) && Dense(s.base, s.seg)
    && (if s.headed then s.disk.file == Header(s.base) + Frames(s.seg) && s.next == SeqAt(s.base, |s.seg|)
        else s.disk.file == [] && s.seg == [])
    && (forall i | 0 <= i < |s.Log()| :: !Quota.IsUsageRecord(s.Log()[i].key))
  }

  /** With a write to a key, all earlier writes to it are in the set. */
  ghost predicate Closed(log: seq<StoreOp>, done: set<nat>) {
    forall i: nat, j: nat | i < j < |log| && j in done && log[i].key == log[j].key :: i in done
  }

  /** What storage holds at a key is the image of some set of writes between the flushed and
      the stored ones. */
  ghost predicate Shows(s: World, v: Option<Bytes>, k: Bytes) {
    exists done :: s.safe <= done <= s.stored && v == Image(s.Log(), done, k)
  }

  ghost predicate JournalShows(s: World) {
    forall j: nat, k: Bytes | j <= |s.disk.journal| && !Quota.IsUsageRecord(k) ::
      Shows(s, Lookup(ApplyAll(s.disk.flushed, s.disk.journal[..j]), k), k)
  }

  /** Everything stored since the flush is in the engine's journal. */
  ghost predicate Journaled(s: World) {
    forall i: nat | i in s.stored && i !in s.safe :: i < |s.Log()| && s.Log()[i] in s.disk.journal
  }

  ghost predicate Sets(s: World) {
    s.safe <= s.stored <= All(|s.Log()|) && Closed(s.Log(), s.safe) && Closed(s.Log(), s.stored)
  }

  ghost predicate Ends(s: World) {
    forall k | !Quota.IsUsageRecord(k) ::
      && Lookup(s.disk.flushed, k) == Image(s.Log(), s.safe, k)
      && Lookup(s.disk.Data(), k) == Image(s.Log(), s.stored, k)
  }

  ghost predicate Inv(s: World) {
    FileFine(s) && Sets(s) && Ends(s) && JournalShows(s) && Journaled(s)
  }

  ghost predicate DataInv(s: World) {
    Sets(s) && Ends(s) && JournalShows(s) && Journaled(s)
  }

  /** Nothing about the data depends on where the log is kept. */
  lemma SameLog(s: World, s': World)
    requires DataInv(s) && s'.Log() == s.Log() && s'.safe == s.safe && s'.stored == s.stored
    requires s'.disk.flushed == s.disk.flushed && s'.disk.journal == s.disk.journal
    ensures DataInv(s')
  {
    hide Image, RecordOps, ApplyAll, Quota.IsUsageRecord;
    assert s'.disk.Data() == s.disk.Data();
    forall j: nat, k: Bytes | j <= |s'.disk.journal| && !Quota.IsUsageRecord(k)
      ensures Shows(s', Lookup(ApplyAll(s'.disk.flushed, s'.disk.journal[..j]), k), k)
    {
      assert Shows(s, Lookup(ApplyAll(s.disk.flushed, s.disk.journal[..j]), k), k);
    }
  }

  // ------------------------------------------------------------- every step keeps it

  lemma LogGrows(s: World, r: WalRecord)
    ensures Next(s, LogIt(r)).Log() == s.Log() + [RecordOp(r)]
  {
    hide Frame;
    RecordOpsAppend(s.seg, r);
  }

  lemma ImageGrows(log: seq<StoreOp>, op: StoreOp, done: set<nat>, k: Bytes)
    requires done <= All(|log|)
    ensures Image(log + [op], done, k) == Image(log, done, k)
  {
    ImagePrefix(log + [op], done, k, |log|);
    assert (log + [op])[..|log|] == log;
  }

  lemma LogKeeps(s: World, r: WalRecord)
    requires DataInv(s)
    ensures DataInv(Next(s, LogIt(r)))
  {
    hide Image, RecordOps, ApplyAll, Quota.IsUsageRecord, Frame, All;
    var s', op := Next(s, LogIt(r)), RecordOp(r);
    LogGrows(s, r);
    assert s'.disk.Data() == s.disk.Data();
    forall k | !Quota.IsUsageRecord(k)
      ensures Image(s'.Log(), s.safe, k) == Image(s.Log(), s.safe, k)
      ensures Image(s'.Log(), s.stored, k) == Image(s.Log(), s.stored, k)
    {
      ImageGrows(s.Log(), op, s.safe, k);
      ImageGrows(s.Log(), op, s.stored, k);
    }
    forall j: nat, k: Bytes | j <= |s'.disk.journal| && !Quota.IsUsageRecord(k)
      ensures Shows(s', Lookup(ApplyAll(s'.disk.flushed, s'.disk.journal[..j]), k), k)
    {
      var v := Lookup(ApplyAll(s.disk.flushed, s.disk.journal[..j]), k);
      assert Shows(s, v, k);
      var done :| s.safe <= done <= s.stored && v == Image(s.Log(), done, k);
      ImageGrows(s.Log(), op, done, k);
    }
  }

  /** A store in log order shows at its own key and nowhere else. */
  lemma StoreShows(s: World, i: nat, k: Bytes)
    requires Sets(s) && i < |s.Log()| && i !in s.stored && InOrder(s, StoreIt(i))
    ensures Image(s.Log(), s.stored + {i}, k) ==
      if s.Log()[i].key == k then Written(s.Log()[i]) else Image(s.Log(), s.stored, k)
  {
    hide All, RecordOps;
    if s.Log()[i].key == k {
      ImageTop(s.Log(), s.stored + {i}, i);
    } else {
      ImageSame(s.Log(), s.stored, s.stored + {i}, k);
    }
  }

  /** An engine write adds its result to what a crash can leave. */
  lemma EngineShows(s: World, op: StoreOp, s': World)
    requires JournalShows(s) && s'.Log() == s.Log() && s'.safe == s.safe && s.stored <= s'.stored
    requires s'.disk == s.disk.Do(Engine(op))
    requires forall k | !Quota.IsUsageRecord(k) :: Shows(s', Lookup(ApplyOp(s.disk.Data(), op), k), k)
    ensures JournalShows(s')
  {
    hide Image, RecordOps, Quota.IsUsageRecord;
    forall j: nat, k: Bytes | j <= |s'.disk.journal| && !Quota.IsUsageRecord(k)
      ensures Shows(s', Lookup(ApplyAll(s'.disk.flushed, s'.disk.journal[..j]), k), k)
    {
      if j <= |s.disk.journal| {
        assert s'.disk.journal[..j] == s.disk.journal[..j];
        assert Shows(s, Lookup(ApplyAll(s.disk.flushed, s.disk.journal[..j]), k), k);
      } else {
        assert s'.disk.journal[..j] == s.disk.journal + [op];
        ApplyAllAppend(s.disk.flushed, s.disk.journal, op);
      }
    }
  }

  lemma StoreKeeps(s: World, i: nat)
    requires DataInv(s) && i < |s.Log()| && i !in s.stored && InOrder(s, StoreIt(i))
    ensures DataInv(Next(s, StoreIt(i)))
  {
    hide Image, RecordOps, ApplyAll, Quota.IsUsageRecord, All;
    var s', op := Next(s, StoreIt(i)), s.Log()[i];
    DataAfterOp(s.disk, op);
    forall k | !Quota.IsUsageRecord(k)
      ensures Lookup(ApplyOp(s.disk.Data(), op), k) == Image(s'.Log(), s'.stored, k)
      ensures Shows(s', Lookup(ApplyOp(s.disk.Data(), op), k), k)
    {
      StoreShows(s, i, k);
      ApplyOpAt(s.disk.Data(), op, k);
    }
    EngineShows(s, op, s');
    assert Closed(s'.Log(), s'.stored);
    assert op in s'.disk.journal;
  }

  lemma BillKeeps(s: World, op: StoreOp)
    requires DataInv(s) && Quota.IsUsageRecord(op.key)
    ensures DataInv(Next(s, Bill(op)))
  {
    hide Image, RecordOps, ApplyAll, Quota.IsUsageRecord, All;
    var s' := Next(s, Bill(op));
    DataAfterOp(s.disk, op);
    forall k | !Quota.IsUsageRecord(k)
      ensures Lookup(ApplyOp(s.disk.Data(), op), k) == Image(s'.Log(), s'.stored, k)
      ensures Shows(s', Lookup(ApplyOp(s.disk.Data(), op), k), k)
    {
      ApplyOpAt(s.disk.Data(), op, k);
    }
    EngineShows(s, op, s');
  }

  lemma FlushKeeps(s: World)
    requires DataInv(s)
    ensures DataInv(Next(s, FlushIt))
  {
    hide Image, RecordOps, Quota.IsUsageRecord, All;
    var s' := Next(s, FlushIt);
    assert s'.disk.Data() == s.disk.Data();
    forall j: nat, k: Bytes | j <= |s'.disk.journal| && !Quota.IsUsageRecord(k)
      ensures Shows(s', Lookup(ApplyAll(s'.disk.flushed, s'.disk.journal[..j]), k), k)
    {
      assert Lookup(s.disk.Data(), k) == Image(s'.Log(), s'.stored, k);
    }
  }

  lemma LogFile(s: World, r: WalRecord)
    requires FileFine(s) && s.headed && Fits(r) && r.seqno == s.next && !Quota.IsUsageRecord(r.key)
    ensures FileFine(Next(s, LogIt(r)))
  {
    hide Header, Frame, Quota.IsUsageRecord, RecordOps;
    FramesAppend(s.seg, r);
    LogGrows(s, r);
    assert Header(s.base) + Frames(s.seg) + Frame(r) == Header(s.base) + (Frames(s.seg) + Frame(r));
  }

  lemma DropFile(s: World)
    requires FileFine(s)
    ensures FileFine(Next(s, Drop))
  {
    hide Header, Quota.IsUsageRecord, RecordOps;
    DropKeepsLog(s);
  }

  lemma HeadFile(s: World)
    requires FileFine(s) && !s.headed
    ensures FileFine(Next(s, Head))
  {
    hide Header, Quota.IsUsageRecord, RecordOps;
    var s' := Next(s, Head);
    FramesOfNone();
    assert s'.disk.file == Header(s.next) + [];
    assert s'.Log() == s.Log();
  }

  lemma FileStays(durable: bool, s: World, m: Move)
    requires FileFine(s) && Enabled(durable, s, m)
    ensures FileFine(Next(s, m))
  {
    hide FileFine, Header, Frame, Quota.IsUsageRecord, RecordOps;
    match m {
      case LogIt(r) => LogFile(s, r);
      case Drop => DropFile(s);
      case Head => HeadFile(s);
      case _ => FileSame(s, Next(s, m));
    }
  }

  lemma FileSame(s: World, s': World)
    requires FileFine(s) && s'.disk.file == s.disk.file && s'.before == s.before && s'.seg == s.seg
    requires s'.base == s.base && s'.next == s.next && s'.headed == s.headed
    ensures FileFine(s')
  {
    hide Header, Frames, Quota.IsUsageRecord, RecordOps, Dense;
    assert s'.Log() == s.Log();
  }

  lemma DropKeepsLog(s: World)
    ensures Next(s, Drop).Log() == s.Log()
  {
    assert RecordOps([]) == [];
    assert s.Log() + [] == s.Log();
  }

  lemma StepKeeps(durable: bool, s: World, m: Move, s': World)
    requires Inv(s) && Step(durable, s, m, s') && InOrder(s, m)
    ensures Inv(s')
  {
    hide FileFine, Sets, Ends, JournalShows, Journaled, InOrder, Quota.IsUsageRecord, RecordOps, Frame, Header;
    FileStays(durable, s, m);
    match m {
      case LogIt(r) => LogKeeps(s, r);
      case StoreIt(i) => StoreKeeps(s, i);
      case Bill(op) => BillKeeps(s, op);
      case FlushIt => FlushKeeps(s);
      case Drop => DropKeepsLog(s); SameLog(s, s');
      case Head => SameLog(s, s');
    }
  }

  lemma OpenedShows(durable: bool, s: World, j: nat, k: Bytes)
    requires Opened(durable, s) && j <= |s.seg| && !Quota.IsUsageRecord(k)
    ensures Lookup(ApplyAll(s.disk.flushed, s.disk.journal[..j]), k) == Image(s.Log(), All(|s.before| + j), k)
  {
    hide Quota.IsUsageRecord, RecordOps, Header, Frames, Dense;
    var log, n := s.Log(), |s.before| + j;
    assert log[..n] == s.before + RecordOps(s.seg)[..j];
    ImagePrefix(log, All(n), k, n);
    ImageCovers(log[..n], All(n), k);
    ApplyAllConcat(map[], s.before, RecordOps(s.seg)[..j]);
    LookupIsLast(s.disk.flushed, RecordOps(s.seg)[..j], k);
    LookupIsLast(ApplyAll(map[], s.before), RecordOps(s.seg)[..j], k);
  }

  lemma OpenedInv(durable: bool, s: World)
    requires Opened(durable, s)
    ensures Inv(s)
  {
    hide Quota.IsUsageRecord, RecordOps, Header, Frames, Dense, Image, All;
    assert s.disk.journal[..|s.seg|] == s.disk.journal;
    forall j: nat, k: Bytes | j <= |s.disk.journal| && !Quota.IsUsageRecord(k)
      ensures Shows(s, Lookup(ApplyAll(s.disk.flushed, s.disk.journal[..j]), k), k)
    {
      OpenedShows(durable, s, j, k);
      var done := All(|s.before| + j);
      assert s.safe <= done <= s.stored;
    }
    forall k | !Quota.IsUsageRecord(k)
      ensures Lookup(s.disk.flushed, k) == Image(s.Log(), s.safe, k)
      ensures Lookup(s.disk.Data(), k) == Image(s.Log(), s.stored, k)
    {
      OpenedShows(durable, s, 0, k);
      OpenedShows(durable, s, |s.seg|, k);
      assert s.disk.journal[..0] == [];
      ApplyNone(s.disk.flushed);
    }
    forall i: nat | i in s.stored && i !in s.safe ensures i < |s.Log()| && s.Log()[i] in s.disk.journal {
      assert s.Log()[i] == s.disk.journal[i - |s.before|];
    }
  }

  lemma {:induction false} RunKeeps(durable: bool, worlds: seq<World>, moves: seq<Move>, i: nat)
    requires IsRun(durable, worlds, moves) && i < |worlds| && AllInOrder(worlds, moves)
    ensures Inv(worlds[i])
  {
    hide Inv, Step, InOrder, Opened;
    if i == 0 {
      OpenedInv(durable, worlds[0]);
    } else {
      RunKeeps(durable, worlds, moves, i - 1);
      assert Step(durable, worlds[i - 1], moves[i - 1], worlds[i]) && InOrder(worlds[i - 1], moves[i - 1]);
      StepKeeps(durable, worlds[i - 1], moves[i - 1], worlds[i]);
    }
  }

  // ---------------------------------------------------------------- what a crash finds

  ghost predicate Touches(ops: seq<StoreOp>, k: Bytes) {
    exists i :: 0 <= i < |ops| && ops[i].key == k
  }

  lemma {:induction false} LastIgnoresBase(a: Option<Bytes>, b: Option<Bytes>, ops: seq<StoreOp>, k: Bytes)
    ensures LastAt(a, ops, k) == if Touches(ops, k) then LastAt(b, ops, k) else a
  {
    if ops != [] {
      var n := |ops| - 1;
      LastIgnoresBase(a, b, ops[..n], k);
      if Touches(ops, k) && ops[n].key != k {
        var i :| 0 <= i < |ops| && ops[i].key == k;
        assert ops[..n][i].key == k;
      }
    }
  }

  lemma TouchedInLog(s: World, k: Bytes)
    ensures Touches(RecordOps(s.seg), k) <==> exists i: nat :: |s.before| <= i < |s.Log()| && s.Log()[i].key == k
  {
    hide RecordOps;
    var ops, n := RecordOps(s.seg), |s.before|;
    if Touches(ops, k) {
      var i :| 0 <= i < |ops| && ops[i].key == k;
      assert s.Log()[n + i].key == k;
    }
    if i: nat :| n <= i < |s.Log()| && s.Log()[i].key == k {
      assert ops[i - n].key == k;
    }
  }

  /** A file that opens at all opens to the records of the segment. */
  lemma CrashFileRecovers(s: World, file: Bytes)
    requires FileFine(s) && CrashFile(s, file)
    ensures Recover(file).Ok? ==> Recover(file).value.records == s.seg
    ensures s.headed || file == [] ==> Recover(file).Ok?
  {
    hide Header, Frame, Recover, Quota.IsUsageRecord, RecordOps, ParseFrames;
    if s.headed {
      var torn :| IsTorn(torn) && file == Header(s.base) + Frames(s.seg) + torn;
      var r, c: nat :| Fits(r) && c < |Frame(r)| && torn == Frame(r)[..c];
      RecoverTorn(s.base, s.seg, r, c);
    } else {
      var c: nat :| c < HEADER_LEN && file == Header(s.next)[..c];
      RotationCrash(WalState([], s.next, 0), c);
      assert file == [] ==> c == 0;
    }
  }

  /** A write whose key still has a record in the segment is never lost, in whatever order
      anything was stored. */
  lemma InSegmentRecovers(s: World, file: Bytes, m: Store, k: Bytes)
    requires FileFine(s) && CrashFile(s, file) && Recover(file).Ok? && Touches(RecordOps(s.seg), k)
    ensures Recovered(file, m, k) == Logged(s, k)
  {
    hide FileFine, CrashFile, Recover, RecordOps, ApplyAll;
    CrashFileRecovers(s, file);
    var ops := RecordOps(s.seg);
    LookupIsLast(m, ops, k);
    ApplyAllConcat(map[], s.before, ops);
    LookupIsLast(ApplyAll(map[], s.before), ops, k);
    LastIgnoresBase(Lookup(m, k), Lookup(ApplyAll(map[], s.before), k), ops, k);
  }

  /** Otherwise recovery leaves what storage kept. */
  lemma OutsideSegment(s: World, file: Bytes, m: Store, k: Bytes)
    requires FileFine(s) && CrashFile(s, file) && Recover(file).Ok? && !Touches(RecordOps(s.seg), k)
    ensures Recovered(file, m, k) == Lookup(m, k)
  {
    hide FileFine, CrashFile, Recover, RecordOps, ApplyAll;
    CrashFileRecovers(s, file);
    LookupIsLast(m, RecordOps(s.seg), k);
    LastIgnoresBase(Lookup(m, k), None, RecordOps(s.seg), k);
  }

  lemma SurvivorShows(durable: bool, s: World, m: Store, k: Bytes) returns (done: set<nat>)
    requires JournalShows(s) && s.disk.Survives(durable, m) && !Quota.IsUsageRecord(k)
    requires durable
    ensures s.safe <= done <= s.stored && Lookup(m, k) == Image(s.Log(), done, k)
  {
    hide Image, RecordOps, Quota.IsUsageRecord;
    var j: nat :| j <= |s.disk.journal| && Lookup(m, k) == Lookup(ApplyAll(s.disk.flushed, s.disk.journal[..j]), k);
    assert Shows(s, Lookup(ApplyAll(s.disk.flushed, s.disk.journal[..j]), k), k);
    done :| s.safe <= done <= s.stored && Lookup(m, k) == Image(s.Log(), done, k);
  }

  /** If every dropped write to the key is flushed, any crash recovers the logged value. */
  lemma FlushedRecovers(durable: bool, s: World, file: Bytes, m: Store, k: Bytes)
    requires Inv(s) && CanCrash(durable, s, file, m) && Recover(file).Ok? && !Quota.IsUsageRecord(k)
    requires forall i: nat | i < |s.before| && s.before[i].key == k :: i in s.safe
    requires !durable ==> s.before == []
    ensures Recovered(file, m, k) == Logged(s, k)
  {
    hide FileFine, Sets, Ends, JournalShows, Journaled, CrashFile, Recover, RecordOps, Quota.IsUsageRecord, Image;
    var log := s.Log();
    if Touches(RecordOps(s.seg), k) {
      InSegmentRecovers(s, file, m, k);
    } else {
      OutsideSegment(s, file, m, k);
      var done := {};
      if durable {
        done := SurvivorShows(durable, s, m, k);
      } else {
        NoneDone(log, k);
      }
      TouchedInLog(s, k);
      forall i: nat | i < |log| && log[i].key == k ensures i in done {
        assert i < |s.before|;
      }
      ImageCovers(log, done, k);
    }
  }

  lemma {:induction false} NoneDone(log: seq<StoreOp>, k: Bytes)
    ensures Image(log, {}, k) == None
  {
    if log != [] { NoneDone(log[..|log| - 1], k); }
  }

  // ------------------------------------------------------------------ the theorems

  lemma {:induction false} DroppedIsSafe(durable: bool, worlds: seq<World>, moves: seq<Move>, i: nat)
    requires IsRun(durable, worlds, moves) && i < |worlds| && AllInOrder(worlds, moves) && AllSettled(worlds, moves)
    ensures All(|worlds[i].before|) <= worlds[i].safe
    ensures !durable ==> worlds[i].before == []
  {
    hide InOrder, Quota.IsUsageRecord, RecordOps, Frame, Header, All;
    if i > 0 {
      DroppedIsSafe(durable, worlds, moves, i - 1);
      RunKeeps(durable, worlds, moves, i - 1);
      var s, m := worlds[i - 1], moves[i - 1];
      assert Step(durable, s, m, worlds[i]) && Settled(s, m);
      assert s.safe <= s.stored by { hide *; SetsOf(s); }
    }
  }

  lemma SetsOf(s: World)
    requires Inv(s)
    ensures s.safe <= s.stored <= All(|s.Log()|) && Closed(s.Log(), s.safe) && Closed(s.Log(), s.stored)
  {
    hide FileFine, Ends, JournalShows, Journaled;
  }

  /** Crash safety for requests that overlap. If writes to one key are stored in the order
      they were logged, and every rotation drops only what had been stored when storage was
      flushed, then at every point of every interleaving any crash is either refused, which
      needs a header cut short, or recovers exactly the logged writes; and whenever nothing is
      between the log and storage the running node holds exactly them. */
  lemma ConcurrentCrashSafety(durable: bool, worlds: seq<World>, moves: seq<Move>, i: nat,
                              file: Bytes, m: Store, k: Bytes)
    requires IsRun(durable, worlds, moves) && i < |worlds| && AllInOrder(worlds, moves) && AllSettled(worlds, moves)
    requires CanCrash(durable, worlds[i], file, m) && !Quota.IsUsageRecord(k)
    ensures Recover(file).Err? ==> 0 < |file| < HEADER_LEN
    ensures Recover(file).Ok? ==> Recovered(file, m, k) == Logged(worlds[i], k)
    ensures worlds[i].stored == All(|worlds[i].Log()|) ==> Lookup(worlds[i].disk.Data(), k) == Logged(worlds[i], k)
  {
    hide *;
    var s := worlds[i];
    RunKeeps(durable, worlds, moves, i);
    DroppedIsSafe(durable, worlds, moves, i);
    SettledRecovers(durable, s, file, m, k);
  }

  lemma SettledRecovers(durable: bool, s: World, file: Bytes, m: Store, k: Bytes)
    requires Inv(s) && All(|s.before|) <= s.safe && (!durable ==> s.before == [])
    requires CanCrash(durable, s, file, m) && !Quota.IsUsageRecord(k)
    ensures Recover(file).Err? ==> 0 < |file| < HEADER_LEN
    ensures Recover(file).Ok? ==> Recovered(file, m, k) == Logged(s, k)
    ensures s.stored == All(|s.Log()|) ==> Lookup(s.disk.Data(), k) == Logged(s, k)
  {
    hide Quota.IsUsageRecord, RecordOps, Recover, Recovered, Disk.Survives, JournalShows, Journaled, Sets;
    hide Image, Frames, Dense, ApplyAll;
    if Recover(file).Ok? {
      FlushedRecovers(durable, s, file, m, k);
    } else {
      CrashFileRecovers(s, file);
    }
    if s.stored == All(|s.Log()|) {
      ImageCovers(s.Log(), s.stored, k);
    }
  }

  /** A crash now can leave the key at something other than what was last logged for it. */
  ghost predicate CanLose(durable: bool, s: World, k: Bytes) {
    exists file, m :: CanCrash(durable, s, file, m) && Recover(file).Ok? && Recovered(file, m, k) != Logged(s, k)
  }

  // ----------------------------------------------------- exactly what can be lost

  lemma {:induction false} RunFile(durable: bool, worlds: seq<World>, moves: seq<Move>, i: nat)
    requires IsRun(durable, worlds, moves) && i < |worlds|
    ensures FileFine(worlds[i])
    ensures !durable ==> worlds[i].before == [] && worlds[i].headed
  {
    hide FileFine, Quota.IsUsageRecord, RecordOps, Frame, Header, Dense, Frames;
    if i == 0 {
      FileOfOpened(durable, worlds[0]);
    } else {
      RunFile(durable, worlds, moves, i - 1);
      assert Step(durable, worlds[i - 1], moves[i - 1], worlds[i]);
      FileStays(durable, worlds[i - 1], moves[i - 1]);
    }
  }

  /** What is lost is what neither the segment nor storage has. */
  lemma LosesAt(s: World, k: Bytes)
    requires FileFine(s)
    ensures CanLose(true, s, k) <==>
      !Touches(RecordOps(s.seg), k) && exists m :: s.disk.Survives(true, m) && Lookup(m, k) != Logged(s, k)
  {
    hide FileFine, CrashFile, Recover, Recovered, RecordOps, Disk.Survives, Logged;
    if CanLose(true, s, k) {
      var file, m :| CanCrash(true, s, file, m) && Recover(file).Ok? && Recovered(file, m, k) != Logged(s, k);
      if Touches(RecordOps(s.seg), k) {
        InSegmentRecovers(s, file, m, k);
        assert false;
      }
      OutsideSegment(s, file, m, k);
    }
    if !Touches(RecordOps(s.seg), k) && exists m :: s.disk.Survives(true, m) && Lookup(m, k) != Logged(s, k) {
      var m :| s.disk.Survives(true, m) && Lookup(m, k) != Logged(s, k);
      var file := CleanCrash(s);
      CrashFileRecovers(s, file);
      OutsideSegment(s, file, m, k);
      assert CanCrash(true, s, file, m) && Recovered(file, m, k) != Logged(s, k);
    }
  }

  /** Where in the run storage was last flushed. */
  function LastFlush(moves: seq<Move>, n: nat): (f: nat)
    requires n <= |moves|
    ensures f <= n
  {
    if n == 0 then 0 else if moves[n - 1].FlushIt? then n else LastFlush(moves, n - 1)
  }

  /** Since then the engine's journal has only grown. */
  lemma {:induction false} JournalSince(worlds: seq<World>, moves: seq<Move>, n: nat, j: nat)
    requires IsRun(true, worlds, moves) && n < |worlds| && LastFlush(moves, n) <= j <= n
    ensures worlds[j].disk.flushed == worlds[n].disk.flushed && worlds[j].disk.journal <= worlds[n].disk.journal
    decreases n
  {
    hide Opened, Enabled, RecordOps, Frame, Header, ApplyAll;
    if j < n {
      JournalSince(worlds, moves, n - 1, j);
      assert Step(true, worlds[n - 1], moves[n - 1], worlds[n]);
    }
  }

  /** And every point of it is where storage once stood. */
  lemma {:induction false} PointReached(worlds: seq<World>, moves: seq<Move>, n: nat, p: nat) returns (j: nat)
    requires IsRun(true, worlds, moves) && n < |worlds| && p <= |worlds[n].disk.journal|
    ensures LastFlush(moves, n) <= j <= n && |worlds[j].disk.journal| == p
    decreases n
  {
    hide Enabled, RecordOps, Frame, Header, ApplyAll, Frames, Dense, Quota.IsUsageRecord;
    if n == 0 || p == |worlds[n].disk.journal| {
      j := n;
    } else {
      assert Step(true, worlds[n - 1], moves[n - 1], worlds[n]);
      j := PointReached(worlds, moves, n - 1, p);
    }
  }

  lemma HeldAt(worlds: seq<World>, moves: seq<Move>, n: nat, j: nat)
    requires IsRun(true, worlds, moves) && n < |worlds| && LastFlush(moves, n) <= j <= n
    ensures var p := |worlds[j].disk.journal|;
      && p <= |worlds[n].disk.journal|
      && worlds[j].disk.Data() == ApplyAll(worlds[n].disk.flushed, worlds[n].disk.journal[..p])
  {
    hide IsRun, ApplyAll;
    JournalSince(worlds, moves, n, j);
    assert worlds[n].disk.journal[..|worlds[j].disk.journal|] == worlds[j].disk.journal;
  }

  /** Exactly what overlapping requests can lose, at any point of any interleaving, in
      whatever order anything is stored and whenever anybody rotates: a crash can leave a key
      at something other than what was last logged for it if and only if the engine is
      durable, the log file has no record of the key any more, and at some point since
      storage was last flushed the running node held something else at the key. */
  lemma LossExactly(durable: bool, worlds: seq<World>, moves: seq<Move>, n: nat, k: Bytes)
    requires IsRun(durable, worlds, moves) && n < |worlds|
    ensures CanLose(durable, worlds[n], k) <==>
      && durable && !Touches(RecordOps(worlds[n].seg), k)
      && exists j :: LastFlush(moves, n) <= j <= n && Lookup(worlds[j].disk.Data(), k) != Logged(worlds[n], k)
  {
    hide Opened, Step, FileFine, CrashFile, Recover, Recovered, RecordOps, Logged, LastFlush, ApplyAll, Touches;
    RunFile(durable, worlds, moves, n);
    var s := worlds[n];
    if durable {
      LosesAt(s, k);
      if m :| s.disk.Survives(true, m) && Lookup(m, k) != Logged(s, k) {
        var p: nat :| p <= |s.disk.journal| && Lookup(m, k) == Lookup(ApplyAll(s.disk.flushed, s.disk.journal[..p]), k);
        var j := PointReached(worlds, moves, n, p);
        HeldAt(worlds, moves, n, j);
        assert Lookup(worlds[j].disk.Data(), k) != Logged(s, k);
      }
      if j :| LastFlush(moves, n) <= j <= n && Lookup(worlds[j].disk.Data(), k) != Logged(s, k) {
        HeldAt(worlds, moves, n, j);
        PointSurvives(s.disk, |worlds[j].disk.journal|);
        assert s.disk.Survives(true, worlds[j].disk.Data());
      }
    } else {
      forall file, m | CanCrash(false, s, file, m) && Recover(file).Ok? ensures Recovered(file, m, k) == Logged(s, k) {
        MemoryRecovers(s, file, m, k);
      }
    }
  }

  /** The memory engine keeps nothing and the log keeps everything. */
  lemma MemoryRecovers(s: World, file: Bytes, m: Store, k: Bytes)
    requires FileFine(s) && s.before == [] && CanCrash(false, s, file, m) && Recover(file).Ok?
    ensures Recovered(file, m, k) == Logged(s, k)
  {
    hide FileFine, CrashFile, Recover, RecordOps, ApplyAll;
    CrashFileRecovers(s, file);
    assert s.Log() == RecordOps(s.seg);
  }

  // ------------------------------------------------------ what the running node holds

  /** The place in the log of the last write to the key that reached storage in this run. */
  function LastStore(worlds: seq<World>, moves: seq<Move>, n: nat, k: Bytes): Option<nat>
    requires |worlds| == |moves| + 1 && n <= |moves|
  {
    if n == 0 then None
    else
      var m, log := moves[n - 1], worlds[n - 1].Log();
      if m.StoreIt? && m.i < |log| && log[m.i].key == k then Some(m.i) else LastStore(worlds, moves, n - 1, k)
  }

  /** The log only ever grows. */
  lemma StepLog(durable: bool, s: World, m: Move)
    requires Enabled(durable, s, m)
    ensures s.Log() <= Next(s, m).Log()
  {
    hide Quota.IsUsageRecord, RecordOps, Frame, Header;
    match m
    case LogIt(r) => LogGrows(s, r);
    case Drop => DropKeepsLog(s);
    case _ => assert Next(s, m).Log() == s.Log();
  }

  /** What one move does to what is read at a client's key. */
  lemma StepReads(durable: bool, s: World, m: Move, k: Bytes)
    requires Enabled(durable, s, m) && !Quota.IsUsageRecord(k)
    ensures Lookup(Next(s, m).disk.Data(), k) ==
      if m.StoreIt? && s.Log()[m.i].key == k then Written(s.Log()[m.i]) else Lookup(s.disk.Data(), k)
  {
    hide Quota.IsUsageRecord, RecordOps, Frame, Header, ApplyAll;
    match m {
      case StoreIt(i) =>
        DataAfterOp(s.disk, s.Log()[i]);
        ApplyOpAt(s.disk.Data(), s.Log()[i], k);
      case Bill(op) =>
        DataAfterOp(s.disk, op);
        ApplyOpAt(s.disk.Data(), op, k);
      case FlushIt =>
        ApplyNone(s.disk.Data());
      case _ =>
        assert Next(s, m).disk.Data() == s.disk.Data();
    }
  }

  lemma {:induction false} RunningHolds(durable: bool, worlds: seq<World>, moves: seq<Move>, n: nat, k: Bytes)
    requires IsRun(durable, worlds, moves) && n < |worlds| && !Quota.IsUsageRecord(k)
    ensures var s, last := worlds[n], LastStore(worlds, moves, n, k);
      && (last.None? ==> Lookup(s.disk.Data(), k) == Logged(worlds[0], k))
      && (last.Some? ==> last.value < |s.Log()| && Lookup(s.disk.Data(), k) == Written(s.Log()[last.value]))
  {
    hide Quota.IsUsageRecord, RecordOps, Opened, Next, Logged;
    if n == 0 {
      OpenedAgrees(durable, worlds[0], k);
    } else {
      RunningHolds(durable, worlds, moves, n - 1, k);
      var s, m := worlds[n - 1], moves[n - 1];
      assert Step(durable, s, m, worlds[n]);
      StepReads(durable, s, m, k);
      StepLog(durable, s, m);
    }
  }

  lemma OpenedAgrees(durable: bool, s: World, k: Bytes)
    requires Opened(durable, s) && !Quota.IsUsageRecord(k)
    ensures Lookup(s.disk.Data(), k) == Logged(s, k)
  {
    hide FileFine, Sets, JournalShows, Journaled, Image, RecordOps, Quota.IsUsageRecord, Frames, Header;
    hide Dense, ApplyAll, All;
    OpenedInv(durable, s);
    ImageCovers(s.Log(), s.stored, k);
  }

  /** When readers see what is logged, at any point of any interleaving: if and only if the
      last write to the key that reached storage writes what the last logged one does or, if
      none has reached storage, nothing logged meanwhile changed the key. */
  lemma RunningAgrees(durable: bool, worlds: seq<World>, moves: seq<Move>, n: nat, k: Bytes)
    requires IsRun(durable, worlds, moves) && n < |worlds| && !Quota.IsUsageRecord(k)
    ensures var s, last := worlds[n], LastStore(worlds, moves, n, k);
      && (last.Some? ==> last.value < |s.Log()|)
      && (Lookup(s.disk.Data(), k) == Logged(s, k) <==>
            (if last.Some? then Written(s.Log()[last.value]) else Logged(worlds[0], k)) == Logged(s, k))
  {
    hide *;
    RunningHolds(durable, worlds, moves, n, k);
  }

  // -------------------------------------------- distinct keys, or one key in log order

  lemma {:induction false} LastBefore(log: seq<StoreOp>, k: Bytes, x: nat) returns (p: nat)
    requires x < |log| && log[x].key == k
    ensures x <= p < |log| && log[p].key == k && Lookup(ApplyAll(map[], log), k) == Written(log[p])
  {
    var n := |log| - 1;
    ApplyOpAt(ApplyAll(map[], log[..n]), log[n], k);
    if log[n].key == k {
      p := n;
    } else {
      p := LastBefore(log[..n], k, x);
    }
  }

  /** Storage may still show what the key held before its last write, if that write is not
      flushed and the ones before it are stored. */
  lemma OldValueSurvives(s: World, i: nat) returns (m: Store)
    requires Inv(s) && i < |s.Log()| && i !in s.safe
    requires forall j: nat | j < |s.Log()| && s.Log()[j].key == s.Log()[i].key && j != i :: j < i && j in s.stored
    requires !Quota.IsUsageRecord(s.Log()[i].key)
    ensures s.disk.Survives(true, m)
    ensures Lookup(m, s.Log()[i].key) == Lookup(ApplyAll(map[], s.Log()[..i]), s.Log()[i].key)
  {
    hide FileFine, JournalShows, Image, RecordOps, Quota.IsUsageRecord, All;
    var log, k := s.Log(), s.Log()[i].key;
    if x: nat :| x < i && log[x].key == k && x !in s.safe {
      var p := LastBefore(log[..i], k, x);
      assert log[p] in s.disk.journal by { assert p in s.stored && p !in s.safe; }
      var j :| 0 <= j < |s.disk.journal| && s.disk.journal[j] == log[p];
      m := ApplyAll(s.disk.flushed, s.disk.journal[..j + 1]);
      assert s.disk.journal[..j + 1] == s.disk.journal[..j] + [log[p]];
      ApplyAllAppend(s.disk.flushed, s.disk.journal[..j], log[p]);
      ApplyOpAt(ApplyAll(s.disk.flushed, s.disk.journal[..j]), log[p], k);
      PointSurvives(s.disk, j + 1);
    } else {
      m := s.disk.flushed;
      assert s.disk.journal[..0] == [];
      ApplyNone(m);
      PointSurvives(s.disk, 0);
      ImagePrefix(log, s.safe, k, i);
      ImageCovers(log[..i], s.safe, k);
    }
  }

  /** What that means for one record. Let writes to a key be stored in log order, and let a
      record be the last one logged for its key, change what the key held, and have all
      earlier writes to the key stored (as when the writes in flight are on distinct keys).
      Then a crash can lose it if and only if a rotation has dropped it from the log and it
      was not in storage when storage was last flushed. */
  lemma LostExactly(worlds: seq<World>, moves: seq<Move>, n: nat, i: nat)
    requires IsRun(true, worlds, moves) && AllInOrder(worlds, moves) && n < |worlds| && i < |worlds[n].Log()|
    requires var s := worlds[n];
      forall j: nat | j < |s.Log()| && s.Log()[j].key == s.Log()[i].key && j != i :: j < i && j in s.stored
    requires var s := worlds[n]; Written(s.Log()[i]) != Lookup(ApplyAll(map[], s.Log()[..i]), s.Log()[i].key)
    ensures CanLose(true, worlds[n], worlds[n].Log()[i].key) <==> i < |worlds[n].before| && i !in worlds[n].safe
  {
    hide Opened, Step, InOrder, Quota.IsUsageRecord, RecordOps, Recover, Image, Inv, Recovered;
    RunKeeps(true, worlds, moves, n);
    LostExactlyAt(worlds[n], i);
  }

  lemma LostExactlyAt(s: World, i: nat)
    requires Inv(s) && i < |s.Log()|
    requires forall j: nat | j < |s.Log()| && s.Log()[j].key == s.Log()[i].key && j != i :: j < i && j in s.stored
    requires Written(s.Log()[i]) != Lookup(ApplyAll(map[], s.Log()[..i]), s.Log()[i].key)
    ensures CanLose(true, s, s.Log()[i].key) <==> i < |s.before| && i !in s.safe
  {
    hide RecordOps, Disk.Survives, ApplyAll, Sets, Ends, JournalShows, Journaled, CanLose;
    var log, k := s.Log(), s.Log()[i].key;
    assert !Quota.IsUsageRecord(k);
    hide Quota.IsUsageRecord, FileFine;
    LosesAt(s, k);
    TouchedInLog(s, k);
    LastIs(log, i);
    if i < |s.before| && i !in s.safe {
      var m := OldValueSurvives(s, i);
    } else if i < |s.before| {
      forall m | s.disk.Survives(true, m) ensures Lookup(m, k) == Logged(s, k) {
        SafeSurvives(s, i, m);
      }
    }
  }

  /** What was in storage at the flush stays there. */
  lemma SafeSurvives(s: World, i: nat, m: Store)
    requires Inv(s) && i < |s.Log()| && i in s.safe && s.disk.Survives(true, m)
    requires forall j: nat | j < |s.Log()| && s.Log()[j].key == s.Log()[i].key && j != i :: j < i
    ensures Lookup(m, s.Log()[i].key) == Logged(s, s.Log()[i].key)
  {
    hide RecordOps, ApplyAll, Ends, JournalShows, Journaled, Image, Disk.Survives, All;
    var log, k := s.Log(), s.Log()[i].key;
    assert !Quota.IsUsageRecord(k);
    hide Quota.IsUsageRecord;
    var done := SurvivorShows(true, s, m, k);
    ImageCovers(log, done, k);
  }

  lemma CleanCrash(s: World) returns (file: Bytes)
    requires FileFine(s)
    ensures CrashFile(s, file) && (s.headed || file == [])
  {
    hide Frame, Header, Quota.IsUsageRecord, RecordOps;
    if s.headed {
      Recovery.NothingIsTorn();
      file := Header(s.base) + Frames(s.seg) + [];
    } else {
      file := Header(s.next)[..0];
    }
  }

  lemma LastIs(log: seq<StoreOp>, i: nat)
    requires i < |log| && forall j: nat | i < j < |log| :: log[j].key != log[i].key
    ensures Lookup(ApplyAll(map[], log), log[i].key) == Written(log[i])
  {
    var p := LastBefore(log, log[i].key, i);
  }

  /** Why the order matters. If two writes to one key are stored against the order they were
      logged in, the running node holds the older one, and it still agrees with the log if
      and only if both write the same; a crash, while they are in the segment, brings back
      the newer one whatever storage kept. */
  lemma StoreOrderExact(durable: bool, s: World, i: nat, j: nat, s1: World, s2: World, file: Bytes, m: Store)
    requires FileFine(s) && i < j < |s.Log()| && s.Log()[i].key == s.Log()[j].key
    requires forall x: nat | j < x < |s.Log()| :: s.Log()[x].key != s.Log()[j].key
    requires Step(durable, s, StoreIt(j), s1) && Step(durable, s1, StoreIt(i), s2)
    ensures var k := s.Log()[j].key;
      && s2.Log() == s.Log()
      && Lookup(s2.disk.Data(), k) == Written(s.Log()[i]) && Logged(s2, k) == Written(s.Log()[j])
      && (Lookup(s2.disk.Data(), k) == Logged(s2, k) <==> Written(s.Log()[i]) == Written(s.Log()[j]))
      && (|s.before| <= j && CanCrash(durable, s2, file, m) && Recover(file).Ok? ==>
            Recovered(file, m, k) == Written(s.Log()[j]))
  {
    hide Quota.IsUsageRecord, RecordOps, Recover, Recovered, CrashFile, Disk.Survives, ApplyAll, Frame, Header;
    var log, k := s.Log(), s.Log()[j].key;
    FileStays(durable, s, StoreIt(j));
    FileStays(durable, s1, StoreIt(i));
    DataAfterOp(s.disk, log[j]);
    DataAfterOp(s1.disk, log[i]);
    ApplyOpAt(s1.disk.Data(), log[i], k);
    LastIs(log, j);
    if |s.before| <= j && CanCrash(durable, s2, file, m) && Recover(file).Ok? {
      assert RecordOps(s2.seg)[j - |s.before|].key == k;
      InSegmentRecovers(s2, file, m, k);
    }
  }

  const FRESH: World := World(Disk(Header(0), map[], []), [], 0, [], 0, true, {}, {})

  lemma FreshIsOpened(durable: bool)
    ensures Opened(durable, FRESH)
  {
    hide Header;
    FramesOfNone();
    assert FRESH.disk.file == Header(0) + [];
  }

  lemma TwoLogged(durable: bool, k: Bytes, v0: Bytes, v1: Bytes) returns (s: World)
    requires |k| < 0x1_0000_0000 && |v0| < 0x1_0000_0000 && |v1| < 0x1_0000_0000 && !Quota.IsUsageRecord(k)
    ensures var r0, r1 := WalRecord(0, WalOp.Put, k, v0), WalRecord(1, WalOp.Put, k, v1);
      Step(durable, FRESH, LogIt(r0), Next(FRESH, LogIt(r0))) && Step(durable, Next(FRESH, LogIt(r0)), LogIt(r1), s)
    ensures FileFine(s) && s.Log() == [StorePut(k, v0), StorePut(k, v1)] && s.before == [] && s.stored == {}
  {
    hide Header, Frame, Quota.IsUsageRecord;
    FreshIsOpened(durable);
    var r0, r1 := WalRecord(0, WalOp.Put, k, v0), WalRecord(1, WalOp.Put, k, v1);
    var a := Next(FRESH, LogIt(r0));
    s := Next(a, LogIt(r1));
    FileOfOpened(durable, FRESH);
    FileStays(durable, FRESH, LogIt(r0));
    FileStays(durable, a, LogIt(r1));
  }

  /** The trace, from a fresh node and without any rotation: log the first write, log the
      second, store the second, store the first. Readers now see the first; every crash
      brings back the second. */
  lemma StoreOrderRace(durable: bool, k: Bytes, v0: Bytes, v1: Bytes) returns (s: World, s1: World, s2: World)
    requires |k| < 0x1_0000_0000 && |v0| < 0x1_0000_0000 && |v1| < 0x1_0000_0000 && !Quota.IsUsageRecord(k)
    ensures var r0, r1 := WalRecord(0, WalOp.Put, k, v0), WalRecord(1, WalOp.Put, k, v1);
      && Opened(durable, FRESH)
      && Step(durable, FRESH, LogIt(r0), Next(FRESH, LogIt(r0))) && Step(durable, Next(FRESH, LogIt(r0)), LogIt(r1), s)
      && Step(durable, s, StoreIt(1), s1) && Step(durable, s1, StoreIt(0), s2)
    ensures s2.stored == {0, 1} && Lookup(s2.disk.Data(), k) == Some(v0)
    ensures forall file, m | CanCrash(durable, s2, file, m) && Recover(file).Ok? :: Recovered(file, m, k) == Some(v1)
  {
    hide Opened, FileFine, Header, Frame, Quota.IsUsageRecord, Recover, Recovered, CrashFile, Disk.Survives;
    hide RecordOps, ApplyAll;
    FreshIsOpened(durable);
    s := TwoLogged(durable, k, v0, v1);
    s1 := Next(s, StoreIt(1));
    s2 := Next(s1, StoreIt(0));
    StoreOrderExact(durable, s, 0, 1, s1, s2, [], map[]);
    forall file, m | CanCrash(durable, s2, file, m) && Recover(file).Ok? ensures Recovered(file, m, k) == Some(v1) {
      StoreOrderExact(durable, s, 0, 1, s1, s2, file, m);
    }
  }

  /** And it can become final. After that race the node flushes and rotates with everything
      stored, as the rotation asks for. The newer write was logged, stored and flushed, and is
      gone: not in the file any more, and overwritten in storage. */
  lemma SettledRotationLoses(k: Bytes, v0: Bytes, v1: Bytes) returns (worlds: seq<World>, moves: seq<Move>)
    requires |k| < 0x1_0000_0000 && |v0| < 0x1_0000_0000 && |v1| < 0x1_0000_0000 && !Quota.IsUsageRecord(k)
    requires v0 != v1
    ensures IsRun(true, worlds, moves) && AllSettled(worlds, moves) && |moves| == 7
    ensures var s := worlds[7];
      && s.safe == s.stored == {0, 1} && Lookup(s.disk.Data(), k) == Some(v0) && Logged(s, k) == Some(v1)
      && CanLose(true, s, k)
  {
    hide Opened, FileFine, Header, Frame, Quota.IsUsageRecord, Recover, Recovered, CrashFile, ApplyAll;
    hide Touches, CanLose;
    var s, s1, s2 := StoreOrderRace(true, k, v0, v1);
    var r0, r1 := WalRecord(0, WalOp.Put, k, v0), WalRecord(1, WalOp.Put, k, v1);
    var a := Next(FRESH, LogIt(r0));
    var log := [StorePut(k, v0), StorePut(k, v1)];
    assert s2.Log() == log;
    var f := Next(s2, FlushIt);
    var d := Next(f, Drop);
    DropKeepsLog(f);
    TwoIsAll();
    var h := Next(d, Head);
    worlds := [FRESH, a, s, s1, s2, f, d, h];
    moves := [LogIt(r0), LogIt(r1), StoreIt(1), StoreIt(0), FlushIt, Drop, Head];
    RunFile(true, worlds, moves, 7);
    ApplyNone(s2.disk.Data());
    LastIs(log, 1);
    NowLost(h, k);
  }

  lemma TwoIsAll()
    ensures All(2) == {0, 1}
  {
    assert All(1) == {0};
  }

  /** With nothing in the segment, a storage that disagrees with the log has lost something. */
  lemma NowLost(s: World, k: Bytes)
    requires FileFine(s) && s.seg == [] && Lookup(s.disk.Data(), k) != Logged(s, k)
    ensures CanLose(true, s, k)
  {
    hide FileFine, CanLose, ApplyAll, Logged;
    assert s.disk.journal[..|s.disk.journal|] == s.disk.journal;
    PointSurvives(s.disk, |s.disk.journal|);
    LosesAt(s, k);
  }

  lemma FileOfOpened(durable: bool, s: World)
    requires Opened(durable, s)
    ensures FileFine(s)
  {
    hide Header, Frames, Dense, RecordOps, Quota.IsUsageRecord;
  }

  // ------------------------------------------------------- one request on its own

  predicate Playable(durable: bool, s: World, m: Move): (b: bool)
    ensures b ==> (m.StoreIt? ==> m.i < |s.Log()|)
  {
    Enabled(durable, s, m) && InOrder(s, m) && Settled(s, m)
  }

  /** These moves are possible one after the other, in order and settled, and these are
      their effects on the disk. */
  ghost predicate Plays(durable: bool, s: World, moves: seq<Move>, s': World, es: seq<Effect>)
    decreases |moves|
  {
    if moves == [] then s' == s && es == []
    else
      && Playable(durable, s, moves[0])
      && es != [] && es[0] == EffectOf(s, moves[0])
      && Plays(durable, Next(s, moves[0]), moves[1..], s', es[1..])
  }

  lemma PlaysFirst(durable: bool, s: World, m: Move, moves: seq<Move>, s': World, es: seq<Effect>)
    requires Playable(durable, s, m) && Plays(durable, Next(s, m), moves, s', es)
    ensures Plays(durable, s, [m] + moves, s', [EffectOf(s, m)] + es)
  {
    hide Playable, EffectOf, Next;
    assert ([m] + moves)[1..] == moves && ([EffectOf(s, m)] + es)[1..] == es;
  }

  lemma PlaysNothing(durable: bool, s: World)
    ensures Plays(durable, s, [], s, [])
  {}

  lemma PlayedNothing(durable: bool, s: World, s': World, es: seq<Effect>)
    requires Plays(durable, s, [], s', es)
    ensures s' == s && es == []
  {}

  lemma PlaysOne(durable: bool, s: World, m: Move)
    requires Enabled(durable, s, m) && InOrder(s, m) && Settled(s, m)
    ensures Plays(durable, s, [m], Next(s, m), [EffectOf(s, m)])
  {
    assert Playable(durable, s, m);
    hide Plays, Playable, EffectOf, Next;
    PlaysNothing(durable, Next(s, m));
    PlaysFirst(durable, s, m, [], Next(s, m), []);
    assert [m] + [] == [m] && [EffectOf(s, m)] + [] == [EffectOf(s, m)];
  }

  lemma PlaysRest(durable: bool, s: World, moves: seq<Move>, s': World, es: seq<Effect>)
    requires Plays(durable, s, moves, s', es) && moves != []
    ensures Playable(durable, s, moves[0]) && es != [] && es[0] == EffectOf(s, moves[0])
    ensures Plays(durable, Next(s, moves[0]), moves[1..], s', es[1..])
  {
    hide Playable, EffectOf, Next;
  }

  lemma {:induction false} PlaysThen(durable: bool, s: World, xs: seq<Move>, s1: World, es: seq<Effect>,
                                     ys: seq<Move>, s2: World, fs: seq<Effect>)
    requires Plays(durable, s, xs, s1, es) && Plays(durable, s1, ys, s2, fs)
    ensures Plays(durable, s, xs + ys, s2, es + fs)
    decreases |xs|
  {
    hide Plays, Playable, EffectOf, Next;
    if xs == [] {
      PlayedNothing(durable, s, s1, es);
      assert xs + ys == ys && es + fs == fs;
    } else {
      PlaysRest(durable, s, xs, s1, es);
      PlaysThen(durable, Next(s, xs[0]), xs[1..], s1, es[1..], ys, s2, fs);
      PlaysFirst(durable, s, xs[0], xs[1..] + ys, s2, es[1..] + fs);
      assert xs + ys == [xs[0]] + (xs[1..] + ys) && es + fs == [es[0]] + (es[1..] + fs);
    }
  }

  lemma {:induction false} BillsPlay(durable: bool, s: World, bill: seq<StoreOp>) returns (moves: seq<Move>, s': World)
    requires forall i | 0 <= i < |bill| :: Quota.IsUsageRecord(bill[i].key)
    ensures Plays(durable, s, moves, s', Engines(bill))
    ensures s' == s.(disk := s'.disk)
    decreases |bill|
  {
    hide Quota.IsUsageRecord;
    if bill == [] {
      moves, s' := [], s;
    } else {
      var op := bill[0];
      PlaysOne(durable, s, Bill(op));
      var ms, s2 := BillsPlay(durable, Next(s, Bill(op)), bill[1..]);
      PlaysThen(durable, s, [Bill(op)], Next(s, Bill(op)), [Engine(op)], ms, s2, Engines(bill[1..]));
      assert Engines(bill) == [Engine(op)] + Engines(bill[1..]);
      moves, s' := [Bill(op)] + ms, s2;
    }
  }

  lemma RotationPlays(s: World, w: WalState) returns (moves: seq<Move>, s': World)
    requires s.headed && s.stored == All(|s.Log()|) && w.nextSeq == s.next
    ensures Plays(true, s, moves, s', RotationEffects(w))
    ensures s'.headed && s'.stored == All(|s'.Log()|) && s'.Log() == s.Log() && s'.next == s.next
  {
    hide Header, RecordOps;
    var a := Next(s, FlushIt);
    var b := Next(a, Drop);
    s' := Next(b, Head);
    PlaysOne(true, s, FlushIt);
    PlaysOne(true, a, Drop);
    PlaysOne(true, b, Head);
    PlaysThen(true, s, [FlushIt], a, [Flush], [Drop], b, [TruncateFile(0)]);
    PlaysThen(true, s, [FlushIt] + [Drop], b, [Flush] + [TruncateFile(0)], [Head], s', [AppendFile(Header(w.nextSeq))]);
    DropKeepsLog(a);
    moves := [FlushIt] + [Drop] + [Head];
    assert RotationEffects(w) == [Flush] + [TruncateFile(0)] + [AppendFile(Header(w.nextSeq))];
  }

  /** A write that has the node to itself meets both conditions: its effects, in the order
      the node makes them, are moves in log order whose rotation is settled. */
  lemma AloneIsSafe(c: Config, s: World, w: WalState, r: WalRecord, bill: seq<StoreOp>)
    returns (moves: seq<Move>, s': World)
    requires s.headed && s.stored == All(|s.Log()|)
    requires Enabled(c.durable, s, LogIt(r)) && w.nextSeq == SaturatingAdd(s.next, 1)
    requires forall i | 0 <= i < |bill| :: Quota.IsUsageRecord(bill[i].key)
    ensures Plays(c.durable, s, moves, s', WriteEffects(c, w, r, bill))
    ensures s'.headed && s'.stored == All(|s'.Log()|) && s'.Log() == s.Log() + [RecordOp(r)]
  {
    hide Header, Frame, RecordOps, Quota.IsUsageRecord, Plays;
    var d := c.durable;
    var a := Next(s, LogIt(r));
    LogGrows(s, r);
    var b := Next(a, StoreIt(|s.Log()|));
    PlaysOne(d, s, LogIt(r));
    PlaysOne(d, a, StoreIt(|s.Log()|));
    var first := [AppendFile(Frame(r))] + [Engine(RecordOp(r))];
    PlaysThen(d, s, [LogIt(r)], a, [AppendFile(Frame(r))], [StoreIt(|s.Log()|)], b, [Engine(RecordOp(r))]);
    var ms, e := BillsPlay(d, b, bill);
    PlaysThen(d, s, [LogIt(r)] + [StoreIt(|s.Log()|)], b, first, ms, e, Engines(bill));
    moves, s' := [LogIt(r)] + [StoreIt(|s.Log()|)] + ms, e;
    assert b.stored == All(|b.Log()|);
    if MustRotate(c, w) {
      var rotate, f := RotationPlays(e, w);
      PlaysThen(d, s, moves, e, first + Engines(bill), rotate, f, RotationEffects(w));
      moves, s' := moves + rotate, f;
      assert first + Engines(bill) + RotationEffects(w) == WriteEffects(c, w, r, bill);
    } else {
      assert first + Engines(bill) == WriteEffects(c, w, r, bill);
    }
  }
}
