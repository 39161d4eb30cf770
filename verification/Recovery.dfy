/** Crashing at any point of the protocol, and starting again from what is left. */
module Recovery {
  import opened ByteStrings
  import opened Disk
  import opened WalFrames
  import opened WriteAheadLog
  import opened NodeSpec
  import opened NodeInvariants
  import opened Protocol
  import Quota

  // --------------------------------------------------------------- the crash

  /** The tracker after a crash: whatever was under way is over, the log keeps what was
      written whole. */
  function Fallen(t: Tracker): Tracker {
    match t.phase
    case Emptied => t
    case HalfHeaded(_) => t
    case Untrimmed(_) => t
    case _ => t.(phase := Untrimmed([]))
  }

  predicate IsDown(t: Tracker) {
    t.phase.Emptied? || t.phase.HalfHeaded? || t.phase.Untrimmed?
  }

  lemma NothingIsTorn()
    ensures IsTorn([])
  {
    var r := WalRecord(0, WalOp.Put, [], []);
    FrameLayout(r);
    hide Frame;
    assert Fits(r) && 0 < |Frame(r)| && [] == Frame(r)[..0];
  }

  /** What survives in storage is held, key by key, and readable. */
  lemma SurvivorsHeld(durable: bool, t: Tracker, d: Disk, m: Store)
    requires Tracks(durable, t, d) && d.Survives(durable, m)
    ensures Sane(m)
    ensures forall k | !Quota.IsUsageRecord(k) :: HeldSince(t.Before(), RecordOps(t.seg), k, Lookup(m, k))
  {
    hide FileMatches, DataMatches, Quota.IsUsageRecord, RecordOps, SaneEntry;
    forall k | k in m ensures SaneEntry(k, m[k]) {
      if durable {
        var j: nat :| j <= |d.journal| && Lookup(m, k) == Lookup(ApplyAll(d.flushed, d.journal[..j]), k);
        assert Sane(ApplyAll(d.flushed, d.journal[..j]));
      }
    }
    forall k | !Quota.IsUsageRecord(k) ensures HeldSince(t.Before(), RecordOps(t.seg), k, Lookup(m, k)) {
      if durable {
        var j: nat :| j <= |d.journal| && Lookup(m, k) == Lookup(ApplyAll(d.flushed, d.journal[..j]), k);
      } else {
        assert RecordOps(t.seg)[..0] == [];
      }
    }
  }

  /** The disk after a crash that left `file` and, in storage, `m`. */
  lemma CrashLeaves(durable: bool, t: Tracker, d: Disk, m: Store, t': Tracker, file: Bytes)
    requires Tracks(durable, t, d) && d.Survives(durable, m)
    requires t'.pre == t.pre && t'.base == t.base && t'.seg == t.seg && t'.resume == t.resume && IsDown(t')
    requires t'.phase.Emptied? || t'.phase.HalfHeaded? ==> t.seg == []
    requires t.phase.Emptied? || t.phase.HalfHeaded? ==> !t'.phase.Untrimmed?
    requires FileMatches(t', Disk(file, m, []))
    ensures Tracks(durable, t', Disk(file, m, []))
  {
    SurvivorsHeld(durable, t, d, m);
    assert t.seg == [] ==> RecordOps(t.seg) == [];
    assert RecordsFine(durable, t');
    var d' := Disk(file, m, []);
    hide Quota.IsUsageRecord, FileMatches, RecordOps, Sane, RecordsFine, Disk.Survives;
    forall j: nat, k: Bytes | j <= |d'.journal| && !Quota.IsUsageRecord(k)
      ensures HeldSince(t'.Before(), RecordOps(t'.seg), k, Lookup(ApplyAll(d'.flushed, d'.journal[..j]), k))
    {
      assert ApplyAll(d'.flushed, d'.journal[..j]) == m;
    }
    assert AllHeld(t', d');
    if t.seg == [] {
      forall k | !Quota.IsUsageRecord(k) ensures Lookup(m, k) == Lookup(t.Before(), k) {
        assert HeldSince(t.Before(), RecordOps(t.seg), k, Lookup(m, k));
      }
    }
  }

  /** A crash between two steps. */
  lemma CrashBetween(durable: bool, t: Tracker, d: Disk, m: Store)
    requires Tracks(durable, t, d) && d.Survives(durable, m)
    ensures Tracks(durable, Fallen(t), Disk(d.file, m, []))
  {
    NothingIsTorn();
    hide RecordOps, Frames, Header, IsTorn, IsHalfHeader, AllHeld, AllSane, SameData;
    assert t.Clean() + [] == t.Clean();
    CrashLeaves(durable, t, d, m, Fallen(t), d.file);
  }

  /** The tracker after a crash inside the write of step `m`, `cut` bytes in. */
  function FallenInside(t: Tracker, m: Mark, cut: nat): Tracker
    requires m.LogRecord? ==> cut <= |Frame(m.r)|
    requires m.NewHeader? ==> cut <= HEADER_LEN
  {
    match m
    case LogRecord(r) => t.(phase := Untrimmed(Frame(r)[..cut]))
    case NewHeader(base) => t.(phase := HalfHeaded(Header(base)[..cut]))
    case _ => Fallen(t)
  }

  /** A crash inside a file write: only part of the bytes are there, and the log is what
      it was before the write. */
  lemma CrashInside(durable: bool, t: Tracker, d: Disk, mark: Mark, cut: nat, m: Store)
    requires Tracks(durable, t, d) && Enabled(durable, t, mark) && d.Survives(durable, m)
    requires EffectOf(t, mark).AppendFile? && 0 < cut < |EffectOf(t, mark).bytes|
    ensures Tracks(durable, FallenInside(t, mark, cut), Disk(d.file + EffectOf(t, mark).bytes[..cut], m, []))
  {
    hide RecordOps, Frames, Frame, Header, AllHeld, AllSane, SameData, Storable;
    var file := d.file + EffectOf(t, mark).bytes[..cut];
    var t' := FallenInside(t, mark, cut);
    match mark {
      case LogRecord(r) => assert IsTorn(Frame(r)[..cut]);
      case NewHeader(base) =>
        assert IsHalfHeader(Header(base)[..cut]);
        assert [] + Header(base)[..cut] == Header(base)[..cut];
    }
    CrashLeaves(durable, t, d, m, t', file);
  }

  // ------------------------------------------------------------ runs of steps

  datatype State = State(t: Tracker, d: Disk)

  function Emitted(durable: bool, s: State, m: Mark): Effect
    requires Enabled(durable, s.t, m)
  {
    EffectOf(s.t, m)
  }

  function StepTo(durable: bool, s: State, m: Mark): State
    requires Enabled(durable, s.t, m)
  {
    State(Next(s.t, m, s.d.Data()), s.d.Do(Emitted(durable, s, m)))
  }

  predicate Follows(durable: bool, s: State, ms: seq<Mark>)
    decreases |ms|
  {
    ms == [] || (Enabled(durable, s.t, ms[0]) && Follows(durable, StepTo(durable, s, ms[0]), ms[1..]))
  }

  function RunTo(durable: bool, s: State, ms: seq<Mark>): State
    requires Follows(durable, s, ms)
    decreases |ms|
  {
    if ms == [] then s else RunTo(durable, StepTo(durable, s, ms[0]), ms[1..])
  }

  function EffectsOf(durable: bool, s: State, ms: seq<Mark>): (es: seq<Effect>)
    requires Follows(durable, s, ms)
    ensures |es| == |ms|
    decreases |ms|
  {
    if ms == [] then [] else [Emitted(durable, s, ms[0])] + EffectsOf(durable, StepTo(durable, s, ms[0]), ms[1..])
  }

  lemma {:induction false} FollowsConcat(durable: bool, s: State, xs: seq<Mark>, ys: seq<Mark>)
    requires Follows(durable, s, xs) && Follows(durable, RunTo(durable, s, xs), ys)
    ensures Follows(durable, s, xs + ys)
    ensures RunTo(durable, s, xs + ys) == RunTo(durable, RunTo(durable, s, xs), ys)
    ensures EffectsOf(durable, s, xs + ys) == EffectsOf(durable, s, xs) + EffectsOf(durable, RunTo(durable, s, xs), ys)
    decreases |xs|
  {
    hide Enabled, StepTo, Emitted;
    if xs == [] {
      assert xs + ys == ys;
    } else {
      assert (xs + ys)[1..] == xs[1..] + ys;
      FollowsConcat(durable, StepTo(durable, s, xs[0]), xs[1..], ys);
    }
  }

  /** A run can be stopped after any step. */
  lemma {:induction false} FollowsPrefix(durable: bool, s: State, ms: seq<Mark>, i: nat)
    requires Follows(durable, s, ms) && i <= |ms|
    ensures Follows(durable, s, ms[..i])
    ensures Follows(durable, RunTo(durable, s, ms[..i]), ms[i..])
    ensures EffectsOf(durable, s, ms[..i]) == EffectsOf(durable, s, ms)[..i]
    decreases |ms|
  {
    hide Enabled, StepTo, Emitted;
    if i == 0 {
      assert ms[..0] == [] && ms[0..] == ms;
    } else {
      assert ms[..i][1..] == ms[1..][..i - 1] && ms[i..] == ms[1..][i - 1..];
      FollowsPrefix(durable, StepTo(durable, s, ms[0]), ms[1..], i - 1);
    }
  }

  lemma {:induction false} RunKeeps(durable: bool, s: State, ms: seq<Mark>)
    requires Follows(durable, s, ms) && Tracks(durable, s.t, s.d)
    ensures var s' := RunTo(durable, s, ms);
      && Tracks(durable, s'.t, s'.d)
      && s'.d == s.d.DoAll(EffectsOf(durable, s, ms))
    decreases |ms|
  {
    hide Enabled, Next, EffectOf, Tracks;
    if ms != [] {
      var s1, e := StepTo(durable, s, ms[0]), Emitted(durable, s, ms[0]);
      StepKeeps(durable, s.t, s.d, ms[0]);
      RunKeeps(durable, s1, ms[1..]);
      DoAllConcat(s.d, [e], EffectsOf(durable, s1, ms[1..]));
      assert [e][..0] == [];
    }
  }

  /** Steps only ever add to the log. */
  lemma StepLog(durable: bool, t: Tracker, m: Mark, from: Store)
    requires Enabled(durable, t, m)
    ensures Next(t, m, from).Log() == t.Log() + (if m.LogRecord? then [RecordOp(m.r)] else [])
    ensures Next(t, m, from).resume >= t.resume
  {
    hide Storable, Quota.IsUsageRecord;
    if m.LogRecord? {
      RecordOpsAppend(t.seg, m.r);
    }
    if m.DropSegment? {
      assert RecordOps([]) == [];
    }
  }

  /** The writes that the steps put in the log. */
  function LoggedBy(ms: seq<Mark>): seq<StoreOp> {
    if ms == [] then []
    else (if ms[0].LogRecord? then [RecordOp(ms[0].r)] else []) + LoggedBy(ms[1..])
  }

  lemma {:induction false} RunLog(durable: bool, s: State, ms: seq<Mark>)
    requires Follows(durable, s, ms)
    ensures RunTo(durable, s, ms).t.Log() == s.t.Log() + LoggedBy(ms)
    ensures RunTo(durable, s, ms).t.resume >= s.t.resume
    decreases |ms|
  {
    hide Enabled, Next, EffectOf, RecordOps;
    if ms != [] {
      StepLog(durable, s.t, ms[0], s.d.Data());
      RunLog(durable, StepTo(durable, s, ms[0]), ms[1..]);
      var one := if ms[0].LogRecord? then [RecordOp(ms[0].r)] else [];
      assert s.t.Log() + (one + LoggedBy(ms[1..])) == s.t.Log() + one + LoggedBy(ms[1..]);
    } else {
      assert s.t.Log() + [] == s.t.Log();
    }
  }

  lemma {:induction false} LoggedByConcat(xs: seq<Mark>, ys: seq<Mark>)
    ensures LoggedBy(xs + ys) == LoggedBy(xs) + LoggedBy(ys)
  {
    if xs == [] {
      assert xs + ys == ys;
    } else {
      assert (xs + ys)[1..] == xs[1..] + ys;
      LoggedByConcat(xs[1..], ys);
    }
  }

  lemma LoggedByPrefix(ms: seq<Mark>, i: nat)
    requires i <= |ms|
    ensures LoggedBy(ms[..i]) <= LoggedBy(ms)
  {
    LoggedByConcat(ms[..i], ms[i..]);
    assert ms[..i] + ms[i..] == ms;
  }

  /** The steps `ms` lead from `s` to `s'` with effects `es`, adding `ops` to the log. */
  ghost predicate Goes(durable: bool, s: State, ms: seq<Mark>, s': State, es: seq<Effect>, ops: seq<StoreOp>) {
    && Follows(durable, s, ms)
    && RunTo(durable, s, ms) == s'
    && EffectsOf(durable, s, ms) == es
    && LoggedBy(ms) == ops
  }

  lemma GoesNowhere(durable: bool, s: State)
    ensures Goes(durable, s, [], s, [], [])
  {}

  lemma GoesOne(durable: bool, s: State, m: Mark)
    requires Enabled(durable, s.t, m)
    ensures Goes(durable, s, [m], StepTo(durable, s, m), [EffectOf(s.t, m)],
                 if m.LogRecord? then [RecordOp(m.r)] else [])
  {
    hide Enabled, Next, EffectOf;
    var s1 := StepTo(durable, s, m);
    assert [m][1..] == [];
    assert Follows(durable, s1, []) && RunTo(durable, s1, []) == s1;
    assert EffectsOf(durable, s1, []) == [] && LoggedBy([]) == [];
    assert EffectsOf(durable, s, [m]) == [Emitted(durable, s, m)] + [];
  }

  lemma GoesThen(durable: bool, s: State, xs: seq<Mark>, s1: State, es: seq<Effect>, ops: seq<StoreOp>,
                 ys: seq<Mark>, s2: State, fs: seq<Effect>, more: seq<StoreOp>,
                 allEffects: seq<Effect>, allOps: seq<StoreOp>)
    requires Goes(durable, s, xs, s1, es, ops) && Goes(durable, s1, ys, s2, fs, more)
    requires allEffects == es + fs && allOps == ops + more
    ensures Goes(durable, s, xs + ys, s2, allEffects, allOps)
  {
    hide Enabled, StepTo, Emitted;
    FollowsConcat(durable, s, xs, ys);
    LoggedByConcat(xs, ys);
  }

  lemma GoesKeeps(durable: bool, s: State, ms: seq<Mark>, s': State, es: seq<Effect>, ops: seq<StoreOp>)
    requires Tracks(durable, s.t, s.d) && Goes(durable, s, ms, s', es, ops)
    ensures Tracks(durable, s'.t, s'.d)
    ensures s'.d == s.d.DoAll(es)
    ensures s'.t.Log() == s.t.Log() + ops && s'.t.resume >= s.t.resume
  {
    hide Tracks, RecordOps;
    RunKeeps(durable, s, ms);
    RunLog(durable, s, ms);
  }

  // ------------------------------------------------- a crash anywhere in a run

  /** Where a process can die while it carries out `es`: between two effects, or inside a
      write to the file. */
  predicate CrashPoint(es: seq<Effect>, i: nat, cut: nat) {
    i <= |es| && (cut == 0 || (i < |es| && es[i].AppendFile? && cut < |es[i].bytes|))
  }

  function FileAt(d: Disk, es: seq<Effect>, i: nat, cut: nat): Bytes
    requires CrashPoint(es, i, cut)
  {
    d.DoAll(es[..i]).file + (if cut == 0 then [] else es[i].bytes[..cut])
  }

  /** Whatever the crash point and whatever survives, the disk is one that recovery
      understands, and the log has every record whose frame was written whole. */
  lemma CrashAnywhere(durable: bool, s: State, ms: seq<Mark>, i: nat, cut: nat, m: Store) returns (t': Tracker)
    requires Follows(durable, s, ms) && Tracks(durable, s.t, s.d)
    requires CrashPoint(EffectsOf(durable, s, ms), i, cut)
    requires s.d.DoAll(EffectsOf(durable, s, ms)[..i]).Survives(durable, m)
    ensures IsDown(t') && Tracks(durable, t', Disk(FileAt(s.d, EffectsOf(durable, s, ms), i, cut), m, []))
    ensures t'.Log() == s.t.Log() + LoggedBy(ms[..i])
    ensures t'.resume >= s.t.resume
  {
    hide Enabled, Tracks, Next, Disk.Survives, Follows, RunTo, EffectsOf, LoggedBy, RecordOps, Frames, Header, Frame;
    FollowsPrefix(durable, s, ms, i);
    RunKeeps(durable, s, ms[..i]);
    RunLog(durable, s, ms[..i]);
    var si := RunTo(durable, s, ms[..i]);
    if cut == 0 {
      t' := Fallen(si.t);
      CrashBetween(durable, si.t, si.d, m);
      assert si.d.file + [] == si.d.file;
    } else {
      var mark := ms[i];
      EffectAt(durable, s, ms, i);
      assert ms[i..][0] == mark;
      t' := CrashInWrite(durable, si, mark, cut, m);
    }
  }

  lemma CrashInWrite(durable: bool, s: State, mark: Mark, cut: nat, m: Store) returns (t': Tracker)
    requires Tracks(durable, s.t, s.d) && Enabled(durable, s.t, mark) && s.d.Survives(durable, m)
    requires Emitted(durable, s, mark).AppendFile? && 0 < cut < |Emitted(durable, s, mark).bytes|
    ensures IsDown(t') && t'.Log() == s.t.Log() && t'.resume == s.t.resume
    ensures Tracks(durable, t', Disk(s.d.file + Emitted(durable, s, mark).bytes[..cut], m, []))
  {
    hide Tracks, Disk.Survives, RecordOps, Frames, Header, Frame, Storable, Quota.IsUsageRecord;
    CrashInside(durable, s.t, s.d, mark, cut, m);
    t' := FallenInside(s.t, mark, cut);
  }

  lemma EffectAt(durable: bool, s: State, ms: seq<Mark>, i: nat)
    requires Follows(durable, s, ms) && i < |ms|
    ensures Follows(durable, s, ms[..i]) && Enabled(durable, RunTo(durable, s, ms[..i]).t, ms[i])
    ensures EffectsOf(durable, s, ms)[i] == Emitted(durable, RunTo(durable, s, ms[..i]), ms[i])
  {
    hide Enabled, StepTo, Emitted;
    FollowsPrefix(durable, s, ms, i);
    assert ms[i..][0] == ms[i];
    assert ms[..i] + ms[i..] == ms;
    FollowsConcat(durable, s, ms[..i], ms[i..]);
  }
}
