/** Starting a node over what a crash left. */
module Startup {
  import opened ByteStrings
  import opened Disk
  import opened WalFrames
  import opened WriteAheadLog
  import opened NodeSpec
  import opened NodeInvariants
  import opened Protocol
  import opened Recovery
  import opened Durability
  import Quota

  /** Where the tracker stands when a process opens the disk. An empty file has forgotten
      its sequence. */
  function OpenStart(t: Tracker, from: Store): Tracker {
    match t.phase
    case Emptied => t.(resume := 0)
    case Untrimmed(torn) => if torn == [] then t.(phase := Replay(t.seg, 0, from)) else t
    case _ => t
  }

  lemma OpenStartTracks(durable: bool, t: Tracker, d: Disk)
    requires Tracks(durable, t, d) && IsDown(t)
    ensures Tracks(durable, OpenStart(t, d.Data()), d) && OpenStart(t, d.Data()).Log() == t.Log()
  {
    hide Frames, Header, Quota.IsUsageRecord, Sane, Storable, HeldSince, IsTorn, IsHalfHeader, RecordOps;
    assert d.journal[..|d.journal|] == d.journal;
    var t' := OpenStart(t, d.Data());
    if t.phase == Untrimmed([]) {
      assert t.Clean() + [] == t.Clean();
      assert RecordOps(t.seg)[..0] == [];
      ReplayPhase(t, d, 0, d.Data());
    }
    AllHeldSame(t, t', d);
  }

  /** Part of a header is refused, whatever else is on disk. */
  lemma HalfHeaderRefused(durable: bool, t: Tracker, d: Disk)
    requires Tracks(durable, t, d) && t.phase.HalfHeaded?
    ensures Recover(d.file).Err?
  {
    hide AllHeld, AllSane, DataMatches, RecordsFine;
    var base: u64, cut: nat :| 0 < cut < HEADER_LEN && t.phase.part == Header(base)[..cut];
  }

  /** What recovery reads from a file with whole frames and a torn tail. */
  lemma TornFileRecovers(durable: bool, t: Tracker, d: Disk)
    requires Tracks(durable, t, d) && t.phase.Untrimmed?
    ensures d.file != []
    ensures Recover(d.file) == Ok(WriteAheadLog.Recovery(t.seg, |t.phase.torn|, t.resume, |t.Clean()|))
    ensures OpenedFile(d.file) == t.Clean()
  {
    hide AllHeld, AllSane, DataMatches, Frames, Frame, Header, Recover, OpenedFile, Storable;
    var r, cut: nat :| Fits(r) && cut < |Frame(r)| && t.phase.torn == Frame(r)[..cut];
    RecoverTorn(t.base, t.seg, r, cut);
  }

  lemma {:induction false} ReplayFollows(durable: bool, s: State, i: nat) returns (ms: seq<Mark>, s': State)
    requires i <= |s.t.seg|
    requires s.t.phase.Idle? ==> i == |s.t.seg|
    requires s.t.phase.Idle? || (s.t.phase.Replaying? && s.t.phase.next == i < |s.t.seg|)
    ensures var ops := RecordOps(s.t.seg)[i..];
      && Goes(durable, s, ms, s', Engines(ops), [])
      && s'.t == s.t.(phase := Idle) && s'.d.Data() == ApplyAll(s.d.Data(), ops)
    decreases |s.t.seg| - i
  {
    hide Goes, ApplyAll, RecordOps, Engines, Disk.Data, ApplyOp, Frame, Header, Frames;
    var all := RecordOps(s.t.seg);
    if i == |s.t.seg| {
      ms, s' := [], s;
      GoesNowhere(durable, s);
      assert all[i..] == [];
      ApplyNone(s.d.Data());
      assert s.t.(phase := Idle) == s.t;
    } else {
      var s1 := StepTo(durable, s, ReplayOne);
      var op := all[i];
      GoesOne(durable, s, ReplayOne);
      DataAfterOp(s.d, op);
      var ys, s2 := ReplayFollows(durable, s1, i + 1);
      assert all[i..] == [op] + all[i + 1..];
      assert Engines(all[i..]) == [Engine(op)] + Engines(all[i + 1..]);
      GoesThen(durable, s, [ReplayOne], s1, [Engine(op)], [], ys, s2, Engines(all[i + 1..]), [], Engines(all[i..]), []);
      ApplyFirst(s.d.Data(), op, all[i + 1..]);
      ms, s' := [ReplayOne] + ys, s2;
    }
  }

  /** The state once the file is a clean segment again. */
  ghost predicate Headed(t: Tracker, d: Disk, s: State) {
    && Recover(d.file).Ok?
    && var rec := Recover(d.file).value;
    && s.t.seg == rec.records && s.t.resume == rec.nextSeq
    && s.t.Clean() == OpenedFile(d.file) && rec.segmentBytes == |OpenedFile(d.file)|
    && s.t.phase == Replay(s.t.seg, 0, d.Data())
    && s.d.Data() == d.Data()
    && s.t.Log() == t.Log()
  }

  lemma HeadEmptied(durable: bool, t: Tracker, d: Disk) returns (ms: seq<Mark>, s': State)
    requires Tracks(durable, t, d) && t.phase.Emptied?
    ensures Goes(durable, State(OpenStart(t, d.Data()), d), ms, s', OpenEffects(d.file), []) && Headed(t, d, s')
  {
    assert d.file == [] && t.seg == [];
    FramesOfNone();
    assert Header(0) + [] == Header(0);
    hide Tracks, Goes, Frames, Header, RecordOps;
    var s := State(OpenStart(t, d.Data()), d);
    ms, s' := [NewHeader(0)], StepTo(durable, s, NewHeader(0));
    GoesOne(durable, s, NewHeader(0));
  }

  lemma HeadUntrimmed(durable: bool, t: Tracker, d: Disk) returns (ms: seq<Mark>, s': State)
    requires Tracks(durable, t, d) && t.phase.Untrimmed?
    ensures Goes(durable, State(OpenStart(t, d.Data()), d), ms, s', OpenEffects(d.file), []) && Headed(t, d, s')
  {
    hide Tracks, Goes, Frames, Header, RecordOps, Recover, OpenedFile, ApplyAll, Replay;
    TornFileRecovers(durable, t, d);
    var s := State(OpenStart(t, d.Data()), d);
    var cut := EffectOf(t, CutTail);
    assert d.Do(cut).Data() == d.Data();
    if t.phase.torn == [] {
      ms, s' := [], s;
      GoesNowhere(durable, s);
      assert OpenEffects(d.file) == [];
    } else {
      ms, s' := [CutTail], StepTo(durable, s, CutTail);
      GoesOne(durable, s, CutTail);
      assert s.t == t && s'.t == t.(phase := Replay(t.seg, 0, d.Data()));
      assert OpenEffects(d.file) == [cut];
    }
  }

  /** Opening follows the protocol to an idle node whose log is what was left behind. */
  lemma OpenFollows(c: Config, quota: Quota.QuotaState, window: nat, t: Tracker, d: Disk)
    returns (ms: seq<Mark>, s': State)
    requires Tracks(c.durable, t, d) && IsDown(t) && !t.phase.HalfHeaded?
    ensures OpenNode(c, quota, window, d.file, d.Data()).Ok?
    ensures var n := OpenNode(c, quota, window, d.file, d.Data()).value;
      && n.effects == OpenNodeEffects(c.durable, d.file)
      && Goes(c.durable, State(OpenStart(t, d.Data()), d), ms, s', n.effects, [])
      && Serves(c.durable, n, s') && s'.t.Log() == t.Log()
      && s'.t.resume == Recover(d.file).value.nextSeq
  {
    hide Tracks, Goes, Frames, Header, Recover, OpenedFile, OpenEffects, RotationEffects, RecordOps, ApplyAll;
    hide BootTtl, BootUsage;
    OpenStartTracks(c.durable, t, d);
    var s := State(OpenStart(t, d.Data()), d);
    var head, s1;
    if t.phase.Emptied? {
      head, s1 := HeadEmptied(c.durable, t, d);
    } else {
      head, s1 := HeadUntrimmed(c.durable, t, d);
    }
    var rec := Recover(d.file).value;
    var ops := RecordOps(rec.records);
    var replay, s2 := ReplayFollows(c.durable, s1, 0);
    assert ops[0..] == ops;
    var done := OpenEffects(d.file) + Engines(ops);
    GoesThen(c.durable, s, head, s1, OpenEffects(d.file), [], replay, s2, Engines(ops), [], done, []);
    ms, s' := head + replay, s2;
    var segment := WalState(OpenedFile(d.file), rec.nextSeq, rec.segmentBytes);
    var rotation: seq<Effect> := [];
    if c.durable {
      rotation := RotationEffects(segment);
      var rotate, s3 := RotationFollows(c.durable, s2, segment);
      GoesThen(c.durable, s, ms, s2, done, [], rotate, s3, rotation, [], done + rotation, []);
      RotateKeeps(segment);
      ms, s' := ms + rotate, s3;
    } else {
      assert done + rotation == done;
    }
    assert done + rotation == OpenNodeEffects(c.durable, d.file);
    GoesKeeps(c.durable, s, ms, s', OpenNodeEffects(c.durable, d.file), []);
    if !c.durable { TracksHolds(c.durable, s', segment); }
  }

  /** An idle tracker's segment is the WAL state read from it. */
  lemma TracksHolds(durable: bool, s: State, w: WalState)
    requires Tracks(durable, s.t, s.d) && s.t.phase.Idle?
    requires w == WalState(s.t.Clean(), s.t.resume, |s.t.Clean()|)
    ensures Holds(w, s.t.base, s.t.seg)
  {
    hide AllHeld, AllSane, DataMatches;
  }
}
