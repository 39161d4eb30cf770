/** Whole histories: requests, sweeps, rotations, crashes at any point, restarts.

    One write is under way at a time, and a crash is a process crash: bytes already
    handed to the file stay, and storage keeps, key by key, some value since its last
    flush (a memory backend keeps nothing). */
module Histories {
  import opened ByteStrings
  import opened Disk
  import opened WalFrames
  import opened WriteAheadLog
  import opened NodeSpec
  import opened NodeInvariants
  import opened SweepLaws
  import opened Protocol
  import opened Recovery
  import opened Durability
  import opened Startup
  import Quota

  datatype Env = Env(c: Config, quota: Quota.QuotaState, window: nat)

  /** `log` are the writes that count, in order; `acked` is the number the node stood at when
      it last acknowledged a write; `lost` says that an empty file made the node forget it. */
  datatype System =
    | Up(node: Node, disk: Disk, log: seq<StoreOp>, acked: nat, lost: bool)
    | Down(disk: Disk, log: seq<StoreOp>, acked: nat, lost: bool)

  const FRESH: System := Down(Disk([], map[], []), [], 0, false)

  datatype Event =
    | Serve(req: Request)
    | CrashServing(req: Request, at: nat, cut: nat, survivors: Store)
    | Reopen
    | CrashOpening(at: nat, cut: nat, survivors: Store)

  /** The record an effect completes, if it writes a whole frame. */
  function RecordIn(e: Effect): seq<WalRecord> {
    match e
    case AppendFile(bytes) =>
      (match ParseFrame(bytes)
       case Some((r, n)) => if n == |bytes| then [r] else []
       case None => [])
    case _ => []
  }

  function CompletedBy(e: Effect): seq<StoreOp> {
    RecordOps(RecordIn(e))
  }

  /** The writes whose frames are whole on disk after these effects. */
  function Completed(es: seq<Effect>): seq<StoreOp> {
    if es == [] then [] else CompletedBy(es[0]) + Completed(es[1..])
  }

  /** The disk a crash leaves. */
  function CrashedDisk(d: Disk, es: seq<Effect>, at: nat, cut: nat, survivors: Store): Disk
    requires CrashPoint(es, at, cut)
  {
    Disk(FileAt(d, es, at, cut), survivors, [])
  }

  ghost predicate CanCrash(durable: bool, d: Disk, es: seq<Effect>, at: nat, cut: nat, survivors: Store) {
    CrashPoint(es, at, cut) && d.DoAll(es[..at]).Survives(durable, survivors)
  }

  predicate Forgets(s: System) {
    s.lost || (s.disk.file == [] && s.acked > 0)
  }

  ghost predicate Step(v: Env, s: System, e: Event, s': System) {
    match e
    case Serve(req) =>
      && s.Up? && Admissible(req)
      && var n' := Exec(v.c, s.node, req);
      && var ops := OpsOf(v.c, s.node, req);
      && Extends(s.node, n') && Bounded(n'.store)
      && s' == Up(n', s.disk.DoAll(Delta(s.node, n')), s.log + ops,
                  if ops == [] then s.acked else n'.wal.nextSeq, s.lost)
    case CrashServing(req, at, cut, survivors) =>
      && s.Up? && Admissible(req)
      && var n' := Exec(v.c, s.node, req);
      && Extends(s.node, n')
      && var es := Delta(s.node, n');
      && CanCrash(v.c.durable, s.disk, es, at, cut, survivors)
      && s' == Down(CrashedDisk(s.disk, es, at, cut, survivors), s.log + Completed(es[..at]), s.acked, s.lost)
    case Reopen =>
      && s.Down?
      && (match OpenNode(v.c, v.quota, v.window, s.disk.file, s.disk.Data())
          case Err(_) => s' == s
          case Ok(n) => Bounded(n.store) && s' == Up(n, s.disk.DoAll(n.effects), s.log, s.acked, Forgets(s)))
    case CrashOpening(at, cut, survivors) =>
      && s.Down?
      && var es := OpenNodeEffects(v.c.durable, s.disk.file);
      && CanCrash(v.c.durable, s.disk, es, at, cut, survivors)
      && s' == Down(CrashedDisk(s.disk, es, at, cut, survivors), s.log, s.acked, Forgets(s))
  }

  ghost predicate IsHistory(v: Env, states: seq<System>, events: seq<Event>) {
    && |states| == |events| + 1
    && states[0] == FRESH
    && forall i | 0 <= i < |events| :: Step(v, states[i], events[i], states[i + 1])
  }

  // ------------------------------------------------------------- the invariant

  ghost predicate Explains(v: Env, s: System, t: Tracker) {
    && t.Log() == s.log
    && (!s.lost ==> s.acked <= t.resume)
    && (if s.Up? then Serves(v.c.durable, s.node, State(t, s.disk))
        else Tracks(v.c.durable, t, s.disk) && IsDown(t))
  }

  ghost predicate SystemInv(v: Env, s: System) {
    && (s.Up? ==> NodeInv(s.node) && Bounded(s.node.store))
    && exists t :: Explains(v, s, t)
  }

  lemma FreshInv(v: Env)
    ensures SystemInv(v, FRESH)
  {
    var t := Tracker(Emptied, [], 0, [], 0);
    var d := FRESH.disk;
    assert RecordOps([]) == [] && t.Before() == map[];
    forall j: nat, k: Bytes | j <= |d.journal| && !Quota.IsUsageRecord(k)
      ensures HeldSince(t.Before(), RecordOps(t.seg), k, Lookup(ApplyAll(d.flushed, d.journal[..j]), k))
    {
      HeldNow(t.Before(), [], k);
    }
    assert Tracks(v.c.durable, t, d);
    assert t.Log() == [];
    assert Explains(v, FRESH, t);
  }

  lemma {:induction false} CompletedIsLogged(durable: bool, s: State, ms: seq<Mark>)
    requires Follows(durable, s, ms)
    ensures Completed(EffectsOf(durable, s, ms)) == LoggedBy(ms)
    decreases |ms|
  {
    hide CompletedBy, StepTo, Storable, Quota.IsUsageRecord, Frame, Header;
    if ms != [] {
      var m := ms[0];
      CompletedIsLogged(durable, StepTo(durable, s, m), ms[1..]);
      MarkCompletes(durable, s, m);
      var es := EffectsOf(durable, s, ms);
      assert es[1..] == EffectsOf(durable, StepTo(durable, s, m), ms[1..]);
    }
  }

  lemma MarkCompletes(durable: bool, s: State, m: Mark)
    requires Enabled(durable, s.t, m)
    ensures RecordIn(Emitted(durable, s, m)) == if m.LogRecord? then [m.r] else []
    ensures CompletedBy(Emitted(durable, s, m)) == if m.LogRecord? then [RecordOp(m.r)] else []
  {
    hide Frame, Header, ParseFrame, Storable, Quota.IsUsageRecord;
    if m.LogRecord? {
      ParseWholeFrame(m.r, []);
      assert Frame(m.r) + [] == Frame(m.r);
    } else if m.NewHeader? {
      HeaderNoFrame(m.base);
    }
  }

  /** A header is shorter than any frame. */
  lemma HeaderNoFrame(base: u64)
    ensures ParseFrame(Header(base)) == None
  {}

  // --------------------------------------------------------- every event keeps it

  lemma ServeKeepsNode(v: Env, n: Node, req: Request, s: State)
    requires Serves(v.c.durable, n, s) && NodeInv(n) && Bounded(n.store) && Bounded(Exec(v.c, n, req).store)
    ensures NodeInv(Exec(v.c, n, req))
  {
    hide Serves, Perform, Sound, WellFormed, UsageExact, CoveredAfter, TtlCounted, Bounded, Sweep, AdmitPut;
    hide PlanDelete, UsagePlain;
    ServesSane(v.c.durable, n, s);
    match req {
      case PutRequest(now, key, value, ttlMs) =>
        if AdmitPut(n, key, value).Ok? {
          AdmittedPutIsSound(n, now, key, value, ttlMs);
          PlansAreLegal(n, key, value);
          PerformKeeps(v.c, n, PutWrite(now, key, value, ttlMs), AdmitPut(n, key, value).value);
        }
      case DeleteRequest(key) =>
        PlannedDeleteIsSound(n.store, key);
        PlansAreLegal(n, key, []);
        PerformKeeps(v.c, n, DeleteWrite(key), PlanDelete(n.store, key).value);
      case SweepRequest(now) =>
        SweepIsExact(v.c, n, now);
    }
  }

  lemma ServeKeeps(v: Env, s: System, req: Request, s': System)
    requires SystemInv(v, s) && Step(v, s, Serve(req), s')
    ensures SystemInv(v, s')
  {
    hide Serves, NodeInv, Bounded, Exec, OpsOf, Goes, RecordOps, Admissible, Disk.DoAll;
    var t :| Explains(v, s, t);
    var st := State(t, s.disk);
    ServeKeepsNode(v, s.node, req, st);
    var ms, st' := RequestFollows(v.c, s.node, req, st);
    ServesTracks(v.c.durable, s.node, st);
    GoesKeeps(v.c.durable, st, ms, st', Delta(s.node, s'.node), OpsOf(v.c, s.node, req));
    ServesTracks(v.c.durable, s'.node, st');
    assert Explains(v, s', st'.t);
  }

  lemma ServesTracks(durable: bool, n: Node, s: State)
    requires Serves(durable, n, s)
    ensures Tracks(durable, s.t, s.d) && n.wal.nextSeq == s.t.resume
  {}

  lemma CrashTracked(durable: bool, st: State, ms: seq<Mark>, st': State, es: seq<Effect>, ops: seq<StoreOp>,
                     at: nat, cut: nat, survivors: Store) returns (t': Tracker)
    requires Tracks(durable, st.t, st.d) && Goes(durable, st, ms, st', es, ops)
    requires CanCrash(durable, st.d, es, at, cut, survivors)
    ensures Tracks(durable, t', CrashedDisk(st.d, es, at, cut, survivors)) && IsDown(t')
    ensures t'.Log() == st.t.Log() + Completed(es[..at]) && t'.resume >= st.t.resume
    ensures Completed(es[..at]) <= ops
  {
    hide Tracks, Follows, EffectsOf, RunTo, LoggedBy, Completed, FileAt, CrashPoint, Disk.Survives;
    hide Disk.DoAll, RecordOps;
    t' := CrashAnywhere(durable, st, ms, at, cut, survivors);
    CrashPointBound(es, at, cut);
    FollowsPrefix(durable, st, ms, at);
    CompletedIsLogged(durable, st, ms[..at]);
    LoggedByPrefix(ms, at);
  }

  lemma CrashPointBound(es: seq<Effect>, at: nat, cut: nat)
    requires CrashPoint(es, at, cut)
    ensures at <= |es|
  {}

  lemma CrashServingKeeps(v: Env, s: System, req: Request, at: nat, cut: nat, survivors: Store, s': System)
    requires SystemInv(v, s) && Step(v, s, CrashServing(req, at, cut, survivors), s')
    ensures SystemInv(v, s')
    ensures s.log <= s'.log <= s.log + OpsOf(v.c, s.node, req)
  {
    hide Serves, NodeInv, Bounded, Exec, OpsOf, Goes, RecordOps, Admissible, Disk.DoAll, CanCrash;
    hide CrashedDisk, Completed, Tracks;
    hide IsDown;
    var t :| Explains(v, s, t);
    var st := State(t, s.disk);
    var ms, st' := RequestFollows(v.c, s.node, req, st);
    ServesTracks(v.c.durable, s.node, st);
    var t' := CrashTracked(v.c.durable, st, ms, st', Delta(s.node, Exec(v.c, s.node, req)), OpsOf(v.c, s.node, req),
                           at, cut, survivors);
    assert Explains(v, s', t');
  }

  lemma ReopenKeeps(v: Env, s: System, s': System)
    requires SystemInv(v, s) && Step(v, s, Reopen, s')
    ensures SystemInv(v, s')
  {
    hide NodeInv, Bounded, Goes, RecordOps, Disk.DoAll, OpenNode, Tracks, Serves, Recover;
    var t :| Explains(v, s, t);
    if s' == s {
      assert Explains(v, s', t);
    } else {
      if t.phase.HalfHeaded? {
        HalfHeaderRefused(v.c.durable, t, s.disk);
        RefusedNode(v, s.disk);
        assert false;
      }
      var ms, st' := OpenFollows(v.c, v.quota, v.window, t, s.disk);
      var n := OpenNode(v.c, v.quota, v.window, s.disk.file, s.disk.Data()).value;
      ServesSane(v.c.durable, n, st');
      OpenEstablishes(v.c, v.quota, v.window, s.disk.file, s.disk.Data());
      OpenStartTracks(v.c.durable, t, s.disk);
      GoesKeeps(v.c.durable, State(OpenStart(t, s.disk.Data()), s.disk), ms, st', n.effects, []);
      ResumeAfterOpen(v.c.durable, t, s.disk);
      assert Explains(v, s', st'.t);
    }
  }

  lemma RefusedNode(v: Env, d: Disk)
    requires Recover(d.file).Err?
    ensures OpenNode(v.c, v.quota, v.window, d.file, d.Data()).Err?
  {}

  /** The sequence survives opening unless the file is empty. */
  lemma ResumeAfterOpen(durable: bool, t: Tracker, d: Disk)
    requires Tracks(durable, t, d) && IsDown(t) && !t.phase.HalfHeaded?
    ensures d.file != [] ==> OpenStart(t, d.Data()).resume == t.resume
    ensures d.file == [] <==> t.phase.Emptied?
  {
    hide DataMatches, AllHeld, AllSane, IsTorn, IsHalfHeader;
  }

  lemma CrashOpeningKeeps(v: Env, s: System, at: nat, cut: nat, survivors: Store, s': System)
    requires SystemInv(v, s) && Step(v, s, CrashOpening(at, cut, survivors), s')
    ensures SystemInv(v, s')
  {
    hide NodeInv, Bounded, Goes, RecordOps, Disk.DoAll, OpenNode, Tracks, Serves, Recover, CanCrash;
    hide CrashedDisk, Completed, OpenNodeEffects;
    var t :| Explains(v, s, t);
    var st, ms, st' := State(t, s.disk), [], State(t, s.disk);
    if t.phase.HalfHeaded? {
      HalfHeaderNoEffects(v.c.durable, t, s.disk);
      GoesNowhere(v.c.durable, st);
    } else {
      ms, st' := OpenFollows(v.c, v.quota, v.window, t, s.disk);
      OpenStartTracks(v.c.durable, t, s.disk);
      ResumeAfterOpen(v.c.durable, t, s.disk);
      st := State(OpenStart(t, s.disk.Data()), s.disk);
    }
    var es := OpenNodeEffects(v.c.durable, s.disk.file);
    var t' := CrashTracked(v.c.durable, st, ms, st', es, [], at, cut, survivors);
    assert t'.Log() == s.log;
    assert Explains(v, s', t');
  }

  lemma HalfHeaderNoEffects(durable: bool, t: Tracker, d: Disk)
    requires Tracks(durable, t, d) && t.phase.HalfHeaded?
    ensures OpenNodeEffects(durable, d.file) == [] && d.file != []
  {
    hide DataMatches, AllHeld, AllSane, Recover, Header, ParseFrames;
    HalfHeaderRefused(durable, t, d);
  }

  lemma StepKeepsSystem(v: Env, s: System, e: Event, s': System)
    requires SystemInv(v, s) && Step(v, s, e, s')
    ensures SystemInv(v, s')
  {
    hide SystemInv, Step;
    match e
    case Serve(req) => ServeKeeps(v, s, req, s');
    case CrashServing(req, at, cut, survivors) => CrashServingKeeps(v, s, req, at, cut, survivors, s');
    case Reopen => ReopenKeeps(v, s, s');
    case CrashOpening(at, cut, survivors) => CrashOpeningKeeps(v, s, at, cut, survivors, s');
  }

  lemma {:induction false} HistoryKeeps(v: Env, states: seq<System>, events: seq<Event>, i: nat)
    requires IsHistory(v, states, events) && i < |states|
    ensures SystemInv(v, states[i])
  {
    hide SystemInv, Step;
    if i == 0 {
      FreshInv(v);
    } else {
      HistoryKeeps(v, states, events, i - 1);
      assert Step(v, states[i - 1], events[i - 1], states[i]);
      StepKeepsSystem(v, states[i - 1], events[i - 1], states[i]);
    }
  }

  // ------------------------------------------------------------ the theorems

  /** Crash safety. At every point of every history, for either backend:
      a running node holds exactly the data of the writes that count, and its counters
      and index agree with that data; a node that is down is either refused at reopening,
      which happens only when a crash cut a fresh header, or comes back with exactly that
      data. */
  lemma CrashSafety(v: Env, states: seq<System>, events: seq<Event>, i: nat)
    requires IsHistory(v, states, events) && i < |states|
    ensures var s := states[i]; s.Up? ==> SameData(s.node.store, ApplyAll(map[], s.log)) && NodeInv(s.node)
    ensures var s := states[i]; s.Down? ==>
      var reopened := OpenNode(v.c, v.quota, v.window, s.disk.file, s.disk.Data());
      && (reopened.Err? <==> 0 < |s.disk.file| < HEADER_LEN)
      && (reopened.Ok? ==> SameData(reopened.value.store, ApplyAll(map[], s.log)))
  {
    hide NodeInv, Bounded, Goes, RecordOps, Disk.DoAll, OpenNode, Tracks, Serves, Recover;
    HistoryKeeps(v, states, events, i);
    var s := states[i];
    var t :| Explains(v, s, t);
    if s.Up? {
      ServesLog(v.c.durable, s.node, State(t, s.disk));
    } else if t.phase.HalfHeaded? {
      HalfHeaderRefused(v.c.durable, t, s.disk);
      RefusedNode(v, s.disk);
      HalfHeaderLength(v.c.durable, t, s.disk);
    } else {
      var ms, st' := OpenFollows(v.c, v.quota, v.window, t, s.disk);
      var n := OpenNode(v.c, v.quota, v.window, s.disk.file, s.disk.Data()).value;
      ServesLog(v.c.durable, n, st');
      DownLength(v.c.durable, t, s.disk);
    }
  }

  lemma ServesLog(durable: bool, n: Node, s: State)
    requires Serves(durable, n, s)
    ensures SameData(n.store, ApplyAll(map[], s.t.Log()))
  {
    hide FileMatches, AllHeld, AllSane, RecordsFine, Holds, Quota.IsUsageRecord;
    ApplyAllConcat(map[], s.t.pre, RecordOps(s.t.seg));
  }

  lemma HalfHeaderLength(durable: bool, t: Tracker, d: Disk)
    requires Tracks(durable, t, d) && t.phase.HalfHeaded?
    ensures 0 < |d.file| < HEADER_LEN
  {
    hide DataMatches, AllHeld, AllSane;
  }

  lemma DownLength(durable: bool, t: Tracker, d: Disk)
    requires Tracks(durable, t, d) && (t.phase.Untrimmed? || t.phase.Emptied?)
    ensures d.file == [] || |d.file| >= HEADER_LEN
  {
    hide DataMatches, AllHeld, AllSane, IsTorn;
  }

  /** Nothing acknowledged is lost and at most what was in flight is added: an acknowledged
      request adds all of its writes, a crash a prefix of the writes of the request it
      interrupts (at most one for a put or a delete), a restart nothing. */
  lemma NothingLost(v: Env, states: seq<System>, events: seq<Event>, i: nat)
    requires IsHistory(v, states, events) && i < |events|
    ensures var (s, s') := (states[i], states[i + 1]);
      match events[i]
      case Serve(req) => s'.log == s.log + OpsOf(v.c, s.node, req)
      case CrashServing(req, _, _, _) => s.log <= s'.log <= s.log + OpsOf(v.c, s.node, req)
      case _ => s'.log == s.log
  {
    hide SystemInv, Exec, OpsOf, Admissible, Bounded;
    HistoryKeeps(v, states, events, i);
    assert Step(v, states[i], events[i], states[i + 1]);
    match events[i]
    case CrashServing(req, at, cut, survivors) =>
      CrashServingKeeps(v, states[i], req, at, cut, survivors, states[i + 1]);
    case _ =>
  }

  /** Sequence numbers. Until some restart has met an empty file, a running node stands at or
      past where it stood when it last acknowledged a write, and a node that is down resumes
      there or later if and only if its file is not empty (or nothing was ever acknowledged).
      At the largest number the node stays where it is, so that one is given out again. */
  lemma SequencesResume(v: Env, states: seq<System>, events: seq<Event>, i: nat)
    requires IsHistory(v, states, events) && i < |states| && !states[i].lost
    ensures var s := states[i]; s.Up? ==> s.node.wal.nextSeq >= s.acked
    ensures var s := states[i]; s.Down? && Recover(s.disk.file).Ok? ==>
      (Recover(s.disk.file).value.nextSeq >= s.acked <==> s.disk.file != [] || s.acked == 0)
  {
    hide NodeInv, Bounded, Tracks, Serves, ParseHeader, ParseFrames;
    HistoryKeeps(v, states, events, i);
    var s := states[i];
    var t :| Explains(v, s, t);
    if s.Up? {
      ServesTracks(v.c.durable, s.node, State(t, s.disk));
    } else if Recover(s.disk.file).Ok? {
      if t.phase.HalfHeaded? {
        HalfHeaderRefused(v.c.durable, t, s.disk);
        assert false;
      }
      ResumeAfterOpen(v.c.durable, t, s.disk);
      if t.phase.Untrimmed? {
        TornFileRecovers(v.c.durable, t, s.disk);
      }
    }
  }

  /** Histories never get stuck: an empty disk opens, and a running node serves every
      admissible request that keeps its totals in range. */
  lemma FreshOpens(v: Env) returns (s': System)
    ensures s'.Up? && Step(v, FRESH, Reopen, s')
  {
    hide Header, Frame, NodeSpec.BootTtl, NodeSpec.BootUsage;
    assert RecordOps([]) == [];
    var n := OpenNode(v.c, v.quota, v.window, [], map[]).value;
    assert FRESH.disk.Data() == map[];
    assert n.store == map[];
    s' := Up(n, FRESH.disk.DoAll(n.effects), [], 0, Forgets(FRESH));
  }

  lemma EveryRequestServed(v: Env, s: System, req: Request) returns (s': System)
    requires SystemInv(v, s) && s.Up? && Admissible(req) && Bounded(Exec(v.c, s.node, req).store)
    ensures s'.Up? && Step(v, s, Serve(req), s')
  {
    hide Serves, NodeInv, Bounded, Exec, OpsOf, Goes, Admissible, Disk.DoAll;
    var t :| Explains(v, s, t);
    var ms, st' := RequestFollows(v.c, s.node, req, State(t, s.disk));
    var n', ops := Exec(v.c, s.node, req), OpsOf(v.c, s.node, req);
    s' := Up(n', s.disk.DoAll(Delta(s.node, n')), s.log + ops, if ops == [] then s.acked else n'.wal.nextSeq, s.lost);
  }

  /** The disk after another request flushes and rotates between a write's two steps. */
  lemma RacedDisk(r: WalRecord)
    ensures var d := Disk(Header(0), map[], []);
      d.DoAll([AppendFile(Frame(r)), Flush, TruncateFile(0), AppendFile(Header(1)), Engine(RecordOp(r))])
        == Disk(Header(1), map[], [RecordOp(r)])
  {
    hide Frame, Header, Disk.DoAll;
    var d := Disk(Header(0), map[], []);
    var e1, e2, e3, e4, e5 := AppendFile(Frame(r)), Flush, TruncateFile(0), AppendFile(Header(1)), Engine(RecordOp(r));
    var logged, cut, fresh' := Disk(Header(0) + Frame(r), map[], []), Disk([], map[], []), Disk(Header(1), map[], []);
    calc {
      d.DoAll([e1, e2, e3, e4, e5]);
    ==  { assert [e1] + [e2, e3, e4, e5] == [e1, e2, e3, e4, e5]; DoFirst(d, e1, [e2, e3, e4, e5]); }
      logged.DoAll([e2, e3, e4, e5]);
    ==  { assert [e2] + [e3, e4, e5] == [e2, e3, e4, e5]; DoFirst(logged, e2, [e3, e4, e5]); }
      logged.DoAll([e3, e4, e5]);
    ==  { assert [e3] + [e4, e5] == [e3, e4, e5]; DoFirst(logged, e3, [e4, e5]); assert logged.Do(e3) == cut; }
      cut.DoAll([e4, e5]);
    ==  { assert [e4] + [e5] == [e4, e5]; DoFirst(cut, e4, [e5]); assert cut.Do(e4) == fresh'; }
      fresh'.DoAll([e5]);
    ==  { assert [e5] + [] == [e5]; DoFirst(fresh', e5, []); }
      fresh'.Do(e5).DoAll([]);
    ==  { DoNone(fresh'.Do(e5)); }
      fresh'.Do(e5);
    }
  }

  /** Why one write at a time matters. If another request flushes and rotates while a
      write is between the log and storage, that write is acknowledged with its record
      gone from the log and its entry not yet durable: a crash then loses it. */
  lemma RotationRaceLosesWrite(key: Bytes, value: Bytes)
    ensures var r := WalRecord(0, WalOp.Put, key, value);
      var d := Disk(Header(0), map[], []);
      var after := d.DoAll([AppendFile(Frame(r)), Flush, TruncateFile(0), AppendFile(Header(1)), Engine(RecordOp(r))]);
      && Lookup(after.Data(), key) == Some(value)
      && after.Survives(true, map[])
      && Recover(after.file).Ok?
      && Lookup(ApplyAll(map[], RecordOps(Recover(after.file).value.records)), key) == None
  {
    hide Frame, Header, Recover, Disk.DoAll;
    var r := WalRecord(0, WalOp.Put, key, value);
    RacedDisk(r);
    var after := Disk(Header(1), map[], [RecordOp(r)]);
    assert after.journal[..0] == [];
    assert ApplyAll(after.flushed, after.journal[..0]) == map[];
    assert forall k :: Lookup(map[], k) == Lookup(ApplyAll(after.flushed, after.journal[..0]), k);
    assert after.Data() == ApplyOp(map[], RecordOp(r));
    RotationCrash(WalState([], 1, 0), HEADER_LEN);
    assert Header(1)[..HEADER_LEN] == Header(1);
    assert RecordOps([]) == [];
  }
}
