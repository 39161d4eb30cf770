/** What whole histories mean for tenants and for sequence numbers. */
module HistoryLaws {
  import opened ByteStrings
  import opened Disk
  import opened WalFrames
  import opened WriteAheadLog
  import opened NodeSpec
  import opened NodeInvariants
  import opened Protocol
  import opened Recovery
  import opened Durability
  import opened Startup
  import opened Histories
  import opened Tenants
  import KeyCodec
  import Quota
  import QuotaRuns

  // -------------------------------------------------------------------- tenants

  lemma SameTenants(m: Store, m': Store, t: Bytes)
    requires SameData(m, m') && KeyCodec.LegalTenant(t)
    ensures DataOf(m, t) == DataOf(m', t)
  {
    hide DataOf, KeyCodec.ValidUtf8, KeyCodec.DataKey, Quota.IsUsageRecord;
    forall p ensures Lookup(m, KeyCodec.DataKey(t, p)) == Lookup(m', KeyCodec.DataKey(t, p)) {
      DataKeyOwned(t, p);
    }
    DataOfAgrees(m, m', t);
  }

  lemma ReopenedReadable(v: Env, s: System)
    requires SystemInv(v, s) && s.Down? && OpenNode(v.c, v.quota, v.window, s.disk.file, s.disk.Data()).Ok?
    ensures WellFormed(OpenNode(v.c, v.quota, v.window, s.disk.file, s.disk.Data()).value.store)
  {
    hide NodeInv, Bounded, Goes, OpenNode, Tracks, Serves, Recover;
    var t :| Explains(v, s, t);
    if t.phase.HalfHeaded? {
      HalfHeaderRefused(v.c.durable, t, s.disk);
      RefusedNode(v, s.disk);
      assert false;
    }
    var ms, st' := OpenFollows(v.c, v.quota, v.window, t, s.disk);
    ServesSane(v.c.durable, OpenNode(v.c, v.quota, v.window, s.disk.file, s.disk.Data()).value, st');
  }

  /** After any history each tenant has exactly the map that the writes that count give it,
      whether the node is running or reopens after a crash, and every read is answered from
      that map. */
  lemma TenantsSurvive(v: Env, states: seq<System>, events: seq<Event>, i: nat, t: Bytes, now: u64, p: Bytes)
    requires IsHistory(v, states, events) && i < |states| && KeyCodec.LegalTenant(t)
    ensures var s := states[i];
            var data := DataOf(ApplyAll(map[], s.log), t);
      s.Up? ==>
        && DataOf(s.node.store, t) == data
        && Get(s.node.store, now, KeyCodec.DataKey(t, p)) == Ok(ReadAt(data, now, p))
    ensures var s := states[i];
            var data := DataOf(ApplyAll(map[], s.log), t);
      s.Down? ==>
        var reopened := OpenNode(v.c, v.quota, v.window, s.disk.file, s.disk.Data());
        reopened.Ok? ==>
          && DataOf(reopened.value.store, t) == data
          && Get(reopened.value.store, now, KeyCodec.DataKey(t, p)) == Ok(ReadAt(data, now, p))
  {
    hide IsHistory, SystemInv, OpenNode, DataOf, KeyCodec.ValidUtf8, KeyCodec.DataKey, SameData, Get, ReadAt;
    hide WellFormed, ApplyAll;
    CrashSafety(v, states, events, i);
    HistoryKeeps(v, states, events, i);
    var s := states[i];
    if s.Up? {
      SameTenants(s.node.store, ApplyAll(map[], s.log), t);
      GetRefines(s.node.store, now, t, p);
    } else {
      var reopened := OpenNode(v.c, v.quota, v.window, s.disk.file, s.disk.Data());
      if reopened.Ok? {
        ReopenedReadable(v, s);
        SameTenants(reopened.value.store, ApplyAll(map[], s.log), t);
        GetRefines(reopened.value.store, now, t, p);
      }
    }
  }

  // ------------------------------------------------------------- the open segment

  /** At every point of every history the open segment is its header and densely numbered
      records, the node's idea of it is what is on disk, and its tracked size is exact. */
  lemma SegmentExact(v: Env, states: seq<System>, events: seq<Event>, i: nat) returns (base: u64, rs: seq<WalRecord>)
    requires IsHistory(v, states, events) && i < |states| && states[i].Up?
    ensures var s := states[i];
      && Holds(s.node.wal, base, rs) && AllFit(rs)
      && s.node.wal.file == s.disk.file && s.node.wal.segmentBytes == |s.disk.file|
  {
    hide IsHistory, NodeInv, Bounded, DataMatches, AllHeld, AllSane, Header, Frames, Dense;
    HistoryKeeps(v, states, events, i);
    var t :| Explains(v, states[i], t);
    base, rs := t.base, t.seg;
  }

  // ------------------------------------------------------------ sequence numbers

  /** The records written whole by these effects. */
  function RecordsIn(es: seq<Effect>): seq<WalRecord> {
    if es == [] then [] else RecordIn(es[0]) + RecordsIn(es[1..])
  }

  function RecordsOf(ms: seq<Mark>): seq<WalRecord> {
    if ms == [] then [] else (if ms[0].LogRecord? then [ms[0].r] else []) + RecordsOf(ms[1..])
  }

  lemma {:induction false} RunRecords(durable: bool, s: State, ms: seq<Mark>)
    requires Follows(durable, s, ms)
    ensures RecordsIn(EffectsOf(durable, s, ms)) == RecordsOf(ms)
    ensures RecordOps(RecordsOf(ms)) == LoggedBy(ms)
    decreases |ms|
  {
    hide RecordIn, StepTo, Storable, Quota.IsUsageRecord, Frame, Header;
    if ms != [] {
      var m := ms[0];
      RunRecords(durable, StepTo(durable, s, m), ms[1..]);
      MarkCompletes(durable, s, m);
      assert EffectsOf(durable, s, ms)[1..] == EffectsOf(durable, StepTo(durable, s, m), ms[1..]);
      var one := if m.LogRecord? then [m.r] else [];
      assert RecordOps(one + RecordsOf(ms[1..])) == RecordOps(one) + RecordOps(RecordsOf(ms[1..]));
    }
  }

  lemma DenseFirst(b: u64, r: WalRecord, rs: seq<WalRecord>)
    requires r.seqno == b && Dense(SaturatingAdd(b, 1), rs)
    ensures Dense(b, [r] + rs) && SeqAt(SaturatingAdd(b, 1), |rs|) == SeqAt(b, |rs| + 1)
  {}

  /** A run numbers its records densely from where the process stands. */
  lemma {:induction false} RunNumbers(durable: bool, s: State, ms: seq<Mark>)
    requires Follows(durable, s, ms)
    ensures Dense(s.t.resume, RecordsOf(ms))
    ensures RunTo(durable, s, ms).t.resume == SeqAt(s.t.resume, |RecordsOf(ms)|)
    decreases |ms|
  {
    hide Storable, Quota.IsUsageRecord, Frame, Header, Dense, RecordOps, Disk.Do;
    if ms != [] {
      var m, s1 := ms[0], StepTo(durable, s, ms[0]);
      RunNumbers(durable, s1, ms[1..]);
      if m.LogRecord? {
        DenseFirst(s.t.resume, m.r, RecordsOf(ms[1..]));
      } else {
        assert [] + RecordsOf(ms[1..]) == RecordsOf(ms[1..]);
      }
    } else {
      DenseNone(s.t.resume);
    }
  }

  lemma DenseNone(b: u64)
    ensures Dense(b, [])
  {}

  /** Acknowledged numbers. A served request writes one record per write, numbered densely
      from the node's next number; until an empty file has made the node forget, all of them
      are at or past every number acknowledged before, and every one of them is below what
      is acknowledged afterwards, unless it is the largest number there is, where the
      counter stays. */
  lemma NumbersGiven(v: Env, states: seq<System>, events: seq<Event>, i: nat)
    requires IsHistory(v, states, events) && i < |events| && events[i].Serve?
    ensures var (s, s') := (states[i], states[i + 1]);
      && s.Up? && s'.Up? && |s.node.effects| <= |s'.node.effects|
      && var rs := RecordsIn(Delta(s.node, s'.node));
      && RecordOps(rs) == OpsOf(v.c, s.node, events[i].req)
      && Dense(s.node.wal.nextSeq, rs) && s'.node.wal.nextSeq == SeqAt(s.node.wal.nextSeq, |rs|)
      && (forall j | 0 <= j < |rs| ::
            (!s.lost ==> rs[j].seqno >= s.acked) && (rs[j].seqno < s'.acked || rs[j].seqno == U64_MAX))
  {
    hide Serves, NodeInv, Bounded, Exec, OpsOf, Admissible, Disk.DoAll, Tracks, Follows, RunTo, EffectsOf;
    hide LoggedBy, RecordsIn, RecordsOf, RecordOps;
    HistoryKeeps(v, states, events, i);
    var s, s', req := states[i], states[i + 1], events[i].req;
    assert Step(v, s, Serve(req), s');
    var t :| Explains(v, s, t);
    var st := State(t, s.disk);
    var ms, st' := RequestFollows(v.c, s.node, req, st);
    ServesTracks(v.c.durable, s.node, st);
    ServesTracks(v.c.durable, s'.node, st');
    RunRecords(v.c.durable, st, ms);
    RunNumbers(v.c.durable, st, ms);
  }

  // ----------------------------------------------------------- forgetting is reachable

  lemma HistoryGrows(v: Env, states: seq<System>, events: seq<Event>, e: Event, s': System)
    requires IsHistory(v, states, events) && Step(v, states[|events|], e, s')
    ensures IsHistory(v, states + [s'], events + [e])
  {
    hide Step;
    var ss, es := states + [s'], events + [e];
    forall i | 0 <= i < |es| ensures Step(v, ss[i], es[i], ss[i + 1]) {
      if i < |events| { assert Step(v, states[i], events[i], states[i + 1]); }
    }
  }

  /** A store with nothing but usage records has no tenant data. */
  lemma EmptyBounded(m: Store)
    requires SameData(m, map[])
    ensures Bounded(m)
  {
    forall t ensures Total(m, t) < Quota.U64_RANGE {
      QuotaRuns.SweepNeverGrows(map[], m, {}, t);
    }
  }

  lemma NowSurvives(d: Disk)
    ensures d.Survives(true, d.Data())
  {
    assert d.journal[..|d.journal|] == d.journal;
    PointSurvives(d, |d.journal|);
  }

  const NOTHING: Request := DeleteRequest([])

  /** Deleting a key that is nobody's still logs a record, and stores nothing. */
  lemma DeleteNothing(v: Env, n: Node)
    requires NodeInv(n) && SameData(n.store, map[])
    ensures Admissible(NOTHING) && OpsOf(v.c, n, NOTHING) == [StoreDelete([])]
    ensures Bounded(Exec(v.c, n, NOTHING).store)
  {
    hide Perform, Sound, WellFormed, UsageExact, CoveredAfter, TtlCounted, Total;
    assert KeyCodec.Decode([]).Err?;
    PlannedDeleteIsSound(n.store, []);
    PlansAreLegal(n, [], []);
    PerformStore(v.c, n, DeleteWrite([]), PlanDelete(n.store, []).value);
    EmptyBounded(Exec(v.c, n, NOTHING).store);
  }

  /** A crash right before a request does anything. */
  lemma CrashFirst(v: Env, s: System, req: Request) returns (s': System)
    requires v.c.durable && SystemInv(v, s) && s.Up? && Admissible(req)
    ensures Step(v, s, CrashServing(req, 0, 0, s.disk.Data()), s')
    ensures s' == Down(Disk(s.disk.file, s.disk.Data(), []), s.log, s.acked, s.lost)
  {
    hide Serves, NodeInv, Bounded, Exec, OpsOf, Goes, Admissible, Disk.Survives;
    var t :| Explains(v, s, t);
    var ms, st' := RequestFollows(v.c, s.node, req, State(t, s.disk));
    var es := Delta(s.node, Exec(v.c, s.node, req));
    assert es[..0] == [];
    NowSurvives(s.disk);
    s' := Down(CrashedDisk(s.disk, es, 0, 0, s.disk.Data()), s.log + Completed([]), s.acked, s.lost);
    assert s.disk.file + [] == s.disk.file && s.log + [] == s.log;
  }

  /** A crash while starting, between the truncation and the header. */
  lemma CrashBeforeHeader(v: Env, s: System) returns (at: nat, survivors: Store, s': System)
    requires v.c.durable && s.Down? && Recover(s.disk.file).Ok? && s.disk.file != []
    ensures Step(v, s, CrashOpening(at, 0, survivors), s')
    ensures s'.Down? && s'.disk.file == [] && s'.log == s.log && s'.acked == s.acked && s'.lost == s.lost
  {
    hide Recover, Disk.Survives, Disk.DoAll, Engines, RecordOps, Header;
    var rec := Recover(s.disk.file).value;
    var w := WalState(OpenedFile(s.disk.file), rec.nextSeq, rec.segmentBytes);
    var first := OpenEffects(s.disk.file) + Engines(RecordOps(rec.records)) + [Flush];
    var es := OpenNodeEffects(true, s.disk.file);
    assert es == first + [TruncateFile(0)] + [AppendFile(Header(w.nextSeq))];
    at := |es| - 1;
    assert es[..at] == first + [TruncateFile(0)];
    DoAllAppend(s.disk, first, TruncateFile(0));
    var d := s.disk.DoAll(es[..at]);
    survivors := d.Data();
    NowSurvives(d);
    s' := Down(CrashedDisk(s.disk, es, at, 0, survivors), s.log, s.acked, Forgets(s));
  }

  lemma EmptyFileOpens(v: Env, d: Disk)
    requires d.file == [] && v.c.durable
    ensures var n := OpenNode(v.c, v.quota, v.window, d.file, d.Data()); n.Ok? && n.value.wal.nextSeq == 0
  {
    hide ApplyAll, BootTtl, BootUsage, Header;
  }

  /** A history whose node has acknowledged one record. */
  lemma OneAcknowledged(v: Env) returns (states: seq<System>, events: seq<Event>)
    requires v.c.durable
    ensures IsHistory(v, states, events) && |events| == 2
    ensures var s := states[2]; s.Up? && !s.lost && s.acked > 0 && s.log == [StoreDelete([])]
  {
    hide Step, SystemInv, OpenNode, NodeInv, Bounded, Exec, OpsOf, Admissible, RecordsIn, Recover, ApplyAll;
    hide Forgets, SameData;
    var start: seq<System> := [FRESH];
    assert IsHistory(v, start, []);
    var s1 := FreshOpens(v);
    HistoryGrows(v, start, [], Reopen, s1);
    states, events := start + [s1], [] + [Reopen];
    HistoryKeeps(v, states, events, 1);
    NothingLost(v, states, events, 0);
    CrashSafety(v, states, events, 1);
    ApplyNone(map[]);
    StillKnows(v, s1);
    DeleteNothing(v, s1.node);
    var s2 := EveryRequestServed(v, s1, NOTHING);
    HistoryGrows(v, states, events, Serve(NOTHING), s2);
    states, events := states + [s2], events + [Serve(NOTHING)];
    NothingLost(v, states, events, 1);
    Acknowledged(v, states, events, 1);
  }

  lemma StillKnows(v: Env, s1: System)
    requires Step(v, FRESH, Reopen, s1) && s1.Up?
    ensures !s1.lost
  {
    hide OpenNode, Bounded, Disk.DoAll;
  }

  /** The reuse of numbers is real: a durable node can acknowledge a write, crash, crash again
      while starting, and come up handing out number zero. */
  lemma ReuseReachable(v: Env) returns (states: seq<System>, events: seq<Event>)
    requires v.c.durable
    ensures IsHistory(v, states, events) && |events| == 5
    ensures var s := states[5]; s.Up? && s.lost && s.node.wal.nextSeq == 0 < s.acked
  {
    hide Step, IsHistory, SystemInv, OpenNode, Bounded, Admissible, Recover, ApplyAll, Forgets, Holds, SameData;
    states, events := OneAcknowledged(v);
    HistoryLength(v, states, events);
    var s2 := states[2];
    HistoryKeeps(v, states, events, 2);
    var base, rs := SegmentExact(v, states, events, 2);
    SegmentOpens(s2.node.wal, base, rs);
    NothingAdmissible();
    var s3 := CrashFirst(v, s2, NOTHING);
    HistoryGrows(v, states, events, CrashServing(NOTHING, 0, 0, s2.disk.Data()), s3);
    states, events := states + [s3], events + [CrashServing(NOTHING, 0, 0, s2.disk.Data())];
    var at, survivors, s4 := CrashBeforeHeader(v, s3);
    HistoryGrows(v, states, events, CrashOpening(at, 0, survivors), s4);
    states, events := states + [s4], events + [CrashOpening(at, 0, survivors)];
    var s5 := OpensForgetting(v, states, events, s4);
    HistoryGrows(v, states, events, Reopen, s5);
    states, events := states + [s5], events + [Reopen];
  }

  lemma HistoryLength(v: Env, states: seq<System>, events: seq<Event>)
    requires IsHistory(v, states, events)
    ensures |states| == |events| + 1
  {
    hide Step;
  }

  lemma NothingAdmissible()
    ensures Admissible(NOTHING)
  {
    assert KeyCodec.Decode([]).Err?;
  }

  lemma OpensForgetting(v: Env, states: seq<System>, events: seq<Event>, s: System) returns (s': System)
    requires v.c.durable && IsHistory(v, states, events) && s == states[|events|]
    requires s.Down? && s.disk.file == [] && s.acked > 0 && s.log == [StoreDelete([])]
    ensures Step(v, s, Reopen, s') && s'.Up? && s'.lost && s'.node.wal.nextSeq == 0 < s'.acked
  {
    hide IsHistory, Step, OpenNode, Bounded, ApplyAll, Forgets, SameData;
    HistoryLength(v, states, events);
    CrashSafety(v, states, events, |events|);
    EmptyFileOpens(v, s.disk);
    var n := OpenNode(v.c, v.quota, v.window, s.disk.file, s.disk.Data()).value;
    DeletedIsEmpty();
    EmptyBounded(n.store);
    s' := Reopened(v, s, n);
  }

  lemma DeletedIsEmpty()
    ensures ApplyAll(map[], [StoreDelete([])]) == map[]
  {
    assert [StoreDelete([])][..0] == [];
  }

  lemma SegmentOpens(w: WalState, base: u64, rs: seq<WalRecord>)
    requires Holds(w, base, rs) && AllFit(rs)
    ensures Recover(w.file).Ok? && w.file != []
  {
    hide Recover, Frame, Header;
    var r := WalRecord(0, WalOp.Put, [], []);
    FrameLayout(r);
    RecoverTorn(base, rs, r, 0);
    assert w.file + Frame(r)[..0] == w.file;
  }

  lemma Acknowledged(v: Env, states: seq<System>, events: seq<Event>, i: nat)
    requires IsHistory(v, states, events) && i < |events| && events[i] == Serve(NOTHING)
    requires states[i].Up? && OpsOf(v.c, states[i].node, NOTHING) == [StoreDelete([])]
    ensures states[i + 1].Up? && states[i + 1].acked > 0
    ensures states[i + 1].lost == states[i].lost
  {
    hide OpsOf, Exec, Admissible, Bounded;
    NumbersGiven(v, states, events, i);
    assert Step(v, states[i], events[i], states[i + 1]);
  }

  lemma Reopened(v: Env, s: System, n: Node) returns (s': System)
    requires s.Down? && OpenNode(v.c, v.quota, v.window, s.disk.file, s.disk.Data()) == Ok(n) && Bounded(n.store)
    ensures Step(v, s, Reopen, s') && s' == Up(n, s.disk.DoAll(n.effects), s.log, s.acked, Forgets(s))
    ensures s.disk.file == [] && s.acked > 0 ==> Forgets(s)
  {
    hide OpenNode, Bounded;
    s' := Up(n, s.disk.DoAll(n.effects), s.log, s.acked, Forgets(s));
  }
}
