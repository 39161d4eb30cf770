/** When the log is rotated, and what that makes of its size over whole histories. */
module Rotation {
  import opened ByteStrings
  import opened Disk
  import opened WalFrames
  import opened WriteAheadLog
  import opened NodeSpec
  import opened NodeInvariants
  import opened Durability
  import opened Histories
  import opened HistoryLaws
  import KeyCodec
  import ValueCodec
  import TtlIndex
  import Quota

  lemma FrameLength(r: WalRecord)
    ensures |Frame(r)| == 21 + |r.key| + |r.value|
  {
    hide Frame;
    FrameLayout(r);
  }

  /** One admitted write: the segment is dropped if and only if storage is durable and the
      write takes the segment to the threshold; if not, the write is added to it. */
  lemma WriteRotates(c: Config, n: Node, w: Write, plan: Option<Accounting>)
    requires LegalPlan(plan)
    ensures var n' := Perform(c, n, w, plan);
            var grown := n.wal.segmentBytes + 21 + |w.key| + |w.stored|;
      && Extends(n, n')
      && (TruncateFile(0) in Delta(n, n') <==> c.durable && grown >= c.rotateBytes)
      && (if TruncateFile(0) in Delta(n, n')
          then n'.wal.segmentBytes == 14
          else n'.wal.segmentBytes == grown && n.wal.file <= n'.wal.file)
  {
    hide Frame, Header, BillOps, Billed, Announced, TtlIndex.Scheduled, ApplyAll, LegalPlan;
    var r := NextRecord(n.wal, w.op, w.key, w.stored);
    FrameLength(r);
    var bill := Engines(BillOps(n.quota, plan));
    assert Delta(n, Perform(c, n, w, plan)) == WriteEffects(c, Appended(n.wal, r), r, BillOps(n.quota, plan));
    assert TruncateFile(0) !in [AppendFile(Frame(r)), Engine(RecordOp(r))] + bill;
    assert RotationEffects(Appended(n.wal, r))[1] == TruncateFile(0);
  }

  /** A segment holds nothing but its header, or it is below the threshold. */
  predicate Short(c: Config, w: WalState) {
    c.durable ==> w.segmentBytes == 14 || w.segmentBytes < c.rotateBytes
  }

  /** Nothing was taken from the log. */
  ghost predicate OnlyGrows(n: Node, n': Node) {
    Extends(n, n') && n.wal.file <= n'.wal.file && TruncateFile(0) !in Delta(n, n')
  }

  /** What a request does to the length of the log. */
  ghost predicate KeepsShort(c: Config, n: Node, n': Node) {
    (Short(c, n.wal) ==> Short(c, n'.wal)) && (!c.durable ==> OnlyGrows(n, n'))
  }

  lemma Unchanged(c: Config, n: Node, n': Node)
    requires n'.wal == n.wal && n'.effects == n.effects
    ensures KeepsShort(c, n, n')
  {}

  lemma KeepsThen(c: Config, n: Node, n1: Node, n2: Node)
    requires KeepsShort(c, n, n1) && KeepsShort(c, n1, n2)
    ensures KeepsShort(c, n, n2)
  {
    hide Short;
    if !c.durable { DeltaThen(n, n1, n2); }
  }

  lemma WriteKeepsShort(c: Config, n: Node, w: Write, plan: Option<Accounting>)
    requires LegalPlan(plan)
    ensures KeepsShort(c, n, Perform(c, n, w, plan))
  {
    hide Perform, LegalPlan;
    WriteRotates(c, n, w, plan);
  }

  lemma {:induction false} SweepKeepsShort(c: Config, n: Node, now: u64, keys: seq<Bytes>)
    ensures KeepsShort(c, n, SweepKeys(c, n, now, keys).0)
    decreases |keys|
  {
    hide KeepsShort, Perform, PlanDelete, TtlIndex.Scheduled, ValueCodec.Decode, ValueCodec.IsExpired;
    if keys == [] {
      Unchanged(c, n, n);
    } else {
      var init, key := keys[..|keys| - 1], keys[|keys| - 1];
      var n1 := SweepKeys(c, n, now, init).0;
      var n2 := SweepKey(c, n1, now, key).0;
      SweepKeepsShort(c, n, now, init);
      PlansAreLegal(n1, key, []);
      if PlanDelete(n1.store, key).Ok? { WriteKeepsShort(c, n1, DeleteWrite(key), PlanDelete(n1.store, key).value); }
      if n2.wal == n1.wal && n2.effects == n1.effects { Unchanged(c, n1, n2); }
      KeepsThen(c, n, n1, n2);
    }
  }

  lemma RequestKeepsShort(c: Config, n: Node, req: Request)
    ensures KeepsShort(c, n, Exec(c, n, req))
  {
    hide KeepsShort, Perform, PlanDelete, AdmitPut, SweepKeys, TtlIndex.DueKeys, TtlIndex.Drained;
    Unchanged(c, n, n);
    match req {
      case PutRequest(now, key, value, ttlMs) =>
        PlansAreLegal(n, key, value);
        if AdmitPut(n, key, value).Ok? {
          WriteKeepsShort(c, n, PutWrite(now, key, value, ttlMs), AdmitPut(n, key, value).value);
        }
      case DeleteRequest(key) =>
        PlansAreLegal(n, key, []);
        if PlanDelete(n.store, key).Ok? { WriteKeepsShort(c, n, DeleteWrite(key), PlanDelete(n.store, key).value); }
      case SweepRequest(now) =>
        var n0 := n.(ttl := TtlIndex.Drained(n.ttl, now));
        Unchanged(c, n, n0);
        SweepKeepsShort(c, n0, now, TtlIndex.DueKeys(n.ttl.buckets, now));
        KeepsThen(c, n, n0, Exec(c, n, req));
    }
  }

  lemma OpenIsShort(v: Env, file: Bytes, engine: Store)
    ensures var n := OpenNode(v.c, v.quota, v.window, file, engine); n.Ok? ==> Short(v.c, n.value.wal)
  {
    hide Recover, OpenedFile, OpenNodeEffects, BootTtl, BootUsage, ApplyAll;
  }

  lemma {:induction false} HistoryShort(v: Env, states: seq<System>, events: seq<Event>, i: nat)
    requires IsHistory(v, states, events) && i < |states|
    ensures states[i].Up? ==> Short(v.c, states[i].node.wal)
  {
    hide Exec, OpsOf, Short, Admissible, OpenNode, OpenNodeEffects, CanCrash, CrashedDisk, Completed, Bounded;
    if i > 0 {
      HistoryShort(v, states, events, i - 1);
      var s := states[i - 1];
      assert Step(v, s, events[i - 1], states[i]);
      match events[i - 1] {
        case Serve(req) => RequestKeepsShort(v.c, s.node, req);
        case Reopen => OpenIsShort(v, s.disk.file, s.disk.Data());
        case _ =>
      }
    }
  }

  /** In every history of a node with durable storage the log file stays below the threshold
      whenever the node is up, except that it always has its 14-byte header. */
  lemma LogStaysShort(v: Env, states: seq<System>, events: seq<Event>, i: nat)
    requires IsHistory(v, states, events) && i < |states| && states[i].Up?
    ensures v.c.durable ==> |states[i].disk.file| == 14 || |states[i].disk.file| < v.c.rotateBytes
  {
    hide IsHistory;
    HistoryShort(v, states, events, i);
    var base, rs := SegmentExact(v, states, events, i);
  }

  /** On a memory backend nothing is ever taken from the log: every request leaves it as it
      was or longer. */
  lemma MemoryLogOnlyGrows(v: Env, states: seq<System>, events: seq<Event>, i: nat)
    requires IsHistory(v, states, events) && i < |events| && events[i].Serve? && !v.c.durable
    ensures states[i].Up? && states[i + 1].Up? && states[i].disk.file <= states[i + 1].disk.file
    ensures Extends(states[i].node, states[i + 1].node)
    ensures TruncateFile(0) !in Delta(states[i].node, states[i + 1].node)
  {
    hide Exec, OpsOf, Short, Admissible, Bounded, NodeInv;
    assert Step(v, states[i], events[i], states[i + 1]);
    RequestKeepsShort(v.c, states[i].node, events[i].req);
    hide IsHistory;
    var base, rs := SegmentExact(v, states, events, i);
    var base', rs' := SegmentExact(v, states, events, i + 1);
  }

  /** How many bytes of log a request takes, framing included; a refused put takes none. */
  ghost function LogBytes(n: Node, req: Request): nat
    requires !req.SweepRequest?
  {
    match req
    case PutRequest(_, key, value, ttlMs) =>
      if AdmitPut(n, key, value).Err? then 0 else 21 + |key| + (if ttlMs > 0 then 9 else 1) + |value|
    case DeleteRequest(key) => 21 + |key|
  }

  /** In every history a put or a delete drops the segment if and only if storage is durable
      and the file, with the request's own record added, reaches the threshold. */
  lemma RotatesExactly(v: Env, states: seq<System>, events: seq<Event>, i: nat)
    requires IsHistory(v, states, events) && i < |events| && events[i].Serve? && !events[i].req.SweepRequest?
    ensures var (s, s') := (states[i], states[i + 1]);
      && s.Up? && s'.Up? && Extends(s.node, s'.node)
      && var added := LogBytes(s.node, events[i].req);
         var rotates := v.c.durable && added > 0 && |s.disk.file| + added >= v.c.rotateBytes;
      && (TruncateFile(0) in Delta(s.node, s'.node) <==> rotates)
      && |s'.disk.file| == if rotates then 14 else |s.disk.file| + added
  {
    hide Perform, OpsOf, AdmitPut, PlanDelete, Bounded, NodeInv, SweepKeys, Sweep, ValueCodec.Encode;
    var s, s', req := states[i], states[i + 1], events[i].req;
    assert Step(v, s, events[i], s');
    hide Step, IsHistory;
    var base, rs := SegmentExact(v, states, events, i);
    var base', rs' := SegmentExact(v, states, events, i + 1);
    hide Holds, AllFit;
    PlansAreLegal(s.node, req.key, if req.PutRequest? then req.value else []);
    match req {
      case PutRequest(now, key, value, ttlMs) =>
        if AdmitPut(s.node, key, value).Ok? {
          StoredLength(now, key, value, ttlMs);
          WriteRotates(v.c, s.node, PutWrite(now, key, value, ttlMs), AdmitPut(s.node, key, value).value);
        }
      case DeleteRequest(key) =>
        DeletesAreServed(v, states, events, i);
        WriteRotates(v.c, s.node, DeleteWrite(key), PlanDelete(s.node.store, key).value);
    }
  }

  lemma StoredLength(now: u64, key: Bytes, value: Bytes, ttlMs: u64)
    ensures |PutWrite(now, key, value, ttlMs).stored| == (if ttlMs > 0 then 9 else 1) + |value|
  {}

  lemma DeletesAreServed(v: Env, states: seq<System>, events: seq<Event>, i: nat)
    requires IsHistory(v, states, events) && i < |events| && events[i].Serve? && events[i].req.DeleteRequest?
    ensures states[i].Up? && PlanDelete(states[i].node.store, events[i].req.key).Ok?
  {
    hide Exec, OpsOf, Admissible, Bounded, PlanDelete, WellFormed, UsageExact, Covered, TtlCounted;
    assert Step(v, states[i], events[i], states[i + 1]);
    hide Step, IsHistory;
    CrashSafety(v, states, events, i);
    PlannedDeleteIsSound(states[i].node.store, events[i].req.key);
  }
}
