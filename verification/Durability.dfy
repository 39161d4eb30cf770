/** The service's own effects follow the protocol: writes, sweeps, rotations, start-up. */
module Durability {
  import opened ByteStrings
  import opened Disk
  import opened WalFrames
  import opened WriteAheadLog
  import opened NodeSpec
  import opened NodeInvariants
  import opened Protocol
  import opened Recovery
  import KeyCodec
  import ValueCodec
  import TtlIndex
  import Quota

  /** A running node, its disk, and the tracker that explains the disk. */
  ghost predicate Serves(durable: bool, n: Node, s: State) {
    && s.t.phase.Idle?
    && Tracks(durable, s.t, s.d)
    && Holds(n.wal, s.t.base, s.t.seg)
    && n.wal.nextSeq == s.t.resume
    && s.d.Data() == n.store
  }

  // -------------------------------------------------------------- pieces of runs

  lemma LogAndStore(durable: bool, s: State, r: WalRecord) returns (s': State)
    requires Enabled(durable, s.t, LogRecord(r))
    ensures Goes(durable, s, [LogRecord(r), StoreRecord], s',
                 [AppendFile(Frame(r)), Engine(RecordOp(r))], [RecordOp(r)])
    ensures s'.t == s.t.(seg := s.t.seg + [r], resume := SaturatingAdd(s.t.resume, 1))
    ensures s'.d.Data() == ApplyOp(s.d.Data(), RecordOp(r))
  {
    hide Frame, Storable, Goes;
    var s1 := StepTo(durable, s, LogRecord(r));
    s' := StepTo(durable, s1, StoreRecord);
    GoesOne(durable, s, LogRecord(r));
    GoesOne(durable, s1, StoreRecord);
    GoesThen(durable, s, [LogRecord(r)], s1, [AppendFile(Frame(r))], [RecordOp(r)],
             [StoreRecord], s', [Engine(RecordOp(r))], [],
             [AppendFile(Frame(r)), Engine(RecordOp(r))], [RecordOp(r)]);
    assert [LogRecord(r)] + [StoreRecord] == [LogRecord(r), StoreRecord];
    DataAfterOp(s1.d, RecordOp(r));
  }

  lemma {:induction false} UsageFollows(durable: bool, s: State, ops: seq<StoreOp>) returns (ms: seq<Mark>, s': State)
    requires s.t.phase.Idle?
    requires forall i | 0 <= i < |ops| :: Quota.IsUsageRecord(ops[i].key) && Storable(ops[i])
    ensures Goes(durable, s, ms, s', Engines(ops), [])
    ensures s'.t == s.t && s'.d.Data() == ApplyAll(s.d.Data(), ops)
    decreases |ops|
  {
    hide Quota.IsUsageRecord, Storable, Goes, ApplyAll;
    if ops == [] {
      ms, s' := [], s;
      GoesNowhere(durable, s);
      ApplyNone(s.d.Data());
    } else {
      var n := |ops| - 1;
      var xs, s1 := UsageFollows(durable, s, ops[..n]);
      var m := StoreUsage(ops[n]);
      s' := StepTo(durable, s1, m);
      GoesOne(durable, s1, m);
      GoesThen(durable, s, xs, s1, Engines(ops[..n]), [], [m], s', [Engine(ops[n])], [], Engines(ops), []);
      ms := xs + [m];
      DataAfterOp(s1.d, ops[n]);
      ApplyAllAppend(s.d.Data(), ops[..n], ops[n]);
      assert ops[..n] + [ops[n]] == ops;
    }
  }

  lemma RotationFollows(durable: bool, s: State, w: WalState) returns (ms: seq<Mark>, s': State)
    requires durable && s.t.phase.Idle? && w.nextSeq == s.t.resume
    ensures Goes(durable, s, ms, s', RotationEffects(w), [])
    ensures s'.t == Tracker(Idle, s.t.Log(), w.nextSeq, [], s.t.resume)
    ensures s'.d.Data() == s.d.Data()
  {
    hide Header, RecordOps, Goes;
    var s1 := StepTo(durable, s, FlushAll);
    var s2 := StepTo(durable, s1, DropSegment);
    s' := StepTo(durable, s2, NewHeader(w.nextSeq));
    GoesOne(durable, s, FlushAll);
    GoesOne(durable, s1, DropSegment);
    GoesOne(durable, s2, NewHeader(w.nextSeq));
    GoesThen(durable, s, [FlushAll], s1, [Flush], [], [DropSegment], s2, [TruncateFile(0)], [],
             [Flush, TruncateFile(0)], []);
    ms := [FlushAll] + [DropSegment];
    GoesThen(durable, s, ms, s2, [Flush, TruncateFile(0)], [],
             [NewHeader(w.nextSeq)], s', [AppendFile(Header(w.nextSeq))], [], RotationEffects(w), []);
    ms := ms + [NewHeader(w.nextSeq)];
  }

  // ---------------------------------------------------------------- one write

  lemma BillStorable(q: Quota.QuotaState, plan: Option<Accounting>)
    requires LegalPlan(plan)
    ensures var ops := BillOps(q, plan);
      forall i | 0 <= i < |ops| :: Quota.IsUsageRecord(ops[i].key) && Storable(ops[i])
  {
    hide KeyCodec.Decode, ValueCodec.Decode, ValueCodec.Encode, KeyCodec.ValidUtf8, Quota.IsUsageRecord, BE;
    if Bills(plan) {
      var total := Quota.Used(Billed(q, plan), plan.value.tenant);
      Quota.UsageKeyIsRecord(plan.value.tenant);
      ValueCodec.DecodeEncode(BE(total, 8), None);
    }
  }

  /** The write's record fits the log, its entry is sane. */
  predicate Loggable(w: Write) {
    && |w.key| < 0x1_0000_0000 && |w.stored| < 0x1_0000_0000
    && !Quota.IsUsageRecord(w.key)
  }

  lemma WriteIsLoggable(n: Node, w: Write, plan: Option<Accounting>)
    requires Sound(n.store, w, plan) && Loggable(w)
    ensures LegalPlan(plan) && Storable(EngineOp(w.op, w.key, w.stored))
  {
    hide ValueCodec.Decode, KeyCodec.Decode, Weight;
  }

  /** An admitted write follows the protocol from idle to idle and logs itself once. */
  lemma WriteFollows(c: Config, n: Node, w: Write, plan: Option<Accounting>, s: State)
    returns (ms: seq<Mark>, s': State)
    requires Serves(c.durable, n, s) && Sound(n.store, w, plan) && Loggable(w)
    ensures var n' := Perform(c, n, w, plan);
      && Serves(c.durable, n', s')
      && n.effects <= n'.effects
      && Goes(c.durable, s, ms, s', n'.effects[|n.effects|..], [EngineOp(w.op, w.key, w.stored)])
  {
    var r := NextRecord(n.wal, w.op, w.key, w.stored);
    WriteIsLoggable(n, w, plan);
    assert Enabled(c.durable, s.t, LogRecord(r));
    hide Frame, Header, Sound, Tracks, Storable, Quota.IsUsageRecord, TtlIndex.Scheduled, Announced, Billed;
    hide BillOps, LegalPlan;
    hide ApplyAll, RotationEffects, Enabled, RecordOps, Goes, Holds;
    var logged, bill := Appended(n.wal, r), BillOps(n.quota, plan);
    AppendKeeps(n.wal, s.t.base, s.t.seg, w.op, w.key, w.stored);
    BillStorable(n.quota, plan);
    var s1 := LogAndStore(c.durable, s, r);
    var usage, s2 := UsageFollows(c.durable, s1, bill);
    var stored := [AppendFile(Frame(r)), Engine(RecordOp(r))] + Engines(bill);
    GoesThen(c.durable, s, [LogRecord(r), StoreRecord], s1, [AppendFile(Frame(r)), Engine(RecordOp(r))], [RecordOp(r)],
             usage, s2, Engines(bill), [], stored, [RecordOp(r)]);
    ApplyFirst(n.store, RecordOp(r), bill);
    var rotation: seq<Effect> := [];
    ms, s' := [LogRecord(r), StoreRecord] + usage, s2;
    if MustRotate(c, logged) {
      rotation := RotationEffects(logged);
      var rotate, s3 := RotationFollows(c.durable, s2, logged);
      GoesThen(c.durable, s, ms, s2, stored, [RecordOp(r)], rotate, s3, rotation, [], stored + rotation, [RecordOp(r)]);
      RotateKeeps(logged);
      ms, s' := ms + rotate, s3;
    }
    assert stored + rotation == WriteEffects(c, logged, r, bill);
    GoesKeeps(c.durable, s, ms, s', WriteEffects(c, logged, r, bill), [RecordOp(r)]);
  }

  // ----------------------------------------------------------------- requests

  datatype Request =
    | PutRequest(now: u64, key: Bytes, value: Bytes, ttlMs: u64)
    | DeleteRequest(key: Bytes)
    | SweepRequest(now: u64)

  ghost function Exec(c: Config, n: Node, req: Request): Node {
    match req
    case PutRequest(now, key, value, ttlMs) => NodeSpec.Put(c, n, now, key, value, ttlMs).0
    case DeleteRequest(key) => NodeSpec.Delete(c, n, key).0
    case SweepRequest(now) => Sweep(c, n, now).0
  }

  /** Keys and values the log can carry; usage records are the node's own. */
  predicate Admissible(req: Request) {
    match req
    case PutRequest(_, key, value, _) =>
      |key| < 0x1_0000_0000 && |value| + 9 < 0x1_0000_0000 && !Quota.IsUsageRecord(key)
    case DeleteRequest(key) => |key| < 0x1_0000_0000 && !Quota.IsUsageRecord(key)
    case SweepRequest(_) => true
  }

  /** The deletes a sweep over `keys` performs, in order. */
  ghost function SweepOps(c: Config, n: Node, now: u64, keys: seq<Bytes>): seq<StoreOp> {
    if keys == [] then []
    else
      var n1 := SweepKeys(c, n, now, keys[..|keys| - 1]).0;
      var key := keys[|keys| - 1];
      SweepOps(c, n, now, keys[..|keys| - 1]) +
      (if key in n1.store && Expired(n1.store[key], now) then [StoreDelete(key)] else [])
  }

  /** The writes a request makes once it is acknowledged: at most one for a put or a
      delete, none for a refused put. */
  ghost function OpsOf(c: Config, n: Node, req: Request): seq<StoreOp> {
    match req
    case PutRequest(now, key, value, ttlMs) =>
      if AdmitPut(n, key, value).Ok? then [StorePut(key, PutWrite(now, key, value, ttlMs).stored)] else []
    case DeleteRequest(key) => if PlanDelete(n.store, key).Ok? then [StoreDelete(key)] else []
    case SweepRequest(now) =>
      SweepOps(c, n.(ttl := TtlIndex.Drained(n.ttl, now)), now, TtlIndex.DueKeys(n.ttl.buckets, now))
  }

  lemma ServesSane(durable: bool, n: Node, s: State)
    requires Serves(durable, n, s)
    ensures Sane(n.store) && WellFormed(n.store) && UsagePlain(n.store)
  {
    hide FileMatches, DataMatches, AllHeld, RecordsFine, Holds, ValueCodec.Decode, Quota.IsUsageRecord, Expiry;
    assert s.d.journal[..|s.d.journal|] == s.d.journal;
    assert Sane(ApplyAll(s.d.flushed, s.d.journal[..|s.d.journal|]));
    assert forall k | k in n.store :: SaneEntry(k, n.store[k]);
  }

  lemma EncodedLength(value: Bytes, expiresAt: Option<u64>)
    ensures |ValueCodec.Encode(value, expiresAt)| <= |value| + 9
  {}

  /** Effects are only ever added. */
  ghost predicate Extends(n: Node, n': Node) {
    n.effects <= n'.effects
  }

  function Delta(n: Node, n': Node): seq<Effect>
    requires |n.effects| <= |n'.effects|
  {
    n'.effects[|n.effects|..]
  }

  lemma DeltaThen(n: Node, n1: Node, n2: Node)
    requires Extends(n, n1) && Extends(n1, n2)
    ensures Extends(n, n2) && Delta(n, n2) == Delta(n, n1) + Delta(n1, n2)
  {}

  lemma ServesTtl(durable: bool, n: Node, s: State, t: TtlIndex.TtlState)
    requires Serves(durable, n, s)
    ensures Serves(durable, n.(ttl := t), s)
  {
    hide Tracks, Holds;
  }

  lemma DeleteFollows(c: Config, n: Node, key: Bytes, s: State) returns (ms: seq<Mark>, s': State)
    requires Serves(c.durable, n, s) && |key| < 0x1_0000_0000 && !Quota.IsUsageRecord(key)
    ensures var (n', res) := NodeSpec.Delete(c, n, key);
      && res.Ok? && Serves(c.durable, n', s') && Extends(n, n')
      && Goes(c.durable, s, ms, s', Delta(n, n'), [StoreDelete(key)])
    ensures PlanDelete(n.store, key).Ok?
  {
    hide Serves, Goes, Sound, Perform, PlanDelete, Quota.IsUsageRecord, WellFormed;
    ServesSane(c.durable, n, s);
    PlannedDeleteIsSound(n.store, key);
    PlansAreLegal(n, key, []);
    ms, s' := WriteFollows(c, n, DeleteWrite(key), PlanDelete(n.store, key).value, s);
  }

  lemma SweepKeyFollows(c: Config, n: Node, now: u64, key: Bytes, s: State) returns (ms: seq<Mark>, s': State)
    requires Serves(c.durable, n, s)
    ensures var n' := SweepKey(c, n, now, key).0;
      && Serves(c.durable, n', s') && Extends(n, n')
      && Goes(c.durable, s, ms, s', Delta(n, n'),
              if key in n.store && Expired(n.store[key], now) then [StoreDelete(key)] else [])
  {
    hide Serves, Goes, NodeSpec.Delete, ValueCodec.Decode, ValueCodec.IsExpired, Quota.IsUsageRecord;
    hide TtlIndex.Scheduled;
    hide WellFormed, UsagePlain;
    assert Delta(n, n) == [];
    if key in n.store {
      ServesSane(c.durable, n, s);
      assert SaneEntry(key, n.store[key]);
      ValueCodec.ShortcutsAgree(n.store[key], now);
      if Expired(n.store[key], now) {
        ms, s' := DeleteFollows(c, n, key, s);
        return;
      }
      var e := Expiry(n.store[key]);
      if e.Some? {
        ServesTtl(c.durable, n, s, TtlIndex.Scheduled(n.ttl, key, e.value));
      }
    }
    ms, s' := [], s;
    GoesNowhere(c.durable, s);
  }

  lemma {:induction false} SweepFollows(c: Config, n: Node, now: u64, keys: seq<Bytes>, s: State)
    returns (ms: seq<Mark>, s': State)
    requires Serves(c.durable, n, s)
    ensures var n' := SweepKeys(c, n, now, keys).0;
      && Serves(c.durable, n', s') && Extends(n, n')
      && Goes(c.durable, s, ms, s', Delta(n, n'), SweepOps(c, n, now, keys))
    decreases |keys|
  {
    hide Serves, Goes, SweepKey, Expired;
    if keys == [] {
      ms, s' := [], s;
      GoesNowhere(c.durable, s);
      assert Delta(n, n) == [];
    } else {
      var init, key := keys[..|keys| - 1], keys[|keys| - 1];
      var n1 := SweepKeys(c, n, now, init).0;
      var xs, s1 := SweepFollows(c, n, now, init, s);
      var ys, s2 := SweepKeyFollows(c, n1, now, key, s1);
      var n2 := SweepKey(c, n1, now, key).0;
      DeltaThen(n, n1, n2);
      GoesThen(c.durable, s, xs, s1, Delta(n, n1), SweepOps(c, n, now, init), ys, s2, Delta(n1, n2),
               if key in n1.store && Expired(n1.store[key], now) then [StoreDelete(key)] else [],
               Delta(n, n2), SweepOps(c, n, now, keys));
      ms, s' := xs + ys, s2;
    }
  }

  /** Every request follows the protocol and logs exactly the writes it acknowledges. */
  lemma RequestFollows(c: Config, n: Node, req: Request, s: State) returns (ms: seq<Mark>, s': State)
    requires Serves(c.durable, n, s) && Admissible(req)
    ensures var n' := Exec(c, n, req);
      && Serves(c.durable, n', s') && Extends(n, n')
      && Goes(c.durable, s, ms, s', Delta(n, n'), OpsOf(c, n, req))
  {
    ServesSane(c.durable, n, s);
    hide Serves, Goes, Sound, Perform, PlanDelete, AdmitPut, SweepKeys, SweepOps, TtlIndex.DueKeys, TtlIndex.Drained;
    hide Quota.IsUsageRecord, WellFormed, ValueCodec.Encode;
    match req {
      case PutRequest(now, key, value, ttlMs) =>
        PlansAreLegal(n, key, value);
        if AdmitPut(n, key, value).Ok? {
          AdmittedPutIsSound(n, now, key, value, ttlMs);
          EncodedLength(value, ExpiryOf(now, ttlMs));
          ms, s' := WriteFollows(c, n, PutWrite(now, key, value, ttlMs), AdmitPut(n, key, value).value, s);
        } else {
          ms, s' := [], s;
          GoesNowhere(c.durable, s);
        }
      case DeleteRequest(key) =>
        ms, s' := DeleteFollows(c, n, key, s);
      case SweepRequest(now) =>
        var n0 := n.(ttl := TtlIndex.Drained(n.ttl, now));
        ServesTtl(c.durable, n, s, n0.ttl);
        ms, s' := SweepFollows(c, n0, now, TtlIndex.DueKeys(n.ttl.buckets, now), s);
    }
  }
}
