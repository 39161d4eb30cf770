/** What every request keeps: counters and indexes that equal a full rescan. */
module NodeInvariants {
  import opened ByteStrings
  import opened Disk
  import opened WalFrames
  import opened WriteAheadLog
  import opened NodeSpec
  import opened Listing
  import KeyCodec
  import ValueCodec
  import Storage
  import TtlIndex
  import Quota

  // ------------------------------------------------------- what the data weighs

  /** What one stored entry counts for in one tenant's usage. */
  function Weight(t: Bytes, k: Bytes, v: Bytes): nat {
    match (KeyCodec.Decode(k), ValueCodec.Decode(v))
    case (Ok(d), Ok(sv)) => if d.subspace.Data? && d.tenant == t then |d.payload| + |sv.value| else 0
    case _ => 0
  }

  function WeightAt(m: Store, t: Bytes, k: Bytes): nat {
    if k in m then Weight(t, k, m[k]) else 0
  }

  /** A tenant's bytes, by adding up everything it stores. */
  ghost function Total(m: Store, t: Bytes): nat
    decreases |m|
  {
    if m == map[] then 0
    else
      var k :| k in m;
      assert (m - {k}).Keys == m.Keys - {k};
      Weight(t, k, m[k]) + Total(m - {k}, t)
  }

  lemma {:induction false} TotalRemove(m: Store, t: Bytes, k: Bytes)
    requires k in m
    ensures Total(m, t) == Weight(t, k, m[k]) + Total(m - {k}, t)
    decreases |m|
  {
    hide Weight;
    var j :| j in m && Total(m, t) == Weight(t, j, m[j]) + Total(m - {j}, t);
    if j != k {
      assert (m - {j}).Keys == m.Keys - {j};
      assert (m - {k}).Keys == m.Keys - {k};
      TotalRemove(m - {j}, t, k);
      TotalRemove(m - {k}, t, j);
      assert m - {j} - {k} == m - {k} - {j};
    }
  }

  lemma TotalWithout(m: Store, t: Bytes, k: Bytes)
    ensures Total(m, t) == WeightAt(m, t, k) + Total(m - {k}, t)
  {
    hide Weight;
    if k in m { TotalRemove(m, t, k); } else { assert m - {k} == m; }
  }

  /** One operation moves the total by the difference it makes at its own key. */
  lemma TotalApply(m: Store, t: Bytes, op: StoreOp)
    ensures var m' := ApplyOp(m, op);
            Total(m', t) - WeightAt(m', t, op.key) == Total(m, t) - WeightAt(m, t, op.key)
  {
    hide Weight;
    var m' := ApplyOp(m, op);
    TotalWithout(m, t, op.key);
    TotalWithout(m', t, op.key);
    assert m' - {op.key} == m - {op.key};
  }

  // ------------------------------------------------------------- the invariant

  ghost predicate WellFormed(m: Store) {
    forall k | k in m :: ValueCodec.Decode(m[k]).Ok?
  }

  function Expiry(v: Bytes): Option<u64> {
    match ValueCodec.Decode(v)
    case Ok(sv) => sv.expiresAt
    case Err(_) => None
  }

  predicate Expired(v: Bytes, now: u64) {
    Expiry(v).Some? && Expiry(v).value <= now
  }

  ghost predicate UsageExact(m: Store, q: Quota.QuotaState) {
    forall t :: Quota.Used(q, t) == Total(m, t)
  }

  /** Every stored entry that expires after `since` is in the bucket of its expiry.
      Stale entries may be there too. */
  ghost predicate CoveredAfter(m: Store, b: TtlIndex.Buckets, since: int) {
    forall k | k in m && Expiry(m[k]).Some? && Expiry(m[k]).value > since :: k in TtlIndex.Bucket(b, Expiry(m[k]).value)
  }

  ghost predicate Covered(m: Store, b: TtlIndex.Buckets) {
    CoveredAfter(m, b, -1)
  }

  ghost predicate TtlCounted(t: TtlIndex.TtlState) {
    t.total == TtlIndex.Size(t.buckets)
  }

  /** The derived structures agree with the data. */
  ghost predicate NodeInv(n: Node) {
    WellFormed(n.store) && UsageExact(n.store, n.quota) && Covered(n.store, n.ttl.buckets) && TtlCounted(n.ttl)
  }

  /** No tenant's data reaches the range of the counters. */
  ghost predicate Bounded(m: Store) {
    forall t :: Total(m, t) < Quota.U64_RANGE
  }

  // -------------------------------------------------------- admitted writes

  function PlanDelta(plan: Option<Accounting>, t: Bytes): int {
    if plan.Some? && plan.value.tenant == t then plan.value.delta else 0
  }

  /** The write is one the service makes, and the plan says what it will do to every
      tenant's total. */
  ghost predicate Sound(m: Store, w: Write, plan: Option<Accounting>) {
    var m' := ApplyOp(m, EngineOp(w.op, w.key, w.stored));
    && LegalPlan(plan)
    && (w.op.Put? ==> ValueCodec.Decode(w.stored) == Ok(ValueCodec.StoredValue(w.expiresAt, w.shown)))
    && (w.op.Delete? ==> w.expiresAt == None)
    && forall t :: PlanDelta(plan, t) == WeightAt(m', t, w.key) - WeightAt(m, t, w.key)
  }

  lemma AdmittedPutIsSound(n: Node, now: u64, key: Bytes, value: Bytes, ttlMs: u64)
    requires WellFormed(n.store)
    requires AdmitPut(n, key, value).Ok?
    ensures Sound(n.store, PutWrite(now, key, value, ttlMs), AdmitPut(n, key, value).value)
  {
    hide KeyCodec.Decode, ValueCodec.Decode, ValueCodec.PayloadLen, ValueCodec.Encode, KeyCodec.LegalTenant;
    hide Quota.CheckWrite;
    PlansAreLegal(n, key, value);
    var w := PutWrite(now, key, value, ttlMs);
    ValueCodec.DecodeEncode(value, w.expiresAt);
    if key in n.store { ValueCodec.ShortcutsAgree(n.store[key], 0); }
  }

  lemma PlannedDeleteIsSound(m: Store, key: Bytes)
    requires WellFormed(m)
    ensures PlanDelete(m, key).Ok? && Sound(m, DeleteWrite(key), PlanDelete(m, key).value)
  {
    hide KeyCodec.Decode, ValueCodec.Decode, ValueCodec.PayloadLen, KeyCodec.LegalTenant;
    if key in m { ValueCodec.ShortcutsAgree(m[key], 0); }
    if KeyCodec.Decode(key).Ok? { KeyCodec.KeyOfDecoded(key); }
  }

  // ------------------------------------------------------- usage bookkeeping

  /** The usage record a write leaves weighs nothing, so billing never bills itself. */
  lemma BillIsFree(m: Store, q: Quota.QuotaState, plan: Option<Accounting>, t: Bytes)
    requires LegalPlan(plan) && WellFormed(m)
    ensures var m' := ApplyAll(m, BillOps(q, plan));
      && WellFormed(m')
      && Total(m', t) == Total(m, t)
      && forall k | !Quota.IsUsageRecord(k) :: Lookup(m', k) == Lookup(m, k)
  {
    hide KeyCodec.Decode, ValueCodec.Decode, ValueCodec.Encode, KeyCodec.Key, Quota.UsageKey, KeyCodec.ValidUtf8;
    if Bills(plan) {
      var tenant := plan.value.tenant;
      var total := Quota.Used(Billed(q, plan), tenant);
      var op := Quota.UsageWrite(tenant, total);
      assert ApplyAll(m, [op]) == ApplyOp(m, op) by { assert [op][..0] == []; }
      KeyCodec.DecodeKey(tenant, KeyCodec.Stats, Quota.USAGE_KEY);
      Quota.UsageKeyIsRecord(tenant);
      ValueCodec.DecodeEncode(BE(total, 8), None);
      forall v ensures Weight(t, op.key, v) == 0 {
        UsageRecordWeighsNothing(op.key, v, t);
      }
      TotalApply(m, t, op);
    }
  }

  lemma UsageRecordWeighsNothing(k: Bytes, v: Bytes, t: Bytes)
    requires Quota.IsUsageRecord(k)
    ensures Weight(t, k, v) == 0
  {}

  /** The counter lands on the new total: the addition does not wrap and the subtraction
      does not clip. */
  lemma CounterExact(q: Quota.QuotaState, plan: Option<Accounting>, t: Bytes, after: nat)
    requires after == Quota.Used(q, t) + PlanDelta(plan, t) < Quota.U64_RANGE
    ensures Quota.Used(Billed(q, plan), t) == after
  {}

  // ------------------------------------------------------------ every write

  lemma PerformStore(c: Config, n: Node, w: Write, plan: Option<Accounting>)
    requires WellFormed(n.store) && Sound(n.store, w, plan)
    ensures var n' := Perform(c, n, w, plan);
      && WellFormed(n'.store)
      && (forall t :: Total(n'.store, t) == Total(n.store, t) + PlanDelta(plan, t))
      && (forall k | !Quota.IsUsageRecord(k) ::
            Lookup(n'.store, k) ==
              if k == w.key then (if w.op.Put? then Some(w.stored) else None) else Lookup(n.store, k))
  {
    hide Weight, BillOps, Billed, TtlIndex.Scheduled, Announced, Appended, Rotated, WriteEffects;
    hide KeyCodec.Decode, ValueCodec.Decode;
    hide LegalPlan, Quota.IsUsageRecord, MustRotate;
    var op := EngineOp(w.op, w.key, w.stored);
    var m1 := ApplyOp(n.store, op);
    var bill := BillOps(n.quota, plan);
    ApplyAllConcat(n.store, [op], bill);
    assert ApplyAll(n.store, [op]) == m1 by { assert [op][..0] == []; }
    assert WellFormed(m1);
    forall t ensures Total(ApplyAll(m1, bill), t) == Total(n.store, t) + PlanDelta(plan, t) {
      TotalApply(n.store, t, op);
      BillIsFree(m1, n.quota, plan, t);
    }
    BillIsFree(m1, n.quota, plan, []);
  }

  lemma PerformUsage(c: Config, n: Node, w: Write, plan: Option<Accounting>)
    requires WellFormed(n.store) && Sound(n.store, w, plan) && UsageExact(n.store, n.quota)
    requires Bounded(Perform(c, n, w, plan).store)
    ensures UsageExact(Perform(c, n, w, plan).store, Perform(c, n, w, plan).quota)
  {
    assert LegalPlan(plan);
    hide Weight, BillOps, Billed, Sound, TtlIndex.Scheduled, Announced, Appended, Rotated, WriteEffects;
    hide ApplyAll, MustRotate;
    var n' := Perform(c, n, w, plan);
    PerformStore(c, n, w, plan);
    forall t ensures Quota.Used(n'.quota, t) == Total(n'.store, t) {
      CounterExact(n.quota, plan, t, Total(n'.store, t));
    }
  }

  /** Usage records never expire, so nothing about them is scheduled. */
  ghost predicate UsagePlain(m: Store) {
    forall k | k in m && Quota.IsUsageRecord(k) :: Expiry(m[k]) == None
  }

  lemma BillStaysPlain(m: Store, q: Quota.QuotaState, plan: Option<Accounting>)
    requires LegalPlan(plan)
    ensures var m' := ApplyAll(m, BillOps(q, plan));
      forall k | k in m' :: Expiry(m'[k]) == None || (k in m && m'[k] == m[k])
  {
    hide KeyCodec.Decode, ValueCodec.Decode, ValueCodec.Encode, KeyCodec.Key, Quota.UsageKey, KeyCodec.ValidUtf8;
    if Bills(plan) {
      var total := Quota.Used(Billed(q, plan), plan.value.tenant);
      var op := Quota.UsageWrite(plan.value.tenant, total);
      assert ApplyAll(m, [op]) == ApplyOp(m, op) by { assert [op][..0] == []; }
      ValueCodec.DecodeEncode(BE(total, 8), None);
    }
  }

  lemma PerformTtl(c: Config, n: Node, w: Write, plan: Option<Accounting>, since: int)
    requires Sound(n.store, w, plan) && CoveredAfter(n.store, n.ttl.buckets, since) && TtlCounted(n.ttl)
    ensures CoveredAfter(Perform(c, n, w, plan).store, Perform(c, n, w, plan).ttl.buckets, since)
    ensures TtlCounted(Perform(c, n, w, plan).ttl)
  {
    hide Weight, BillOps, Billed, Announced, Appended, Rotated, WriteEffects, KeyCodec.Decode;
    hide ValueCodec.Decode, MustRotate;
    hide TtlIndex.Size, LegalPlan, TtlIndex.Earliest;
    var n' := Perform(c, n, w, plan);
    var op := EngineOp(w.op, w.key, w.stored);
    var m1 := ApplyOp(n.store, op);
    var bill := BillOps(n.quota, plan);
    ApplyAllConcat(n.store, [op], bill);
    assert ApplyAll(n.store, [op]) == m1 by { assert [op][..0] == []; }
    BillStaysPlain(m1, n.quota, plan);
    if w.expiresAt.Some? {
      TtlIndex.TotalIsSize(n.ttl, w.key, w.expiresAt.value, 0);
    }
  }

  /** Every admitted write keeps the invariant. */
  lemma PerformKeeps(c: Config, n: Node, w: Write, plan: Option<Accounting>)
    requires NodeInv(n) && Sound(n.store, w, plan)
    requires Bounded(Perform(c, n, w, plan).store)
    ensures NodeInv(Perform(c, n, w, plan))
  {
    hide Perform, Sound, WellFormed, CoveredAfter, UsageExact, TtlCounted;
    PerformStore(c, n, w, plan);
    PerformUsage(c, n, w, plan);
    PerformTtl(c, n, w, plan, -1);
  }

  // ------------------------------------------------------------- starting up

  /** Entries that name every key of `m` once, in any order. */
  ghost predicate Lists(es: seq<Entry>, m: Store) {
    && |es| == |m|
    && (forall i | 0 <= i < |es| :: es[i].0 in m && es[i].1 == m[es[i].0])
    && (forall i, j | 0 <= i < j < |es| :: es[i].0 != es[j].0)
  }

  lemma ListedLists(m: Store)
    ensures Lists(Listed(m), m)
  {
    hide Listed, SortedKeys, Keys;
    var es := Listed(m);
    forall i, j | 0 <= i < j < |es| ensures es[i].0 != es[j].0 {
      assert Less(Keys(es)[i], Keys(es)[j]);
      LessIrreflexive(es[i].0);
    }
  }

  lemma ListsInit(es: seq<Entry>, m: Store)
    requires Lists(es, m) && es != []
    ensures var (k, v) := es[|es| - 1]; k in m && v == m[k] && Lists(es[..|es| - 1], m - {k})
  {
    var k := es[|es| - 1].0;
    assert (m - {k}).Keys == m.Keys - {k};
  }

  lemma BootUsageStep(usage: map<Bytes, u64>, e: Entry, t: Bytes)
    ensures Quota.Counter(BootUsageEntry(usage, e), t)
         == (Quota.Counter(usage, t) + Weight(t, e.0, e.1)) % Quota.U64_RANGE
  {
    hide KeyCodec.Decode, ValueCodec.Decode;
  }

  /** The startup pass counts every byte, whatever order entries come in. */
  lemma {:induction false} BootUsageExact(es: seq<Entry>, m: Store, t: Bytes)
    requires Lists(es, m) && Total(m, t) < Quota.U64_RANGE
    ensures Quota.Counter(BootUsage(es), t) == Total(m, t)
  {
    hide BootUsageEntry, Weight, Lists;
    if es == [] {
      assert |m| == 0 by { ListsLength(es, m); }
    } else {
      ListsInit(es, m);
      var k := es[|es| - 1].0;
      TotalRemove(m, t, k);
      BootUsageExact(es[..|es| - 1], m - {k}, t);
      BootUsageStep(BootUsage(es[..|es| - 1]), es[|es| - 1], t);
    }
  }

  lemma ListsLength(es: seq<Entry>, m: Store)
    requires Lists(es, m)
    ensures |es| == |m|
  {}

  /** The rebuilt index holds exactly the stored expirations, with no stale entry. */
  ghost predicate IndexExact(m: Store, b: TtlIndex.Buckets) {
    forall k: Bytes, e: u64 :: k in TtlIndex.Bucket(b, e) <==> k in m && Expiry(m[k]) == Some(e)
  }

  lemma BootTtlStep(t: TtlIndex.TtlState, e: Entry)
    requires TtlCounted(t)
    ensures TtlCounted(BootTtlEntry(t, e))
    ensures forall k: Bytes, x: u64 :: k in TtlIndex.Bucket(BootTtlEntry(t, e).buckets, x)
                                  <==> k in TtlIndex.Bucket(t.buckets, x) || (k == e.0 && Expiry(e.1) == Some(x))
  {
    hide ValueCodec.Decode, TtlIndex.Earliest, TtlIndex.Size;
    if Expiry(e.1).Some? {
      TtlIndex.TotalIsSize(t, e.0, Expiry(e.1).value, 0);
    }
  }

  lemma {:induction false} BootTtlExact(es: seq<Entry>, m: Store)
    requires Lists(es, m)
    ensures IndexExact(m, BootTtl(es).buckets)
    ensures TtlCounted(BootTtl(es))
  {
    hide BootTtlEntry, Expiry, Lists;
    if es == [] {
      assert |m| == 0 by { ListsLength(es, m); }
    } else {
      ListsInit(es, m);
      var last, b := es[|es| - 1], BootTtl(es[..|es| - 1]);
      BootTtlExact(es[..|es| - 1], m - {last.0});
      BootTtlStep(b, last);
      forall k: Bytes, e: u64
        ensures k in TtlIndex.Bucket(BootTtl(es).buckets, e) <==> k in m && Expiry(m[k]) == Some(e)
      {
        assert k in TtlIndex.Bucket(b.buckets, e) <==> k in m - {last.0} && Expiry(m[k]) == Some(e);
      }
    }
  }

  /** Starting up over any well-formed data establishes the invariant. */
  lemma OpenEstablishes(c: Config, quota: Quota.QuotaState, window: nat, file: Bytes, engine: Store)
    requires OpenNode(c, quota, window, file, engine).Ok?
    requires var n := OpenNode(c, quota, window, file, engine).value; WellFormed(n.store) && Bounded(n.store)
    ensures NodeInv(OpenNode(c, quota, window, file, engine).value)
    ensures var n := OpenNode(c, quota, window, file, engine).value; IndexExact(n.store, n.ttl.buckets)
  {
    hide Recover, OpenedFile, OpenNodeEffects, BootTtl, BootUsage, Listed, ApplyAll, Rotated, TtlCounted;
    var n := OpenNode(c, quota, window, file, engine).value;
    assert Storage.Under(n.store, []) == n.store;
    ListedLists(n.store);
    forall t ensures Quota.Used(n.quota, t) == Total(n.store, t) {
      BootUsageExact(Listed(n.store), n.store, t);
    }
    BootTtlExact(Listed(n.store), n.store);
  }
}
