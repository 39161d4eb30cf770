/** What a tenant sees: one map from user key to value and expiry, untouched by others. */
module Tenants {
  import opened ByteStrings
  import opened Disk
  import opened NodeSpec
  import opened NodeInvariants
  import opened SweepLaws
  import opened WriteAheadLog
  import KeyCodec
  import ValueCodec
  import Quota
  import TtlIndex

  type TenantData = map<Bytes, ValueCodec.StoredValue>

  predicate IsDataOf(t: Bytes, k: Bytes) {
    match KeyCodec.Decode(k)
    case Ok(d) => d.subspace.Data? && d.tenant == t
    case Err(_) => false
  }

  function Payload(k: Bytes): Bytes {
    match KeyCodec.Decode(k)
    case Ok(d) => d.payload
    case Err(_) => []
  }

  lemma DataKeyOwned(t: Bytes, p: Bytes)
    requires KeyCodec.LegalTenant(t)
    ensures IsDataOf(t, KeyCodec.DataKey(t, p)) && Payload(KeyCodec.DataKey(t, p)) == p
    ensures !Quota.IsUsageRecord(KeyCodec.DataKey(t, p))
  {
    KeyCodec.DecodeKey(t, KeyCodec.Data, p);
  }

  lemma OwnedIsDataKey(t: Bytes, k: Bytes)
    requires IsDataOf(t, k)
    ensures KeyCodec.LegalTenant(t) && k == KeyCodec.DataKey(t, Payload(k))
  {
    KeyCodec.KeyOfDecoded(k);
  }

  lemma DataKeyInjective(t: Bytes, p: Bytes, u: Bytes, q: Bytes)
    requires KeyCodec.LegalTenant(t) && KeyCodec.LegalTenant(u)
    ensures KeyCodec.DataKey(t, p) == KeyCodec.DataKey(u, q) <==> t == u && p == q
  {
    KeyCodec.DecodeKey(t, KeyCodec.Data, p);
    KeyCodec.DecodeKey(u, KeyCodec.Data, q);
  }

  predicate Readable(m: Store, k: Bytes) {
    k in m && ValueCodec.Decode(m[k]).Ok?
  }

  /** The user keys a tenant has stored a readable value under. */
  function UserKeys(m: Store, t: Bytes): set<Bytes> {
    set k | k in m && Readable(m, k) && IsDataOf(t, k) :: Payload(k)
  }

  lemma UserKeysAt(m: Store, t: Bytes, p: Bytes)
    requires KeyCodec.LegalTenant(t)
    ensures p in UserKeys(m, t) <==> Readable(m, KeyCodec.DataKey(t, p))
  {
    hide KeyCodec.DataKey, IsDataOf, Payload, KeyCodec.ValidUtf8, ValueCodec.Decode;
    var key := KeyCodec.DataKey(t, p);
    DataKeyOwned(t, p);
    if Readable(m, key) {
      assert Payload(key) in UserKeys(m, t);
    }
    if p in UserKeys(m, t) {
      var k :| k in m && Readable(m, k) && IsDataOf(t, k) && Payload(k) == p;
      OwnedIsDataKey(t, k);
    }
  }

  /** A tenant's stored data, entries that have expired but not been swept included. */
  function DataOf(m: Store, t: Bytes): TenantData
    requires KeyCodec.LegalTenant(t)
  {
    map p | p in UserKeys(m, t) :: UserKeysAt(m, t, p); ValueCodec.Decode(m[KeyCodec.DataKey(t, p)]).value
  }

  lemma DataOfAt(m: Store, t: Bytes, p: Bytes)
    requires KeyCodec.LegalTenant(t)
    ensures p in DataOf(m, t) <==> Readable(m, KeyCodec.DataKey(t, p))
    ensures p in DataOf(m, t) ==> DataOf(m, t)[p] == ValueCodec.Decode(m[KeyCodec.DataKey(t, p)]).value
  {
    hide ValueCodec.Decode, KeyCodec.DataKey, UserKeys, KeyCodec.ValidUtf8;
    UserKeysAt(m, t, p);
  }

  /** Stores that agree on a tenant's keys hold the same data for it. */
  lemma DataOfAgrees(m: Store, m': Store, t: Bytes)
    requires KeyCodec.LegalTenant(t)
    requires forall p :: Lookup(m, KeyCodec.DataKey(t, p)) == Lookup(m', KeyCodec.DataKey(t, p))
    ensures DataOf(m, t) == DataOf(m', t)
  {
    hide ValueCodec.Decode, KeyCodec.DataKey, DataOf, KeyCodec.ValidUtf8;
    forall p ensures p in DataOf(m, t) <==> p in DataOf(m', t)
             ensures p in DataOf(m, t) ==> DataOf(m, t)[p] == DataOf(m', t)[p] {
      DataOfAt(m, t, p);
      DataOfAt(m', t, p);
      assert Lookup(m, KeyCodec.DataKey(t, p)) == Lookup(m', KeyCodec.DataKey(t, p));
    }
  }

  /** Stores that differ at one of a tenant's keys hold data that differs there. */
  lemma DataOfChanged(m: Store, m': Store, t: Bytes, p: Bytes, put: Option<Bytes>, u: Bytes)
    requires KeyCodec.LegalTenant(t) && KeyCodec.LegalTenant(u) && WellFormed(m) && WellFormed(m')
    requires forall k | !Quota.IsUsageRecord(k) ::
               Lookup(m', k) == if k == KeyCodec.DataKey(t, p) then put else Lookup(m, k)
    ensures put.Some? ==> ValueCodec.Decode(put.value).Ok?
    ensures DataOf(m', u) == (
              if u != t then DataOf(m, u)
              else if put.Some? then DataOf(m, t)[p := ValueCodec.Decode(put.value).value]
              else DataOf(m, t) - {p})
  {
    hide ValueCodec.Decode, KeyCodec.DataKey, DataOf, KeyCodec.ValidUtf8, Quota.IsUsageRecord;
    DataKeyOwned(t, p);
    assert Lookup(m', KeyCodec.DataKey(t, p)) == put;
    forall q
      ensures q in DataOf(m', u) <==> (if u == t && q == p then put.Some? else q in DataOf(m, u))
      ensures q in DataOf(m', u) ==>
        DataOf(m', u)[q] == if u == t && q == p then ValueCodec.Decode(put.value).value else DataOf(m, u)[q]
    {
      DataOfAt(m, u, q);
      DataOfAt(m', u, q);
      DataKeyOwned(u, q);
      DataKeyInjective(t, p, u, q);
      var k := KeyCodec.DataKey(u, q);
      assert Lookup(m', k) == if k == KeyCodec.DataKey(t, p) then put else Lookup(m, k);
    }
  }

  predicate Live(sv: ValueCodec.StoredValue, now: u64) {
    sv.expiresAt.Some? ==> sv.expiresAt.value > now
  }

  /** What a read of the abstract map answers at `now`. */
  function ReadAt(data: TenantData, now: u64, p: Bytes): Option<Bytes> {
    if p in data && Live(data[p], now) then Some(data[p].value) else None
  }

  // ------------------------------------------------------------- refinement

  /** A get reads the tenant's map. */
  lemma GetRefines(m: Store, now: u64, t: Bytes, p: Bytes)
    requires KeyCodec.LegalTenant(t) && WellFormed(m)
    ensures Get(m, now, KeyCodec.DataKey(t, p)) == Ok(ReadAt(DataOf(m, t), now, p))
  {
    hide ValueCodec.Decode, ValueCodec.IsExpired, KeyCodec.DataKey, DataOf, KeyCodec.ValidUtf8;
    DataOfAt(m, t, p);
    var key := KeyCodec.DataKey(t, p);
    if key in m { ValueCodec.ShortcutsAgree(m[key], now); }
  }

  /** What a write does to the tenant's map. */
  function Written(data: TenantData, p: Bytes, w: Write): TenantData {
    if w.op.Put? then data[p := ValueCodec.StoredValue(w.expiresAt, w.shown)] else data - {p}
  }

  /** An admitted write to one tenant's key changes that key in that tenant's map, and
      nothing of any other tenant: not its data, not its counter. */
  lemma WriteRefines(c: Config, n: Node, w: Write, plan: Option<Accounting>, t: Bytes, p: Bytes, u: Bytes)
    requires WellFormed(n.store) && Sound(n.store, w, plan)
    requires KeyCodec.LegalTenant(t) && w.key == KeyCodec.DataKey(t, p) && KeyCodec.LegalTenant(u)
    ensures var n' := Perform(c, n, w, plan);
      && WellFormed(n'.store)
      && DataOf(n'.store, u) == (if u == t then Written(DataOf(n.store, t), p, w) else DataOf(n.store, u))
      && (u != t ==> Quota.Used(n'.quota, u) == Quota.Used(n.quota, u))
  {
    WriteLeavesOthersBilled(c, n, w, plan, t, p, u);
    hide Perform, Weight, KeyCodec.DataKey, DataOf, KeyCodec.ValidUtf8, WellFormed, ValueCodec.Decode;
    hide Quota.IsUsageRecord;
    PerformStore(c, n, w, plan);
    DataOfChanged(n.store, Perform(c, n, w, plan).store, t, p, if w.op.Put? then Some(w.stored) else None, u);
  }

  lemma WriteLeavesOthersBilled(c: Config, n: Node, w: Write, plan: Option<Accounting>, t: Bytes, p: Bytes, u: Bytes)
    requires Sound(n.store, w, plan) && KeyCodec.LegalTenant(t) && w.key == KeyCodec.DataKey(t, p)
    ensures u != t ==> Quota.Used(Perform(c, n, w, plan).quota, u) == Quota.Used(n.quota, u)
  {
    hide BillOps, Announced, Appended, Rotated, WriteEffects, ApplyAll, MustRotate, KeyCodec.Decode, KeyCodec.DataKey;
    DataKeyOwned(t, p);
    if u != t {
      assert PlanDelta(plan, u) == 0;
    }
  }

  /** The last instant a lifetime of `ttlMs` milliseconds from `now` can reach: a 64-bit
      stamp goes no further. */
  function Deadline(now: u64, ttlMs: u64): u64 {
    if now + ttlMs < 0x1_0000_0000_0000_0000 then now + ttlMs else 0xFFFF_FFFF_FFFF_FFFF
  }

  /** A put that is admitted binds the key, for good if it was given no lifetime and up to
      the deadline if it was; one that is refused changes nothing at all. */
  lemma PutRefines(c: Config, n: Node, now: u64, t: Bytes, p: Bytes, value: Bytes, ttlMs: u64, u: Bytes)
    requires NodeInv(n) && KeyCodec.LegalTenant(t) && KeyCodec.LegalTenant(u)
    ensures var (n', res) := Put(c, n, now, KeyCodec.DataKey(t, p), value, ttlMs);
      var until := if ttlMs == 0 then None else Some(Deadline(now, ttlMs));
      && (res.Err? ==> n' == n)
      && (res.Ok? ==>
            && WellFormed(n'.store)
            && DataOf(n'.store, u) == (
                 if u == t then DataOf(n.store, t)[p := ValueCodec.StoredValue(until, value)]
                 else DataOf(n.store, u))
            && (u != t ==> Quota.Used(n'.quota, u) == Quota.Used(n.quota, u)))
  {
    hide Perform, Sound, KeyCodec.DataKey, DataOf, KeyCodec.ValidUtf8, WellFormed, ValueCodec.Encode, AdmitPut;
    var key := KeyCodec.DataKey(t, p);
    if AdmitPut(n, key, value).Ok? {
      AdmittedPutIsSound(n, now, key, value, ttlMs);
      WriteRefines(c, n, PutWrite(now, key, value, ttlMs), AdmitPut(n, key, value).value, t, p, u);
    }
  }

  /** What was put is what is read, at every instant before its deadline and, without a
      lifetime, at every instant; from the deadline on nothing is read. */
  lemma PutReads(c: Config, n: Node, now: u64, t: Bytes, p: Bytes, value: Bytes, ttlMs: u64, at: u64)
    requires NodeInv(n) && KeyCodec.LegalTenant(t)
    ensures var (n', res) := Put(c, n, now, KeyCodec.DataKey(t, p), value, ttlMs);
      res.Ok? ==>
        var readable := ttlMs == 0 || (at < now + ttlMs && at < 0xFFFF_FFFF_FFFF_FFFF);
        Get(n'.store, at, KeyCodec.DataKey(t, p)) == Ok(if readable then Some(value) else None)
  {
    hide Put, Get, NodeInv, KeyCodec.DataKey, DataOf, KeyCodec.ValidUtf8, WellFormed;
    var n' := Put(c, n, now, KeyCodec.DataKey(t, p), value, ttlMs).0;
    PutRefines(c, n, now, t, p, value, ttlMs, t);
    if WellFormed(n'.store) { GetRefines(n'.store, at, t, p); }
  }

  /** The index gains the key under its deadline and nothing else, and the sweeper is woken
      if and only if that deadline comes before every other. */
  lemma PutSchedules(c: Config, n: Node, now: u64, key: Bytes, value: Bytes, ttlMs: u64)
    ensures var (n', res) := Put(c, n, now, key, value, ttlMs);
      var deadline := Deadline(now, ttlMs);
      res.Ok? ==>
        && (forall k: Bytes, e: u64 :: k in TtlIndex.Bucket(n'.ttl.buckets, e) <==>
              k in TtlIndex.Bucket(n.ttl.buckets, e) || (ttlMs > 0 && k == key && e == deadline))
        && (n'.ttl.permit <==>
              n.ttl.permit || (ttlMs > 0 && forall e | e in n.ttl.buckets :: deadline < e))
  {
    hide PlanPut, Quota.CheckWrite, BillOps, Billed, Announced, Appended, Rotated, WriteEffects, ApplyAll, MustRotate;
    hide ValueCodec.Encode, LegalPlan;
  }

  /** A delete always succeeds and unbinds the key. */
  lemma DeleteRefines(c: Config, n: Node, t: Bytes, p: Bytes, u: Bytes)
    requires NodeInv(n) && KeyCodec.LegalTenant(t) && KeyCodec.LegalTenant(u)
    ensures var (n', res) := NodeSpec.Delete(c, n, KeyCodec.DataKey(t, p));
      && res.Ok? && WellFormed(n'.store)
      && DataOf(n'.store, u) == (if u == t then DataOf(n.store, t) - {p} else DataOf(n.store, u))
      && (u != t ==> Quota.Used(n'.quota, u) == Quota.Used(n.quota, u))
  {
    hide Perform, Sound, KeyCodec.DataKey, DataOf, KeyCodec.ValidUtf8, WellFormed, PlanDelete;
    var key := KeyCodec.DataKey(t, p);
    PlannedDeleteIsSound(n.store, key);
    WriteRefines(c, n, DeleteWrite(key), PlanDelete(n.store, key).value, t, p, u);
  }

  /** A sweep drops exactly the entries no read could return any more. */
  lemma SweepRefines(c: Config, n: Node, now: u64, t: Bytes)
    requires NodeInv(n) && UsagePlain(n.store) && Bounded(n.store) && KeyCodec.LegalTenant(t)
    ensures var n' := Sweep(c, n, now).0;
      && WellFormed(n'.store)
      && DataOf(n'.store, t)
           == map p | p in DataOf(n.store, t) && Live(DataOf(n.store, t)[p], now) :: DataOf(n.store, t)[p]
  {
    hide Sweep, KeyCodec.DataKey, DataOf, KeyCodec.ValidUtf8, UsagePlain, Bounded, ValueCodec.Decode;
    hide Quota.IsUsageRecord;
    SweepIsExact(c, n, now);
    var m, m' := n.store, Sweep(c, n, now).0.store;
    forall p
      ensures p in DataOf(m', t) <==> p in DataOf(m, t) && Live(DataOf(m, t)[p], now)
      ensures p in DataOf(m', t) ==> DataOf(m', t)[p] == DataOf(m, t)[p]
    {
      DataOfAt(m, t, p);
      DataOfAt(m', t, p);
      DataKeyOwned(t, p);
      var k := KeyCodec.DataKey(t, p);
      assert Lookup(m', k) == if k in AllExpired(m, now) then None else Lookup(m, k);
    }
  }

  // ------------------------------------------------------------------ quotas

  /** The bytes an entry of the tenant's map is billed for. */
  function Held(data: TenantData, p: Bytes): nat {
    if p in data then |p| + |data[p].value| else 0
  }

  /** A put is refused if and only if it grows the tenant's data past a limit that is not zero,
      the grown size saturating at the largest counter. A tenant with a limit of its own is held
      to that one and to no other, and only a tenant without one to the default. */
  lemma RefusedExactly(c: Config, n: Node, now: u64, t: Bytes, p: Bytes, value: Bytes, ttlMs: u64)
    requires NodeInv(n) && KeyCodec.LegalTenant(t)
    ensures var res := Put(c, n, now, KeyCodec.DataKey(t, p), value, ttlMs).1;
            var growth := |p| + |value| - Held(DataOf(n.store, t), p);
            var sum := Total(n.store, t) + growth;
            var grown := if sum < 0x1_0000_0000_0000_0000 then sum else 0xFFFF_FFFF_FFFF_FFFF;
            var limit := if t in n.quota.limits then n.quota.limits[t] else n.quota.defaultMax;
      && (res.Err? <==> 0 < limit < grown && 0 < growth)
      && (res.Err? ==> res == Err(QuotaExceeded(grown, limit)))
  {
    hide Perform, KeyCodec.ValidUtf8, ValueCodec.Decode, ValueCodec.PayloadLen, KeyCodec.DataKey, DataOf, Total;
    var key := KeyCodec.DataKey(t, p);
    KeyCodec.DataKeyDecodes(t, p);
    DataOfAt(n.store, t, p);
    if key in n.store { ValueCodec.ShortcutsAgree(n.store[key], 0); }
    var growth := |p| + |value| - Held(DataOf(n.store, t), p);
    assert PlanPut(n.store, key, |value|) == Ok(Some(Accounting(t, growth)));
  }

  /** Whenever a write changes the size of a tenant's data, storage is left with a record of the
      new size: under the tenant's statistics key "usage", eight bytes, no expiry. */
  lemma UsageRecorded(c: Config, n: Node, w: Write, plan: Option<Accounting>, t: Bytes)
    requires NodeInv(n) && Sound(n.store, w, plan) && Bounded(Perform(c, n, w, plan).store)
    requires KeyCodec.LegalTenant(t) && Total(Perform(c, n, w, plan).store, t) != Total(n.store, t)
    ensures var m' := Perform(c, n, w, plan).store;
            var key := [|t|] + t + [3, 0x75, 0x73, 0x61, 0x67, 0x65];
      key in m' && ValueCodec.Decode(m'[key]) == Ok(ValueCodec.StoredValue(None, BE(Total(m', t), 8)))
  {
    hide Perform, Total, Bounded, KeyCodec.ValidUtf8, ValueCodec.Decode, ValueCodec.Encode, BE, Quota.Used, LegalPlan;
    hide Quota.UsageKey, WellFormed, Covered, TtlCounted;
    PerformStore(c, n, w, plan);
    PerformUsage(c, n, w, plan);
    var m', q' := Perform(c, n, w, plan).store, Perform(c, n, w, plan).quota;
    assert Total(m', t) == Quota.Used(q', t);
    assert plan.Some? && plan.value.tenant == t && plan.value.delta != 0;
    LastWriteStays(c, n, w, plan);
    ValueCodec.DecodeEncode(BE(Quota.Used(q', t), 8), None);
    UsageKeyIs(t);
  }

  lemma UsageKeyIs(t: Bytes)
    requires |t| <= 255
    ensures Quota.UsageKey(t) == [|t|] + t + [3, 0x75, 0x73, 0x61, 0x67, 0x65]
  {}

  /** The usage record is the last thing a billed write stores. */
  lemma LastWriteStays(c: Config, n: Node, w: Write, plan: Option<Accounting>)
    requires LegalPlan(plan) && Bills(plan)
    ensures var n' := Perform(c, n, w, plan);
            var t := plan.value.tenant;
      Lookup(n'.store, Quota.UsageKey(t)) == Some(ValueCodec.Encode(BE(Quota.Used(n'.quota, t), 8), None))
  {
    hide KeyCodec.ValidUtf8, ValueCodec.Encode, BE, Appended, Rotated, MustRotate, WriteEffects, Announced;
    hide TtlIndex.Scheduled, Quota.UsageKey, Quota.Used;
    var op := RecordOp(NextRecord(n.wal, w.op, w.key, w.stored));
    var bill := BillOps(n.quota, plan);
    ApplyAllAppend(n.store, [op], bill[0]);
    assert [op] + [bill[0]] == [op] + bill;
    ApplyOpAt(ApplyAll(n.store, [op]), bill[0], bill[0].key);
  }

  /** Keys that are nobody's data, malformed ones included, cost nothing: writing them is never
      refused, and neither writing nor deleting them moves any counter. */
  lemma OnlyDataIsBilled(c: Config, n: Node, now: u64, key: Bytes, value: Bytes, ttlMs: u64)
    requires forall t :: !IsDataOf(t, key)
    ensures var (n', res) := Put(c, n, now, key, value, ttlMs); res.Ok? && n'.quota == n.quota
    ensures var (n', res) := NodeSpec.Delete(c, n, key); res.Ok? && n'.quota == n.quota
  {
    hide ApplyAll, Announced, Appended, Rotated, WriteEffects, MustRotate, TtlIndex.Scheduled, ValueCodec.Encode;
    hide KeyCodec.Decode;
    if KeyCodec.Decode(key).Ok? { assert !IsDataOf(KeyCodec.Decode(key).value.tenant, key); }
  }
}
