/** Per-tenant byte quotas and the usage counters they are checked against. */
module Quota {
  import opened ByteStrings
  import KeyCodec
  import ValueCodec
  import Disk
  import Storage

  const U64_RANGE: nat := 0x1_0000_0000_0000_0000

  /** A limit of 0 means unlimited. Tenants without a record of their own get the default. */
  datatype QuotaState = QuotaState(defaultMax: u64, limits: map<Bytes, u64>, usage: map<Bytes, u64>)

  function LimitOf(q: QuotaState, tenant: Bytes): u64 {
    if tenant in q.limits then q.limits[tenant] else q.defaultMax
  }

  function Counter(usage: map<Bytes, u64>, tenant: Bytes): u64 {
    if tenant in usage then usage[tenant] else 0
  }

  function Used(q: QuotaState, tenant: Bytes): u64 {
    Counter(q.usage, tenant)
  }

  /** The size an entry is billed at: user key and value together. */
  function EntryBytes(keyLen: nat, valueLen: nat): nat {
    keyLen + valueLen
  }

  /** Where a growing counter would end, at the largest 64-bit number at most. */
  function Grown(q: QuotaState, tenant: Bytes, delta: int): u64
    requires delta > 0
  {
    var sum := Used(q, tenant) + delta;
    if sum > U64_MAX then U64_MAX else sum
  }

  /** Only growth past a limit is refused. */
  function CheckWrite(q: QuotaState, tenant: Bytes, delta: int): Result<()> {
    var limit := LimitOf(q, tenant);
    if limit == 0 || delta <= 0 then Ok(())
    else
      var after := Grown(q, tenant, delta);
      if after > limit then Err(QuotaExceeded(after, limit)) else Ok(())
  }

  /** `fetch_add` wraps, the subtraction saturates at zero. */
  function ApplyDelta(counter: u64, delta: int): u64 {
    if delta >= 0 then (counter + delta) % U64_RANGE
    else if counter < -delta then 0
    else counter + delta
  }

  function Adjusted(q: QuotaState, tenant: Bytes, delta: int): QuotaState {
    q.(usage := q.usage[tenant := ApplyDelta(Used(q, tenant), delta)])
  }

  /** A counter that grows goes around at 2^64, `k` times; one that shrinks stops at zero. No
      other counter moves, and no limit. */
  lemma CounterMoves(q: QuotaState, tenant: Bytes, delta: int, other: Bytes) returns (k: int)
    ensures var q' := Adjusted(q, tenant, delta);
      && (delta >= 0 ==> Used(q', tenant) + k * 0x1_0000_0000_0000_0000 == Used(q, tenant) + delta)
      && (delta < 0 ==> Used(q', tenant) == 0 || Used(q', tenant) == Used(q, tenant) + delta)
      && (delta < 0 && Used(q', tenant) == 0 ==> Used(q, tenant) + delta <= 0)
      && (other != tenant ==> Used(q', other) == Used(q, other))
      && q'.limits == q.limits && q'.defaultMax == q.defaultMax
  {
    k := (Used(q, tenant) + delta) / 0x1_0000_0000_0000_0000;
  }

  const USAGE_KEY: Bytes := [0x75, 0x73, 0x61, 0x67, 0x65]  // "usage"

  /** Where a tenant's usage is materialised, straight into storage. */
  function UsageKey(tenant: Bytes): Bytes
    requires |tenant| <= KeyCodec.MAX_TENANT_LEN
  {
    KeyCodec.Key(tenant, KeyCodec.Stats, USAGE_KEY)
  }

  predicate IsUsageRecord(key: Bytes) {
    match KeyCodec.Decode(key)
    case Ok(d) => d.subspace.Stats? && d.payload == USAGE_KEY
    case Err(_) => false
  }

  lemma UsageKeyIsRecord(tenant: Bytes)
    requires KeyCodec.LegalTenant(tenant)
    ensures IsUsageRecord(UsageKey(tenant))
  {
    KeyCodec.DecodeKey(tenant, KeyCodec.Stats, USAGE_KEY);
  }

  /** The keys the node keeps for itself: for each legal tenant one, "usage" in the tenant's
      subspace for statistics. */
  lemma UsageRecordIs(key: Bytes)
    ensures IsUsageRecord(key) <==>
      exists t :: KeyCodec.LegalTenant(t) && key == [|t|] + t + [3, 0x75, 0x73, 0x61, 0x67, 0x65]
  {
    hide KeyCodec.ValidUtf8;
    if IsUsageRecord(key) {
      var t := KeyCodec.Decode(key).value.tenant;
      KeyCodec.KeyOfDecoded(key);
      assert key == [|t|] + t + [3, 0x75, 0x73, 0x61, 0x67, 0x65];
    }
    if t :| KeyCodec.LegalTenant(t) && key == [|t|] + t + [3, 0x75, 0x73, 0x61, 0x67, 0x65] {
      assert key == UsageKey(t);
      UsageKeyIsRecord(t);
    }
  }

  /** The write that materialises a new total. */
  function UsageWrite(tenant: Bytes, total: u64): Disk.StoreOp
    requires |tenant| <= KeyCodec.MAX_TENANT_LEN
  {
    Disk.StorePut(UsageKey(tenant), ValueCodec.Encode(BE(total, 8), None))
  }

  class QuotaStore {
    const defaultMax: u64
    var limits: map<Bytes, u64>
    var usage: map<Bytes, u64>

    ghost function View(): QuotaState
      reads this
    {
      QuotaState(defaultMax, limits, usage)
    }

    constructor (defaultMax: u64, limits: map<Bytes, u64>)
      ensures View() == QuotaState(defaultMax, limits, map[])
    {
      this.defaultMax, this.limits, usage := defaultMax, limits, map[];
    }

    method Check(tenant: Bytes, delta: int) returns (r: Result<()>)
      ensures r == CheckWrite(View(), tenant, delta)
      ensures tenant in limits ==> (r.Err? <==> delta > 0 && 0 < limits[tenant] < Grown(View(), tenant, delta))
      ensures tenant !in limits ==> (r.Err? <==> delta > 0 && 0 < defaultMax < Grown(View(), tenant, delta))
      ensures r.Err? && tenant in limits ==> r.error == QuotaExceeded(Grown(View(), tenant, delta), limits[tenant])
      ensures r.Err? && tenant !in limits ==> r.error == QuotaExceeded(Grown(View(), tenant, delta), defaultMax)
    {
      var limit := if tenant in limits then limits[tenant] else defaultMax;
      if limit == 0 || delta <= 0 {
        return Ok(());
      }
      var used := if tenant in usage then usage[tenant] else 0;
      var after: u64 := if used + delta > U64_MAX then U64_MAX else used + delta;
      if after > limit {
        return Err(QuotaExceeded(after, limit));
      }
      r := Ok(());
    }

    /** Settles a write: the counter moves, and storage gets a record of where it stands. */
    method Apply(storage: Storage.Storage, tenant: Bytes, delta: int)
      requires KeyCodec.LegalTenant(tenant)
      modifies this, storage, storage.recorder
      ensures delta == 0 ==>
        && View() == old(View())
        && storage.data == old(storage.data)
        && storage.recorder.effects == old(storage.recorder.effects)
      ensures delta != 0 ==>
        var after := Adjusted(old(View()), tenant, delta);
        var op := UsageWrite(tenant, Used(after, tenant));
        && View() == after
        && storage.data == Disk.ApplyOp(old(storage.data), op)
        && storage.recorder.effects == old(storage.recorder.effects) + [Disk.Engine(op)]
    {
      if delta == 0 {
        return;
      }
      var current := if tenant in usage then usage[tenant] else 0;
      var total := ApplyDelta(current, delta);
      usage := usage[tenant := total];
      storage.Put(UsageKey(tenant), ValueCodec.Encode(BE(total, 8), None));
    }

    method ResetUsage(totals: map<Bytes, u64>)
      modifies this
      ensures View() == old(View()).(usage := totals)
    {
      usage := totals;
    }
  }
}
