/** The node: log, storage, TTL index, quotas and watch hub, changed step by step. */
module NodeService {
  import opened ByteStrings
  import opened WalFrames
  import opened WriteAheadLog
  import opened NodeSpec
  import opened Listing
  import KeyCodec
  import ValueCodec
  import Disk
  import Storage
  import TtlIndex
  import Quota
  import Watch

  class Service {
    const config: Config
    const recorder: Disk.Recorder
    const wal: Wal
    const storage: Storage.Storage
    const ttl: TtlIndex.Index
    const quotas: Quota.QuotaStore
    const hub: Watch.WatchHub

    ghost predicate Valid() {
      wal.recorder == recorder && storage.recorder == recorder && storage.durable == config.durable
    }

    ghost function View(): Node
      reads wal, storage, ttl, quotas, hub, recorder
    {
      Node(storage.data, wal.View(), ttl.View(), quotas.View(), hub.View(), recorder.effects)
    }

    constructor (config: Config, recorder: Disk.Recorder, wal: Wal, storage: Storage.Storage, ttl: TtlIndex.Index,
                 quotas: Quota.QuotaStore, hub: Watch.WatchHub)
      requires wal.recorder == recorder && storage.recorder == recorder && storage.durable == config.durable
      ensures Valid()
      ensures this.wal == wal && this.storage == storage && this.ttl == ttl
      ensures this.config == config && this.quotas == quotas && this.hub == hub && this.recorder == recorder
    {
      this.config, this.recorder, this.wal, this.storage := config, recorder, wal, storage;
      this.ttl, this.quotas, this.hub := ttl, quotas, hub;
    }

    // ------------------------------------------------------------ accounting

    method PlanAccounting(key: Bytes, newLen: nat) returns (plan: Result<Option<Accounting>>)
      ensures plan == PlanPut(storage.data, key, newLen)
    {
      var decoded := KeyCodec.Decode(key);
      if decoded.Err? {
        return Ok(None);
      }
      var d := decoded.value;
      if d.subspace != KeyCodec.Data {
        return Ok(None);
      }
      var raw := storage.Get(key);
      var previous := 0;
      if raw.Some? {
        var len := ValueCodec.PayloadLen(raw.value);
        if len.Err? {
          return Err(len.error);
        }
        previous := Quota.EntryBytes(|d.payload|, len.value);
      }
      var next: int := Quota.EntryBytes(|d.payload|, newLen);
      plan := Ok(Some(Accounting(d.tenant, next - previous)));
    }

    method PlanDeleteAccounting(key: Bytes) returns (plan: Result<Option<Accounting>>)
      ensures plan == PlanDelete(storage.data, key)
    {
      var decoded := KeyCodec.Decode(key);
      if decoded.Err? {
        return Ok(None);
      }
      var d := decoded.value;
      if d.subspace != KeyCodec.Data {
        return Ok(None);
      }
      var raw := storage.Get(key);
      if raw.None? {
        return Ok(None);
      }
      var len := ValueCodec.PayloadLen(raw.value);
      if len.Err? {
        return Err(len.error);
      }
      var freed: int := Quota.EntryBytes(|d.payload|, len.value);
      plan := Ok(Some(Accounting(d.tenant, -freed)));
    }

    method CommitAccounting(plan: Option<Accounting>)
      requires Valid() && LegalPlan(plan)
      modifies quotas, storage, recorder
      ensures quotas.View() == Billed(old(quotas.View()), plan)
      ensures storage.data == Disk.ApplyAll(old(storage.data), BillOps(old(quotas.View()), plan))
      ensures recorder.effects == old(recorder.effects) + Engines(BillOps(old(quotas.View()), plan))
    {
      hide Quota.UsageWrite, KeyCodec.LegalTenant;
      if plan.Some? {
        ghost var q := quotas.View();
        quotas.Apply(storage, plan.value.tenant, plan.value.delta);
        if plan.value.delta != 0 {
          ghost var op := BillOps(q, plan)[0];
          assert Engines([op]) == [Disk.Engine(op)];
          assert [op][..0] == [];
        }
      }
    }

    // ------------------------------------------------------------- the writes

    method PublishChange(w: Write)
      modifies hub
      ensures hub.View() == Announced(old(hub.View()), w)
    {
      var decoded := KeyCodec.Decode(w.key);
      if decoded.Err? {
        return;
      }
      var d := decoded.value;
      if d.subspace != KeyCodec.Data {
        return;
      }
      var watched := hub.Watched(d.tenant);
      if !watched {
        return;
      }
      hub.Publish(d.tenant, Watch.KeyChange(Change(w), d.payload, w.shown));
    }

    method RotateWalIfNeeded()
      requires Valid()
      modifies wal, recorder
      ensures var w := old(wal.View());
        && wal.View() == (if MustRotate(config, w) then Rotated(w) else w)
        && recorder.effects == old(recorder.effects) + (if MustRotate(config, w) then RotationEffects(w) else [])
      ensures recorder.effects != old(recorder.effects) <==>
        config.durable && old(wal.segmentBytes) >= config.rotateBytes
    {
      if !storage.durable {
        return;
      }
      var size := wal.segmentBytes;
      if size < config.rotateBytes {
        return;
      }
      storage.Flush();
      wal.Rotate();
    }

    method PutWithTtl(now: u64, key: Bytes, value: Bytes, ttlMs: u64) returns (r: Result<()>)
      requires Valid()
      modifies wal, storage, ttl, quotas, hub, recorder
      ensures (View(), r) == NodeSpec.Put(config, old(View()), now, key, value, ttlMs)
    {
      hide Frame, Header, KeyCodec.LegalTenant, ValueCodec.Encode, TtlIndex.Scheduled, Disk.ApplyAll;
      hide Announced, Billed, BillOps, Appended, Rotated, MustRotate, RotationEffects, WriteEffects;
      hide KeyCodec.Decode, Quota.CheckWrite, PlanPut, PlanDelete;
      ghost var n := View();
      PlansAreLegal(n, key, value);
      var expiresAt := if ttlMs > 0 then Some(SaturatingAdd(now, ttlMs)) else None;
      var accounting := PlanAccounting(key, |value|);
      if accounting.Err? {
        return Err(accounting.error);
      }
      var plan := accounting.value;
      if plan.Some? {
        var verdict := quotas.Check(plan.value.tenant, plan.value.delta);
        if verdict.Err? {
          return Err(verdict.error);
        }
      }
      var encoded := ValueCodec.Encode(value, expiresAt);
      var _ := wal.Append(WalOp.Put, key, encoded);
      storage.Put(key, encoded);
      if expiresAt.Some? {
        ttl.Schedule(key, expiresAt.value);
      }
      CommitAccounting(plan);
      PublishChange(Write(WalOp.Put, key, encoded, expiresAt, value));
      RotateWalIfNeeded();
      Disk.ApplyFirst(n.store, Disk.StorePut(key, encoded), BillOps(n.quota, plan));
      GroupEffects(config, n, NextRecord(n.wal, WalOp.Put, key, encoded), BillOps(n.quota, plan));
      r := Ok(());
    }

    method Delete(key: Bytes) returns (r: Result<()>)
      requires Valid()
      modifies wal, storage, ttl, quotas, hub, recorder
      ensures (View(), r) == NodeSpec.Delete(config, old(View()), key)
    {
      hide Frame, Header, KeyCodec.LegalTenant, ValueCodec.Encode, TtlIndex.Scheduled, Disk.ApplyAll;
      hide Announced, Billed, BillOps, Appended, Rotated, MustRotate, RotationEffects, WriteEffects;
      hide KeyCodec.Decode, Quota.CheckWrite, PlanPut, PlanDelete;
      ghost var n := View();
      PlansAreLegal(n, key, []);
      var accounting := PlanDeleteAccounting(key);
      if accounting.Err? {
        return Err(accounting.error);
      }
      var _ := wal.Append(WalOp.Delete, key, []);
      storage.Delete(key);
      CommitAccounting(accounting.value);
      PublishChange(Write(WalOp.Delete, key, [], None, []));
      RotateWalIfNeeded();
      Disk.ApplyFirst(n.store, Disk.StoreDelete(key), BillOps(n.quota, accounting.value));
      GroupEffects(config, n, NextRecord(n.wal, WalOp.Delete, key, []), BillOps(n.quota, accounting.value));
      r := Ok(());
    }

    method GetValue(now: u64, key: Bytes) returns (r: Result<Option<Bytes>>)
      ensures r == NodeSpec.Get(storage.data, now, key)
    {
      var raw := storage.Get(key);
      if raw.None? {
        return Ok(None);
      }
      match ValueCodec.IsExpired(raw.value, now) {
        case Err(e) => r := Err(e);
        case Ok(true) => r := Ok(None);
        case Ok(false) =>
          match ValueCodec.Decode(raw.value)
          case Err(e) => r := Err(e);
          case Ok(sv) => r := Ok(Some(sv.value));
      }
    }

    // -------------------------------------------------------------- the sweep

    method SweepOnce(now: u64) returns (removed: nat)
      requires Valid()
      modifies wal, storage, ttl, quotas, hub, recorder
      ensures (View(), removed) == NodeSpec.Sweep(config, old(View()), now)
    {
      hide TtlIndex.DueKeys, TtlIndex.Drained, NodeSpec.Delete, TtlIndex.Scheduled;
      hide ValueCodec.Decode, ValueCodec.IsExpired;
      ghost var n0 := View();
      var candidates := ttl.DrainDue(now);
      ghost var n1 := View();
      assert n1 == n0.(ttl := TtlIndex.Drained(n0.ttl, now));
      removed := 0;
      for i := 0 to |candidates|
        invariant (View(), removed) == SweepKeys(config, n1, now, candidates[..i])
      {
        assert candidates[..i + 1][..i] == candidates[..i];
        var key := candidates[i];
        var raw := storage.Get(key);
        if raw.Some? {
          match ValueCodec.IsExpired(raw.value, now) {
            case Ok(true) =>
              var res := Delete(key);
              if res.Ok? {
                removed := removed + 1;
              }
            case Ok(false) =>
              var sv := ValueCodec.Decode(raw.value);
              if sv.Ok? && sv.value.expiresAt.Some? {
                ttl.Schedule(key, sv.value.expiresAt.value);
              }
            case Err(_) =>
          }
        }
      }
      assert candidates[..|candidates|] == candidates;
    }
  }

  /** The effects of a write, recorded one by one, are the effects of the write. */
  lemma GroupEffects(c: Config, n: Node, r: WalRecord, bill: seq<Disk.StoreOp>)
    ensures var w := Appended(n.wal, r);
      var rotation := if MustRotate(c, w) then RotationEffects(w) else [];
      n.effects + [Disk.AppendFile(Frame(r))] + [Disk.Engine(RecordOp(r))] + Engines(bill) + rotation
        == n.effects + WriteEffects(c, w, r, bill)
  {
    hide Frame, RotationEffects, MustRotate;
  }

  // ------------------------------------------------------------------- open

  /** Puts what the log remembers back into storage, oldest record first. */
  method Replay(storage: Storage.Storage, records: seq<WalRecord>)
    modifies storage, storage.recorder
    ensures storage.data == Disk.ApplyAll(old(storage.data), RecordOps(records))
    ensures storage.recorder.effects == old(storage.recorder.effects) + Engines(RecordOps(records))
  {
    ghost var ops := RecordOps(records);
    for i := 0 to |records|
      invariant storage.data == Disk.ApplyAll(old(storage.data), ops[..i])
      invariant storage.recorder.effects == old(storage.recorder.effects) + Engines(ops[..i])
    {
      match records[i].op {
        case Put => storage.Put(records[i].key, records[i].value);
        case Delete => storage.Delete(records[i].key);
      }
      assert ops[..i + 1][..i] == ops[..i];
      assert Engines(ops[..i + 1]) == Engines(ops[..i]) + [Disk.Engine(ops[i])];
    }
    assert ops[..|records|] == ops;
  }

  /** One entry of the startup pass. */
  method BootEntry(index: TtlIndex.Index, usage: map<Bytes, u64>, e: Entry) returns (charged: map<Bytes, u64>)
    modifies index
    ensures index.View() == BootTtlEntry(old(index.View()), e)
    ensures charged == BootUsageEntry(usage, e)
  {
    hide TtlIndex.Scheduled, KeyCodec.Decode, ValueCodec.Decode, Charge;
    charged := usage;
    var decodedKey := KeyCodec.Decode(e.0);
    var stored := ValueCodec.Decode(e.1);
    if stored.Err? {
      return;
    }
    if stored.value.expiresAt.Some? {
      index.Schedule(e.0, stored.value.expiresAt.value);
    }
    if decodedKey.Ok? && decodedKey.value.subspace == KeyCodec.Data {
      var d := decodedKey.value;
      charged := Charge(usage, d.tenant, Quota.EntryBytes(|d.payload|, |stored.value.value|));
    }
  }

  /** A single scan gives both the expirations and every tenant's size. */
  method Bootstrap(storage: Storage.Storage, index: TtlIndex.Index, quotas: Quota.QuotaStore)
    requires index.View() == TtlIndex.EMPTY
    modifies index, quotas
    ensures index.View() == BootTtl(Listed(Storage.Under(storage.data, [])))
    ensures quotas.View() == old(quotas.View()).(usage := BootUsage(Listed(Storage.Under(storage.data, []))))
  {
    hide BootTtlEntry, BootUsageEntry, Listed, Storage.Under;
    var usage: map<Bytes, u64> := map[];
    var scan := storage.Scan([]);
    for i := 0 to |scan|
      invariant usage == BootUsage(scan[..i])
      invariant index.View() == BootTtl(scan[..i])
      invariant quotas.View() == old(quotas.View())
    {
      assert scan[..i + 1][..i] == scan[..i];
      usage := BootEntry(index, usage, scan[i]);
    }
    assert scan[..|scan|] == scan;
    quotas.ResetUsage(usage);
  }

  /** The effects of starting up, recorded one by one, are the effects of starting up. */
  lemma GroupOpenEffects(before: seq<Disk.Effect>, durable: bool, file: Bytes)
    ensures Recover(file).Err? ==> before + OpenEffects(file) == before + OpenNodeEffects(durable, file)
    ensures Recover(file).Ok? ==>
      var rec := Recover(file).value;
      var segment := WalState(OpenedFile(file), rec.nextSeq, rec.segmentBytes);
      var replayed := before + OpenEffects(file) + Engines(RecordOps(rec.records));
      (if durable then replayed + [Disk.Flush] + RotateEffects(segment) else replayed)
        == before + OpenNodeEffects(durable, file)
  {
    hide Recover, OpenEffects, OpenedFile, RotateEffects, Engines, RecordOps;
  }

  /** The durable half of starting up: recover the log, replay it, drop it if storage
      keeps its records. */
  method RecoverStorage(recorder: Disk.Recorder, durable: bool, file: Bytes, engine: Disk.Store)
      returns (wal: Wal?, storage: Storage.Storage, refusal: Option<Error>)
    modifies recorder
    ensures var rec := Recover(file);
      && (wal == null <==> rec.Err?)
      && refusal == (if rec.Err? then Some(rec.error) else None)
      && (rec.Ok? ==>
        var segment := WalState(OpenedFile(file), rec.value.nextSeq, rec.value.segmentBytes);
        && fresh(wal) && fresh(storage) && wal.recorder == recorder
        && storage.recorder == recorder && storage.durable == durable
        && wal.View() == (if durable then Rotated(segment) else segment)
        && storage.data == Disk.ApplyAll(engine, RecordOps(rec.value.records)))
    ensures recorder.effects == old(recorder.effects) + OpenNodeEffects(durable, file)
  {
    hide Recover, OpenEffects, OpenedFile, Disk.ApplyAll, RotateEffects, Rotated, OpenNodeEffects, Engines, RecordOps;
    GroupOpenEffects(recorder.effects, durable, file);
    storage := new Storage.Storage(recorder, durable, engine);
    var opened', recovery := Open(recorder, file);
    wal := opened';
    if recovery.Err? {
      refusal := Some(recovery.error);
      return;
    }
    refusal := None;
    Replay(storage, recovery.value.records);
    if storage.durable {
      storage.Flush();
      wal.Rotate();
    }
  }

  /** Starts a node over what the disk holds, or refuses. */
  method OpenService(recorder: Disk.Recorder, config: Config, defaultMax: u64, limits: map<Bytes, u64>, window: nat,
                     file: Bytes, engine: Disk.Store)
      returns (service: Service?, refusal: Option<Error>)
    requires recorder.effects == []
    modifies recorder
    ensures var node := OpenNode(config, Quota.QuotaState(defaultMax, limits, map[]), window, file, engine);
      && (node.Err? ==> service == null && refusal == Some(node.error))
      && (node.Ok? ==> service != null && service.Valid() && service.config == config && service.View() == node.value)
    ensures recorder.effects == OpenNodeEffects(config.durable, file)
  {
    hide Recover, OpenNodeEffects, OpenedFile, Disk.ApplyAll, BootTtl, BootUsage, Listed, Rotated, Storage.Under;
    var wal, storage, refused := RecoverStorage(recorder, config.durable, file, engine);
    if refused.Some? {
      return null, refused;
    }
    var quotas := new Quota.QuotaStore(defaultMax, limits);
    var index := new TtlIndex.Index();
    Bootstrap(storage, index, quotas);
    var hub := new Watch.WatchHub(window);
    service := new Service(config, recorder, wal, storage, index, quotas, hub);
    refusal := None;
  }
}
