/** What one request does to a node, as a function of the node's whole state. */
module NodeSpec {
  import opened ByteStrings
  import opened Disk
  import opened WalFrames
  import opened WriteAheadLog
  import opened Listing
  import KeyCodec
  import ValueCodec
  import Storage
  import TtlIndex
  import Quota
  import Watch

  datatype Config = Config(durable: bool, rotateBytes: nat)

  /** `effects` is everything this process has done to the disk, in order. */
  datatype Node = Node(
    store: Store,
    wal: WalState,
    ttl: TtlIndex.TtlState,
    quota: Quota.QuotaState,
    hub: Watch.HubState,
    effects: seq<Effect>)

  // -------------------------------------------------------------- accounting

  /** By how much a write will move a tenant's counter, settled before it happens. */
  datatype Accounting = Accounting(tenant: Bytes, delta: int)

  function StoredBytes(store: Store, key: Bytes, payload: Bytes): Result<nat> {
    if key !in store then Ok(0)
    else match ValueCodec.PayloadLen(store[key])
      case Err(e) => Err(e)
      case Ok(n) => Ok(Quota.EntryBytes(|payload|, n))
  }

  function PlanPut(store: Store, key: Bytes, newLen: nat): Result<Option<Accounting>> {
    match KeyCodec.Decode(key)
    case Err(_) => Ok(None)
    case Ok(d) =>
      if !d.subspace.Data? then Ok(None)
      else match StoredBytes(store, key, d.payload)
        case Err(e) => Err(e)
        case Ok(previous) => Ok(Some(Accounting(d.tenant, Quota.EntryBytes(|d.payload|, newLen) - previous)))
  }

  function PlanDelete(store: Store, key: Bytes): Result<Option<Accounting>> {
    match KeyCodec.Decode(key)
    case Err(_) => Ok(None)
    case Ok(d) =>
      if !d.subspace.Data? || key !in store then Ok(None)
      else match StoredBytes(store, key, d.payload)
        case Err(e) => Err(e)
        case Ok(freed) => Ok(Some(Accounting(d.tenant, 0 - freed)))
  }

  predicate Bills(plan: Option<Accounting>) {
    plan.Some? && plan.value.delta != 0
  }

  predicate LegalPlan(plan: Option<Accounting>) {
    plan.Some? ==> KeyCodec.LegalTenant(plan.value.tenant)
  }

  function Billed(q: Quota.QuotaState, plan: Option<Accounting>): Quota.QuotaState {
    if Bills(plan) then Quota.Adjusted(q, plan.value.tenant, plan.value.delta) else q
  }

  /** The usage record a settled plan leaves in storage. */
  function BillOps(q: Quota.QuotaState, plan: Option<Accounting>): seq<StoreOp>
    requires LegalPlan(plan)
  {
    if Bills(plan) then [Quota.UsageWrite(plan.value.tenant, Quota.Used(Billed(q, plan), plan.value.tenant))] else []
  }

  // ------------------------------------------------------------------ writes

  /** A write that has been admitted: what is logged, what is stored, what watchers see. */
  datatype Write = Write(op: WalOp, key: Bytes, stored: Bytes, expiresAt: Option<u64>, shown: Bytes)

  function EngineOp(op: WalOp, key: Bytes, value: Bytes): StoreOp {
    if op.Put? then StorePut(key, value) else StoreDelete(key)
  }

  function RecordOp(r: WalRecord): StoreOp {
    EngineOp(r.op, r.key, r.value)
  }

  function RecordOps(rs: seq<WalRecord>): (ops: seq<StoreOp>)
    ensures |ops| == |rs|
    ensures forall i | 0 <= i < |rs| :: ops[i] == RecordOp(rs[i])
  {
    seq(|rs|, i requires 0 <= i < |rs| => RecordOp(rs[i]))
  }

  function Engines(ops: seq<StoreOp>): (es: seq<Effect>)
    ensures |es| == |ops|
    ensures forall i | 0 <= i < |ops| :: es[i] == Engine(ops[i])
  {
    seq(|ops|, i requires 0 <= i < |ops| => Engine(ops[i]))
  }

  /** Flush before rotate: the segment is dropped only once storage has its records. */
  function RotationEffects(w: WalState): seq<Effect> {
    [Flush] + RotateEffects(w)
  }

  predicate MustRotate(c: Config, w: WalState) {
    c.durable && w.segmentBytes >= c.rotateBytes
  }

  function Change(w: Write): Watch.ChangeKind {
    if w.op.Put? then Watch.ChangePut else Watch.ChangeDelete
  }

  /** Only changes to tenant data are announced, and only to a tenant somebody watches. */
  function Announced(h: Watch.HubState, w: Write): Watch.HubState {
    match KeyCodec.Decode(w.key)
    case Err(_) => h
    case Ok(d) =>
      if !d.subspace.Data? || !Watch.IsWatched(h, d.tenant) then h
      else Watch.Published(h, d.tenant, Watch.KeyChange(Change(w), d.payload, w.shown))
  }

  function WriteEffects(c: Config, w: WalState, r: WalRecord, bill: seq<StoreOp>): seq<Effect> {
    [AppendFile(Frame(r)), Engine(RecordOp(r))] + Engines(bill) + (if MustRotate(c, w) then RotationEffects(w) else [])
  }

  /** An admitted write, start to finish. */
  ghost function Perform(c: Config, n: Node, w: Write, plan: Option<Accounting>): Node
    requires LegalPlan(plan)
  {
    var r := NextRecord(n.wal, w.op, w.key, w.stored);
    var logged := Appended(n.wal, r);
    var bill := BillOps(n.quota, plan);
    Node(ApplyAll(n.store, [RecordOp(r)] + bill),
         if MustRotate(c, logged) then Rotated(logged) else logged,
         if w.expiresAt.Some? then TtlIndex.Scheduled(n.ttl, w.key, w.expiresAt.value) else n.ttl,
         Billed(n.quota, plan),
         Announced(n.hub, w),
         n.effects + WriteEffects(c, logged, r, bill))
  }

  function ExpiryOf(now: u64, ttlMs: u64): Option<u64> {
    if ttlMs > 0 then Some(SaturatingAdd(now, ttlMs)) else None
  }

  function PutWrite(now: u64, key: Bytes, value: Bytes, ttlMs: u64): Write {
    var expiresAt := ExpiryOf(now, ttlMs);
    Write(WalOp.Put, key, ValueCodec.Encode(value, expiresAt), expiresAt, value)
  }

  function DeleteWrite(key: Bytes): Write {
    Write(WalOp.Delete, key, [], None, [])
  }

  /** Whether a put is admitted, and what it will be billed for. */
  function AdmitPut(n: Node, key: Bytes, value: Bytes): Result<Option<Accounting>> {
    match PlanPut(n.store, key, |value|)
    case Err(e) => Err(e)
    case Ok(plan) =>
      if plan.None? then Ok(plan)
      else match Quota.CheckWrite(n.quota, plan.value.tenant, plan.value.delta)
        case Err(e) => Err(e)
        case Ok(_) => Ok(plan)
  }

  lemma PlansAreLegal(n: Node, key: Bytes, value: Bytes)
    ensures AdmitPut(n, key, value).Ok? ==> LegalPlan(AdmitPut(n, key, value).value)
    ensures PlanDelete(n.store, key).Ok? ==> LegalPlan(PlanDelete(n.store, key).value)
  {
    if KeyCodec.Decode(key).Ok? { KeyCodec.KeyOfDecoded(key); }
  }

  ghost function Put(c: Config, n: Node, now: u64, key: Bytes, value: Bytes, ttlMs: u64): (Node, Result<()>) {
    PlansAreLegal(n, key, value);
    match AdmitPut(n, key, value)
    case Err(e) => (n, Err(e))
    case Ok(plan) => (Perform(c, n, PutWrite(now, key, value, ttlMs), plan), Ok(()))
  }

  ghost function Delete(c: Config, n: Node, key: Bytes): (Node, Result<()>) {
    PlansAreLegal(n, key, []);
    match PlanDelete(n.store, key)
    case Err(e) => (n, Err(e))
    case Ok(plan) => (Perform(c, n, DeleteWrite(key), plan), Ok(()))
  }

  function Get(store: Store, now: u64, key: Bytes): Result<Option<Bytes>> {
    if key !in store then Ok(None)
    else match ValueCodec.IsExpired(store[key], now)
      case Err(e) => Err(e)
      case Ok(true) => Ok(None)
      case Ok(false) =>
        match ValueCodec.Decode(store[key])
        case Err(e) => Err(e)
        case Ok(sv) => Ok(Some(sv.value))
  }

  // ------------------------------------------------------------------- sweep

  ghost function SweepKey(c: Config, n: Node, now: u64, key: Bytes): (Node, nat) {
    if key !in n.store then (n, 0)
    else match ValueCodec.IsExpired(n.store[key], now)
      case Err(_) => (n, 0)
      case Ok(true) =>
        var (n', res) := Delete(c, n, key);
        (n', if res.Ok? then 1 else 0)
      case Ok(false) =>
        match ValueCodec.Decode(n.store[key])
        case Err(_) => (n, 0)
        case Ok(sv) =>
          if sv.expiresAt.None? then (n, 0)
          else (n.(ttl := TtlIndex.Scheduled(n.ttl, key, sv.expiresAt.value)), 0)
  }

  ghost function SweepKeys(c: Config, n: Node, now: u64, keys: seq<Bytes>): (Node, nat) {
    if keys == [] then (n, 0)
    else
      var (n1, removed) := SweepKeys(c, n, now, keys[..|keys| - 1]);
      var (n2, one) := SweepKey(c, n1, now, keys[|keys| - 1]);
      (n2, removed + one)
  }

  ghost function Sweep(c: Config, n: Node, now: u64): (Node, nat) {
    SweepKeys(c, n.(ttl := TtlIndex.Drained(n.ttl, now)), now, TtlIndex.DueKeys(n.ttl.buckets, now))
  }

  // -------------------------------------------------------------------- open

  /** What one entry of the startup scan adds to the index. */
  ghost function BootTtlEntry(t: TtlIndex.TtlState, e: Entry): TtlIndex.TtlState {
    match ValueCodec.Decode(e.1)
    case Err(_) => t
    case Ok(sv) => if sv.expiresAt.None? then t else TtlIndex.Scheduled(t, e.0, sv.expiresAt.value)
  }

  ghost function BootTtl(es: seq<Entry>): TtlIndex.TtlState {
    if es == [] then TtlIndex.EMPTY else BootTtlEntry(BootTtl(es[..|es| - 1]), es[|es| - 1])
  }

  function Charge(usage: map<Bytes, u64>, tenant: Bytes, bytes: nat): map<Bytes, u64> {
    usage[tenant := ((if tenant in usage then usage[tenant] else 0) + bytes) % Quota.U64_RANGE]
  }

  /** What it adds to the usage: only tenant data is billed. */
  function BootUsageEntry(usage: map<Bytes, u64>, e: Entry): map<Bytes, u64> {
    match ValueCodec.Decode(e.1)
    case Err(_) => usage
    case Ok(sv) =>
      match KeyCodec.Decode(e.0)
      case Err(_) => usage
      case Ok(d) =>
        if d.subspace.Data? then Charge(usage, d.tenant, Quota.EntryBytes(|d.payload|, |sv.value|)) else usage
  }

  function BootUsage(es: seq<Entry>): map<Bytes, u64> {
    if es == [] then map[] else BootUsageEntry(BootUsage(es[..|es| - 1]), es[|es| - 1])
  }

  function OpenNodeEffects(durable: bool, file: Bytes): seq<Effect> {
    OpenEffects(file) +
    match Recover(file)
    case Err(_) => []
    case Ok(rec) =>
      Engines(RecordOps(rec.records)) +
      (if durable then RotationEffects(WalState(OpenedFile(file), rec.nextSeq, rec.segmentBytes)) else [])
  }

  /** Starting up over what the disk holds: recover the log, replay it into storage, drop
      it if storage is durable, rebuild the index and the counters from the data. */
  ghost function OpenNode(c: Config, quota: Quota.QuotaState, window: nat, file: Bytes, engine: Store): Result<Node> {
    match Recover(file)
    case Err(e) => Err(e)
    case Ok(rec) =>
      var store := ApplyAll(engine, RecordOps(rec.records));
      var segment := WalState(OpenedFile(file), rec.nextSeq, rec.segmentBytes);
      var scan := Listed(Storage.Under(store, []));
      Ok(Node(store,
              if c.durable then Rotated(segment) else segment,
              BootTtl(scan),
              quota.(usage := BootUsage(scan)),
              Watch.HubState(window, map[], 0),
              OpenNodeEffects(c.durable, file)))
  }
}
