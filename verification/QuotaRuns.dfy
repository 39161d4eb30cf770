/** Quotas over whole runs of a node. */
module QuotaRuns {
  import opened ByteStrings
  import opened Disk
  import opened NodeSpec
  import opened NodeInvariants
  import opened SweepLaws
  import opened Durability
  import TtlIndex
  import Quota

  function Larger(a: nat, b: nat): nat { if a < b then b else a }

  /** Nodes of an uninterrupted run: each the result of serving the next request. */
  ghost predicate Serving(c: Config, nodes: seq<Node>, reqs: seq<Request>) {
    && |nodes| == |reqs| + 1
    && NodeInv(nodes[0]) && UsagePlain(nodes[0].store)
    && (forall i | 0 <= i < |nodes| :: Bounded(nodes[i].store))
    && (forall i | 0 <= i < |reqs| :: Admissible(reqs[i]) && nodes[i + 1] == Exec(c, nodes[i], reqs[i]))
  }

  /** Admission bounds the tenant that is billed. */
  lemma AdmittedWithin(n: Node, key: Bytes, value: Bytes, t: Bytes)
    requires AdmitPut(n, key, value).Ok? && Quota.LimitOf(n.quota, t) > 0
    requires Quota.Used(n.quota, t) + PlanDelta(AdmitPut(n, key, value).value, t) < Quota.U64_RANGE
    ensures Quota.Used(n.quota, t) + PlanDelta(AdmitPut(n, key, value).value, t)
         <= Larger(Quota.Used(n.quota, t), Quota.LimitOf(n.quota, t))
  {
    hide PlanPut;
  }

  lemma PerformLimits(c: Config, n: Node, w: Write, plan: Option<Accounting>, t: Bytes)
    requires LegalPlan(plan)
    ensures Quota.LimitOf(Perform(c, n, w, plan).quota, t) == Quota.LimitOf(n.quota, t)
  {
    hide ApplyAll, Announced, BillOps, LegalPlan;
  }

  lemma {:induction false} SweepLimits(c: Config, n: Node, now: u64, keys: seq<Bytes>, t: Bytes)
    ensures Quota.LimitOf(SweepKeys(c, n, now, keys).0.quota, t) == Quota.LimitOf(n.quota, t)
  {
    hide Perform, PlanDelete, Quota.LimitOf;
    if keys != [] {
      SweepLimits(c, n, now, keys[..|keys| - 1], t);
      var n1 := SweepKeys(c, n, now, keys[..|keys| - 1]).0;
      var key := keys[|keys| - 1];
      PlansAreLegal(n1, key, []);
      if PlanDelete(n1.store, key).Ok? {
        PerformLimits(c, n1, DeleteWrite(key), PlanDelete(n1.store, key).value, t);
      }
    }
  }

  lemma {:induction false} SweepNeverGrows(m: Store, m': Store, gone: set<Bytes>, t: Bytes)
    requires KeptExcept(m, m', gone)
    ensures Total(m', t) <= Total(m, t)
    decreases |m'|
  {
    hide Weight, Quota.IsUsageRecord;
    if m' == map[] {
    } else {
      var k :| k in m';
      assert (m' - {k}).Keys == m'.Keys - {k};
      TotalRemove(m', t, k);
      if Quota.IsUsageRecord(k) {
        UsageRecordWeighsNothing(k, m'[k], t);
        SweepNeverGrows(m, m' - {k}, gone + {k}, t);
      } else {
        assert Lookup(m', k) == if k in gone then None else Lookup(m, k);
        TotalRemove(m, t, k);
        SweepNeverGrows(m - {k}, m' - {k}, gone, t);
      }
    }
  }

  /** One request: usage ends at most where it was or at the limit, and the limit stays. */
  lemma QuotaStep(c: Config, n: Node, req: Request, t: Bytes)
    requires NodeInv(n) && UsagePlain(n.store) && Bounded(n.store) && Bounded(Exec(c, n, req).store) && Admissible(req)
    ensures var n' := Exec(c, n, req);
      && NodeInv(n') && UsagePlain(n'.store)
      && Quota.LimitOf(n'.quota, t) == Quota.LimitOf(n.quota, t)
      && (Quota.LimitOf(n.quota, t) > 0 ==>
            Quota.Used(n'.quota, t) <= Larger(Quota.Used(n.quota, t), Quota.LimitOf(n.quota, t)))
  {
    hide Perform, Sound, WellFormed, CoveredAfter, TtlCounted, SweepKeys, AdmitPut, PlanDelete, UsagePlain;
    hide Quota.LimitOf, Quota.Used;
    match req {
      case PutRequest(now, key, value, ttlMs) =>
        PlansAreLegal(n, key, value);
        if AdmitPut(n, key, value).Ok? {
          var w, plan := PutWrite(now, key, value, ttlMs), AdmitPut(n, key, value).value;
          AdmittedPutIsSound(n, now, key, value, ttlMs);
          WriteStep(c, n, w, plan, t);
          if Quota.LimitOf(n.quota, t) > 0 { AdmittedWithin(n, key, value, t); }
        }
      case DeleteRequest(key) =>
        PlansAreLegal(n, key, []);
        PlannedDeleteIsSound(n.store, key);
        WriteStep(c, n, DeleteWrite(key), PlanDelete(n.store, key).value, t);
        DeleteShrinks(n.store, key, t);
      case SweepRequest(now) =>
        SweepIsExact(c, n, now);
        SweepLimits(c, n.(ttl := TtlIndex.Drained(n.ttl, now)), now, TtlIndex.DueKeys(n.ttl.buckets, now), t);
        SweepNeverGrows(n.store, Sweep(c, n, now).0.store, AllExpired(n.store, now), t);
    }
  }

  lemma WriteStep(c: Config, n: Node, w: Write, plan: Option<Accounting>, t: Bytes)
    requires NodeInv(n) && UsagePlain(n.store) && Sound(n.store, w, plan) && Bounded(Perform(c, n, w, plan).store)
    requires !Quota.IsUsageRecord(w.key)
    ensures var n' := Perform(c, n, w, plan);
      && NodeInv(n') && UsagePlain(n'.store)
      && Quota.LimitOf(n'.quota, t) == Quota.LimitOf(n.quota, t)
      && Quota.Used(n'.quota, t) == Quota.Used(n.quota, t) + PlanDelta(plan, t) == Total(n'.store, t)
  {
    assert LegalPlan(plan);
    WritePlain(c, n, w, plan);
    hide Perform, Sound, WellFormed, CoveredAfter, TtlCounted, UsagePlain, Quota.LimitOf, Quota.Used, LegalPlan;
    PerformKeeps(c, n, w, plan);
    PerformStore(c, n, w, plan);
    PerformLimits(c, n, w, plan, t);
  }

  lemma WritePlain(c: Config, n: Node, w: Write, plan: Option<Accounting>)
    requires UsagePlain(n.store) && LegalPlan(plan) && !Quota.IsUsageRecord(w.key)
    ensures UsagePlain(Perform(c, n, w, plan).store)
  {
    hide BillOps, Billed, Announced, LegalPlan, Quota.IsUsageRecord, Expiry;
    var op := EngineOp(w.op, w.key, w.stored);
    var m1 := ApplyOp(n.store, op);
    ApplyFirst(n.store, op, BillOps(n.quota, plan));
    BillStaysPlain(m1, n.quota, plan);
  }

  /** With a fixed limit, usage over a whole run never exceeds the limit or where it
      started, whichever is larger; the derived structures stay exact all along. */
  lemma {:induction false} QuotaOverRun(c: Config, nodes: seq<Node>, reqs: seq<Request>, t: Bytes, i: nat)
    requires Serving(c, nodes, reqs) && i < |nodes|
    ensures NodeInv(nodes[i]) && UsagePlain(nodes[i].store)
    ensures Quota.LimitOf(nodes[i].quota, t) == Quota.LimitOf(nodes[0].quota, t)
    ensures Quota.LimitOf(nodes[0].quota, t) > 0 ==>
      Quota.Used(nodes[i].quota, t) <= Larger(Quota.Used(nodes[0].quota, t), Quota.LimitOf(nodes[0].quota, t))
  {
    hide NodeInv, UsagePlain, Bounded, Exec, Admissible, Quota.LimitOf, Quota.Used;
    if i > 0 {
      QuotaOverRun(c, nodes, reqs, t, i - 1);
      assert nodes[i] == Exec(c, nodes[i - 1], reqs[i - 1]);
      QuotaStep(c, nodes[i - 1], reqs[i - 1], t);
    }
  }
}
