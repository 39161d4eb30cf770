/** What a node is configured with stays what it is, from start-up through every request. */
module Settings {
  import opened ByteStrings
  import opened Disk
  import opened NodeSpec
  import opened NodeInvariants
  import opened Durability
  import opened Histories
  import opened WriteAheadLog
  import KeyCodec
  import ValueCodec
  import TtlIndex
  import Quota
  import Watch

  /** The limits, the default limit and the window of the change feed. */
  predicate Agree(n: Node, limits: map<Bytes, u64>, defaultMax: u64, window: nat) {
    n.quota.limits == limits && n.quota.defaultMax == defaultMax && n.hub.window == window
  }

  predicate SameSettings(n: Node, n': Node) {
    Agree(n', n.quota.limits, n.quota.defaultMax, n.hub.window)
  }

  lemma WriteKeepsSettings(c: Config, n: Node, w: Write, plan: Option<Accounting>)
    requires LegalPlan(plan)
    ensures SameSettings(n, Perform(c, n, w, plan))
  {
    hide BillOps, Appended, Rotated, WriteEffects, ApplyAll, MustRotate, TtlIndex.Scheduled, KeyCodec.Decode;
  }

  lemma {:induction false} SweepKeepsSettings(c: Config, n: Node, now: u64, keys: seq<Bytes>)
    ensures SameSettings(n, SweepKeys(c, n, now, keys).0)
    decreases |keys|
  {
    hide Perform, PlanDelete, TtlIndex.Scheduled, ValueCodec.Decode, ValueCodec.IsExpired;
    if keys != [] {
      var init, key := keys[..|keys| - 1], keys[|keys| - 1];
      var n1 := SweepKeys(c, n, now, init).0;
      SweepKeepsSettings(c, n, now, init);
      PlansAreLegal(n1, key, []);
      if PlanDelete(n1.store, key).Ok? { WriteKeepsSettings(c, n1, DeleteWrite(key), PlanDelete(n1.store, key).value); }
    }
  }

  lemma RequestKeepsSettings(c: Config, n: Node, req: Request)
    ensures SameSettings(n, Exec(c, n, req))
  {
    hide Perform, PlanDelete, AdmitPut, SweepKeys, TtlIndex.DueKeys, TtlIndex.Drained;
    match req {
      case PutRequest(now, key, value, ttlMs) =>
        PlansAreLegal(n, key, value);
        if AdmitPut(n, key, value).Ok? {
          WriteKeepsSettings(c, n, PutWrite(now, key, value, ttlMs), AdmitPut(n, key, value).value);
        }
      case DeleteRequest(key) =>
        PlansAreLegal(n, key, []);
        if PlanDelete(n.store, key).Ok? { WriteKeepsSettings(c, n, DeleteWrite(key), PlanDelete(n.store, key).value); }
      case SweepRequest(now) =>
        var n0 := n.(ttl := TtlIndex.Drained(n.ttl, now));
        SweepKeepsSettings(c, n0, now, TtlIndex.DueKeys(n.ttl.buckets, now));
    }
  }

  /** A node opens with what it was given and with nobody watching. */
  lemma OpensAsGiven(v: Env, file: Bytes, engine: Store)
    ensures var n := OpenNode(v.c, v.quota, v.window, file, engine);
      n.Ok? ==> Agree(n.value, v.quota.limits, v.quota.defaultMax, v.window) && n.value.hub.channels == map[]
  {
    hide Recover, OpenedFile, OpenNodeEffects, BootTtl, BootUsage, ApplyAll;
  }

  /** In every history a node that is up holds the limits, the default and the window it was
      configured with, however many requests, crashes and restarts came before. */
  lemma {:induction false} SettingsKept(v: Env, states: seq<System>, events: seq<Event>, i: nat)
    requires IsHistory(v, states, events) && i < |states|
    ensures states[i].Up? ==>
      var n := states[i].node;
      n.quota.limits == v.quota.limits && n.quota.defaultMax == v.quota.defaultMax && n.hub.window == v.window
  {
    hide Exec, OpsOf, Admissible, OpenNode, OpenNodeEffects, CanCrash, CrashedDisk, Completed, Bounded;
    if i > 0 {
      SettingsKept(v, states, events, i - 1);
      var s := states[i - 1];
      assert Step(v, s, events[i - 1], states[i]);
      match events[i - 1] {
        case Serve(req) => RequestKeepsSettings(v.c, s.node, req);
        case Reopen => OpensAsGiven(v, s.disk.file, s.disk.Data());
        case _ =>
      }
    }
  }
}
