/** The sweep removes exactly what has expired, and nobody can tell. */
module SweepLaws {
  import opened ByteStrings
  import opened Disk
  import opened NodeSpec
  import opened NodeInvariants
  import KeyCodec
  import ValueCodec
  import TtlIndex
  import Quota

  /** The expired entries among `keys`; a key listed twice counts once. */
  function Due(m: Store, keys: seq<Bytes>, now: u64): set<Bytes> {
    set k | k in m && k in keys && Expired(m[k], now)
  }

  function AllExpired(m: Store, now: u64): set<Bytes> {
    set k | k in m && Expired(m[k], now)
  }

  /** What stays true in the middle of a sweep, when due entries have left the index but
      not yet the store. */
  ghost predicate Sweeping(n: Node, now: u64) {
    && WellFormed(n.store)
    && UsageExact(n.store, n.quota)
    && UsagePlain(n.store)
    && Bounded(n.store)
    && CoveredAfter(n.store, n.ttl.buckets, now)
    && TtlCounted(n.ttl)
  }

  /** Everything but usage records is kept, except the keys in `gone`. */
  ghost predicate KeptExcept(m: Store, m': Store, gone: set<Bytes>) {
    forall k | !Quota.IsUsageRecord(k) :: Lookup(m', k) == if k in gone then None else Lookup(m, k)
  }

  lemma DeleteShrinks(m: Store, key: Bytes, t: Bytes)
    requires WellFormed(m)
    ensures PlanDelete(m, key).Ok? && PlanDelta(PlanDelete(m, key).value, t) <= 0
  {
    hide Weight, KeyCodec.Decode, ValueCodec.Decode;
    PlannedDeleteIsSound(m, key);
    assert WeightAt(ApplyOp(m, EngineOp(DeleteWrite(key).op, key, [])), t, key) == 0;
  }

  lemma DeleteKeepsPlain(c: Config, n: Node, key: Bytes)
    requires WellFormed(n.store) && UsagePlain(n.store)
    ensures UsagePlain(NodeSpec.Delete(c, n, key).0.store)
  {
    hide KeyCodec.Decode, ValueCodec.Decode, BillOps, Quota.IsUsageRecord;
    PlannedDeleteIsSound(n.store, key);
    var plan := PlanDelete(n.store, key).value;
    var op := StoreDelete(key);
    ApplyAllConcat(n.store, [op], BillOps(n.quota, plan));
    assert ApplyAll(n.store, [op]) == ApplyOp(n.store, op) by { assert [op][..0] == []; }
    BillStaysPlain(ApplyOp(n.store, op), n.quota, plan);
  }

  /** A delete during a sweep. */
  lemma SweptDelete(c: Config, n: Node, now: u64, key: Bytes)
    requires Sweeping(n, now)
    ensures var (n', res) := NodeSpec.Delete(c, n, key);
      res.Ok? && Sweeping(n', now) && KeptExcept(n.store, n'.store, {key})
  {
    hide Sound, Perform, WellFormed, UsageExact, CoveredAfter, TtlCounted, PlanDelete, UsagePlain, Quota.IsUsageRecord;
    PlannedDeleteIsSound(n.store, key);
    PlansAreLegal(n, key, []);
    var plan := PlanDelete(n.store, key).value;
    var w := DeleteWrite(key);
    PerformStore(c, n, w, plan);
    forall t ensures Total(Perform(c, n, w, plan).store, t) < Quota.U64_RANGE {
      DeleteShrinks(n.store, key, t);
    }
    PerformUsage(c, n, w, plan);
    PerformTtl(c, n, w, plan, now);
    DeleteKeepsPlain(c, n, key);
  }

  lemma Rescheduled(n: Node, now: u64, key: Bytes, e: u64)
    requires Sweeping(n, now)
    ensures Sweeping(n.(ttl := TtlIndex.Scheduled(n.ttl, key, e)), now)
  {
    hide TtlIndex.Size, TtlIndex.Earliest, WellFormed, UsageExact, UsagePlain, Bounded, Expiry;
    TtlIndex.TotalIsSize(n.ttl, key, e, 0);
  }

  /** One candidate: removed exactly when it is stored and expired. */
  lemma SweepOneKey(c: Config, n: Node, now: u64, key: Bytes)
    requires Sweeping(n, now)
    ensures var (n', removed) := SweepKey(c, n, now, key);
      && Sweeping(n', now)
      && KeptExcept(n.store, n'.store, Due(n.store, [key], now))
      && removed == |Due(n.store, [key], now)|
  {
    hide NodeSpec.Delete, ValueCodec.Decode, ValueCodec.IsExpired, TtlIndex.Scheduled, Quota.IsUsageRecord;
    if key in n.store {
      ValueCodec.ShortcutsAgree(n.store[key], now);
      assert ValueCodec.Decode(n.store[key]).Ok?;
      if Expired(n.store[key], now) {
        assert Due(n.store, [key], now) == {key};
        SweptDelete(c, n, now, key);
      } else {
        assert Due(n.store, [key], now) == {};
        if Expiry(n.store[key]).Some? {
          Rescheduled(n, now, key, Expiry(n.store[key]).value);
        }
      }
    } else {
      assert Due(n.store, [key], now) == {};
    }
  }

  /** Candidates one after another: a key met again after it was removed is not counted
      again. */
  lemma {:induction false} SweepManyKeys(c: Config, n: Node, now: u64, keys: seq<Bytes>)
    requires Sweeping(n, now)
    ensures var (n', removed) := SweepKeys(c, n, now, keys);
      && Sweeping(n', now)
      && KeptExcept(n.store, n'.store, Due(n.store, keys, now))
      && removed == |Due(n.store, keys, now)|
  {
    hide SweepKey, Expired, Quota.IsUsageRecord, WellFormed, UsageExact, UsagePlain, Bounded, CoveredAfter, TtlCounted;
    if keys == [] {
      assert Due(n.store, keys, now) == {};
    } else {
      var init, key := keys[..|keys| - 1], keys[|keys| - 1];
      var n1 := SweepKeys(c, n, now, init).0;
      SweepManyKeys(c, n, now, init);
      SweepOneKey(c, n1, now, key);
      DueSplit(n, n1, now, init, key);
      assert init + [key] == keys;
    }
  }

  lemma DueSplit(n: Node, n1: Node, now: u64, init: seq<Bytes>, key: Bytes)
    requires UsagePlain(n.store) && UsagePlain(n1.store)
    requires KeptExcept(n.store, n1.store, Due(n.store, init, now))
    ensures Due(n.store, init + [key], now) == Due(n.store, init, now) + Due(n1.store, [key], now)
    ensures Due(n.store, init, now) !! Due(n1.store, [key], now)
  {
    hide Expiry, Quota.IsUsageRecord;
    forall k | k in Due(n.store, init + [key], now)
      ensures k in Due(n.store, init, now) + Due(n1.store, [key], now)
    {
      assert !Quota.IsUsageRecord(k);
      assert Lookup(n1.store, k) == if k in Due(n.store, init, now) then None else Lookup(n.store, k);
    }
    forall k | k in Due(n1.store, [key], now)
      ensures k !in Due(n.store, init, now) && k in Due(n.store, init + [key], now)
    {
      assert !Quota.IsUsageRecord(k);
      assert Lookup(n1.store, k) == if k in Due(n.store, init, now) then None else Lookup(n.store, k);
    }
  }

  /** Draining the index starts a sweep, and the candidates include everything expired. */
  lemma SweepStarts(n: Node, now: u64)
    requires NodeInv(n) && UsagePlain(n.store) && Bounded(n.store)
    ensures Sweeping(n.(ttl := TtlIndex.Drained(n.ttl, now)), now)
    ensures Due(n.store, TtlIndex.DueKeys(n.ttl.buckets, now), now) == AllExpired(n.store, now)
  {
    hide TtlIndex.DueKeys, TtlIndex.Size, ValueCodec.Decode, WellFormed, UsageExact, UsagePlain, Bounded;
    TtlIndex.TotalIsSize(n.ttl, [], 0, now);
    TtlIndex.DrainSplits(n.ttl.buckets, now);
    forall k | k in AllExpired(n.store, now) ensures k in TtlIndex.DueKeys(n.ttl.buckets, now) {
      var e := Expiry(n.store[k]).value;
      assert k in TtlIndex.Bucket(n.ttl.buckets, e);
      assert e in n.ttl.buckets && e <= now && k in n.ttl.buckets[e];
    }
  }

  /** The sweep is exact: afterwards nothing stored has expired, nothing live is gone, the
      count is the number of expired keys however often stale index entries repeat them,
      and every derived structure still agrees with the data. */
  lemma SweepIsExact(c: Config, n: Node, now: u64)
    requires NodeInv(n) && UsagePlain(n.store) && Bounded(n.store)
    ensures var (n', removed) := Sweep(c, n, now);
      && NodeInv(n') && UsagePlain(n'.store) && Bounded(n'.store)
      && KeptExcept(n.store, n'.store, AllExpired(n.store, now))
      && AllExpired(n'.store, now) == {}
      && removed == |AllExpired(n.store, now)|
  {
    hide SweepKeys, TtlIndex.DueKeys, TtlIndex.Drained, TtlIndex.Later, ValueCodec.Decode, WellFormed, UsageExact;
    hide Quota.IsUsageRecord, TtlCounted, Bounded;
    var n0 := n.(ttl := TtlIndex.Drained(n.ttl, now));
    SweepStarts(n, now);
    SweepManyKeys(c, n0, now, TtlIndex.DueKeys(n.ttl.buckets, now));
    var n' := Sweep(c, n, now).0;
    forall k | k in n'.store ensures !Expired(n'.store[k], now) {
      if !Quota.IsUsageRecord(k) {
        assert Lookup(n'.store, k) == if k in AllExpired(n.store, now) then None else Lookup(n.store, k);
      }
    }
  }

  /** The sweep is invisible: every read from `now` on answers as if it had not run. */
  lemma SweepIsInvisible(c: Config, n: Node, now: u64, later: u64, key: Bytes)
    requires NodeInv(n) && UsagePlain(n.store) && Bounded(n.store)
    requires now <= later && !Quota.IsUsageRecord(key)
    ensures Get(Sweep(c, n, now).0.store, later, key) == Get(n.store, later, key)
  {
    hide Sweep, ValueCodec.Decode, ValueCodec.IsExpired, UsageExact, CoveredAfter, TtlCounted, UsagePlain, Bounded;
    SweepIsExact(c, n, now);
    var m' := Sweep(c, n, now).0.store;
    assert Lookup(m', key) == if key in AllExpired(n.store, now) then None else Lookup(n.store, key);
    if key in n.store {
      ValueCodec.ShortcutsAgree(n.store[key], later);
      assert ValueCodec.Decode(n.store[key]).Ok?;
    }
  }

  // ------------------------------------------------- what the sweep finds alive

  /** Those of `keys` whose entry has a stamp in the future are in the index under it. */
  ghost predicate Indexed(n: Node, keys: seq<Bytes>, now: u64) {
    forall k | k in keys && k in n.store && Expiry(n.store[k]).Some? && Expiry(n.store[k]).value > now ::
      k in TtlIndex.Bucket(n.ttl.buckets, Expiry(n.store[k]).value)
  }

  lemma DeleteKeepsIndexed(c: Config, n: Node, key: Bytes, keys: seq<Bytes>, now: u64)
    requires Indexed(n, keys, now)
    ensures Indexed(NodeSpec.Delete(c, n, key).0, keys, now)
    ensures var (n', res) := NodeSpec.Delete(c, n, key);
      (res.Err? ==> n' == n) && (res.Ok? && key in n'.store ==> Expiry(n'.store[key]).None?)
  {
    hide PlanDelete, BillOps, LegalPlan, Billed, Announced, WriteEffects, MustRotate, Expiry;
    hide TtlIndex.Bucket, ApplyAll;
    PlansAreLegal(n, key, []);
    var plan := PlanDelete(n.store, key);
    if plan.Ok? {
      ApplyFirst(n.store, StoreDelete(key), BillOps(n.quota, plan.value));
      BillStaysPlain(ApplyOp(n.store, StoreDelete(key)), n.quota, plan.value);
    }
  }

  lemma SweptKeyIndexed(c: Config, n: Node, now: u64, keys: seq<Bytes>, key: Bytes)
    requires Indexed(n, keys, now)
    ensures Indexed(SweepKey(c, n, now, key).0, keys + [key], now)
  {
    hide NodeSpec.Delete, ValueCodec.Decode, ValueCodec.IsExpired, TtlIndex.Earliest;
    if key in n.store {
      ValueCodec.ShortcutsAgree(n.store[key], now);
      DeleteKeepsIndexed(c, n, key, keys, now);
    }
  }

  /** Whatever the index was missing: every key the sweep looks at and leaves in place is
      scheduled under its own stamp afterwards. */
  lemma {:induction false} SweepReindexes(c: Config, n: Node, now: u64, keys: seq<Bytes>)
    ensures Indexed(SweepKeys(c, n, now, keys).0, keys, now)
  {
    hide Indexed, SweepKey;
    if keys == [] {
      NothingIndexed(n, now);
    } else {
      var init, key := keys[..|keys| - 1], keys[|keys| - 1];
      SweepReindexes(c, n, now, init);
      SweptKeyIndexed(c, SweepKeys(c, n, now, init).0, now, init, key);
      assert init + [key] == keys;
    }
  }

  lemma NothingIndexed(n: Node, now: u64)
    ensures Indexed(n, [], now)
  {}
}
