/** The in-memory index of expirations: keys bucketed by the time they expire. */
module TtlIndex {
  import opened ByteStrings
  import opened Listing

  type Buckets = map<u64, set<Bytes>>

  /** `permit` is the stored wakeup of the sweeper's notifier. */
  datatype TtlState = TtlState(buckets: Buckets, total: nat, permit: bool)

  const EMPTY: TtlState := TtlState(map[], 0, false)

  function Bucket(b: Buckets, e: u64): set<Bytes> {
    if e in b then b[e] else {}
  }

  lemma {:induction false} Least(s: set<u64>) returns (least: u64)
    requires s != {}
    ensures least in s && forall f | f in s :: least <= f
  {
    least :| least in s;
    var rest := s - {least};
    if rest != {} {
      var r := Least(rest);
      assert s == rest + {least};
      least := if r < least then r else least;
    } else {
      assert s == {least};
    }
  }

  lemma LeastExists(s: set<u64>)
    requires s != {}
    ensures exists e :: e in s && forall f | f in s :: e <= f
  {
    var e := Least(s);
  }

  /** The earliest scheduled expiration. */
  ghost function Earliest(b: Buckets): (e: Option<u64>)
    ensures e.None? <==> b == map[]
    ensures e.Some? ==> e.value in b && forall f | f in b :: e.value <= f
  {
    if b == map[] then None
    else
      assert b.Keys != {};
      LeastExists(b.Keys);
      var e :| e in b && forall f | f in b :: e <= f;
      Some(e)
  }

  lemma EarliestIs(b: Buckets, e: u64)
    requires e in b && forall f | f in b :: e <= f
    ensures Earliest(b) == Some(e)
  {}

  ghost function Scheduled(t: TtlState, key: Bytes, expiresAt: u64): TtlState {
    var first := Earliest(t.buckets);
    var bucket := Bucket(t.buckets, expiresAt);
    TtlState(t.buckets[expiresAt := bucket + {key}],
             if key in bucket then t.total else t.total + 1,
             t.permit || first.None? || expiresAt < first.value)
  }

  /** The keys due at `now`: bucket by bucket in time order, each bucket in key order. */
  ghost function DueKeys(b: Buckets, now: u64): seq<Bytes>
    decreases |b|
  {
    var first := Earliest(b);
    if first.None? || first.value > now then []
    else
      assert (b - {first.value}).Keys == b.Keys - {first.value};
      SortedKeys(b[first.value]) + DueKeys(b - {first.value}, now)
  }

  /** The buckets that are not yet due. */
  function Later(b: Buckets, now: u64): Buckets {
    map e | e in b && e > now :: b[e]
  }

  ghost function Drained(t: TtlState, now: u64): TtlState {
    var out := |DueKeys(t.buckets, now)|;
    TtlState(Later(t.buckets, now), if t.total < out then 0 else t.total - out, t.permit)
  }

  lemma PopFirst(b: Buckets, now: u64)
    requires Earliest(b).Some? && Earliest(b).value <= now
    ensures var ts := Earliest(b).value;
      && |b - {ts}| < |b|
      && DueKeys(b, now) == SortedKeys(b[ts]) + DueKeys(b - {ts}, now)
      && Later(b - {ts}, now) == Later(b, now)
  {
    var ts := Earliest(b).value;
    assert (b - {ts}).Keys == b.Keys - {ts};
  }

  lemma NothingDue(b: Buckets, now: u64)
    requires Earliest(b).None? || Earliest(b).value > now
    ensures DueKeys(b, now) == [] && Later(b, now) == b
  {}

  // ---------------------------------------------------------------- the index

  class Index {
    var buckets: Buckets
    var total: nat
    var permit: bool

    ghost function View(): TtlState
      reads this
    {
      TtlState(buckets, total, permit)
    }

    constructor ()
      ensures View() == EMPTY
    {
      buckets, total, permit := map[], 0, false;
    }

    /** The smallest bucket time, unless there are no buckets. */
    method NextDue() returns (first: Option<u64>)
      ensures first == Earliest(buckets)
    {
      first := None;
      var todo := buckets.Keys;
      while todo != {}
        invariant todo <= buckets.Keys
        invariant first.None? ==> todo == buckets.Keys
        invariant first.Some? ==> first.value in buckets && forall f | f in buckets && f !in todo :: first.value <= f
        decreases |todo|
      {
        var e :| e in todo;
        if first.None? || e < first.value {
          first := Some(e);
        }
        todo := todo - {e};
      }
      if first.Some? {
        EarliestIs(buckets, first.value);
      }
    }

    method Schedule(key: Bytes, expiresAt: u64)
      modifies this
      ensures View() == Scheduled(old(View()), key, expiresAt)
    {
      var wasEarliest := NextDue();
      var bucket := if expiresAt in buckets then buckets[expiresAt] else {};
      var inserted := key !in bucket;
      buckets := buckets[expiresAt := bucket + {key}];
      if inserted {
        total := total + 1;
      }
      if wasEarliest.None? || expiresAt < wasEarliest.value {
        permit := true;
      }
    }

    /** Pops every key whose expiration is not after `now`. */
    method DrainDue(now: u64) returns (out: seq<Bytes>)
      modifies this
      ensures out == DueKeys(old(buckets), now)
      ensures View() == Drained(old(View()), now)
    {
      hide DueKeys, Later, Earliest, SortedKeys;
      out := [];
      ghost var b0 := buckets;
      var first := NextDue();
      while first.Some? && first.value <= now
        invariant first == Earliest(buckets)
        invariant out + DueKeys(buckets, now) == DueKeys(b0, now)
        invariant Later(buckets, now) == Later(b0, now)
        invariant total == old(total) && permit == old(permit)
        decreases |buckets|
      {
        var ts := first.value;
        PopFirst(buckets, now);
        var keys := SortSet(buckets[ts]);
        assert out + (keys + DueKeys(buckets - {ts}, now)) == (out + keys) + DueKeys(buckets - {ts}, now);
        buckets := buckets - {ts};
        out := out + keys;
        first := NextDue();
      }
      NothingDue(buckets, now);
      assert out + [] == out;
      total := if total < |out| then 0 else total - |out|;
    }
  }

  /** A bucket's keys in order, the way an ordered set yields them. */
  method SortSet(s: set<Bytes>) returns (ks: seq<Bytes>)
    ensures ks == SortedKeys(s)
  {
    ks := [];
    var todo := s;
    while todo != {}
      invariant todo <= s
      invariant Ascending(ks)
      invariant forall k :: k in ks <==> k in s - todo
      decreases |todo|
    {
      var k :| k in todo;
      InsertKeySorts(k, ks);
      ks := InsertKey(k, ks);
      todo := todo - {k};
    }
    AscendingUnique(ks, SortedKeys(s));
  }

  // ------------------------------------------------------------------ laws

  /** How many keys the buckets hold, counting a key once per bucket. */
  ghost function Size(b: Buckets): nat
    decreases |b|
  {
    if b == map[] then 0
    else
      var e :| e in b;
      assert (b - {e}).Keys == b.Keys - {e};
      |b[e]| + Size(b - {e})
  }

  lemma {:induction false} SizeRemove(b: Buckets, e: u64)
    requires e in b
    ensures Size(b) == |b[e]| + Size(b - {e})
    decreases |b|
  {
    var f :| f in b && Size(b) == |b[f]| + Size(b - {f});
    if f != e {
      assert (b - {f}).Keys == b.Keys - {f};
      assert (b - {e}).Keys == b.Keys - {e};
      SizeRemove(b - {f}, e);
      SizeRemove(b - {e}, f);
      assert b - {f} - {e} == b - {e} - {f};
    }
  }

  /** Draining accounts for every key: what is popped and what stays add up, and the
      popped keys are exactly those of the due buckets. */
  lemma {:induction false} DrainSplits(b: Buckets, now: u64)
    ensures Size(b) == |DueKeys(b, now)| + Size(Later(b, now))
    ensures forall k :: k in DueKeys(b, now) <==> exists e :: e in b && e <= now && k in b[e]
    decreases |b|
  {
    var first := Earliest(b);
    if first.None? || first.value > now {
      assert Later(b, now) == b;
    } else {
      var e := first.value;
      var rest := b - {e};
      assert rest.Keys == b.Keys - {e};
      DrainSplits(rest, now);
      SizeRemove(b, e);
      assert Later(rest, now) == Later(b, now);
      forall k ensures k in DueKeys(b, now) <==> exists f :: f in b && f <= now && k in b[f] {
        assert k in DueKeys(b, now) <==> k in SortedKeys(b[e]) || k in DueKeys(rest, now);
        if f :| f in b && f <= now && k in b[f] && f != e {
          assert f in rest && rest[f] == b[f];
        }
      }
    }
  }

  /** The counter is exact and a drain never clips it. */
  /** Each key was due at a time of its own, the times never go back, and keys due at the same
      time come in key order. */
  ghost predicate ByTime(b: Buckets, now: u64, keys: seq<Bytes>, times: seq<u64>) {
    && |times| == |keys|
    && (forall i | 0 <= i < |times| :: times[i] in b && times[i] <= now && keys[i] in b[times[i]])
    && (forall i, j | 0 <= i < j < |times| ::
          times[i] < times[j] || (times[i] == times[j] && Less(keys[i], keys[j])))
  }

  lemma BucketFirst(b: Buckets, now: u64, bucket: seq<Bytes>, heads: seq<u64>, first: u64, keys: seq<Bytes>,
                    times: seq<u64>)
    requires first in b && first <= now && forall f | f in b :: first <= f
    requires |heads| == |bucket| && forall i | 0 <= i < |bucket| :: heads[i] == first && bucket[i] in b[first]
    requires forall i, j | 0 <= i < j < |bucket| :: Less(bucket[i], bucket[j])
    requires ByTime(b - {first}, now, keys, times)
    ensures ByTime(b, now, bucket + keys, heads + times)
  {
    hide Less;
    var n, ks, ts := |bucket|, bucket + keys, heads + times;
    forall i | 0 <= i < |ts| ensures ts[i] in b && ts[i] <= now && ks[i] in b[ts[i]] && (i >= n ==> first < ts[i]) {
      if i < n {
        assert ts[i] == heads[i] && ks[i] == bucket[i];
      } else {
        assert ts[i] == times[i - n] && ks[i] == keys[i - n];
        assert times[i - n] in b - {first};
      }
    }
    forall i, j | 0 <= i < j < |ts| ensures ts[i] < ts[j] || (ts[i] == ts[j] && Less(ks[i], ks[j])) {
      if j < n {
        assert ks[i] == bucket[i] && ks[j] == bucket[j];
      } else if n <= i {
        assert ts[i] == times[i - n] && ts[j] == times[j - n] && ks[i] == keys[i - n] && ks[j] == keys[j - n];
      }
    }
  }

  /** A drain goes by time. */
  lemma {:induction false} DrainGoesByTime(b: Buckets, now: u64) returns (times: seq<u64>)
    ensures ByTime(b, now, DueKeys(b, now), times)
    decreases |b|
  {
    hide DueKeys, ByTime, SortedKeys;
    if Earliest(b).None? || Earliest(b).value > now {
      NothingDue(b, now);
      times := [];
      NothingByTime(b, now);
    } else {
      var first := Earliest(b).value;
      PopFirst(b, now);
      var rest := DrainGoesByTime(b - {first}, now);
      var bucket := SortedKeys(b[first]);
      var heads := seq(|bucket|, _ => first);
      BucketFirst(b, now, bucket, heads, first, DueKeys(b - {first}, now), rest);
      times := heads + rest;
    }
  }

  lemma NothingByTime(b: Buckets, now: u64)
    ensures ByTime(b, now, [], [])
  {}

  lemma TotalIsSize(t: TtlState, key: Bytes, expiresAt: u64, now: u64)
    requires t.total == Size(t.buckets)
    ensures Scheduled(t, key, expiresAt).total == Size(Scheduled(t, key, expiresAt).buckets)
    ensures Drained(t, now).total == Size(Drained(t, now).buckets)
  {
    var b := t.buckets;
    var b' := Scheduled(t, key, expiresAt).buckets;
    SizeRemove(b', expiresAt);
    assert b' - {expiresAt} == b - {expiresAt};
    if expiresAt in b {
      SizeRemove(b, expiresAt);
    } else {
      assert b - {expiresAt} == b;
    }
    DrainSplits(b, now);
  }
}
