/** Range scans: the bound, the filter, the limit and the chunks. */
module Scan {
  import opened ByteStrings
  import opened Listing
  import opened NodeInvariants
  import opened Tenants
  import NodeSpec
  import KeyCodec
  import ValueCodec
  import Disk
  import Storage

  // ------------------------------------------------------------- the upper bound

  /** The least byte string above everything that starts with `prefix`; empty if there
      is none. */
  function BoundOf(prefix: Bytes): Bytes {
    if prefix == [] then []
    else
      var init, last := prefix[..|prefix| - 1], prefix[|prefix| - 1];
      if last == 0xFF then BoundOf(init) else init + [last + 1]
  }

  method NextPrefixBound(prefix: Bytes) returns (end: Bytes)
    ensures end == BoundOf(prefix)
  {
    end := prefix;
    while end != []
      invariant BoundOf(prefix) == BoundOf(end)
      decreases |end|
    {
      var last := end[|end| - 1];
      if last == 0xFF {
        end := end[..|end| - 1];
      } else {
        var raised: Bytes := end[|end| - 1 := last + 1];
        assert raised == end[..|end| - 1] + [last + 1];
        return raised;
      }
    }
  }

  lemma {:induction false} NothingBelowAllOnes(f: Bytes, x: Bytes)
    requires forall i | 0 <= i < |f| :: f[i] == 0xFF
    requires AtMost(f, x)
    ensures f <= x
  {
    if f != [] && f != x {
      assert f[0] == 0xFF;
      NothingBelowAllOnes(f[1..], x[1..]);
    }
  }

  /** A prefix is a common part, a byte that can be raised, and a tail of all ones. */
  lemma {:induction false} BoundShape(prefix: Bytes) returns (q: Bytes, c: byte, ones: Bytes)
    requires BoundOf(prefix) != []
    ensures c < 0xFF && prefix == q + [c] + ones && BoundOf(prefix) == q + [c + 1]
    ensures forall i | 0 <= i < |ones| :: ones[i] == 0xFF
  {
    var init, last := prefix[..|prefix| - 1], prefix[|prefix| - 1];
    if last == 0xFF {
      q, c, ones := BoundShape(init);
      ones := ones + [last];
      assert prefix == init + [last] == q + [c] + ones;
    } else {
      q, c, ones := init, last, [];
      assert prefix == init + [last] + [];
    }
  }

  /** Without the common part: what starts with `[c] + ones` is what lies between it and
      `[c + 1]`. */
  lemma RangeAtRoot(c: byte, ones: Bytes, x: Bytes)
    requires c < 0xFF && forall i | 0 <= i < |ones| :: ones[i] == 0xFF
    ensures AtMost([c] + ones, x) && Less(x, [c + 1]) <==> [c] + ones <= x
  {
    var p := [c] + ones;
    assert p[1..] == ones && [c + 1][1..] == [];
    if AtMost(p, x) && Less(x, [c + 1]) {
      assert x != [] && !Less(x[1..], []);
      assert x[0] == c;
      NothingBelowAllOnes(ones, x[1..]);
      assert x == [c] + x[1..];
    }
    if p <= x {
      PrefixAtMost(p, x);
    }
  }

  lemma {:induction false} CommonPrefixForced(q: Bytes, a: Bytes, b: byte, k: Bytes)
    requires AtMost(q + a, k) && Less(k, q + [b])
    ensures q <= k
  {
    if q != [] {
      assert (q + a)[1..] == q[1..] + a && (q + [b])[1..] == q[1..] + [b];
      assert k[0] == q[0];
      if q + a == k {
      } else {
        CommonPrefixForced(q[1..], a, b, k[1..]);
        assert k == [k[0]] + k[1..];
      }
    }
  }

  /** The half-open range from a prefix to its bound holds exactly the keys that start
      with the prefix. */
  lemma BoundExact(prefix: Bytes, k: Bytes)
    requires BoundOf(prefix) != []
    ensures AtMost(prefix, k) && Less(k, BoundOf(prefix)) <==> prefix <= k
  {
    var q, c, ones := BoundShape(prefix);
    var tail := [c] + ones;
    assert prefix == q + tail;
    if AtMost(prefix, k) && Less(k, BoundOf(prefix)) {
      CommonPrefixForced(q, tail, c + 1, k);
    }
    if q <= k {
      var x := k[|q|..];
      assert k == q + x;
      LessCommonPrefix(q, tail, x);
      LessCommonPrefix(q, x, [c + 1]);
      assert prefix == k <==> tail == x;
      RangeAtRoot(c, ones, x);
      assert prefix <= k <==> tail <= x;
    }
  }

  /** There is a bound exactly when some byte of the prefix can be raised. A prefix of all
      ones has none, and the range to the empty sentinel then misses the prefix itself. */
  lemma {:induction false} BoundExists(prefix: Bytes)
    ensures BoundOf(prefix) != [] <==> exists i :: 0 <= i < |prefix| && prefix[i] != 0xFF
    ensures (AtMost(prefix, prefix) && Less(prefix, BoundOf(prefix))) <==>
      exists i :: 0 <= i < |prefix| && prefix[i] != 0xFF
  {
    if prefix != [] {
      BoundExists(prefix[..|prefix| - 1]);
    }
    if BoundOf(prefix) != [] {
      BoundExact(prefix, prefix);
    }
  }

  /** What a tenant's scan asks storage for. */
  function ScanStart(t: Bytes, prefix: Bytes): Bytes
    requires |t| <= KeyCodec.MAX_TENANT_LEN
  {
    KeyCodec.Key(t, KeyCodec.Data, []) + prefix
  }

  /** A tenant's scan range always has a bound and holds exactly the tenant's data keys
      under the prefix. */
  lemma ScanRangeExact(t: Bytes, prefix: Bytes, k: Bytes)
    requires KeyCodec.LegalTenant(t)
    ensures BoundOf(ScanStart(t, prefix)) != []
    ensures AtMost(ScanStart(t, prefix), k) && Less(k, BoundOf(ScanStart(t, prefix)))
       <==> IsDataOf(t, k) && prefix <= Payload(k)
  {
    hide IsDataOf, Payload, KeyCodec.ValidUtf8, BoundOf;
    var start := ScanStart(t, prefix);
    var sub := KeyCodec.Key(t, KeyCodec.Data, []);
    assert start[1 + |t|] == 1 != 0xFF;
    BoundExists(start);
    BoundExact(start, k);
    if start <= k {
      var p := k[|sub|..];
      assert k == sub + p == KeyCodec.DataKey(t, p);
      DataKeyOwned(t, p);
      assert prefix == start[|sub|..] && start[|sub|..] <= p;
    }
    if IsDataOf(t, k) && prefix <= Payload(k) {
      OwnedIsDataKey(t, k);
      assert k == sub + Payload(k);
    }
  }

  // ------------------------------------------------------------------ the filter

  /** An entry as a reader sees it, if it is readable and live. */
  function Shown(e: Entry, now: u64): seq<Entry> {
    match ValueCodec.IsExpired(e.1, now)
    case Ok(false) =>
      (match ValueCodec.Decode(e.1)
       case Ok(sv) => [(e.0, sv.value)]
       case Err(_) => [])
    case _ => []
  }

  function FilterLive(es: seq<Entry>, now: u64): seq<Entry> {
    if es == [] then [] else FilterLive(es[..|es| - 1], now) + Shown(es[|es| - 1], now)
  }

  method FilterScan(raw: seq<Entry>, now: u64) returns (out: seq<Entry>)
    ensures out == FilterLive(raw, now)
  {
    hide ValueCodec.IsExpired, ValueCodec.Decode;
    out := [];
    for i := 0 to |raw|
      invariant out == FilterLive(raw[..i], now)
    {
      assert raw[..i + 1][..i] == raw[..i];
      var (k, v) := raw[i];
      match ValueCodec.IsExpired(v, now) {
        case Ok(true) =>
        case Ok(false) =>
          var sv := ValueCodec.Decode(v);
          if sv.Ok? {
            out := out + [(k, sv.value.value)];
          }
        case Err(_) =>
      }
    }
    assert raw[..|raw|] == raw;
  }

  // ------------------------------------------------------- the limit and the chunks

  const SCAN_CHUNK_SIZE: nat := 256

  function CapScanLimit(requested: u32, max: u32): u32 {
    if requested == 0 || requested > max then max else requested
  }

  function Strip(es: seq<Entry>, n: nat): (out: seq<Entry>)
    requires forall i | 0 <= i < |es| :: n <= |es[i].0|
    ensures |out| == |es|
    ensures forall i | 0 <= i < |es| :: out[i] == (es[i].0[n..], es[i].1)
  {
    seq(|es|, i requires 0 <= i < |es| => (es[i].0[n..], es[i].1))
  }

  function Flatten(chunks: seq<seq<Entry>>): seq<Entry> {
    if chunks == [] then [] else Flatten(chunks[..|chunks| - 1]) + chunks[|chunks| - 1]
  }

  function Take(es: seq<Entry>, n: nat): seq<Entry> {
    if n < |es| then es[..n] else es
  }

  /** Takes the first `limit` entries and packs them: the chunks in order are those
      entries, none is empty, and all but the last are full. */
  method PackChunks(es: seq<Entry>, stripLen: nat, limit: nat) returns (chunks: seq<seq<Entry>>)
    requires forall i | 0 <= i < |es| :: stripLen <= |es[i].0|
    ensures Flatten(chunks) == Take(Strip(es, stripLen), limit)
    ensures forall i | 0 <= i < |chunks| :: 0 < |chunks[i]| <= SCAN_CHUNK_SIZE
    ensures forall i | 0 <= i < |chunks| - 1 :: |chunks[i]| == SCAN_CHUNK_SIZE
  {
    chunks := [];
    var current: seq<Entry> := [];
    var all := Strip(es, stripLen);
    var count := if limit < |es| then limit else |es|;
    for i := 0 to count
      invariant Flatten(chunks) + current == all[..i]
      invariant |current| < SCAN_CHUNK_SIZE
      invariant forall j | 0 <= j < |chunks| :: |chunks[j]| == SCAN_CHUNK_SIZE
    {
      current := current + [(es[i].0[stripLen..], es[i].1)];
      assert all[..i + 1] == all[..i] + [all[i]];
      if |current| >= SCAN_CHUNK_SIZE {
        assert (chunks + [current])[..|chunks|] == chunks;
        chunks := chunks + [current];
        current := [];
        assert Flatten(chunks) + [] == Flatten(chunks);
      }
    }
    if current != [] {
      assert (chunks + [current])[..|chunks|] == chunks;
      chunks := chunks + [current];
    } else {
      assert Flatten(chunks) + [] == Flatten(chunks);
    }
    assert all[..|es|] == all;
  }

  // -------------------------------------------------------------- scan is exact

  /** A value that can be read and has not expired. */
  predicate Alive(v: Bytes, now: u64) {
    ValueCodec.Decode(v).Ok? && Live(ValueCodec.Decode(v).value, now)
  }

  /** What the filter keeps, entry by entry. */
  lemma ShownAt(e: Entry, now: u64)
    ensures Shown(e, now) == if Alive(e.1, now) then [(e.0, ValueCodec.Decode(e.1).value.value)] else []
  {
    hide ValueCodec.Decode, ValueCodec.IsExpired;
    ValueCodec.ShortcutsAgree(e.1, now);
  }

  /** The filter keeps the order and exactly the live entries. */
  lemma {:induction false} FilterKeeps(es: seq<Entry>, now: u64)
    requires Ascending(Keys(es))
    ensures Ascending(Keys(FilterLive(es, now)))
    ensures forall k, v :: (k, v) in FilterLive(es, now) <==>
              exists i ::
                0 <= i < |es| && es[i].0 == k && Alive(es[i].1, now) && v == ValueCodec.Decode(es[i].1).value.value
  {
    hide ValueCodec.Decode, Shown, Live;
    if es != [] {
      var n := |es| - 1;
      var init, last := es[..n], es[n];
      assert Keys(init) == Keys(es)[..n];
      FilterKeeps(init, now);
      ShownAt(last, now);
      var out, more := FilterLive(init, now), Shown(last, now);
      forall i | 0 <= i < |out| ensures Less(out[i].0, last.0) {
        assert (out[i].0, out[i].1) in out;
        var j :| 0 <= j < |init| && init[j].0 == out[i].0;
        assert Less(Keys(es)[j], Keys(es)[n]);
      }
      assert Keys(out + more) == Keys(out) + Keys(more);
    }
  }

  /** What the tenant should see: its live entries under the prefix. */
  function LivePart(data: TenantData, prefix: Bytes, now: u64): map<Bytes, Bytes> {
    map p | p in data && prefix <= p && Live(data[p], now) :: data[p].value
  }

  function StripLen(t: Bytes): nat
    requires |t| <= KeyCodec.MAX_TENANT_LEN
  {
    |KeyCodec.Key(t, KeyCodec.Data, [])|
  }

  ghost function RawScan(m: Disk.Store, t: Bytes, prefix: Bytes): seq<Entry>
    requires |t| <= KeyCodec.MAX_TENANT_LEN
  {
    Listed(Storage.Between(m, ScanStart(t, prefix), BoundOf(ScanStart(t, prefix))))
  }

  /** Every entry the range yields is one of the tenant's, under the prefix. */
  lemma RawScanOwned(m: Disk.Store, t: Bytes, prefix: Bytes)
    requires KeyCodec.LegalTenant(t)
    ensures var raw := RawScan(m, t, prefix);
      && Ascending(Keys(raw))
      && (forall i | 0 <= i < |raw| ::
            && raw[i].0 in m && raw[i].1 == m[raw[i].0]
            && IsDataOf(t, raw[i].0) && prefix <= Payload(raw[i].0))
      && (forall k | k in m && IsDataOf(t, k) && prefix <= Payload(k) :: k in Keys(raw))
  {
    hide ValueCodec.Decode, IsDataOf, Payload, ScanStart, BoundOf, KeyCodec.ValidUtf8, SortedKeys, Listed;
    var part := Storage.Between(m, ScanStart(t, prefix), BoundOf(ScanStart(t, prefix)));
    var raw := RawScan(m, t, prefix);
    forall k ensures k in part <==> k in m && IsDataOf(t, k) && prefix <= Payload(k) {
      ScanRangeExact(t, prefix, k);
    }
  }

  /** Filtered and stripped, the range is the tenant's live data under the prefix, in
      user-key order. */
  lemma ScanExact(m: Disk.Store, t: Bytes, prefix: Bytes, now: u64)
    requires KeyCodec.LegalTenant(t)
    ensures var shown := FilterLive(RawScan(m, t, prefix), now);
      && (forall i | 0 <= i < |shown| :: StripLen(t) <= |shown[i].0|)
      && Strip(shown, StripLen(t)) == Listed(LivePart(DataOf(m, t), prefix, now))
  {
    hide ValueCodec.Decode, IsDataOf, Payload, FilterLive, RawScan, KeyCodec.ValidUtf8, DataOf, Listed;
    hide KeyCodec.DataKey, Live;
    var raw := RawScan(m, t, prefix);
    RawScanOwned(m, t, prefix);
    FilterKeeps(raw, now);
    var shown := FilterLive(raw, now);
    forall i | 0 <= i < |shown|
      ensures IsDataOf(t, shown[i].0) && shown[i].0 == KeyCodec.DataKey(t, Payload(shown[i].0))
    {
      assert (shown[i].0, shown[i].1) in shown;
      var j :| 0 <= j < |raw| && raw[j].0 == shown[i].0;
      OwnedIsDataKey(t, shown[i].0);
    }
    StripsToUserKeys(shown, t);
    var out, part := Strip(shown, StripLen(t)), LivePart(DataOf(m, t), prefix, now);
    StripAscends(shown, t);
    forall i | 0 <= i < |out| ensures out[i].0 in part && out[i].1 == part[out[i].0] {
      assert (shown[i].0, shown[i].1) in shown;
      DataOfAt(m, t, out[i].0);
    }
    forall p | p in part ensures p in Keys(out) {
      ShownInKeys(m, t, prefix, now, p, shown);
      var j :| 0 <= j < |shown| && shown[j].0 == KeyCodec.DataKey(t, p);
      DataKeyOwned(t, p);
      assert Keys(out)[j] == p;
    }
    ListedUnique(out, part);
  }

  /** Stripping the framing of a data key leaves the user key. */
  lemma StripsToUserKeys(shown: seq<Entry>, t: Bytes)
    requires |t| <= KeyCodec.MAX_TENANT_LEN
    requires forall i | 0 <= i < |shown| :: shown[i].0 == KeyCodec.DataKey(t, Payload(shown[i].0))
    ensures forall i | 0 <= i < |shown| ::
      StripLen(t) <= |shown[i].0| && shown[i].0[StripLen(t)..] == Payload(shown[i].0)
  {
    hide Payload;
    forall i | 0 <= i < |shown|
      ensures StripLen(t) <= |shown[i].0| && shown[i].0[StripLen(t)..] == Payload(shown[i].0)
    {
      assert shown[i].0 == KeyCodec.Key(t, KeyCodec.Data, []) + Payload(shown[i].0);
    }
  }

  lemma StripAscends(shown: seq<Entry>, t: Bytes)
    requires |t| <= KeyCodec.MAX_TENANT_LEN && Ascending(Keys(shown))
    requires forall i | 0 <= i < |shown| :: shown[i].0 == KeyCodec.DataKey(t, Payload(shown[i].0))
    requires forall i | 0 <= i < |shown| ::
      StripLen(t) <= |shown[i].0| && shown[i].0[StripLen(t)..] == Payload(shown[i].0)
    ensures Ascending(Keys(Strip(shown, StripLen(t))))
  {
    hide Payload;
    var out := Strip(shown, StripLen(t));
    forall i, j | 0 <= i < j < |out| ensures Less(Keys(out)[i], Keys(out)[j]) {
      assert Less(Keys(shown)[i], Keys(shown)[j]);
      KeyCodec.KeyOrder(t, KeyCodec.Data, Payload(shown[i].0), KeyCodec.Data, Payload(shown[j].0));
    }
  }

  /** Every live entry under the prefix makes it through. */
  lemma ShownInKeys(m: Disk.Store, t: Bytes, prefix: Bytes, now: u64, p: Bytes, shown: seq<Entry>)
    requires KeyCodec.LegalTenant(t)
    requires p in LivePart(DataOf(m, t), prefix, now)
    requires shown == FilterLive(RawScan(m, t, prefix), now)
    ensures exists j :: 0 <= j < |shown| && shown[j].0 == KeyCodec.DataKey(t, p)
  {
    hide ValueCodec.Decode, IsDataOf, Payload, FilterLive, RawScan, KeyCodec.ValidUtf8, DataOf, Live, KeyCodec.DataKey;
    var raw, k := RawScan(m, t, prefix), KeyCodec.DataKey(t, p);
    DataOfAt(m, t, p);
    DataKeyOwned(t, p);
    RawScanOwned(m, t, prefix);
    FilterKeeps(raw, now);
    assert k in Keys(raw);
    var i :| 0 <= i < |raw| && Keys(raw)[i] == k;
    assert (k, ValueCodec.Decode(raw[i].1).value.value) in shown;
  }

  /** A tenant's scan, end to end: the first entries of its live data under the prefix, in
      user-key order, never more than the server allows nor, if it asks for a number, than it
      asks for, and otherwise all of them; packed into chunks of at most 256 of which only the
      last may be short, and none is empty. */
  method ScanTenant(storage: Storage.Storage, now: u64, t: Bytes, prefix: Bytes, requested: u32, maxLimit: u32)
      returns (chunks: seq<seq<Entry>>)
    requires KeyCodec.LegalTenant(t)
    ensures var live, n := Listed(LivePart(DataOf(storage.data, t), prefix, now)), |Flatten(chunks)|;
      && n <= |live| && Flatten(chunks) == live[..n]
      && n <= maxLimit && (requested > 0 ==> n <= requested)
      && (n == |live| || n == maxLimit || (requested > 0 && n == requested))
    ensures forall i | 0 <= i < |chunks| :: 0 < |chunks[i]| <= 256
    ensures forall i | 0 <= i < |chunks| - 1 :: |chunks[i]| == 256
  {
    hide Listed, DataOf, KeyCodec.ValidUtf8, FilterLive, BoundOf, LivePart;
    var sub := KeyCodec.Key(t, KeyCodec.Data, []);
    var start := sub + prefix;
    var end := NextPrefixBound(start);
    var raw := storage.ScanRange(start, end);
    var shown := FilterScan(raw, now);
    ScanExact(storage.data, t, prefix, now);
    var limit := CapScanLimit(requested, maxLimit);
    chunks := PackChunks(shown, |sub|, limit);
  }

  /** A sweep is invisible to scans as well: from `now` on every listing of every tenant is
      the one there would have been without it. */
  lemma SweepKeepsScans(c: NodeSpec.Config, n: NodeSpec.Node, now: u64, later: u64, t: Bytes, prefix: Bytes)
    requires NodeInv(n) && UsagePlain(n.store) && Bounded(n.store)
    requires now <= later && KeyCodec.LegalTenant(t)
    ensures LivePart(DataOf(NodeSpec.Sweep(c, n, now).0.store, t), prefix, later)
         == LivePart(DataOf(n.store, t), prefix, later)
  {
    hide NodeSpec.Sweep, DataOf, KeyCodec.ValidUtf8, NodeInv, Bounded;
    SweepRefines(c, n, now, t);
  }
}
