/** Sorted listings of byte-string keys: what a scan returns. */
module Listing {
  import opened ByteStrings

  ghost predicate Ascending(ks: seq<Bytes>) {
    forall i, j | 0 <= i < j < |ks| :: Less(ks[i], ks[j])
  }

  function InsertKey(k: Bytes, ks: seq<Bytes>): seq<Bytes> {
    if ks == [] || Less(k, ks[0]) then [k] + ks else [ks[0]] + InsertKey(k, ks[1..])
  }

  lemma {:induction false} InsertKeySorts(k: Bytes, ks: seq<Bytes>)
    requires Ascending(ks) && k !in ks
    ensures Ascending(InsertKey(k, ks))
    ensures forall x :: x in InsertKey(k, ks) <==> x == k || x in ks
    ensures |InsertKey(k, ks)| == |ks| + 1
  {
    if ks == [] {
    } else if Less(k, ks[0]) {
      forall j | 0 < j < |ks| ensures Less(k, ks[j]) { LessTransitive(k, ks[0], ks[j]); }
    } else {
      InsertKeySorts(k, ks[1..]);
      LessTotal(k, ks[0]);
      var r := InsertKey(k, ks[1..]);
      forall j | 0 <= j < |r| ensures Less(ks[0], r[j]) {
        assert r[j] in r;
        if r[j] != k { var i :| 0 <= i < |ks[1..]| && ks[1..][i] == r[j]; }
      }
      assert ks == [ks[0]] + ks[1..];
    }
  }

  /** The elements of `s` in ascending order. */
  ghost function SortedKeys(s: set<Bytes>): (ks: seq<Bytes>)
    ensures Ascending(ks)
    ensures forall k :: k in ks <==> k in s
    ensures |ks| == |s|
  {
    if s == {} then []
    else
      var k :| k in s;
      var rest := SortedKeys(s - {k});
      InsertKeySorts(k, rest);
      InsertKey(k, rest)
  }

  lemma EmptyOrInhabited(ks: seq<Bytes>)
    ensures ks == [] || exists k :: k in ks
  {
    if ks != [] { assert ks[0] in ks; }
  }

  /** There is only one ascending arrangement of a set. */
  lemma {:induction false} AscendingUnique(xs: seq<Bytes>, ys: seq<Bytes>)
    requires Ascending(xs) && Ascending(ys)
    requires forall k :: k in xs <==> k in ys
    ensures xs == ys
  {
    if xs == [] {
      EmptyOrInhabited(ys);
    } else {
      assert xs[0] in ys;
      HeadIsLeast(xs, ys[0]);
      HeadIsLeast(ys, xs[0]);
      LessTrichotomy(xs[0], ys[0]);
      forall k ensures k in xs[1..] <==> k in ys[1..] {
        TailMembers(xs, k);
        TailMembers(ys, k);
      }
      AscendingUnique(xs[1..], ys[1..]);
      assert xs == [xs[0]] + xs[1..] && ys == [ys[0]] + ys[1..];
    }
  }

  lemma HeadIsLeast(xs: seq<Bytes>, k: Bytes)
    requires Ascending(xs) && k in xs
    ensures AtMost(xs[0], k)
  {}

  lemma TailMembers(xs: seq<Bytes>, k: Bytes)
    requires Ascending(xs) && xs != []
    ensures k in xs[1..] <==> k in xs && k != xs[0]
  {
    LessIrreflexive(xs[0]);
    assert xs == [xs[0]] + xs[1..];
    if k in xs[1..] {
      var i :| 0 <= i < |xs[1..]| && xs[1..][i] == k;
      assert Less(xs[0], xs[i + 1]);
    }
  }

  type Entry = (Bytes, Bytes)

  function Keys(es: seq<Entry>): (ks: seq<Bytes>)
    ensures |ks| == |es|
    ensures forall i | 0 <= i < |es| :: ks[i] == es[i].0
  {
    seq(|es|, i requires 0 <= i < |es| => es[i].0)
  }

  /** The entries of `m` in ascending key order. */
  ghost function Listed(m: map<Bytes, Bytes>): (es: seq<Entry>)
    ensures |es| == |m|
    ensures Keys(es) == SortedKeys(m.Keys)
    ensures forall i | 0 <= i < |es| :: es[i].0 in m && es[i].1 == m[es[i].0]
  {
    var ks := SortedKeys(m.Keys);
    assert forall i | 0 <= i < |ks| :: ks[i] in ks;
    var es := seq(|ks|, i requires 0 <= i < |ks| => (ks[i], m[ks[i]]));
    assert Keys(es) == ks;
    es
  }

  /** A listing is known by its order and its contents alone. */
  lemma ListedUnique(es: seq<Entry>, m: map<Bytes, Bytes>)
    requires Ascending(Keys(es))
    requires forall i | 0 <= i < |es| :: es[i].0 in m && es[i].1 == m[es[i].0]
    requires forall k | k in m :: k in Keys(es)
    ensures es == Listed(m)
  {
    var ls := Listed(m);
    forall k ensures k in Keys(es) <==> k in SortedKeys(m.Keys) {
      if k in Keys(es) { var i :| 0 <= i < |es| && Keys(es)[i] == k; }
    }
    AscendingUnique(Keys(es), SortedKeys(m.Keys));
    forall i | 0 <= i < |es| ensures es[i] == ls[i] {
      assert Keys(es)[i] == Keys(ls)[i];
    }
  }

  /** The listing has exactly the map's entries. */
  lemma ListedEntries(m: map<Bytes, Bytes>)
    ensures Ascending(Keys(Listed(m)))
    ensures forall k, v :: (k, v) in Listed(m) <==> k in m && v == m[k]
  {
    hide Ascending, Listed;
    var es := Listed(m);
    forall k, v ensures (k, v) in es <==> k in m && v == m[k] {
      if k in m {
        assert k in Keys(es);
        var i :| 0 <= i < |es| && Keys(es)[i] == k;
        assert es[i] == (k, m[k]);
      }
    }
  }

  function InsertEntry(e: Entry, es: seq<Entry>): seq<Entry> {
    if es == [] || Less(e.0, es[0].0) then [e] + es else [es[0]] + InsertEntry(e, es[1..])
  }

  lemma {:induction false} InsertEntryKeys(e: Entry, es: seq<Entry>)
    ensures Keys(InsertEntry(e, es)) == InsertKey(e.0, Keys(es))
    ensures forall x :: x in InsertEntry(e, es) <==> x == e || x in es
  {
    if es == [] || Less(e.0, es[0].0) {
      assert Keys([e] + es) == [e.0] + Keys(es);
    } else {
      InsertEntryKeys(e, es[1..]);
      assert Keys(es)[1..] == Keys(es[1..]);
      assert Keys([es[0]] + InsertEntry(e, es[1..])) == [es[0].0] + Keys(InsertEntry(e, es[1..]));
      assert es == [es[0]] + es[1..];
    }
  }

  /** Sorting by key, whatever order the entries were collected in. */
  method SortEntries(collected: seq<Entry>, ghost m: map<Bytes, Bytes>) returns (sorted: seq<Entry>)
    requires forall i, j | 0 <= i < j < |collected| :: collected[i].0 != collected[j].0
    requires forall i | 0 <= i < |collected| :: collected[i].0 in m && collected[i].1 == m[collected[i].0]
    requires forall k | k in m :: (k, m[k]) in collected
    ensures sorted == Listed(m)
  {
    sorted := [];
    for n := 0 to |collected|
      invariant Ascending(Keys(sorted))
      invariant forall x :: x in sorted <==> x in collected[..n]
    {
      var e := collected[n];
      forall i | 0 <= i < |sorted| ensures Keys(sorted)[i] != e.0 {
        assert sorted[i] in collected[..n];
      }
      InsertKeySorts(e.0, Keys(sorted));
      InsertEntryKeys(e, sorted);
      sorted := InsertEntry(e, sorted);
      assert collected[..n + 1] == collected[..n] + [e];
    }
    assert collected[..|collected|] == collected;
    forall i | 0 <= i < |sorted| ensures sorted[i].0 in m && sorted[i].1 == m[sorted[i].0] {
      assert sorted[i] in collected;
    }
    forall k | k in m ensures k in Keys(sorted) {
      assert (k, m[k]) in sorted;
      var i :| 0 <= i < |sorted| && sorted[i] == (k, m[k]);
      assert Keys(sorted)[i] == k;
    }
    ListedUnique(sorted, m);
  }
}
