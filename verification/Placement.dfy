/** The placement map: shard ranges kept sorted by start, looked up by binary search. */
module Placement {
  import opened ByteStrings

  datatype RangeEntry = RangeEntry(shardId: u64, start: Bytes, end: Option<Bytes>, primary: Bytes, replicas: seq<Bytes>)

  predicate Contains(e: RangeEntry, key: Bytes) {
    !Less(key, e.start) && (e.end.Some? ==> Less(key, e.end.value))
  }

  /** No key belongs to two different ranges. */
  ghost predicate Disjoint(es: seq<RangeEntry>) {
    forall a, b, key | a in es && b in es && Contains(a, key) && Contains(b, key) :: a == b
  }

  ghost predicate NonEmpty(es: seq<RangeEntry>) {
    forall e | e in es && e.end.Some? :: Less(e.start, e.end.value)
  }

  ghost predicate SortedByStart(es: seq<RangeEntry>) {
    forall i, j | 0 <= i < j < |es| :: AtMost(es[i].start, es[j].start)
  }

  /** How many entries start at or before `key`. */
  ghost predicate IsPartition(es: seq<RangeEntry>, key: Bytes, pos: nat) {
    && pos <= |es|
    && (forall i | 0 <= i < pos :: AtMost(es[i].start, key))
    && (forall i | pos <= i < |es| :: Less(key, es[i].start))
  }

  method PartitionPoint(es: seq<RangeEntry>, key: Bytes) returns (pos: nat)
    requires SortedByStart(es)
    ensures IsPartition(es, key, pos)
  {
    pos := 0;
    var high := |es|;
    while pos < high
      invariant pos <= high <= |es|
      invariant forall i | 0 <= i < pos :: AtMost(es[i].start, key)
      invariant forall i | high <= i < |es| :: Less(key, es[i].start)
    {
      var mid := (pos + high) / 2;
      LessTrichotomy(key, es[mid].start);
      if AtMost(es[mid].start, key) {
        forall i | 0 <= i <= mid ensures AtMost(es[i].start, key) {
          if i < mid { AtMostTransitive(es[i].start, es[mid].start, key); }
        }
        pos := mid + 1;
      } else {
        forall i | mid <= i < |es| ensures Less(key, es[i].start) {
          if mid < i { LessAtMost(key, es[mid].start, es[i].start); }
        }
        high := mid;
      }
    }
  }

  lemma AtMostTransitive(a: Bytes, b: Bytes, c: Bytes)
    requires AtMost(a, b) && AtMost(b, c)
    ensures AtMost(a, c)
  {
    if a != b && b != c { LessTransitive(a, b, c); }
  }

  lemma LessAtMost(a: Bytes, b: Bytes, c: Bytes)
    requires Less(a, b) && AtMost(b, c)
    ensures Less(a, c)
  {
    if b != c { LessTransitive(a, b, c); }
  }

  lemma AtMostLess(a: Bytes, b: Bytes, c: Bytes)
    requires AtMost(a, b) && Less(b, c)
    ensures Less(a, c)
  {
    if a != b { LessTransitive(a, b, c); }
  }

  // -------------------------------------------------------- what a lookup finds

  /** How many leading entries start at or before `key`. */
  function Started(es: seq<RangeEntry>, key: Bytes): (pos: nat)
    ensures pos <= |es|
  {
    if es == [] || !AtMost(es[0].start, key) then 0 else 1 + Started(es[1..], key)
  }

  lemma {:induction false} PartitionIsStarted(es: seq<RangeEntry>, key: Bytes, pos: nat)
    requires IsPartition(es, key, pos)
    ensures pos == Started(es, key)
  {
    if es != [] {
      LessTrichotomy(key, es[0].start);
      if pos > 0 { PartitionIsStarted(es[1..], key, pos - 1); }
    }
  }

  /** The only candidate is the last entry that starts at or before the key. */
  function Found(es: seq<RangeEntry>, key: Bytes): Option<RangeEntry> {
    var pos := Started(es, key);
    if pos > 0 && Contains(es[pos - 1], key) then Some(es[pos - 1]) else None
  }

  function Inserted(es: seq<RangeEntry>, e: RangeEntry): seq<RangeEntry> {
    var pos := Started(es, e.start);
    es[..pos] + [e] + es[pos..]
  }

  lemma InsertSorted(es: seq<RangeEntry>, e: RangeEntry)
    requires SortedByStart(es)
    ensures SortedByStart(Inserted(es, e))
    ensures multiset(Inserted(es, e)) == multiset(es) + multiset{e}
  {
    hide SortedByStart, IsPartition, Started;
    StartedIs(es, e.start);
    var pos := Started(es, e.start);
    SortedAround(es, e, pos);
    assert es == es[..pos] + es[pos..];
  }

  lemma SortedAround(es: seq<RangeEntry>, e: RangeEntry, pos: nat)
    requires SortedByStart(es) && IsPartition(es, e.start, pos)
    ensures SortedByStart(es[..pos] + [e] + es[pos..])
  {
    hide Less;
  }

  /** The placement table, its entries in insertion position. */
  class RangeMap {
    var entries: seq<RangeEntry>

    ghost predicate Valid()
      reads this
    {
      SortedByStart(entries)
    }

    constructor ()
      ensures Valid() && entries == []
    {
      entries := [];
    }

    /** Inserts after every entry that starts no later, and keeps everything else in order. */
    method Insert(entry: RangeEntry)
      requires Valid()
      modifies this
      ensures Valid()
      ensures entries == Inserted(old(entries), entry)
    {
      var pos := PartitionPoint(entries, entry.start);
      PartitionIsStarted(entries, entry.start, pos);
      InsertSorted(entries, entry);
      entries := entries[..pos] + [entry] + entries[pos..];
    }

    method Lookup(key: Bytes) returns (found: Option<RangeEntry>)
      requires Valid()
      ensures found == Found(entries, key)
    {
      var idx := PartitionPoint(entries, key);
      PartitionIsStarted(entries, key, idx);
      if idx == 0 {
        return None;
      }
      var candidate := entries[idx - 1];
      if Contains(candidate, key) {
        found := Some(candidate);
      } else {
        found := None;
      }
    }
  }

  // ---------------------------------------------- disjoint ranges: linear search

  lemma {:induction false} StartedIs(es: seq<RangeEntry>, key: Bytes)
    requires SortedByStart(es)
    ensures IsPartition(es, key, Started(es, key))
  {
    if es != [] {
      LessTrichotomy(key, es[0].start);
      if AtMost(es[0].start, key) {
        StartedIs(es[1..], key);
        var pos := Started(es[1..], key);
        assert forall i | 1 <= i < |es| :: es[i] == es[1..][i - 1];
      } else {
        forall i | 0 <= i < |es| ensures Less(key, es[i].start) {
          if i > 0 { LessAtMost(key, es[0].start, es[i].start); }
        }
      }
    }
  }

  /** Whoever contains the key is the candidate, when ranges are disjoint and non-empty. */
  lemma OwnerIsCandidate(es: seq<RangeEntry>, key: Bytes, i: nat)
    requires SortedByStart(es) && Disjoint(es) && NonEmpty(es) && i < |es| && Contains(es[i], key)
    ensures 0 < Started(es, key) && es[i] == es[Started(es, key) - 1]
  {
    StartedIs(es, key);
    var pos := Started(es, key);
    LessTrichotomy(key, es[i].start);
    assert i < pos;
    var last := es[pos - 1];
    // The candidate's first key lies in both ranges.
    LessTrichotomy(last.start, es[i].start);
    LessTrichotomy(last.start, last.start);
    assert AtMost(es[i].start, last.start) && AtMost(last.start, key);
    if es[i].end.Some? { AtMostLess(last.start, key, es[i].end.value); }
    assert Contains(es[i], last.start) && Contains(last, last.start);
  }

  /** On disjoint non-empty ranges the binary search answers membership exactly: it finds
      an entry if and only if that entry is in the table and contains the key. */
  lemma LookupExact(es: seq<RangeEntry>, key: Bytes, e: RangeEntry)
    requires SortedByStart(es) && Disjoint(es) && NonEmpty(es)
    ensures Found(es, key) == Some(e) <==> e in es && Contains(e, key)
  {
    if e in es && Contains(e, key) {
      var i :| 0 <= i < |es| && es[i] == e;
      OwnerIsCandidate(es, key, i);
    }
  }

  /** What one insertion changes: it answers exactly for the keys at or after its start that no
      other range starts nearer to, before any range with the same start; every other lookup
      stays what it was. */
  lemma InsertOverrides(es: seq<RangeEntry>, e: RangeEntry, key: Bytes)
    requires SortedByStart(es)
    ensures var nearest := AtMost(e.start, key) &&
                           forall i | 0 <= i < |es| && AtMost(es[i].start, key) :: AtMost(es[i].start, e.start);
      Found(Inserted(es, e), key) ==
        if !nearest then Found(es, key) else if Contains(e, key) then Some(e) else None
  {
    hide Contains, Started, AtMost, Less;
    var pos, k := Started(es, e.start), Started(es, key);
    StartedIs(es, e.start);
    StartedIs(es, key);
    var after := es[..pos] + [e] + es[pos..];
    LessTrichotomy(key, e.start);
    LessTrichotomy(e.start, key);
    if AtMost(e.start, key) {
      StartsBefore(es, e.start, key, pos, k);
      forall i | k + 1 <= i < |after| ensures Less(key, after[i].start) { assert after[i] == es[i - 1]; }
      forall i | 0 <= i < k + 1 ensures AtMost(after[i].start, key) {
        assert after[i] == if i < pos then es[i] else if i == pos then e else es[i - 1];
      }
      PartitionIsStarted(after, key, k + 1);
      assert after[k] == if k == pos then e else es[k - 1];
      if k > pos {
        LessTrichotomy(e.start, es[pos].start);
      } else {
        forall i | 0 <= i < |es| && AtMost(es[i].start, key) ensures AtMost(es[i].start, e.start) {
          LessTrichotomy(key, es[i].start);
        }
      }
    } else {
      StartsBefore(es, key, e.start, k, pos);
      forall i | k <= i < |after| ensures Less(key, after[i].start) {
        assert after[i] == if i < pos then es[i] else if i == pos then e else es[i - 1];
      }
      forall i | 0 <= i < k ensures AtMost(after[i].start, key) { assert after[i] == es[i]; }
      PartitionIsStarted(after, key, k);
    }
  }

  lemma StartsBefore(es: seq<RangeEntry>, a: Bytes, b: Bytes, i: nat, j: nat)
    requires AtMost(a, b) && IsPartition(es, a, i) && IsPartition(es, b, j)
    ensures i <= j
  {
    hide AtMost, Less;
    if j < i {
      AtMostTransitive(es[j].start, a, b);
      LessTrichotomy(b, es[j].start);
      assert false;
    }
  }

  /** The table after any sequence of inserts. */
  function InsertedAll(inserts: seq<RangeEntry>): seq<RangeEntry> {
    if inserts == [] then [] else Inserted(InsertedAll(inserts[..|inserts| - 1]), inserts[|inserts| - 1])
  }

  lemma {:induction false} InsertsSort(inserts: seq<RangeEntry>)
    ensures SortedByStart(InsertedAll(inserts)) && multiset(InsertedAll(inserts)) == multiset(inserts)
  {
    if inserts != [] {
      var init := inserts[..|inserts| - 1];
      InsertsSort(init);
      InsertSorted(InsertedAll(init), inserts[|inserts| - 1]);
      assert inserts == init + [inserts[|inserts| - 1]];
    }
  }

  /** After any inserts of disjoint non-empty ranges, in any order, the lookup finds exactly
      the inserted range that contains the key. */
  lemma LookupAfterInserts(inserts: seq<RangeEntry>, key: Bytes, e: RangeEntry)
    requires Disjoint(inserts) && NonEmpty(inserts)
    ensures Found(InsertedAll(inserts), key) == Some(e) <==> e in inserts && Contains(e, key)
  {
    hide InsertedAll, Found, Contains;
    InsertsSort(inserts);
    SameEntries(inserts, InsertedAll(inserts));
    LookupExact(InsertedAll(inserts), key, e);
  }

  lemma SameEntries(es: seq<RangeEntry>, es': seq<RangeEntry>)
    requires multiset(es) == multiset(es')
    ensures forall e :: e in es <==> e in es'
  {
    assert forall e :: e in es <==> e in multiset(es);
    assert forall e :: e in es' <==> e in multiset(es');
  }

  // ----------------------------------------------- any ranges: the exact condition

  /** The first key at or after its start that an entry with an end does not contain. */
  function FirstOutside(e: RangeEntry): Bytes
    requires e.end.Some?
  {
    if Less(e.start, e.end.value) then e.end.value else e.start
  }

  /** Entry `i` reaches into the gap between entry `j` and the next start. */
  ghost predicate Shadowed(es: seq<RangeEntry>, i: nat, j: nat) {
    && i < j < |es| && es[j].end.Some?
    && (es[i].end.Some? ==> Less(FirstOutside(es[j]), es[i].end.value))
    && (j + 1 < |es| ==> Less(FirstOutside(es[j]), es[j + 1].start))
  }

  ghost predicate Owned(es: seq<RangeEntry>, key: Bytes) {
    exists e :: e in es && Contains(e, key)
  }

  /** The lookup misses a key that some range contains exactly when some range reaches past
      a later one into a gap; disjointness is not needed, only that no such pair exists. */
  lemma LookupComplete(es: seq<RangeEntry>)
    requires SortedByStart(es)
    ensures (forall key :: Owned(es, key) ==> Found(es, key).Some?) <==> !exists i, j :: Shadowed(es, i, j)
  {
    if i, j :| Shadowed(es, i, j) {
      ShadowMisses(es, i, j);
    }
    forall key | Owned(es, key) && Found(es, key).None? ensures exists i, j :: Shadowed(es, i, j) {
      var e :| e in es && Contains(e, key);
      var i :| 0 <= i < |es| && es[i] == e;
      MissIsShadow(es, key, i);
    }
  }

  lemma ShadowMisses(es: seq<RangeEntry>, i: nat, j: nat)
    requires SortedByStart(es) && Shadowed(es, i, j)
    ensures Owned(es, FirstOutside(es[j])) && Found(es, FirstOutside(es[j])).None?
  {
    var key := FirstOutside(es[j]);
    LessTrichotomy(es[j].start, es[j].end.value);
    LessTrichotomy(key, key);
    assert AtMost(es[j].start, key);
    forall k | 0 <= k <= j ensures AtMost(es[k].start, key) {
      if k < j { AtMostTransitive(es[k].start, es[j].start, key); }
    }
    forall k | j < k < |es| ensures Less(key, es[k].start) {
      if j + 1 < k { LessAtMost(key, es[j + 1].start, es[k].start); }
    }
    PartitionIsStarted(es, key, j + 1);
    LessTrichotomy(key, es[i].start);
    assert Contains(es[i], key);
    LessTrichotomy(key, es[j].end.value);
  }

  lemma MissIsShadow(es: seq<RangeEntry>, key: Bytes, i: nat)
    requires SortedByStart(es) && i < |es| && Contains(es[i], key) && Found(es, key).None?
    ensures 0 < Started(es, key) && Shadowed(es, i, Started(es, key) - 1)
  {
    StartedIs(es, key);
    var j := Started(es, key) - 1;
    LessTrichotomy(key, es[i].start);
    assert i <= j;
    LessTrichotomy(key, es[j].start);
    assert es[j].end.Some? && !Less(key, es[j].end.value);
    LessTrichotomy(key, es[j].end.value);
    var first := FirstOutside(es[j]);
    assert AtMost(first, key);
    if es[i].end.Some? { AtMostLess(first, key, es[i].end.value); }
    if j + 1 < |es| { AtMostLess(first, key, es[j + 1].start); }
  }

  /** For example: of the ranges from 1 to 9 and from 2 to 3, the lookup of 5 tries only the
      second and misses the first. */
  lemma NestedRangeHides(outer: RangeEntry, inner: RangeEntry)
    requires outer.start == [1] && outer.end == Some([9]) && inner.start == [2] && inner.end == Some([3])
    ensures SortedByStart([outer, inner]) && Contains(outer, [5]) && Found([outer, inner], [5]).None?
  {
    assert Started([outer, inner][1..], [5]) == 1 by {
      assert [outer, inner][1..] == [inner];
      assert Started([inner][1..], [5]) == 0;
    }
  }
}
