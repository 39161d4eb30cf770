/** Rendezvous node selection: score every node for the key, take the best. */
module Rendezvous {
  import opened ByteStrings

  type NodeId = Bytes

  datatype Scored = Scored(score: u64, node: NodeId)

  /** Every node with its score for the key: the hash of the key followed by the node. */
  function ScoreAll(hash: Bytes -> u64, key: Bytes, nodes: seq<NodeId>): (s: seq<Scored>)
    ensures |s| == |nodes|
  {
    seq(|nodes|, i requires 0 <= i < |nodes| => Scored(hash(key + nodes[i]), nodes[i]))
  }

  ghost predicate Descending(s: seq<Scored>) {
    forall i, j | 0 <= i < j < |s| :: s[i].score >= s[j].score
  }

  /** A result the unstable sort may produce. */
  ghost predicate IsRanking(s: seq<Scored>, r: seq<Scored>) {
    Descending(r) && multiset(r) == multiset(s)
  }

  /** No two different nodes have the same score. */
  ghost predicate NoTies(s: seq<Scored>) {
    forall a, b | a in s && b in s && a.score == b.score :: a == b
  }

  function Best(r: seq<Scored>, n: nat): seq<Scored> {
    if n < |r| then r[..n] else r
  }

  function Nodes(s: seq<Scored>): (ns: seq<NodeId>)
    ensures |ns| == |s|
  {
    seq(|s|, i requires 0 <= i < |s| => s[i].node)
  }

  function Place(x: Scored, r: seq<Scored>): (p: seq<Scored>)
    ensures multiset(p) == multiset(r) + multiset{x}
  {
    if r == [] || x.score > r[0].score then [x] + r
    else
      assert r == [r[0]] + r[1..];
      [r[0]] + Place(x, r[1..])
  }

  lemma PlacedFrom(x: Scored, r: seq<Scored>, i: nat)
    requires i < |Place(x, r)|
    ensures Place(x, r)[i] == x || Place(x, r)[i] in r
  {
    hide Place;
    var p := Place(x, r);
    assert p[i] in multiset(p);
    assert p[i] in r <==> p[i] in multiset(r);
  }

  lemma PrependSorts(x: Scored, r: seq<Scored>)
    requires Descending(r) && forall i | 0 <= i < |r| :: x.score >= r[i].score
    ensures Descending([x] + r)
  {}

  lemma {:induction false} PlaceSorts(x: Scored, r: seq<Scored>)
    requires Descending(r)
    ensures Descending(Place(x, r))
  {
    if r != [] && x.score <= r[0].score {
      var rest := Place(x, r[1..]);
      PlaceSorts(x, r[1..]);
      forall i | 0 <= i < |rest| ensures r[0].score >= rest[i].score {
        PlacedFrom(x, r[1..], i);
      }
      PrependSorts(r[0], rest);
    } else {
      PrependSorts(x, r);
    }
  }

  /** The nodes picked are the best `n` of some ranking of all of them. */
  method HrwSelect(hash: Bytes -> u64, key: Bytes, nodes: seq<NodeId>, n: nat)
    returns (selected: seq<NodeId>, ghost ranking: seq<Scored>)
    ensures IsRanking(ScoreAll(hash, key, nodes), ranking)
    ensures selected == Nodes(Best(ranking, n))
    ensures |selected| == if n < |nodes| then n else |nodes|
  {
    var scored := ScoreAll(hash, key, nodes);
    var ranked: seq<Scored> := [];
    for i := 0 to |scored|
      invariant IsRanking(scored[..i], ranked)
    {
      PlaceSorts(scored[i], ranked);
      assert scored[..i + 1] == scored[..i] + [scored[i]];
      ranked := Place(scored[i], ranked);
    }
    assert scored[..|scored|] == scored;
    ranking := ranked;
    SameLength(scored, ranking);
    if nodes == [] || n == 0 {
      assert Best(ranking, n) == [];
      return [], ranking;
    }
    selected := Nodes(Best(ranked, n));
  }

  lemma SameLength(s: seq<Scored>, r: seq<Scored>)
    requires multiset(s) == multiset(r)
    ensures |s| == |r|
  {
    assert |s| == |multiset(s)| && |r| == |multiset(r)|;
  }

  lemma SameMembers(s: seq<Scored>, r: seq<Scored>, x: Scored)
    requires multiset(s) == multiset(r)
    ensures x in s <==> x in r
  {
    assert x in s <==> x in multiset(s);
    assert x in r <==> x in multiset(r);
  }

  lemma HeadIsBest(r: seq<Scored>, x: Scored)
    requires Descending(r) && x in r
    ensures x.score <= r[0].score
  {}

  /** Two rankings of the same nodes start alike. */
  lemma SameHead(q: seq<Scored>, r: seq<Scored>)
    requires q != [] && r != [] && Descending(q) && Descending(r) && multiset(q) == multiset(r) && NoTies(q)
    ensures q[0] == r[0]
  {
    hide Descending;
    assert q[0] in q && r[0] in r;
    SameMembers(q, r, q[0]);
    SameMembers(q, r, r[0]);
    HeadIsBest(q, r[0]);
    HeadIsBest(r, q[0]);
  }

  lemma DropHead(r: seq<Scored>)
    requires r != []
    ensures multiset(r[1..]) == multiset(r) - multiset{r[0]}
  {
    assert r == [r[0]] + r[1..];
  }

  /** Leaving elements out keeps the order and brings no ties. */
  lemma TailKeeps(r: seq<Scored>)
    requires r != []
    ensures Descending(r) ==> Descending(r[1..])
    ensures NoTies(r) ==> NoTies(r[1..])
  {
    assert forall x | x in r[1..] :: x in r;
  }

  /** Without ties there is one ranking. */
  lemma {:induction false} RankingUnique(q: seq<Scored>, r: seq<Scored>)
    requires Descending(q) && Descending(r) && multiset(q) == multiset(r) && NoTies(q)
    ensures q == r
  {
    hide Descending, NoTies;
    SameLength(q, r);
    if q != [] {
      SameHead(q, r);
      DropHead(q);
      DropHead(r);
      TailKeeps(q);
      TailKeeps(r);
      RankingUnique(q[1..], r[1..]);
      assert q == [q[0]] + q[1..] && r == [r[0]] + r[1..];
    }
  }

  lemma NoTiesOfRanking(s: seq<Scored>, r: seq<Scored>)
    requires IsRanking(s, r) && NoTies(s)
    ensures NoTies(r)
  {
    forall a, b | a in r && b in r && a.score == b.score ensures a == b {
      SameMembers(s, r, a);
      SameMembers(s, r, b);
    }
  }

  /** The order the nodes are given in does not matter, nor how the sort breaks ties, as
      long as there are none. */
  lemma SelectionIgnoresOrder(s: seq<Scored>, shuffled: seq<Scored>, q: seq<Scored>, r: seq<Scored>)
    requires multiset(s) == multiset(shuffled) && NoTies(s)
    requires IsRanking(s, q) && IsRanking(shuffled, r)
    ensures q == r
  {
    NoTiesOfRanking(s, q);
    RankingUnique(q, r);
  }

  /** `r` without its element at `i`. */
  function Without(r: seq<Scored>, i: nat): seq<Scored>
    requires i < |r|
  {
    r[..i] + r[i + 1..]
  }

  lemma WithoutCounts(r: seq<Scored>, i: nat)
    requires i < |r|
    ensures multiset(Without(r, i)) == multiset(r) - multiset{r[i]}
  {
    assert r == r[..i] + [r[i]] + r[i + 1..];
  }

  lemma WithoutAt(r: seq<Scored>, i: nat, j: nat)
    requires i < |r| && j < |r| - 1
    ensures Without(r, i)[j] == r[if j < i then j else j + 1]
  {}

  lemma WithoutKeeps(r: seq<Scored>, i: nat)
    requires i < |r| && Descending(r) && NoTies(r)
    ensures Descending(Without(r, i)) && NoTies(Without(r, i))
  {
    hide Without;
    var w := Without(r, i);
    WithoutCounts(r, i);
    assert |w| == |r| - 1 by { assert |w| == |multiset(w)| && |r| == |multiset(r)| && r[i] in multiset(r); }
    forall j | 0 <= j < |w| ensures w[j] == r[if j < i then j else j + 1] {
      WithoutAt(r, i, j);
    }
  }

  /** Minimal disruption: losing a node that was not among the best `n` changes nothing;
      losing one that was keeps all the others in order and brings in only the next best. */
  lemma MinimalDisruption(s: seq<Scored>, left: seq<Scored>, r: seq<Scored>, r': seq<Scored>, n: nat, i: nat)
    requires NoTies(s) && IsRanking(s, r) && i < |r|
    requires multiset(left) == multiset(s) - multiset{r[i]} && IsRanking(left, r')
    ensures i >= n ==> Best(r', n) == Best(r, n)
    ensures i < n ==> Best(r', n) == Without(Best(r, n), i) + (if n < |r| then [r[n]] else [])
  {
    hide Descending, NoTies, Without, Best;
    NoTiesOfRanking(s, r);
    WithoutCounts(r, i);
    WithoutKeeps(r, i);
    RankingUnique(Without(r, i), r');
    BestWithout(r, n, i);
  }

  lemma BestWithout(r: seq<Scored>, n: nat, i: nat)
    requires i < |r|
    ensures i >= n ==> Best(Without(r, i), n) == Best(r, n)
    ensures i < n ==> Best(Without(r, i), n) == Without(Best(r, n), i) + (if n < |r| then [r[n]] else [])
  {
    if i < n < |r| {
      assert Without(r, i)[..n] == Without(r[..n], i) + [r[n]];
    }
  }

  // ------------------------------------------------------- on the nodes themselves

  /** The nodes that are left when the one at `i` leaves. */
  function Leave(nodes: seq<NodeId>, i: nat): seq<NodeId>
    requires i < |nodes|
  {
    nodes[..i] + nodes[i + 1..]
  }

  lemma ScoresAfterLeave(hash: Bytes -> u64, key: Bytes, nodes: seq<NodeId>, i: nat)
    requires i < |nodes|
    ensures ScoreAll(hash, key, Leave(nodes, i)) == Without(ScoreAll(hash, key, nodes), i)
  {}

  /** A node is selected exactly when its scored form is among the best. */
  lemma SelectedAt(r: seq<Scored>, n: nat, j: nat)
    requires j < |Best(r, n)|
    ensures Nodes(Best(r, n))[j] == r[j].node
  {}

  lemma RankedAt(hash: Bytes -> u64, key: Bytes, nodes: seq<NodeId>, r: seq<Scored>, j: nat)
    requires IsRanking(ScoreAll(hash, key, nodes), r) && j < |r|
    ensures r[j].score == hash(key + r[j].node)
  {
    hide IsRanking, Descending;
    assert multiset(r) == multiset(ScoreAll(hash, key, nodes)) by { RankingCounts(ScoreAll(hash, key, nodes), r); }
    SameMembers(ScoreAll(hash, key, nodes), r, r[j]);
  }

  lemma RankingCounts(s: seq<Scored>, r: seq<Scored>)
    requires IsRanking(s, r)
    ensures multiset(r) == multiset(s)
  {}

  /** Where the ranking has the node at `i`, at or after the `n` best if it was not selected
      and among them if it was. */
  lemma PlaceOf(hash: Bytes -> u64, key: Bytes, nodes: seq<NodeId>, r: seq<Scored>, n: nat, i: nat) returns (j: nat)
    requires IsRanking(ScoreAll(hash, key, nodes), r) && i < |nodes|
    ensures j < |r| && r[j] == ScoreAll(hash, key, nodes)[i]
    ensures j < n <==> nodes[i] in Nodes(Best(r, n))
  {
    var s := ScoreAll(hash, key, nodes);
    assert s[i] in s;
    SameMembers(s, r, s[i]);
    if nodes[i] in Nodes(Best(r, n)) {
      j :| 0 <= j < |Best(r, n)| && Nodes(Best(r, n))[j] == nodes[i];
      SelectedAt(r, n, j);
      RankedAt(hash, key, nodes, r, j);
    } else {
      j :| 0 <= j < |r| && r[j] == s[i];
      if j < n {
        SelectedAt(r, n, j);
        assert false;
      }
    }
  }

  /** What a client of the selection sees when one node leaves: if it was not among the
      selected nodes they stay as they are; if it was, it alone drops out, the others keep
      their order, and the next best node joins at the end if there is one. */
  lemma SelectionAfterLeave(hash: Bytes -> u64, key: Bytes, nodes: seq<NodeId>, n: nat, i: nat,
                            r: seq<Scored>, r': seq<Scored>)
    returns (j: nat)
    requires i < |nodes| && NoTies(ScoreAll(hash, key, nodes))
    requires IsRanking(ScoreAll(hash, key, nodes), r) && IsRanking(ScoreAll(hash, key, Leave(nodes, i)), r')
    ensures var before, after := Nodes(Best(r, n)), Nodes(Best(r', n));
      && |r| == |nodes|
      && (nodes[i] !in before ==> after == before)
      && (nodes[i] in before ==>
            && j < |before| && before[j] == nodes[i]
            && after == before[..j] + before[j + 1..] + (if n < |nodes| then [Nodes(r)[n]] else []))
  {
    hide NoTies, Descending, Without;
    var s := ScoreAll(hash, key, nodes);
    j := PlaceOf(hash, key, nodes, r, n, i);
    ScoresAfterLeave(hash, key, nodes, i);
    WithoutCounts(s, i);
    RankingCounts(s, r);
    SameLength(s, r);
    MinimalDisruption(s, ScoreAll(hash, key, Leave(nodes, i)), r, r', n, j);
    if j < n { NodesWithout(r, n, j); }
  }

  lemma NodesWithout(r: seq<Scored>, n: nat, j: nat)
    requires j < |r| && j < n
    ensures j < |Best(r, n)| && Nodes(Best(r, n))[j] == r[j].node
    ensures Nodes(Without(Best(r, n), j) + (if n < |r| then [r[n]] else []))
         == Nodes(Best(r, n))[..j] + Nodes(Best(r, n))[j + 1..] + (if n < |r| then [Nodes(r)[n]] else [])
  {}

  /** Whatever order the sort leaves ties in, the nodes come best score first, and no node left
      out scores higher than one taken; scores are hashes of the key followed by the node. */
  lemma SelectsBest(hash: Bytes -> u64, key: Bytes, nodes: seq<NodeId>, n: nat, r: seq<Scored>)
    requires IsRanking(ScoreAll(hash, key, nodes), r)
    ensures var taken := Nodes(Best(r, n));
      && (forall i, j | 0 <= i < j < |taken| :: hash(key + taken[i]) >= hash(key + taken[j]))
      && (forall i, j | 0 <= i < |nodes| && nodes[i] !in taken && 0 <= j < |taken| ::
            hash(key + nodes[i]) <= hash(key + taken[j]))
  {
    hide ScoreAll, Nodes, Best;
    var taken := Nodes(Best(r, n));
    forall j | 0 <= j < |taken| ensures j < |r| && r[j].node == taken[j] && r[j].score == hash(key + taken[j]) {
      SelectedIsRanked(r, n, j);
      RankedAt(hash, key, nodes, r, j);
    }
    forall i, j | 0 <= i < |nodes| && nodes[i] !in taken && 0 <= j < |taken|
      ensures hash(key + nodes[i]) <= hash(key + taken[j])
    {
      var k := PlaceOf(hash, key, nodes, r, n, i);
      RankedAt(hash, key, nodes, r, k);
      ScoredAt(hash, key, nodes, i);
      SelectedIsRanked(r, n, j);
    }
  }

  lemma SelectedIsRanked(r: seq<Scored>, n: nat, j: nat)
    requires j < |Nodes(Best(r, n))|
    ensures j < n && j < |r| && Nodes(Best(r, n))[j] == r[j].node
  {}

  lemma ScoredAt(hash: Bytes -> u64, key: Bytes, nodes: seq<NodeId>, i: nat)
    requires i < |nodes|
    ensures ScoreAll(hash, key, nodes)[i].node == nodes[i]
  {}
}
