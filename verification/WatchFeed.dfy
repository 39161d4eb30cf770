/** What a watcher receives, against what was committed. */
module WatchFeed {
  import opened ByteStrings
  import opened NodeSpec
  import opened NodeInvariants
  import opened Tenants
  import opened Watch
  import opened Disk
  import KeyCodec
  import ValueCodec
  import Quota
  import TtlIndex
  import Durability

  // ---------------------------------------------------------------- the stream

  /** What the client's stream yields next: a change, the one error that ends it, or
      nothing yet. */
  datatype Item = Event(change: KeyChange) | Lost(missed: nat) | Pending

  /** Reads on from `pos`, skipping changes outside the prefix. */
  function Pull(log: seq<KeyChange>, window: nat, pos: nat, prefix: Bytes): (r: (Item, nat))
    ensures r.1 >= pos
    decreases |log| - pos
  {
    var (got, next) := Receive(log, window, pos);
    match got
    case Lagged(missed) => (Lost(missed), next)
    case Nothing => (Pending, next)
    case Got(change) => if prefix <= change.key then (Event(change), next) else Pull(log, window, next, prefix)
  }

  /** One step of the client's stream, as it runs over the hub. */
  method NextItem(hub: WatchHub, tenant: Bytes, id: nat, prefix: Bytes) returns (item: Item)
    requires tenant in hub.channels && id in hub.channels[tenant].readers
    modifies hub
    ensures var ch := old(hub.channels[tenant]);
            var (item', pos) := Pull(ch.log, hub.window, ch.readers[id], prefix);
            && item == item'
            && hub.View() == old(hub.View()).(
                 channels := old(hub.channels)[tenant := ch.(readers := ch.readers[id := pos])])
  {
    ghost var ch := hub.channels[tenant];
    ghost var log := ch.log;
    ghost var pos := ch.readers[id];
    ghost var before := hub.channels;
    assert ch.readers[id := pos] == ch.readers;
    assert before[tenant := ch.(readers := ch.readers[id := pos])] == before;
    while true
      invariant hub.channels == before[tenant := ch.(readers := ch.readers[id := pos])]
      invariant hub.nextReader == old(hub.nextReader)
      invariant Pull(log, hub.window, pos, prefix) == Pull(log, hub.window, ch.readers[id], prefix)
      decreases |log| - pos
    {
      ghost var here := ch.(readers := ch.readers[id := pos]);
      var received := hub.Recv(tenant, id);
      ghost var next := Receive(log, hub.window, pos).1;
      assert here.(readers := here.readers[id := next]) == ch.(readers := ch.readers[id := next]);
      pos := next;
      match received {
        case Got(change) =>
          if prefix <= change.key {
            return Event(change);
          }
        case Lagged(missed) =>
          return Lost(missed);
        case Nothing =>
          return Pending;
      }
    }
  }

  /** One turn of a stream: what it answers, whether it goes on, and what it leaves of the
      hub. A lag drops the reader; a stream that has ended answers nothing. */
  function Turn(open: bool, h: HubState, tenant: Bytes, id: nat, prefix: Bytes): (Option<Item>, bool, HubState)
    requires open ==> tenant in h.channels && id in h.channels[tenant].readers
  {
    if !open then (None, false, h)
    else
      var ch := h.channels[tenant];
      var (item, pos) := Pull(ch.log, h.window, ch.readers[id], prefix);
      if item.Lost? then (Some(item), false, Unsubscribed(h, tenant, id))
      else (Some(item), true, h.(channels := h.channels[tenant := ch.(readers := ch.readers[id := pos])]))
  }

  /** The client's stream: a reader of the hub until it falls behind, and then nothing. */
  class Stream {
    const hub: WatchHub
    const tenant: Bytes
    const id: nat
    const prefix: Bytes
    var open: bool

    ghost predicate Valid()
      reads this, hub
    {
      open ==> tenant in hub.channels && id in hub.channels[tenant].readers
    }

    constructor (hub: WatchHub, tenant: Bytes, prefix: Bytes)
      modifies hub
      ensures Valid() && open && this.hub == hub && this.tenant == tenant && this.prefix == prefix
      ensures id == old(hub.nextReader) && hub.View() == Subscribed(old(hub.View()), tenant)
    {
      var reader := hub.Subscribe(tenant);
      this.hub, this.tenant, this.id, this.prefix, open := hub, tenant, reader, prefix, true;
    }

    /** The next item, or the end of the stream. */
    method Next() returns (item: Option<Item>)
      requires Valid()
      modifies this`open, hub
      ensures Valid()
      ensures (item, open, hub.View()) == Turn(old(open), old(hub.View()), tenant, id, prefix)
    {
      hide Pull;
      if !open {
        return None;
      }
      ghost var before, ch := hub.channels, hub.channels[tenant];
      var next := NextItem(hub, tenant, id, prefix);
      item := Some(next);
      if next.Lost? {
        ghost var pos := Pull(ch.log, hub.window, ch.readers[id], prefix).1;
        assert ch.readers[id := pos] - {id} == ch.readers - {id};
        hub.Unsubscribe(tenant, id);
        open := false;
        assert hub.channels == before[tenant := ch.(readers := ch.readers - {id})];
      }
    }
  }

  // ------------------------------------------------------------------- folding

  type Values = map<Bytes, Bytes>

  function ValuesOf(data: TenantData): Values {
    map p | p in data :: data[p].value
  }

  function ApplyChange(m: Values, c: KeyChange): Values {
    if c.kind.ChangePut? then m[c.key := c.value] else m - {c.key}
  }

  function FoldChanges(m: Values, cs: seq<KeyChange>): Values {
    if cs == [] then m else ApplyChange(FoldChanges(m, cs[..|cs| - 1]), cs[|cs| - 1])
  }

  function Matching(cs: seq<KeyChange>, prefix: Bytes): seq<KeyChange> {
    if cs == [] then []
    else Matching(cs[..|cs| - 1], prefix) + (if prefix <= cs[|cs| - 1].key then [cs[|cs| - 1]] else [])
  }

  function Restricted(m: Values, prefix: Bytes): Values {
    map k | k in m && prefix <= k :: m[k]
  }

  lemma RestrictedChange(m: Values, c: KeyChange, prefix: Bytes)
    ensures Restricted(ApplyChange(m, c), prefix)
         == if prefix <= c.key then ApplyChange(Restricted(m, prefix), c) else Restricted(m, prefix)
  {}

  /** Folding the changes under a prefix into the part of a snapshot under it gives the
      part of the folded whole. */
  lemma {:induction false} FilterFolds(m: Values, cs: seq<KeyChange>, prefix: Bytes)
    ensures FoldChanges(Restricted(m, prefix), Matching(cs, prefix)) == Restricted(FoldChanges(m, cs), prefix)
  {
    hide Restricted, ApplyChange;
    if cs != [] {
      var init, last := cs[..|cs| - 1], cs[|cs| - 1];
      FilterFolds(m, init, prefix);
      RestrictedChange(FoldChanges(m, init), last, prefix);
      var ms := Matching(init, prefix);
      assert (ms + [last])[..|ms|] == ms;
      assert ms + [] == ms;
    }
  }

  /** Pulling moves through the log one matching change at a time. */
  lemma {:induction false} PullReads(log: seq<KeyChange>, window: nat, pos: nat, prefix: Bytes)
    requires pos <= |log|
    ensures var (item, next) := Pull(log, window, pos, prefix);
      && (item.Event? ==> pos < next <= |log| && Matching(log[pos..next], prefix) == [item.change])
      && (item.Pending? ==> next == |log| && Matching(log[pos..next], prefix) == [])
      && (item.Lost? <==> pos + window < |log|)
      && (item.Lost? ==> pos + item.missed + window == |log|)
    decreases |log| - pos
  {
    if pos + window < |log| || pos == |log| {
      assert log[pos..pos] == [];
    } else if prefix <= log[pos].key {
      assert log[pos..pos + 1] == [log[pos]];
      MatchingOne(log[pos], prefix);
    } else {
      PullReads(log, window, pos + 1, prefix);
      var next := Pull(log, window, pos, prefix).1;
      if Pull(log, window, pos, prefix).0.Lost? {
      } else {
        assert log[pos..next] == [log[pos]] + log[pos + 1..next];
        MatchingOne(log[pos], prefix);
        MatchingConcat([log[pos]], log[pos + 1..next], prefix);
      }
    }
  }

  lemma MatchingOne(c: KeyChange, prefix: Bytes)
    ensures Matching([c], prefix) == if prefix <= c.key then [c] else []
  {
    assert [c][..0] == [];
  }

  lemma {:induction false} MatchingConcat(xs: seq<KeyChange>, ys: seq<KeyChange>, prefix: Bytes)
    ensures Matching(xs + ys, prefix) == Matching(xs, prefix) + Matching(ys, prefix)
  {
    if ys == [] {
      assert xs + ys == xs;
    } else {
      var n := |ys| - 1;
      assert (xs + ys)[..|xs| + n] == xs + ys[..n];
      MatchingConcat(xs, ys[..n], prefix);
    }
  }

  // ---------------------------------------------------------------- the machine

  /** One watch stream. `snapshot` is the tenant's data when it was opened, `history` every
      change committed to the tenant's data since, `read` how many of them the stream has
      been past, `received` what it has delivered. */
  datatype Sub = Sub(tenant: Bytes, prefix: Bytes, snapshot: Values, history: seq<KeyChange>, read: nat,
                     received: seq<KeyChange>, ended: bool)

  datatype Feed = Feed(node: Node, subs: map<nat, Sub>)

  /** A committed write, a change to the expiration index alone, an opened stream, a turn of
      a stream, a stream dropped by its client. Every request is a chain of the first two. */
  datatype Move =
    | Commit(w: Write, plan: Option<Accounting>)
    | Reindex(ttl: TtlIndex.TtlState)
    | Open(tenant: Bytes, prefix: Bytes)
    | PullNext(id: nat)
    | Close(id: nat)

  /** The change a write makes to a tenant's data, if it makes one. */
  function ChangeTo(w: Write, tenant: Bytes): seq<KeyChange> {
    match KeyCodec.Decode(w.key)
    case Ok(d) => if d.subspace.Data? && d.tenant == tenant then [KeyChange(Change(w), d.payload, w.shown)] else []
    case Err(_) => []
  }

  function Seen(sub: Sub, w: Write): Sub {
    sub.(history := sub.history + ChangeTo(w, sub.tenant))
  }

  /** What a stream becomes when it pulls. A lag ends it: the error is its last item. */
  function Pulled(sub: Sub, item: Item, moved: nat): Sub {
    match item
    case Event(c) => sub.(read := sub.read + moved, received := sub.received + [c])
    case Lost(_) => sub.(ended := true)
    case Pending => sub.(read := sub.read + moved)
  }

  /** What a stream is after its turn. */
  function TurnOf(h: HubState, id: nat, sub: Sub): Sub
    requires !sub.ended ==> sub.tenant in h.channels && id in h.channels[sub.tenant].readers
  {
    if sub.ended then sub
    else
      var ch := h.channels[sub.tenant];
      var (item, pos) := Pull(ch.log, h.window, ch.readers[id], sub.prefix);
      Pulled(sub, item, pos - ch.readers[id])
  }

  ghost predicate Step(c: Config, f: Feed, m: Move, f': Feed) {
    match m
    case Commit(w, plan) =>
      && WellFormed(f.node.store) && Sound(f.node.store, w, plan)
      && f'.node == Perform(c, f.node, w, plan)
      && f'.subs == map id | id in f.subs :: if f.subs[id].ended then f.subs[id] else Seen(f.subs[id], w)
    case Reindex(ttl) =>
      f' == f.(node := f.node.(ttl := ttl))
    case Open(tenant, prefix) =>
      && KeyCodec.LegalTenant(tenant)
      && f'.node == f.node.(hub := Subscribed(f.node.hub, tenant))
      && f'.subs == f.subs[f.node.hub.nextReader :=
           Sub(tenant, prefix, ValuesOf(DataOf(f.node.store, tenant)), [], 0, [], false)]
    case PullNext(id) =>
      && id in f.subs
      && var sub, h := f.subs[id], f.node.hub;
      && (!sub.ended ==> sub.tenant in h.channels && id in h.channels[sub.tenant].readers)
      && f'.subs == f.subs[id := TurnOf(h, id, sub)]
      && f'.node == f.node.(hub := Turn(!sub.ended, h, sub.tenant, id, sub.prefix).2)
    case Close(id) =>
      && id in f.subs && !f.subs[id].ended
      && f'.subs == f.subs - {id}
      && f'.node == f.node.(hub := Unsubscribed(f.node.hub, f.subs[id].tenant, id))
  }

  // -------------------------------------------------------------- the invariant

  /** The reader's place in the channel is its place in the tenant's history. */
  ghost predicate InPlace(h: HubState, id: nat, sub: Sub) {
    && sub.tenant in h.channels
    && var ch := h.channels[sub.tenant];
    && id in ch.readers
    && sub.read <= |sub.history| <= |ch.log|
    && ch.log[|ch.log| - |sub.history|..] == sub.history
    && ch.readers[id] == |ch.log| - |sub.history| + sub.read
  }

  /** What has been delivered is the filtered beginning of the tenant's history, and the
      history is complete: folding it into the snapshot gives what is stored. */
  ghost predicate Faithful(n: Node, id: nat, sub: Sub) {
    && KeyCodec.LegalTenant(sub.tenant)
    && sub.read <= |sub.history|
    && sub.received == Matching(sub.history[..sub.read], sub.prefix)
    && (!sub.ended ==>
          && InPlace(n.hub, id, sub)
          && FoldChanges(sub.snapshot, sub.history) == ValuesOf(DataOf(n.store, sub.tenant)))
  }

  ghost predicate FeedInv(f: Feed) {
    && (forall id | id in f.subs :: id < f.node.hub.nextReader && Faithful(f.node, id, f.subs[id]))
  }

  // --------------------------------------------------------- every move keeps it

  /** A write changes a tenant's stored values by exactly the change announced for it. */
  lemma CommitChanges(c: Config, n: Node, w: Write, plan: Option<Accounting>, u: Bytes)
    requires WellFormed(n.store) && Sound(n.store, w, plan) && KeyCodec.LegalTenant(u)
    ensures ValuesOf(DataOf(Perform(c, n, w, plan).store, u))
         == FoldChanges(ValuesOf(DataOf(n.store, u)), ChangeTo(w, u))
  {
    assert LegalPlan(plan);
    hide Perform, Sound, WellFormed, KeyCodec.ValidUtf8, DataOf, Quota.IsUsageRecord, KeyCodec.DataKey, LegalPlan;
    var m, m' := n.store, Perform(c, n, w, plan).store;
    var ch := ChangeTo(w, u);
    if ch == [] {
      PerformStore(c, n, w, plan);
      forall p ensures Lookup(m, KeyCodec.DataKey(u, p)) == Lookup(m', KeyCodec.DataKey(u, p)) {
        KeyCodec.DataKeyDecodes(u, p);
        DataKeyOwned(u, p);
      }
      DataOfAgrees(m, m', u);
    } else {
      OwnedIsDataKey(u, w.key);
      WriteRefines(c, n, w, plan, u, Payload(w.key), u);
      assert ch[..0] == [] && ch == [ch[0]];
      WrittenValues(DataOf(m, u), Payload(w.key), w);
    }
  }

  lemma WrittenValues(data: TenantData, p: Bytes, w: Write)
    ensures ValuesOf(Tenants.Written(data, p, w)) == ApplyChange(ValuesOf(data), KeyChange(Change(w), p, w.shown))
  {}

  /** Announcing a write appends it for every live reader of its tenant and moves nobody. */
  lemma AnnounceInPlace(h: HubState, id: nat, sub: Sub, w: Write)
    requires InPlace(h, id, sub)
    ensures InPlace(Announced(h, w), id, Seen(sub, w))
    ensures Announced(h, w).nextReader == h.nextReader
  {
    hide KeyCodec.Decode;
    var ch := h.channels[sub.tenant];
    var change := ChangeTo(w, sub.tenant);
    assert ch.readers != map[];
    if change != [] {
      var log' := ch.log + change;
      assert log'[|log'| - |sub.history + change|..] == sub.history + change;
    } else {
      assert sub.history + change == sub.history;
    }
  }

  lemma {:induction false} FoldConcat(m: Values, xs: seq<KeyChange>, ys: seq<KeyChange>)
    ensures FoldChanges(m, xs + ys) == FoldChanges(FoldChanges(m, xs), ys)
  {
    if ys == [] {
      assert xs + ys == xs;
    } else {
      var n := |ys| - 1;
      assert (xs + ys)[..|xs| + n] == xs + ys[..n];
      FoldConcat(m, xs, ys[..n]);
    }
  }

  lemma CommitFaithful(c: Config, n: Node, w: Write, plan: Option<Accounting>, id: nat, sub: Sub)
    requires WellFormed(n.store) && Sound(n.store, w, plan) && LegalPlan(plan)
    requires Faithful(n, id, sub) && !sub.ended
    ensures Faithful(Perform(c, n, w, plan), id, Seen(sub, w))
  {
    hide Sound, Perform, WellFormed, KeyCodec.ValidUtf8, DataOf, InPlace, Announced, ChangeTo, LegalPlan;
    hide Matching, FoldChanges, ValuesOf;
    PerformHub(c, n, w, plan);
    AnnounceInPlace(n.hub, id, sub, w);
    CommitChanges(c, n, w, plan, sub.tenant);
    FoldConcat(sub.snapshot, sub.history, ChangeTo(w, sub.tenant));
    assert (sub.history + ChangeTo(w, sub.tenant))[..sub.read] == sub.history[..sub.read];
  }

  lemma CommitKeeps(c: Config, f: Feed, w: Write, plan: Option<Accounting>, f': Feed)
    requires FeedInv(f) && Step(c, f, Commit(w, plan), f')
    ensures FeedInv(f')
  {
    assert LegalPlan(plan);
    hide Sound, Perform, WellFormed, Announced, ChangeTo, LegalPlan, Seen;
    PerformHub(c, f.node, w, plan);
    forall id | id in f'.subs ensures id < f'.node.hub.nextReader && Faithful(f'.node, id, f'.subs[id]) {
      assert Faithful(f.node, id, f.subs[id]);
      if !f.subs[id].ended {
        CommitFaithful(c, f.node, w, plan, id, f.subs[id]);
      } else {
        EndedStays(f.node, f'.node, id, f.subs[id]);
      }
    }
  }

  lemma EndedStays(n: Node, n': Node, id: nat, sub: Sub)
    requires Faithful(n, id, sub) && sub.ended
    ensures Faithful(n', id, sub)
  {
    hide Matching, FoldChanges, ValuesOf, DataOf, InPlace;
  }

  lemma PerformHub(c: Config, n: Node, w: Write, plan: Option<Accounting>)
    requires LegalPlan(plan)
    ensures Perform(c, n, w, plan).hub == Announced(n.hub, w)
    ensures Announced(n.hub, w).nextReader == n.hub.nextReader
  {
    hide LegalPlan, BillOps, ApplyAll, KeyCodec.Decode;
  }

  lemma SubscribeInPlace(h: HubState, tenant: Bytes, id: nat, sub: Sub)
    requires InPlace(h, id, sub) && id < h.nextReader
    ensures InPlace(Subscribed(h, tenant), id, sub)
  {}

  lemma FreshInPlace(h: HubState, tenant: Bytes, sub: Sub)
    requires sub.tenant == tenant && sub.history == [] && sub.read == 0
    ensures InPlace(Subscribed(h, tenant), h.nextReader, sub)
  {}

  lemma OldFaithful(n: Node, tenant: Bytes, id: nat, sub: Sub)
    requires Faithful(n, id, sub) && id < n.hub.nextReader
    ensures Faithful(n.(hub := Subscribed(n.hub, tenant)), id, sub)
  {
    hide KeyCodec.ValidUtf8, DataOf, InPlace, ValuesOf, Matching, FoldChanges, Subscribed;
    if !sub.ended { SubscribeInPlace(n.hub, tenant, id, sub); }
  }

  lemma FreshFaithful(n: Node, tenant: Bytes, prefix: Bytes)
    requires KeyCodec.LegalTenant(tenant)
    ensures Faithful(n.(hub := Subscribed(n.hub, tenant)), n.hub.nextReader,
                     Sub(tenant, prefix, ValuesOf(DataOf(n.store, tenant)), [], 0, [], false))
  {
    hide KeyCodec.ValidUtf8, DataOf, InPlace, ValuesOf, Subscribed;
    FreshInPlace(n.hub, tenant, Sub(tenant, prefix, ValuesOf(DataOf(n.store, tenant)), [], 0, [], false));
  }

  lemma OpenKeeps(c: Config, f: Feed, tenant: Bytes, prefix: Bytes, f': Feed)
    requires FeedInv(f) && Step(c, f, Open(tenant, prefix), f')
    ensures FeedInv(f')
  {
    hide Faithful, KeyCodec.ValidUtf8, DataOf, ValuesOf;
    FreshFaithful(f.node, tenant, prefix);
    forall id | id in f'.subs ensures id < f'.node.hub.nextReader && Faithful(f'.node, id, f'.subs[id]) {
      if id != f.node.hub.nextReader {
        OldFaithful(f.node, tenant, id, f.subs[id]);
      }
    }
  }

  /** The pulling stream's own step. */
  lemma PullFaithful(h: HubState, id: nat, sub: Sub)
    requires InPlace(h, id, sub) && sub.received == Matching(sub.history[..sub.read], sub.prefix)
    ensures var ch := h.channels[sub.tenant];
      var (item, pos) := Pull(ch.log, h.window, ch.readers[id], sub.prefix);
      var sub' := Pulled(sub, item, pos - ch.readers[id]);
      && sub'.read <= |sub.history|
      && sub'.received == Matching(sub'.history[..sub'.read], sub.prefix)
      && (!item.Lost? ==> pos == |ch.log| - |sub.history| + sub'.read)
  {
    hide Pull, Matching;
    var ch := h.channels[sub.tenant];
    var start, pos0 := |ch.log| - |sub.history|, ch.readers[id];
    PullReads(ch.log, h.window, pos0, sub.prefix);
    var (item, pos) := Pull(ch.log, h.window, pos0, sub.prefix);
    if !item.Lost? {
      ReadOn(ch.log, start, sub, pos);
    }
  }

  /** What lies between two places in the log is what lies between them in the history. */
  lemma ReadOn(log: seq<KeyChange>, start: nat, sub: Sub, pos: nat)
    requires start + |sub.history| == |log| && log[start..] == sub.history
    requires start + sub.read <= pos <= |log|
    ensures Matching(sub.history[..pos - start], sub.prefix)
         == Matching(sub.history[..sub.read], sub.prefix) + Matching(log[start + sub.read..pos], sub.prefix)
  {
    hide Matching;
    var read' := pos - start;
    assert log[start + sub.read..pos] == sub.history[sub.read..read'];
    assert sub.history[..read'] == sub.history[..sub.read] + sub.history[sub.read..read'];
    MatchingConcat(sub.history[..sub.read], sub.history[sub.read..read'], sub.prefix);
  }

  lemma ReindexKeeps(c: Config, f: Feed, ttl: TtlIndex.TtlState, f': Feed)
    requires FeedInv(f) && Step(c, f, Reindex(ttl), f')
    ensures FeedInv(f')
  {
    hide DataOf, KeyCodec.ValidUtf8, Matching, FoldChanges, ValuesOf, InPlace;
    forall i | i in f'.subs ensures i < f'.node.hub.nextReader && Faithful(f'.node, i, f'.subs[i]) {
      assert Faithful(f.node, i, f.subs[i]);
    }
  }

  /** Another reader's turn moves nobody else. */
  lemma TurnKeepsOthers(h: HubState, tenant: Bytes, id: nat, prefix: Bytes, i: nat, sub: Sub)
    requires tenant in h.channels && id in h.channels[tenant].readers
    requires InPlace(h, i, sub) && i != id
    ensures InPlace(Turn(true, h, tenant, id, prefix).2, i, sub)
  {
    hide Pull;
  }

  lemma TurnInPlace(h: HubState, id: nat, sub: Sub)
    requires InPlace(h, id, sub) && !sub.ended && sub.received == Matching(sub.history[..sub.read], sub.prefix)
    ensures var sub' := TurnOf(h, id, sub);
      && sub'.read <= |sub'.history|
      && sub'.received == Matching(sub'.history[..sub'.read], sub'.prefix)
      && (!sub'.ended ==> InPlace(Turn(true, h, sub.tenant, id, sub.prefix).2, id, sub'))
  {
    hide Pull, Matching;
    PullFaithful(h, id, sub);
  }

  lemma PullKeeps(c: Config, f: Feed, id: nat, f': Feed)
    requires FeedInv(f) && Step(c, f, PullNext(id), f')
    ensures FeedInv(f')
  {
    hide DataOf, KeyCodec.ValidUtf8, Pull, Matching, FoldChanges, ValuesOf, InPlace;
    var sub := f.subs[id];
    assert Faithful(f.node, id, sub);
    if !sub.ended {
      TurnInPlace(f.node.hub, id, sub);
      forall i | i in f'.subs ensures i < f'.node.hub.nextReader && Faithful(f'.node, i, f'.subs[i]) {
        assert Faithful(f.node, i, f.subs[i]);
        if i != id && !f.subs[i].ended {
          TurnKeepsOthers(f.node.hub, sub.tenant, id, sub.prefix, i, f.subs[i]);
        }
      }
    } else {
      assert f'.subs == f.subs && f'.node == f.node;
    }
  }

  lemma CloseKeeps(c: Config, f: Feed, id: nat, f': Feed)
    requires FeedInv(f) && Step(c, f, Close(id), f')
    ensures FeedInv(f')
  {
    hide DataOf, KeyCodec.ValidUtf8, Matching, FoldChanges;
    forall i | i in f'.subs ensures i < f'.node.hub.nextReader && Faithful(f'.node, i, f'.subs[i]) {
      assert Faithful(f.node, i, f.subs[i]);
    }
  }

  /** A node with no streams yet, and any moves from there. */
  ghost predicate IsRun(c: Config, feeds: seq<Feed>, moves: seq<Move>) {
    && |feeds| == |moves| + 1
    && feeds[0].subs == map[]
    && forall i | 0 <= i < |moves| :: Step(c, feeds[i], moves[i], feeds[i + 1])
  }

  lemma {:induction false} RunKeeps(c: Config, feeds: seq<Feed>, moves: seq<Move>, i: nat)
    requires IsRun(c, feeds, moves) && i < |feeds|
    ensures FeedInv(feeds[i])
  {
    hide Step, Faithful;
    if i > 0 {
      RunKeeps(c, feeds, moves, i - 1);
      var f, f' := feeds[i - 1], feeds[i];
      assert Step(c, f, moves[i - 1], f');
      match moves[i - 1]
      case Commit(w, plan) => CommitKeeps(c, f, w, plan, f');
      case Reindex(ttl) => ReindexKeeps(c, f, ttl, f');
      case Open(tenant, prefix) => OpenKeeps(c, f, tenant, prefix, f');
      case PullNext(id) => PullKeeps(c, f, id, f');
      case Close(id) => CloseKeeps(c, f, id, f');
    }
  }

  /** What a move does to a stream that is there afterwards: it is new and has no history
      yet, or it watches what it watched and its history grew by at most one change. */
  lemma SubStep(c: Config, f: Feed, m: Move, f': Feed, id: nat)
    requires Step(c, f, m, f') && id in f'.subs
    requires id in f.subs ==> id < f.node.hub.nextReader
    ensures var sub' := f'.subs[id];
      && (id !in f.subs ==> sub'.history == [] && !sub'.ended)
      && (id in f.subs ==>
            var sub := f.subs[id];
            && sub'.tenant == sub.tenant && sub'.prefix == sub.prefix && sub'.snapshot == sub.snapshot
            && sub.history <= sub'.history && |sub'.history| <= |sub.history| + 1
            && (sub.ended || sub'.ended ==> sub'.history == sub.history))
  {
    hide Perform, Sound, WellFormed, DataOf, ValuesOf, Pull, KeyCodec.Decode, KeyCodec.ValidUtf8;
  }

  /** Every beginning of a stream's history was once its whole history. */
  lemma {:induction false} EarlierFeed(c: Config, feeds: seq<Feed>, moves: seq<Move>, i: nat, id: nat, h: nat)
    returns (j: nat)
    requires IsRun(c, feeds, moves) && i < |feeds| && id in feeds[i].subs && h <= |feeds[i].subs[id].history|
    ensures j <= i && id in feeds[j].subs && !feeds[j].subs[id].ended
    ensures var was, sub := feeds[j].subs[id], feeds[i].subs[id];
      && was.tenant == sub.tenant && was.prefix == sub.prefix && was.snapshot == sub.snapshot
      && was.history == sub.history[..h]
  {
    hide Step, Faithful;
    var f, m, f' := feeds[i - 1], moves[i - 1], feeds[i];
    RunKeeps(c, feeds, moves, i - 1);
    assert Step(c, f, m, f');
    SubStep(c, f, m, f', id);
    var sub := f'.subs[id];
    if id in f.subs && h <= |f.subs[id].history| {
      j := EarlierFeed(c, feeds, moves, i - 1, id, h);
      assert sub.history[..h] == f.subs[id].history[..h];
    } else {
      j := i;
      assert sub.history[..h] == sub.history;
    }
  }

  /** What watchers of a tenant are sent, and only they: a put its key and value, a delete its
      key and no value. With nobody watching, nothing is kept. */
  lemma WritesAnnounce(c: Config, n: Node, now: u64, t: Bytes, p: Bytes, value: Bytes, ttlMs: u64)
    requires KeyCodec.LegalTenant(t)
    ensures var (n', res) := NodeSpec.Put(c, n, now, KeyCodec.DataKey(t, p), value, ttlMs);
      res.Ok? ==> n'.hub == Sent(n.hub, t, KeyChange(ChangePut, p, value))
    ensures var (n', res) := NodeSpec.Delete(c, n, KeyCodec.DataKey(t, p));
      res.Ok? ==> n'.hub == Sent(n.hub, t, KeyChange(ChangeDelete, p, []))
  {
    hide KeyCodec.DataKey, KeyCodec.Decode, AdmitPut, PlanDelete, BillOps, Billed, WriteEffects, MustRotate, LegalPlan;
    hide ValueCodec.Encode, TtlIndex.Scheduled;
    var key := KeyCodec.DataKey(t, p);
    KeyCodec.DataKeyDecodes(t, p);
    PlansAreLegal(n, key, value);
    PlansAreLegal(n, key, []);
  }

  /** The hub once a change has gone to every reader of one tenant's channel. */
  function Sent(h: HubState, t: Bytes, change: KeyChange): HubState {
    if t in h.channels && h.channels[t].readers != map[]
    then h.(channels := h.channels[t := Channel(h.channels[t].log + [change], h.channels[t].readers)])
    else h
  }

  /** No gaps: at every point of every run, a stream has delivered exactly the changes
      under its prefix among the first `read` committed to its tenant since it opened.
      Folding what it delivered into its part of the snapshot gives, under its prefix, what
      the node stored at some point `j` of the run, namely when those changes were all that
      had been committed; for a stream that has caught up this is what is stored now. */
  lemma NoGaps(c: Config, feeds: seq<Feed>, moves: seq<Move>, i: nat, id: nat) returns (j: nat)
    requires IsRun(c, feeds, moves) && i < |feeds| && id in feeds[i].subs
    ensures var sub := feeds[i].subs[id];
      && KeyCodec.LegalTenant(sub.tenant) && sub.read <= |sub.history|
      && sub.received == Matching(sub.history[..sub.read], sub.prefix)
      && j <= i && id in feeds[j].subs && feeds[j].subs[id].history == sub.history[..sub.read]
      && FoldChanges(Restricted(sub.snapshot, sub.prefix), sub.received)
           == Restricted(ValuesOf(DataOf(feeds[j].node.store, sub.tenant)), sub.prefix)
      && (!sub.ended && sub.read == |sub.history| ==>
            FoldChanges(Restricted(sub.snapshot, sub.prefix), sub.received)
              == Restricted(ValuesOf(DataOf(feeds[i].node.store, sub.tenant)), sub.prefix))
  {
    hide Step, InPlace, DataOf, KeyCodec.ValidUtf8, Restricted, FoldChanges, Matching, ValuesOf;
    RunKeeps(c, feeds, moves, i);
    var sub := feeds[i].subs[id];
    assert Faithful(feeds[i].node, id, sub);
    FilterFolds(sub.snapshot, sub.history[..sub.read], sub.prefix);
    assert sub.history[..|sub.history|] == sub.history;
    j := EarlierFeed(c, feeds, moves, i, id, sub.read);
    RunKeeps(c, feeds, moves, j);
    assert Faithful(feeds[j].node, id, feeds[j].subs[id]);
  }

  // --------------------------------------------------------------- after a lag

  /** A stream lags exactly when more has been sent than its channel keeps. Its turn then
      reports the lag, delivers nothing, drops the reader and ends the stream. */
  lemma LagReported(c: Config, f: Feed, id: nat, f': Feed)
    requires FeedInv(f) && Step(c, f, PullNext(id), f') && !f.subs[id].ended
    ensures var sub, h := f.subs[id], f.node.hub;
            var ch := h.channels[sub.tenant];
            var item := Turn(true, h, sub.tenant, id, sub.prefix).0;
      && item.Some?
      && (item.value.Lost? <==> ch.readers[id] + h.window < |ch.log|)
      && (item.value.Lost? ==> ch.readers[id] + item.value.missed + h.window == |ch.log|)
      && (f'.subs[id].ended <==> item.value.Lost?)
      && (item.value.Lost? ==>
            && f'.subs[id].received == sub.received
            && sub.tenant in f'.node.hub.channels && id !in f'.node.hub.channels[sub.tenant].readers)
  {
    hide DataOf, KeyCodec.ValidUtf8, Pull, Matching, FoldChanges, ValuesOf;
    var sub, h := f.subs[id], f.node.hub;
    assert Faithful(f.node, id, sub);
    var ch := h.channels[sub.tenant];
    PullReads(ch.log, h.window, ch.readers[id], sub.prefix);
  }

  /** From then on no move changes the stream, and a further turn answers nothing and
      touches nothing. */
  lemma LagEnds(c: Config, f: Feed, m: Move, f': Feed, id: nat)
    requires Step(c, f, m, f') && id in f.subs && f.subs[id].ended && id < f.node.hub.nextReader
    ensures id in f'.subs && f'.subs[id] == f.subs[id]
    ensures m == PullNext(id) ==>
      f' == f && Turn(!f.subs[id].ended, f.node.hub, f.subs[id].tenant, id, f.subs[id].prefix).0 == None
  {
    hide Perform, Sound, WellFormed, DataOf, Pull;
    if m == PullNext(id) { assert f'.subs == f.subs; }
  }

  // ------------------------------------------------------- requests are moves

  ghost predicate IsChain(c: Config, feeds: seq<Feed>, moves: seq<Move>, from: Feed, to: Node) {
    && |feeds| == |moves| + 1 && feeds[0] == from && feeds[|moves|].node == to
    && (forall i | 0 <= i < |moves| :: moves[i].Commit? || moves[i].Reindex?)
    && (forall i | 0 <= i < |moves| :: Step(c, feeds[i], moves[i], feeds[i + 1]))
  }

  lemma ChainOne(c: Config, f: Feed, m: Move, f': Feed)
    requires Step(c, f, m, f') && (m.Commit? || m.Reindex?)
    ensures IsChain(c, [f, f'], [m], f, f'.node)
  {
    hide Step;
  }

  lemma ChainThen(c: Config, xs: seq<Feed>, ms: seq<Move>, f: Feed, ys: seq<Feed>, ns: seq<Move>, to: Node)
    requires xs != [] && IsChain(c, xs, ms, f, xs[|xs| - 1].node) && IsChain(c, ys, ns, xs[|xs| - 1], to)
    ensures IsChain(c, xs + ys[1..], ms + ns, f, to)
  {
    hide Step;
    var zs, ks := xs + ys[1..], ms + ns;
    forall i | 0 <= i < |ks| ensures Step(c, zs[i], ks[i], zs[i + 1]) && (ks[i].Commit? || ks[i].Reindex?) {
      if i < |ms| {
        assert Step(c, xs[i], ms[i], xs[i + 1]);
      } else {
        assert zs[i] == ys[i - |ms|] && zs[i + 1] == ys[i + 1 - |ms|];
        assert Step(c, ys[i - |ms|], ns[i - |ms|], ys[i + 1 - |ms|]);
      }
    }
  }

  lemma DeleteIsChain(c: Config, f: Feed, key: Bytes) returns (feeds: seq<Feed>, moves: seq<Move>)
    requires WellFormed(f.node.store)
    ensures IsChain(c, feeds, moves, f, NodeSpec.Delete(c, f.node, key).0)
    ensures WellFormed(NodeSpec.Delete(c, f.node, key).0.store)
  {
    hide Perform, Sound, WellFormed, PlanDelete, Seen, IsChain;
    PlannedDeleteIsSound(f.node.store, key);
    PlansAreLegal(f.node, key, []);
    feeds, moves := CommitIsChain(c, f, DeleteWrite(key), PlanDelete(f.node.store, key).value);
  }

  lemma CommitIsChain(c: Config, f: Feed, w: Write, plan: Option<Accounting>)
    returns (feeds: seq<Feed>, moves: seq<Move>)
    requires WellFormed(f.node.store) && Sound(f.node.store, w, plan) && LegalPlan(plan)
    ensures IsChain(c, feeds, moves, f, Perform(c, f.node, w, plan))
    ensures WellFormed(Perform(c, f.node, w, plan).store)
  {
    hide Perform, Sound, WellFormed, Seen, LegalPlan, IsChain;
    PerformStore(c, f.node, w, plan);
    var subs := map id | id in f.subs :: if f.subs[id].ended then f.subs[id] else Seen(f.subs[id], w);
    var f' := Feed(Perform(c, f.node, w, plan), subs);
    assert Step(c, f, Commit(w, plan), f');
    ChainOne(c, f, Commit(w, plan), f');
    feeds, moves := [f, f'], [Commit(w, plan)];
  }

  lemma ReindexIsChain(c: Config, f: Feed, ttl: TtlIndex.TtlState)
    ensures var f' := f.(node := f.node.(ttl := ttl)); IsChain(c, [f, f'], [Reindex(ttl)], f, f'.node)
  {
    ChainOne(c, f, Reindex(ttl), f.(node := f.node.(ttl := ttl)));
  }

  lemma SweepKeyIsChain(c: Config, f: Feed, now: u64, key: Bytes) returns (feeds: seq<Feed>, moves: seq<Move>)
    requires WellFormed(f.node.store)
    ensures IsChain(c, feeds, moves, f, SweepKey(c, f.node, now, key).0)
    ensures WellFormed(SweepKey(c, f.node, now, key).0.store)
  {
    hide WellFormed, NodeSpec.Delete, ValueCodec.Decode, ValueCodec.IsExpired, TtlIndex.Scheduled, IsChain;
    var n := f.node;
    if key in n.store && ValueCodec.IsExpired(n.store[key], now) == Ok(true) {
      feeds, moves := DeleteIsChain(c, f, key);
    } else {
      var ttl := SweepKey(c, n, now, key).0.ttl;
      ReindexIsChain(c, f, ttl);
      feeds, moves := [f, f.(node := n.(ttl := ttl))], [Reindex(ttl)];
    }
  }

  lemma {:induction false} SweepIsChain(c: Config, f: Feed, now: u64, keys: seq<Bytes>)
    returns (feeds: seq<Feed>, moves: seq<Move>)
    requires WellFormed(f.node.store)
    ensures IsChain(c, feeds, moves, f, SweepKeys(c, f.node, now, keys).0)
    ensures WellFormed(SweepKeys(c, f.node, now, keys).0.store)
  {
    hide WellFormed, SweepKey, Step;
    if keys == [] {
      feeds, moves := [f], [];
    } else {
      var xs, ms := SweepIsChain(c, f, now, keys[..|keys| - 1]);
      var f1 := xs[|xs| - 1];
      var ys, ns := SweepKeyIsChain(c, f1, now, keys[|keys| - 1]);
      ChainThen(c, xs, ms, f, ys, ns, SweepKeys(c, f.node, now, keys).0);
      feeds, moves := xs + ys[1..], ms + ns;
    }
  }

  /** Every request is a chain of commits and index changes, so the runs above include every
      put, delete and sweep, evictions among them. */
  lemma RequestIsChain(c: Config, f: Feed, req: Durability.Request) returns (feeds: seq<Feed>, moves: seq<Move>)
    requires WellFormed(f.node.store)
    ensures IsChain(c, feeds, moves, f, Durability.Exec(c, f.node, req))
    ensures WellFormed(Durability.Exec(c, f.node, req).store)
  {
    hide WellFormed, SweepKeys, Perform, Sound, AdmitPut, NodeSpec.Delete, Step;
    match req {
      case PutRequest(now, key, value, ttlMs) =>
        if AdmitPut(f.node, key, value).Ok? {
          AdmittedPutIsSound(f.node, now, key, value, ttlMs);
          PlansAreLegal(f.node, key, value);
          feeds, moves := CommitIsChain(c, f, PutWrite(now, key, value, ttlMs), AdmitPut(f.node, key, value).value);
        } else {
          feeds, moves := [f], [];
        }
      case DeleteRequest(key) =>
        feeds, moves := DeleteIsChain(c, f, key);
      case SweepRequest(now) =>
        var ttl := TtlIndex.Drained(f.node.ttl, now);
        ReindexIsChain(c, f, ttl);
        var f1 := f.(node := f.node.(ttl := ttl));
        var ys, ns := SweepIsChain(c, f1, now, TtlIndex.DueKeys(f.node.ttl.buckets, now));
        ChainThen(c, [f, f1], [Reindex(ttl)], f, ys, ns, Sweep(c, f.node, now).0);
        feeds, moves := [f, f1] + ys[1..], [Reindex(ttl)] + ns;
    }
  }
}
