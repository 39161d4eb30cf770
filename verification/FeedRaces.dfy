/** Watchers among concurrent writers: storing a change and announcing it are separate steps. */
module FeedRaces {
  import opened ByteStrings
  import opened NodeSpec
  import opened NodeInvariants
  import opened Tenants
  import opened Watch
  import opened WatchFeed
  import Disk
  import KeyCodec

  // ---------------------------------------------------------------- the machine

  /** A node and one stream `sub` of its reader `id`. `stored` are the writes made since the
      stream opened, in the order they reached storage; `told` are the places in it of those
      that have been announced, in the order they were; `untold` are the places of the rest. */
  datatype World = World(node: Node, id: nat, sub: Sub, stored: seq<Write>, told: seq<nat>, untold: set<nat>)

  datatype Turn = StoreIt(w: Write, plan: Option<Accounting>) | TellIt(j: nat)

  ghost predicate Step(c: Config, s: World, m: Turn, s': World) {
    match m
    case StoreIt(w, plan) =>
      && Sound(s.node.store, w, plan)
      && s' == s.(node := Perform(c, s.node, w, plan).(hub := s.node.hub),
                  stored := s.stored + [w], untold := s.untold + {|s.stored|})
    case TellIt(j) =>
      && j in s.untold && j < |s.stored|
      && s' == s.(node := s.node.(hub := Announced(s.node.hub, s.stored[j])), sub := Seen(s.sub, s.stored[j]),
                  told := s.told + [j], untold := s.untold - {j})
  }

  /** The stream has just opened on a readable node. */
  ghost predicate IsStart(s: World) {
    && WellFormed(s.node.store) && KeyCodec.LegalTenant(s.sub.tenant)
    && InPlace(s.node.hub, s.id, s.sub)
    && s.sub.snapshot == ValuesOf(DataOf(s.node.store, s.sub.tenant)) && s.sub.history == []
    && s.stored == [] && s.told == [] && s.untold == {}
  }

  ghost predicate IsRun(c: Config, worlds: seq<World>, turns: seq<Turn>) {
    && |worlds| == |turns| + 1
    && IsStart(worlds[0])
    && forall i | 0 <= i < |turns| :: Step(c, worlds[i], turns[i], worlds[i + 1])
  }

  /** Changes to one key are announced in the order they were stored. */
  predicate InOrder(s: World, m: Turn) {
    m.TellIt? && m.j < |s.stored| ==>
      forall i: nat | i < m.j && s.stored[i].key == s.stored[m.j].key :: i !in s.untold
  }

  // ------------------------------------------------------------------- folding

  function ChangesTo(ws: seq<Write>, tenant: Bytes): seq<KeyChange> {
    if ws == [] then [] else ChangesTo(ws[..|ws| - 1], tenant) + ChangeTo(ws[|ws| - 1], tenant)
  }

  /** The place of the last write to a key. */
  function LastTo(ws: seq<Write>, key: Bytes): (i: Option<nat>)
    ensures i.Some? ==> i.value < |ws| && ws[i.value].key == key
    ensures forall j: nat | j < |ws| && ws[j].key == key :: i.Some? && j <= i.value
  {
    if ws == [] then None
    else if ws[|ws| - 1].key == key then Some(|ws| - 1)
    else LastTo(ws[..|ws| - 1], key)
  }

  /** What a write leaves at its key. */
  function LeftBy(w: Write): Option<Bytes> {
    if w.op.Put? then Some(w.shown) else None
  }

  function LeftAt(before: Option<Bytes>, ws: seq<Write>, key: Bytes): Option<Bytes> {
    var last := LastTo(ws, key);
    if last.None? then before else LeftBy(ws[last.value])
  }

  lemma OneChange(m: Values, w: Write, tenant: Bytes, p: Bytes)
    requires KeyCodec.LegalTenant(tenant)
    ensures Disk.Lookup(FoldChanges(m, ChangeTo(w, tenant)), p)
         == if w.key == KeyCodec.DataKey(tenant, p) then LeftBy(w) else Disk.Lookup(m, p)
  {
    hide KeyCodec.DataKey, KeyCodec.ValidUtf8, KeyCodec.Decode;
    var ch := ChangeTo(w, tenant);
    if w.key == KeyCodec.DataKey(tenant, p) { KeyCodec.DataKeyDecodes(tenant, p); }
    if ch != [] {
      OwnedIsDataKey(tenant, w.key);
      assert ch == [ch[0]] && ch[..0] == [];
    }
  }

  /** Folding a tenant's changes leaves at each key what the last write to it left. */
  lemma {:induction false} FoldAt(m: Values, ws: seq<Write>, tenant: Bytes, p: Bytes)
    requires KeyCodec.LegalTenant(tenant)
    ensures Disk.Lookup(FoldChanges(m, ChangesTo(ws, tenant)), p)
         == LeftAt(Disk.Lookup(m, p), ws, KeyCodec.DataKey(tenant, p))
  {
    hide KeyCodec.DataKey, KeyCodec.ValidUtf8, ChangeTo, FoldChanges;
    if ws == [] {
      FoldNone(m);
    } else {
      var init, last := ws[..|ws| - 1], ws[|ws| - 1];
      FoldAt(m, init, tenant, p);
      FoldConcat(m, ChangesTo(init, tenant), ChangeTo(last, tenant));
      OneChange(FoldChanges(m, ChangesTo(init, tenant)), last, tenant, p);
    }
  }

  lemma FoldNone(m: Values)
    ensures FoldChanges(m, []) == m
  {}

  // -------------------------------------------------------------- the invariant

  /** The announced writes, in the order they were announced. */
  function Told(s: World): seq<Write>
    requires forall i | 0 <= i < |s.told| :: s.told[i] < |s.stored|
  {
    seq(|s.told|, i requires 0 <= i < |s.told| => s.stored[s.told[i]])
  }

  ghost predicate Places(s: World) {
    && (forall i | 0 <= i < |s.told| :: s.told[i] < |s.stored|)
    && (forall j | j in s.untold :: j < |s.stored|)
    && (forall j: nat | j < |s.stored| :: j in s.untold || j in s.told)
  }

  ghost predicate Inv(s: World) {
    && WellFormed(s.node.store) && KeyCodec.LegalTenant(s.sub.tenant)
    && InPlace(s.node.hub, s.id, s.sub)
    && Places(s)
    && s.sub.history == ChangesTo(Told(s), s.sub.tenant)
    && ValuesOf(DataOf(s.node.store, s.sub.tenant)) == FoldChanges(s.sub.snapshot, ChangesTo(s.stored, s.sub.tenant))
  }

  lemma ChangesToAppend(ws: seq<Write>, w: Write, tenant: Bytes)
    ensures ChangesTo(ws + [w], tenant) == ChangesTo(ws, tenant) + ChangeTo(w, tenant)
  {
    assert (ws + [w])[..|ws|] == ws;
  }

  /** A store moves the tenant's stored values by its own change. */
  lemma StoreValues(c: Config, n: Node, w: Write, plan: Option<Accounting>, m: Values, ws: seq<Write>, u: Bytes)
    requires WellFormed(n.store) && Sound(n.store, w, plan) && LegalPlan(plan) && KeyCodec.LegalTenant(u)
    requires ValuesOf(DataOf(n.store, u)) == FoldChanges(m, ChangesTo(ws, u))
    ensures var n' := Perform(c, n, w, plan);
      WellFormed(n'.store) && ValuesOf(DataOf(n'.store, u)) == FoldChanges(m, ChangesTo(ws + [w], u))
  {
    hide Sound, Perform, WellFormed, KeyCodec.ValidUtf8, DataOf, ChangeTo, LegalPlan, FoldChanges, ValuesOf, ChangesTo;
    PerformStore(c, n, w, plan);
    CommitChanges(c, n, w, plan, u);
    ChangesToAppend(ws, w, u);
    FoldConcat(m, ChangesTo(ws, u), ChangeTo(w, u));
  }

  lemma StorePlaces(s: World, w: Write, s': World)
    requires Places(s)
    requires s'.stored == s.stored + [w] && s'.told == s.told && s'.untold == s.untold + {|s.stored|}
    ensures Places(s') && Told(s') == Told(s)
  {}

  lemma StoreKeeps(c: Config, s: World, w: Write, plan: Option<Accounting>, s': World)
    requires Inv(s) && Step(c, s, StoreIt(w, plan), s') && LegalPlan(plan)
    ensures Inv(s')
  {
    hide Sound, Perform, WellFormed, KeyCodec.ValidUtf8, DataOf, InPlace, LegalPlan, FoldChanges, ValuesOf, ChangesTo;
    hide Places, Told;
    StoreValues(c, s.node, w, plan, s.sub.snapshot, s.stored, s.sub.tenant);
    StorePlaces(s, w, s');
  }

  lemma TellKeeps(c: Config, s: World, j: nat, s': World)
    requires Inv(s) && Step(c, s, TellIt(j), s')
    ensures Inv(s')
  {
    hide WellFormed, KeyCodec.ValidUtf8, DataOf, InPlace, ChangeTo, FoldChanges, ValuesOf, ChangesTo, Announced;
    AnnounceInPlace(s.node.hub, s.id, s.sub, s.stored[j]);
    ChangesToAppend(Told(s), s.stored[j], s.sub.tenant);
    assert Told(s') == Told(s) + [s.stored[j]];
    assert forall i: nat | i < |s.stored| && i in s.told :: i in s'.told;
  }

  lemma LegalStep(c: Config, s: World, w: Write, plan: Option<Accounting>, s': World)
    requires Step(c, s, StoreIt(w, plan), s')
    ensures LegalPlan(plan)
  {
    hide Perform;
  }

  lemma {:induction false} RunKeeps(c: Config, worlds: seq<World>, turns: seq<Turn>, n: nat)
    requires IsRun(c, worlds, turns) && n < |worlds|
    ensures Inv(worlds[n])
  {
    hide Step, WellFormed, KeyCodec.ValidUtf8, DataOf, InPlace, ValuesOf;
    if n == 0 {
      FoldNone(worlds[0].sub.snapshot);
    } else {
      RunKeeps(c, worlds, turns, n - 1);
      assert Step(c, worlds[n - 1], turns[n - 1], worlds[n]);
      match turns[n - 1]
      case StoreIt(w, plan) =>
        LegalStep(c, worlds[n - 1], w, plan, worlds[n]);
        StoreKeeps(c, worlds[n - 1], w, plan, worlds[n]);
      case TellIt(j) => TellKeeps(c, worlds[n - 1], j, worlds[n]);
    }
  }

  // ------------------------------------------------------------------ the theorems

  /** What the stream has when it has read all that was announced. */
  function Folded(sub: Sub): Values {
    FoldChanges(Restricted(sub.snapshot, sub.prefix), Matching(sub.history, sub.prefix))
  }

  /** Exactly when a watcher is right. At any point of any interleaving, a stream that has
      read everything announced has at a key under its prefix what is stored there if and
      only if the last announced write to the key leaves what the last stored one leaves. */
  lemma WatcherExact(c: Config, worlds: seq<World>, turns: seq<Turn>, n: nat, p: Bytes)
    requires IsRun(c, worlds, turns) && n < |worlds| && worlds[n].sub.prefix <= p
    ensures var s := worlds[n];
      && KeyCodec.LegalTenant(s.sub.tenant) && Places(s)
      && var key, before := KeyCodec.DataKey(s.sub.tenant, p), Disk.Lookup(s.sub.snapshot, p);
      && var data := ValuesOf(DataOf(s.node.store, s.sub.tenant));
      && (Disk.Lookup(Folded(s.sub), p) == Disk.Lookup(data, p) <==>
            LeftAt(before, Told(s), key) == LeftAt(before, s.stored, key))
  {
    hide IsRun, WellFormed, KeyCodec.ValidUtf8, DataOf, InPlace, ValuesOf, FoldChanges, ChangesTo, Matching;
    hide LeftAt, KeyCodec.DataKey;
    RunKeeps(c, worlds, turns, n);
    var s := worlds[n];
    FoldAt(s.sub.snapshot, Told(s), s.sub.tenant, p);
    FoldAt(s.sub.snapshot, s.stored, s.sub.tenant, p);
    FilterFolds(s.sub.snapshot, s.sub.history, s.sub.prefix);
  }

  /** With announcements in order: what is told of a key is a beginning of what was stored of
      it, told in that order. */
  ghost predicate OrderInv(s: World) {
    && Places(s)
    && (forall j | 0 <= j < |s.told| :: s.told[j] !in s.untold)
    && (forall i: nat, j: nat | i < j < |s.stored| && s.stored[i].key == s.stored[j].key && i in s.untold ::
          j in s.untold)
    && (forall a, b | 0 <= a < b < |s.told| && s.stored[s.told[a]].key == s.stored[s.told[b]].key ::
          s.told[a] < s.told[b])
  }

  lemma OrderStore(s: World, w: Write, s': World)
    requires OrderInv(s)
    requires s'.stored == s.stored + [w] && s'.told == s.told && s'.untold == s.untold + {|s.stored|}
    ensures OrderInv(s')
  {
    StorePlaces(s, w, s');
    assert forall i: nat | i < |s.stored| :: s'.stored[i] == s.stored[i];
  }

  lemma OrderTell(s: World, j: nat, s': World)
    requires OrderInv(s) && InOrder(s, TellIt(j)) && j in s.untold && j < |s.stored|
    requires s'.stored == s.stored && s'.told == s.told + [j] && s'.untold == s.untold - {j}
    ensures OrderInv(s')
  {
    assert forall i: nat | i < |s.stored| && i in s.told :: i in s'.told;
    forall a, b | 0 <= a < b < |s'.told| && s'.stored[s'.told[a]].key == s'.stored[s'.told[b]].key
      ensures s'.told[a] < s'.told[b]
    {
      if b == |s.told| { ToldEarlier(s, a, j); }
    }
  }

  lemma OrderStep(c: Config, s: World, m: Turn, s': World)
    requires OrderInv(s) && InOrder(s, m) && Step(c, s, m, s')
    ensures OrderInv(s')
  {
    hide Perform, Sound, Announced, Seen, OrderInv, InOrder;
    match m
    case StoreIt(w, plan) => OrderStore(s, w, s');
    case TellIt(j) => OrderTell(s, j, s');
  }

  lemma ToldEarlier(s: World, a: nat, j: nat)
    requires OrderInv(s) && a < |s.told| && j in s.untold && j < |s.stored|
    requires s.stored[s.told[a]].key == s.stored[j].key
    ensures s.told[a] < j
  {}

  lemma {:induction false} OrderKept(c: Config, worlds: seq<World>, turns: seq<Turn>, n: nat)
    requires IsRun(c, worlds, turns) && n < |worlds|
    requires forall i | 0 <= i < |turns| :: InOrder(worlds[i], turns[i])
    ensures OrderInv(worlds[n])
  {
    hide Step, InOrder, WellFormed, KeyCodec.ValidUtf8, DataOf, InPlace, ValuesOf;
    if n > 0 {
      OrderKept(c, worlds, turns, n - 1);
      assert Step(c, worlds[n - 1], turns[n - 1], worlds[n]) && InOrder(worlds[n - 1], turns[n - 1]);
      OrderStep(c, worlds[n - 1], turns[n - 1], worlds[n]);
    }
  }

  lemma LastToldIsLastStored(s: World, before: Option<Bytes>, key: Bytes)
    requires OrderInv(s) && s.untold == {}
    ensures LeftAt(before, Told(s), key) == LeftAt(before, s.stored, key)
  {
    hide LastTo, LeftBy;
    var stored, told := LastTo(s.stored, key), LastTo(Told(s), key);
    if stored.Some? {
      assert stored.value in s.told by { assert stored.value !in s.untold; }
      var a :| 0 <= a < |s.told| && s.told[a] == stored.value;
      assert Told(s)[a].key == key;
      var b := told.value;
      assert s.stored[s.told[b]].key == key;
      assert s.told[b] <= stored.value;
      assert a <= b;
    } else {
      assert forall a | 0 <= a < |s.told| :: Told(s)[a] == s.stored[s.told[a]];
    }
  }

  /** If changes to each key are announced in the order they were stored, then whenever
      nothing is left to announce, a stream that has read everything has exactly what is
      stored under its prefix. */
  lemma WatcherRight(c: Config, worlds: seq<World>, turns: seq<Turn>, n: nat)
    requires IsRun(c, worlds, turns) && n < |worlds| && worlds[n].untold == {}
    requires forall i | 0 <= i < |turns| :: InOrder(worlds[i], turns[i])
    ensures var s := worlds[n];
      && KeyCodec.LegalTenant(s.sub.tenant)
      && Folded(s.sub) == Restricted(ValuesOf(DataOf(s.node.store, s.sub.tenant)), s.sub.prefix)
  {
    hide IsRun, InOrder, WellFormed, KeyCodec.ValidUtf8, DataOf, InPlace, FoldChanges, ChangesTo, Matching;
    hide LeftAt, ValuesOf;
    RunKeeps(c, worlds, turns, n);
    OrderKept(c, worlds, turns, n);
    var s := worlds[n];
    var folded, data := FoldChanges(s.sub.snapshot, s.sub.history), ValuesOf(DataOf(s.node.store, s.sub.tenant));
    FilterFolds(s.sub.snapshot, s.sub.history, s.sub.prefix);
    forall p ensures Disk.Lookup(folded, p) == Disk.Lookup(data, p) {
      FoldAt(s.sub.snapshot, Told(s), s.sub.tenant, p);
      FoldAt(s.sub.snapshot, s.stored, s.sub.tenant, p);
      LastToldIsLastStored(s, Disk.Lookup(s.sub.snapshot, p), KeyCodec.DataKey(s.sub.tenant, p));
    }
    assert forall p :: p in folded <==> Disk.Lookup(folded, p).Some?;
    assert forall p :: p in data <==> Disk.Lookup(data, p).Some?;
    assert forall p | p in folded :: Disk.Lookup(folded, p) == Some(folded[p]) && Disk.Lookup(data, p) == Some(data[p]);
    assert folded == data;
  }

  /** Two writes stored one after the other and announced the other way round. */
  lemma Swap(c: Config, s: World, w1: Write, plan1: Option<Accounting>, w2: Write, plan2: Option<Accounting>)
    returns (worlds: seq<World>, turns: seq<Turn>)
    requires IsStart(s) && LegalPlan(plan1) && Sound(s.node.store, w1, plan1)
    requires Sound(Perform(c, s.node, w1, plan1).store, w2, plan2) && LegalPlan(plan2)
    ensures IsRun(c, worlds, turns) && |turns| == 4 && worlds[0] == s
    ensures var e := worlds[4];
      && e.stored == [w1, w2] && e.told == [1, 0] && e.untold == {}
      && e.sub.tenant == s.sub.tenant && e.sub.prefix == s.sub.prefix
  {
    hide IsStart, Perform, Sound, Announced, LegalPlan, ChangeTo;
    var a := s.(node := Perform(c, s.node, w1, plan1).(hub := s.node.hub), stored := s.stored + [w1],
                untold := s.untold + {|s.stored|});
    var b := a.(node := Perform(c, a.node, w2, plan2).(hub := a.node.hub), stored := a.stored + [w2],
                untold := a.untold + {|a.stored|});
    StartEmpty(s);
    var d := b.(node := b.node.(hub := Announced(b.node.hub, w2)), sub := Seen(b.sub, w2),
                told := b.told + [1], untold := b.untold - {1});
    var e := d.(node := d.node.(hub := Announced(d.node.hub, w1)), sub := Seen(d.sub, w1),
                told := d.told + [0], untold := d.untold - {0});
    worlds, turns := [s, a, b, d, e], [StoreIt(w1, plan1), StoreIt(w2, plan2), TellIt(1), TellIt(0)];
    assert Step(c, s, StoreIt(w1, plan1), a);
    assert Step(c, a, StoreIt(w2, plan2), b);
    assert Step(c, b, TellIt(1), d);
    assert Step(c, d, TellIt(0), e);
  }

  lemma StartEmpty(s: World)
    requires IsStart(s)
    ensures s.stored == [] && s.told == [] && s.untold == {}
  {
    hide WellFormed, InPlace, ValuesOf, DataOf, KeyCodec.ValidUtf8;
  }

  /** If both are to one key, the stream has the older one for good: nothing is left to
      announce and it has read everything, yet it has what the first write left where the
      second is stored. */
  lemma SwappedAnnouncements(c: Config, s: World, w1: Write, plan1: Option<Accounting>,
                             w2: Write, plan2: Option<Accounting>, p: Bytes)
    returns (worlds: seq<World>, turns: seq<Turn>)
    requires IsStart(s) && LegalPlan(plan1) && Sound(s.node.store, w1, plan1)
    requires Sound(Perform(c, s.node, w1, plan1).store, w2, plan2) && LegalPlan(plan2)
    requires w1.key == w2.key == KeyCodec.DataKey(s.sub.tenant, p) && s.sub.prefix <= p
    ensures IsRun(c, worlds, turns) && |turns| == 4 && worlds[0] == s
    ensures var e := worlds[4];
      && e.untold == {} && e.sub.tenant == s.sub.tenant
      && Disk.Lookup(ValuesOf(DataOf(e.node.store, s.sub.tenant)), p) == LeftBy(w2)
      && Disk.Lookup(Folded(e.sub), p) == LeftBy(w1)
  {
    hide IsStart, Step, Perform, Sound, LegalPlan, KeyCodec.DataKey, KeyCodec.ValidUtf8, WellFormed, DataOf, InPlace;
    hide ValuesOf, FoldChanges, ChangesTo, Matching;
    worlds, turns := Swap(c, s, w1, plan1, w2, plan2);
    var e := worlds[4];
    RunKeeps(c, worlds, turns, 4);
    FoldAt(e.sub.snapshot, Told(e), e.sub.tenant, p);
    FoldAt(e.sub.snapshot, e.stored, e.sub.tenant, p);
    FilterFolds(e.sub.snapshot, e.sub.history, e.sub.prefix);
    assert Told(e) == [w2, w1];
  }
}
