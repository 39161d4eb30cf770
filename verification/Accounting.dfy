/** Usage accounting when writers interleave: plan, store and apply are separate steps. */
module Accounting {
  import opened ByteStrings
  import opened Disk
  import opened NodeSpec
  import opened NodeInvariants
  import KeyCodec
  import ValueCodec
  import Quota

  /** Growth is one atomic add. Shrinking reads the counter first and then swaps it, and
      starts over if somebody else got in between. */
  datatype Stage = Planned | Stored | Loaded(observed: u64)

  datatype Writer = Writer(w: Write, plan: Option<NodeSpec.Accounting>, stage: Stage)

  /** `applied` is the data as the counters have seen it. */
  datatype Shared = Shared(store: Store, quota: Quota.QuotaState, writers: map<nat, Writer>, applied: Store)

  function OpOf(x: Writer): StoreOp {
    EngineOp(x.w.op, x.w.key, x.w.stored)
  }

  predicate Shrinks(plan: Option<NodeSpec.Accounting>) {
    plan.Some? && plan.value.delta < 0
  }

  datatype Move =
    | Plan(id: nat, w: Write, plan: Option<NodeSpec.Accounting>)
    | StoreIt(id: nat)
    | Load(id: nat)
    | Apply(id: nat)

  /** Any writer may move at any time, also on a key somebody else is busy with. */
  ghost predicate Step(s: Shared, m: Move, s': Shared) {
    match m
    case Plan(id, w, plan) =>
      && id !in s.writers
      && Sound(s.store, w, plan)
      && s' == s.(writers := s.writers[id := Writer(w, plan, Planned)])
    case StoreIt(id) =>
      && id in s.writers && s.writers[id].stage.Planned?
      && s' == s.(store := ApplyOp(s.store, OpOf(s.writers[id])),
                  writers := s.writers[id := s.writers[id].(stage := Stored)])
    case Load(id) =>
      && id in s.writers && !s.writers[id].stage.Planned? && Shrinks(s.writers[id].plan)
      && var x := s.writers[id];
      && s' == s.(writers := s.writers[id := x.(stage := Loaded(Quota.Used(s.quota, x.plan.value.tenant)))])
    case Apply(id) =>
      && id in s.writers
      && var x := s.writers[id];
      && (if Shrinks(x.plan) then x.stage.Loaded? && x.stage.observed == Quota.Used(s.quota, x.plan.value.tenant)
          else x.stage.Stored?)
      && s' == s.(quota := Billed(s.quota, x.plan), writers := s.writers - {id}, applied := ApplyOp(s.applied, OpOf(x)))
  }

  /** Any interleaving whatsoever, from a quiet node whose counters are exact. */
  ghost predicate IsRun(states: seq<Shared>, moves: seq<Move>) {
    && |states| == |moves| + 1
    && states[0].writers == map[] && UsageExact(states[0].store, states[0].quota)
    && forall i | 0 <= i < |moves| :: Step(states[i], moves[i], states[i + 1])
  }

  // ------------------------------------------------------ what is in flight

  /** What a writer has stored and the counters have not seen. */
  function InFlight(x: Writer, t: Bytes): int {
    if x.stage.Planned? then 0 else PlanDelta(x.plan, t)
  }

  /** A quantity summed over all writers. */
  ghost function Sum(ws: map<nat, Writer>, weight: Writer -> int): int
    decreases |ws|
  {
    if ws == map[] then 0
    else
      var i :| i in ws;
      assert (ws - {i}).Keys == ws.Keys - {i};
      weight(ws[i]) + Sum(ws - {i}, weight)
  }

  lemma {:induction false} SumRemove(ws: map<nat, Writer>, weight: Writer -> int, i: nat)
    requires i in ws
    ensures Sum(ws, weight) == weight(ws[i]) + Sum(ws - {i}, weight)
    decreases |ws|
  {
    var j :| j in ws && Sum(ws, weight) == weight(ws[j]) + Sum(ws - {j}, weight);
    if j != i {
      assert (ws - {j}).Keys == ws.Keys - {j};
      assert (ws - {i}).Keys == ws.Keys - {i};
      SumRemove(ws - {j}, weight, i);
      SumRemove(ws - {i}, weight, j);
      assert ws - {j} - {i} == ws - {i} - {j};
    }
  }

  lemma SumUpdate(ws: map<nat, Writer>, weight: Writer -> int, i: nat, x: Writer)
    ensures Sum(ws[i := x], weight) == Sum(ws, weight) - (if i in ws then weight(ws[i]) else 0) + weight(x)
  {
    SumRemove(ws[i := x], weight, i);
    assert ws[i := x] - {i} == ws - {i};
    if i in ws { SumRemove(ws, weight, i); } else { assert ws - {i} == ws; }
  }

  function InFlightOf(t: Bytes): Writer -> int {
    (x: Writer) => InFlight(x, t)
  }

  ghost function Pending(ws: map<nat, Writer>, t: Bytes): int {
    Sum(ws, InFlightOf(t))
  }

  lemma PendingRemove(ws: map<nat, Writer>, t: Bytes, i: nat)
    requires i in ws
    ensures Pending(ws, t) == InFlight(ws[i], t) + Pending(ws - {i}, t)
  {
    hide Sum;
    SumRemove(ws, InFlightOf(t), i);
  }

  lemma PendingUpdate(ws: map<nat, Writer>, t: Bytes, i: nat, x: Writer)
    ensures Pending(ws[i := x], t) == Pending(ws, t) - (if i in ws then InFlight(ws[i], t) else 0) + InFlight(x, t)
  {
    hide Sum;
    SumUpdate(ws, InFlightOf(t), i, x);
  }

  /** The counter and what is in flight always add up to what is stored. */
  ghost predicate Balanced(s: Shared) {
    forall t :: Quota.Used(s.quota, t) + Pending(s.writers, t) == Total(s.store, t)
  }

  lemma UsageAt(m: Store, q: Quota.QuotaState, t: Bytes)
    requires UsageExact(m, q)
    ensures Quota.Used(q, t) == Total(m, t)
  {}

  /** A sound plan is the difference its write makes to the total. */
  lemma SoundMoves(m: Store, w: Write, plan: Option<NodeSpec.Accounting>, t: Bytes)
    requires Sound(m, w, plan)
    ensures Total(ApplyOp(m, EngineOp(w.op, w.key, w.stored)), t) == Total(m, t) + PlanDelta(plan, t)
  {
    hide Weight, ValueCodec.Decode, LegalPlan;
    TotalApply(m, t, EngineOp(w.op, w.key, w.stored));
    assert PlanDelta(plan, t)
        == WeightAt(ApplyOp(m, EngineOp(w.op, w.key, w.stored)), t, w.key) - WeightAt(m, t, w.key);
  }

  /** Soundness of a plan depends on the data at its own key only. */
  lemma SoundElsewhere(m: Store, m': Store, w: Write, plan: Option<NodeSpec.Accounting>)
    requires Sound(m, w, plan) && Lookup(m, w.key) == Lookup(m', w.key)
    ensures Sound(m', w, plan)
  {
    hide Weight, ValueCodec.Decode, LegalPlan;
    var op := EngineOp(w.op, w.key, w.stored);
    forall t ensures PlanDelta(plan, t) == WeightAt(ApplyOp(m', op), t, w.key) - WeightAt(m', t, w.key) {
      assert PlanDelta(plan, t) == WeightAt(ApplyOp(m, op), t, w.key) - WeightAt(m, t, w.key);
    }
  }

  // ------------------------------------------------- every interleaving, exactly

  /** What a sound plan says apart from sizes. */
  ghost predicate Meant(x: Writer) {
    && LegalPlan(x.plan)
    && (x.w.op.Put? ==> ValueCodec.Decode(x.w.stored) == Ok(ValueCodec.StoredValue(x.w.expiresAt, x.w.shown)))
    && (x.w.op.Delete? ==> x.w.expiresAt == None)
  }

  ghost predicate AllMeant(s: Shared) {
    forall i | i in s.writers :: Meant(s.writers[i])
  }

  /** The counter can take the plan without wrapping and without clipping at zero. */
  predicate Lands(q: Quota.QuotaState, plan: Option<NodeSpec.Accounting>) {
    plan.Some? ==> 0 <= Quota.Used(q, plan.value.tenant) + plan.value.delta < Quota.U64_RANGE
  }

  /** A move that does not disturb the books: a store finds the entry as large as its plan
      took it to be, and an apply fits the counter. */
  ghost predicate Faultless(s: Shared, m: Move) {
    match m
    case StoreIt(id) => id in s.writers && Sound(s.store, s.writers[id].w, s.writers[id].plan)
    case Apply(id) => id in s.writers && Lands(s.quota, s.writers[id].plan)
    case _ => true
  }

  /** A meant plan is sound exactly when it is the difference its write makes. */
  lemma SoundExactly(m: Store, x: Writer)
    requires Meant(x)
    ensures Sound(m, x.w, x.plan) <==> forall t :: Total(ApplyOp(m, OpOf(x)), t) == Total(m, t) + PlanDelta(x.plan, t)
  {
    hide Weight, ValueCodec.Decode, LegalPlan, Total, PlanDelta;
    var m' := ApplyOp(m, OpOf(x));
    forall t ensures Total(m', t) - WeightAt(m', t, x.w.key) == Total(m, t) - WeightAt(m, t, x.w.key) {
      TotalApply(m, t, OpOf(x));
    }
    if forall t :: Total(m', t) == Total(m, t) + PlanDelta(x.plan, t) {
      forall t ensures PlanDelta(x.plan, t) == WeightAt(m', t, x.w.key) - WeightAt(m, t, x.w.key) {
        assert Total(m', t) == Total(m, t) + PlanDelta(x.plan, t);
      }
    }
  }

  lemma LandsExactly(q: Quota.QuotaState, plan: Option<NodeSpec.Accounting>)
    ensures Lands(q, plan) <==> forall t :: Quota.Used(Billed(q, plan), t) == Quota.Used(q, t) + PlanDelta(plan, t)
  {
    if plan.Some? {
      var t := plan.value.tenant;
      assert PlanDelta(plan, t) == plan.value.delta;
      if !Lands(q, plan) { assert Quota.Used(Billed(q, plan), t) != Quota.Used(q, t) + PlanDelta(plan, t); }
    }
  }

  lemma StoreBalances(s: Shared, id: nat, s': Shared)
    requires AllMeant(s) && Balanced(s) && Step(s, StoreIt(id), s')
    ensures Balanced(s') <==> Faultless(s, StoreIt(id))
  {
    hide Sound, Meant, Quota.Used, Pending, PlanDelta, Total;
    var x := s.writers[id];
    SoundExactly(s.store, x);
    forall t ensures Pending(s'.writers, t) == Pending(s.writers, t) + PlanDelta(x.plan, t) {
      PendingUpdate(s.writers, t, id, x.(stage := Stored));
    }
    if Balanced(s') {
      forall t ensures Total(s'.store, t) == Total(s.store, t) + PlanDelta(x.plan, t) {
        assert Quota.Used(s.quota, t) + Pending(s.writers, t) == Total(s.store, t);
        assert Quota.Used(s'.quota, t) + Pending(s'.writers, t) == Total(s'.store, t);
      }
    }
  }

  lemma ApplyBalances(s: Shared, id: nat, s': Shared)
    requires Balanced(s) && Step(s, Apply(id), s')
    ensures Balanced(s') <==> Faultless(s, Apply(id))
  {
    hide Quota.Used, Pending, PlanDelta, Total, Billed, Lands;
    var x := s.writers[id];
    LandsExactly(s.quota, x.plan);
    forall t ensures Pending(s.writers, t) == Pending(s'.writers, t) + PlanDelta(x.plan, t) {
      PendingRemove(s.writers, t, id);
    }
    if Balanced(s') {
      forall t ensures Quota.Used(s'.quota, t) == Quota.Used(s.quota, t) + PlanDelta(x.plan, t) {
        assert Quota.Used(s.quota, t) + Pending(s.writers, t) == Total(s.store, t);
        assert Quota.Used(s'.quota, t) + Pending(s'.writers, t) == Total(s'.store, t);
      }
    }
  }

  /** From balanced books a move leads to balanced books if and only if it is faultless. */
  lemma StepBalances(s: Shared, m: Move, s': Shared)
    requires AllMeant(s) && Balanced(s) && Step(s, m, s')
    ensures AllMeant(s')
    ensures Balanced(s') <==> Faultless(s, m)
  {
    hide WellFormed, Billed, Quota.Used, Pending, PlanDelta, Total, ValueCodec.Decode, LegalPlan;
    match m {
      case Plan(id, w, plan) =>
        forall t ensures Pending(s'.writers, t) == Pending(s.writers, t) {
          PendingUpdate(s.writers, t, id, Writer(w, plan, Planned));
        }
      case StoreIt(id) => StoreBalances(s, id, s');
      case Load(id) =>
        forall t ensures Pending(s'.writers, t) == Pending(s.writers, t) {
          PendingUpdate(s.writers, t, id, s'.writers[id]);
        }
      case Apply(id) => ApplyBalances(s, id, s');
    }
  }

  lemma StartBalanced(s: Shared)
    requires s.writers == map[] && UsageExact(s.store, s.quota)
    ensures Balanced(s) && AllMeant(s)
  {
    hide Quota.Used, Total;
    forall t ensures Quota.Used(s.quota, t) + Pending(s.writers, t) == Total(s.store, t) {
      UsageAt(s.store, s.quota, t);
    }
  }

  lemma {:induction false} FaultlessKeeps(states: seq<Shared>, moves: seq<Move>, i: nat)
    requires IsRun(states, moves) && i < |states|
    requires forall j | 0 <= j < i :: Faultless(states[j], moves[j])
    ensures AllMeant(states[i]) && Balanced(states[i])
  {
    hide Step, AllMeant, Balanced, UsageExact, Faultless;
    if i == 0 {
      StartBalanced(states[0]);
    } else {
      FaultlessKeeps(states, moves, i - 1);
      assert Step(states[i - 1], moves[i - 1], states[i]) && Faultless(states[i - 1], moves[i - 1]);
      StepBalances(states[i - 1], moves[i - 1], states[i]);
    }
  }

  lemma {:induction false} BalancedSoFar(states: seq<Shared>, moves: seq<Move>, i: nat)
    requires IsRun(states, moves) && i < |moves|
    requires forall j | 0 <= j < |states| :: Balanced(states[j])
    ensures AllMeant(states[i]) && Faultless(states[i], moves[i])
  {
    hide Step, AllMeant, Balanced, UsageExact, Faultless;
    if i == 0 {
      StartBalanced(states[0]);
    } else {
      BalancedSoFar(states, moves, i - 1);
      assert Step(states[i - 1], moves[i - 1], states[i]);
      assert Balanced(states[i - 1]);
      StepBalances(states[i - 1], moves[i - 1], states[i]);
    }
    assert Step(states[i], moves[i], states[i + 1]);
    assert Balanced(states[i]) && Balanced(states[i + 1]);
    StepBalances(states[i], moves[i], states[i + 1]);
  }

  /** Interleaved accounting, exactly. In any interleaving of any writers, whatever their
      keys, counter plus stored-but-unapplied deltas equals the data at every point if and
      only if every store finds the entry as its plan took it to be and every apply fits
      the counter. */
  lemma InterleavingsExact(states: seq<Shared>, moves: seq<Move>)
    requires IsRun(states, moves)
    ensures (forall i | 0 <= i < |states| :: Balanced(states[i]))
       <==> (forall i | 0 <= i < |moves| :: Faultless(states[i], moves[i]))
  {
    hide Step, AllMeant, Balanced, UsageExact, Faultless;
    if forall i | 0 <= i < |moves| :: Faultless(states[i], moves[i]) {
      forall i | 0 <= i < |states| ensures Balanced(states[i]) {
        FaultlessKeeps(states, moves, i);
      }
    }
    if forall i | 0 <= i < |states| :: Balanced(states[i]) {
      forall i | 0 <= i < |moves| ensures Faultless(states[i], moves[i]) {
        BalancedSoFar(states, moves, i);
      }
    }
  }

  // ------------------------------------- one writer per key between plan and store

  /** Nobody plans on a key that somebody has planned on and not yet stored. */
  ghost predicate PlansApart(s: Shared, m: Move) {
    m.Plan? ==> forall i | i in s.writers && s.writers[i].stage.Planned? :: s.writers[i].w.key != m.w.key
  }

  ghost predicate PlansFresh(s: Shared) {
    && (forall i | i in s.writers && s.writers[i].stage.Planned? :: Sound(s.store, s.writers[i].w, s.writers[i].plan))
    && (forall i, j | i in s.writers && j in s.writers && i != j
                   && s.writers[i].stage.Planned? && s.writers[j].stage.Planned? ::
          s.writers[i].w.key != s.writers[j].w.key)
  }

  lemma StepKeepsFresh(s: Shared, m: Move, s': Shared)
    requires PlansFresh(s) && PlansApart(s, m) && Step(s, m, s')
    ensures PlansFresh(s')
  {
    hide Sound, Quota.Used, Billed;
    if m.StoreIt? {
      var x := s.writers[m.id];
      forall i | i in s'.writers && s'.writers[i].stage.Planned?
        ensures Sound(s'.store, s'.writers[i].w, s'.writers[i].plan)
      {
        var y := s.writers[i];
        ApplyOpAt(s.store, OpOf(x), y.w.key);
        SoundElsewhere(s.store, s'.store, y.w, y.plan);
      }
    }
  }

  lemma {:induction false} PlansStayFresh(states: seq<Shared>, moves: seq<Move>, i: nat)
    requires IsRun(states, moves) && i < |states|
    requires forall j | 0 <= j < |moves| :: PlansApart(states[j], moves[j])
    ensures PlansFresh(states[i])
  {
    hide Step, PlansApart, Sound, UsageExact;
    if i > 0 {
      PlansStayFresh(states, moves, i - 1);
      assert Step(states[i - 1], moves[i - 1], states[i]) && PlansApart(states[i - 1], moves[i - 1]);
      StepKeepsFresh(states[i - 1], moves[i - 1], states[i]);
    }
  }

  /** When plans on one key never overlap, writers may still overlap in every other way: the
      books balance throughout if and only if no apply wraps the counter or clips it. */
  lemma BalancedUnlessClipped(states: seq<Shared>, moves: seq<Move>)
    requires IsRun(states, moves)
    requires forall i | 0 <= i < |moves| :: PlansApart(states[i], moves[i])
    ensures (forall i | 0 <= i < |states| :: Balanced(states[i]))
       <==> (forall i | 0 <= i < |moves| && moves[i].Apply? ::
               moves[i].id in states[i].writers && Lands(states[i].quota, states[i].writers[moves[i].id].plan))
  {
    hide Balanced, UsageExact, Lands, Sound, PlansApart, Quota.Used, Billed;
    InterleavingsExact(states, moves);
    forall i | 0 <= i < |moves|
      ensures Faultless(states[i], moves[i]) <==>
        (moves[i].Apply? ==>
           moves[i].id in states[i].writers && Lands(states[i].quota, states[i].writers[moves[i].id].plan))
    {
      PlansStayFresh(states, moves, i);
      assert Step(states[i], moves[i], states[i + 1]);
    }
  }

  // ------------------------------------------------------ writers on distinct keys

  /** Nobody starts on a key that somebody is busy with. */
  ghost predicate KeysApart(s: Shared, m: Move) {
    m.Plan? ==> forall i | i in s.writers :: s.writers[i].w.key != m.w.key
  }

  /** Keys in flight differ; the plan still says what the write does to the applied data;
      storage has the write exactly from the store step on. */
  ghost predicate Tracked(s: Shared, x: Writer) {
    && Sound(s.applied, x.w, x.plan)
    && Lookup(s.store, x.w.key) == (if x.stage.Planned? then Lookup(s.applied, x.w.key) else Written(OpOf(x)))
  }

  ghost predicate Inv(s: Shared) {
    && WellFormed(s.applied)
    && UsageExact(s.applied, s.quota)
    && (forall i, j | i in s.writers && j in s.writers && i != j :: s.writers[i].w.key != s.writers[j].w.key)
    && (forall i | i in s.writers :: Tracked(s, s.writers[i]))
    && (forall k | Lookup(s.store, k) != Lookup(s.applied, k) :: exists i :: i in s.writers && s.writers[i].w.key == k)
  }

  lemma PlanKeeps(s: Shared, id: nat, w: Write, plan: Option<NodeSpec.Accounting>, s': Shared)
    requires Inv(s) && Step(s, Plan(id, w, plan), s') && KeysApart(s, Plan(id, w, plan))
    ensures Inv(s')
  {
    hide Sound, WellFormed, UsageExact;
    assert Lookup(s.store, w.key) == Lookup(s.applied, w.key);
    SoundElsewhere(s.store, s.applied, w, plan);
    forall i | i in s'.writers ensures Tracked(s', s'.writers[i]) {
      if i != id { assert Tracked(s, s.writers[i]); }
    }
    forall k | Lookup(s'.store, k) != Lookup(s'.applied, k)
      ensures exists i :: i in s'.writers && s'.writers[i].w.key == k
    {
      var i :| i in s.writers && s.writers[i].w.key == k;
      assert i in s'.writers && s'.writers[i].w.key == k;
    }
  }

  lemma StoreKeeps(s: Shared, id: nat, s': Shared)
    requires Inv(s) && Step(s, StoreIt(id), s')
    ensures Inv(s')
  {
    hide Sound, WellFormed, UsageExact;
    var x := s.writers[id];
    assert Tracked(s, x);
    forall i | i in s'.writers ensures Tracked(s', s'.writers[i]) {
      assert Tracked(s, s.writers[i]);
      ApplyOpAt(s.store, OpOf(x), s.writers[i].w.key);
    }
    forall k | Lookup(s'.store, k) != Lookup(s'.applied, k)
      ensures exists i :: i in s'.writers && s'.writers[i].w.key == k
    {
      ApplyOpAt(s.store, OpOf(x), k);
      if k == x.w.key {
        assert s'.writers[id].w.key == k;
      } else {
        var i :| i in s.writers && s.writers[i].w.key == k;
        assert i in s'.writers && s'.writers[i].w.key == k;
      }
    }
  }

  lemma LoadKeeps(s: Shared, id: nat, s': Shared)
    requires Inv(s) && Step(s, Load(id), s')
    ensures Inv(s')
  {
    hide Sound, WellFormed, UsageExact, Quota.Used;
    forall i | i in s'.writers ensures Tracked(s', s'.writers[i]) {
      assert Tracked(s, s.writers[i]);
    }
    forall k | Lookup(s'.store, k) != Lookup(s'.applied, k)
      ensures exists i :: i in s'.writers && s'.writers[i].w.key == k
    {
      var i :| i in s.writers && s.writers[i].w.key == k;
      assert i in s'.writers && s'.writers[i].w.key == k;
    }
  }

  /** Applying lands the counters on the data as applied: no wrap, no clip. */
  lemma ApplyExact(m: Store, q: Quota.QuotaState, w: Write, plan: Option<NodeSpec.Accounting>)
    requires WellFormed(m) && UsageExact(m, q) && Sound(m, w, plan)
    requires Bounded(ApplyOp(m, EngineOp(w.op, w.key, w.stored)))
    ensures WellFormed(ApplyOp(m, EngineOp(w.op, w.key, w.stored)))
    ensures UsageExact(ApplyOp(m, EngineOp(w.op, w.key, w.stored)), Billed(q, plan))
  {
    hide Weight, ValueCodec.Decode, Billed, Quota.Used;
    var op := EngineOp(w.op, w.key, w.stored);
    var m' := ApplyOp(m, op);
    forall t ensures Quota.Used(Billed(q, plan), t) == Total(m', t) {
      TotalApply(m, t, op);
      assert PlanDelta(plan, t) == WeightAt(m', t, w.key) - WeightAt(m, t, w.key);
      CounterExact(q, plan, t, Total(m', t));
    }
  }

  lemma ApplyKeeps(s: Shared, id: nat, s': Shared)
    requires Inv(s) && Step(s, Apply(id), s') && Bounded(s'.applied)
    ensures Inv(s')
  {
    hide Sound, WellFormed, UsageExact, Quota.Used, Billed;
    var x := s.writers[id];
    assert Tracked(s, x);
    ApplyExact(s.applied, s.quota, x.w, x.plan);
    forall i | i in s'.writers ensures Tracked(s', s'.writers[i]) {
      var y := s.writers[i];
      assert Tracked(s, y);
      ApplyOpAt(s.applied, OpOf(x), y.w.key);
      SoundElsewhere(s.applied, s'.applied, y.w, y.plan);
    }
    forall k | Lookup(s'.store, k) != Lookup(s'.applied, k)
      ensures exists i :: i in s'.writers && s'.writers[i].w.key == k
    {
      ApplyOpAt(s.applied, OpOf(x), k);
      var i :| i in s.writers && s.writers[i].w.key == k;
      assert i in s'.writers && s'.writers[i].w.key == k;
    }
  }

  /** With the keys in flight apart, no move is at fault. */
  lemma ApartIsFaultless(s: Shared, m: Move, s': Shared)
    requires Inv(s) && Step(s, m, s') && Bounded(s'.applied)
    ensures Faultless(s, m)
  {
    hide Sound, WellFormed, UsageExact, Billed, Quota.Used, Total;
    match m {
      case StoreIt(id) =>
        var x := s.writers[id];
        assert Tracked(s, x);
        SoundElsewhere(s.applied, s.store, x.w, x.plan);
      case Apply(id) =>
        var x := s.writers[id];
        assert Tracked(s, x);
        if x.plan.Some? {
          var t := x.plan.value.tenant;
          UsageAt(s.applied, s.quota, t);
          SoundMoves(s.applied, x.w, x.plan, t);
          assert Total(s'.applied, t) < Quota.U64_RANGE;
        }
      case _ =>
    }
  }

  /** A run in which no two writers are ever busy with one key, and no total outgrows its
      counter. */
  ghost predicate IsApart(states: seq<Shared>, moves: seq<Move>) {
    && IsRun(states, moves)
    && states[0].applied == states[0].store && WellFormed(states[0].store)
    && (forall i | 0 <= i < |states| :: Bounded(states[i].applied))
    && (forall i | 0 <= i < |moves| :: KeysApart(states[i], moves[i]))
  }

  lemma {:induction false} RunKeeps(states: seq<Shared>, moves: seq<Move>, i: nat)
    requires IsApart(states, moves) && i < |states|
    ensures Inv(states[i])
  {
    hide Step, Bounded, WellFormed, Tracked, KeysApart;
    if i > 0 {
      RunKeeps(states, moves, i - 1);
      var s, m, s' := states[i - 1], moves[i - 1], states[i];
      assert Step(s, m, s') && Bounded(s'.applied) && KeysApart(s, m);
      match m
      case Plan(id, w, plan) => PlanKeeps(s, id, w, plan, s');
      case StoreIt(id) => StoreKeeps(s, id, s');
      case Load(id) => LoadKeeps(s, id, s');
      case Apply(id) => ApplyKeeps(s, id, s');
    }
  }

  /** On distinct keys the counter plus what is stored but not applied always equals the
      data, so the two agree whenever no write is in flight. */
  lemma InterleavedAccounting(states: seq<Shared>, moves: seq<Move>, i: nat, t: Bytes)
    requires IsApart(states, moves) && i < |states|
    ensures var s := states[i];
      && Quota.Used(s.quota, t) + Pending(s.writers, t) == Total(s.store, t)
      && (s.writers == map[] ==> Quota.Used(s.quota, t) == Total(s.store, t))
  {
    hide Step, Bounded, Inv, Quota.Used, Faultless, KeysApart, UsageExact, WellFormed;
    forall j | 0 <= j < i ensures Faultless(states[j], moves[j]) {
      RunKeeps(states, moves, j);
      assert Step(states[j], moves[j], states[j + 1]) && Bounded(states[j + 1].applied);
      ApartIsFaultless(states[j], moves[j], states[j + 1]);
    }
    FaultlessKeeps(states, moves, i);
    assert states[i].writers == map[] ==> Pending(states[i].writers, t) == 0;
  }

  // ----------------------------------------------------- two writers on one key

  /** Both plan before either stores. Whichever applies first, the one that stored first
      leaves its own delta behind as drift. So the counter ends equal to the data exactly
      when the first write did not change the size of the entry, or when it shrank it and
      the tenant ends up with nothing, where the saturating subtraction absorbs the drift. */
  lemma SameKeyExact(m: Store, q: Quota.QuotaState, w1: Write, plan1: Option<NodeSpec.Accounting>,
                     w2: Write, plan2: Option<NodeSpec.Accounting>, swapped: bool, t: Bytes)
    requires UsageExact(m, q) && Sound(m, w1, plan1) && Sound(m, w2, plan2) && w1.key == w2.key
    requires Total(m, t) + PlanDelta(plan1, t) < Quota.U64_RANGE
    requires Total(m, t) + PlanDelta(plan2, t) < Quota.U64_RANGE
    requires Total(m, t) + PlanDelta(plan1, t) + PlanDelta(plan2, t) < Quota.U64_RANGE
    ensures var data := ApplyOp(ApplyOp(m, EngineOp(w1.op, w1.key, w1.stored)), EngineOp(w2.op, w2.key, w2.stored));
            var billed := if swapped then Billed(Billed(q, plan2), plan1) else Billed(Billed(q, plan1), plan2);
            var counter := Quota.Used(billed, t);
            var drift := PlanDelta(plan1, t);
      && (Total(data, t) + drift >= 0 ==> counter == Total(data, t) + drift)
      && (Total(data, t) + drift < 0 ==> counter == 0)
      && (counter == Total(data, t) <==> drift == 0 || (drift < 0 && Total(data, t) == 0))
  {
    hide Sound, UsageExact, Total, Billed, Quota.Used, PlanDelta, ApplyOp;
    var op1, op2 := EngineOp(w1.op, w1.key, w1.stored), EngineOp(w2.op, w2.key, w2.stored);
    LaterOpWins(m, op1, op2);
    UsageAt(m, q, t);
    SoundMoves(m, w1, plan1, t);
    SoundMoves(m, w2, plan2, t);
    BilledCounter(q, plan1, t);
    BilledCounter(q, plan2, t);
    BilledCounter(Billed(q, plan1), plan2, t);
    BilledCounter(Billed(q, plan2), plan1, t);
  }

  /** The second plans after the first has stored. Applied in the order they stored, the
      counter always ends equal to the data. Applied the other way round it does if and only
      if the second delta alone does not clip the counter. */
  lemma SameKeyLate(m: Store, q: Quota.QuotaState, w1: Write, plan1: Option<NodeSpec.Accounting>,
                    w2: Write, plan2: Option<NodeSpec.Accounting>, swapped: bool, t: Bytes)
    requires UsageExact(m, q) && Sound(m, w1, plan1) && w1.key == w2.key
    requires Sound(ApplyOp(m, EngineOp(w1.op, w1.key, w1.stored)), w2, plan2)
    requires Total(m, t) + PlanDelta(plan1, t) < Quota.U64_RANGE
    requires Total(m, t) + PlanDelta(plan2, t) < Quota.U64_RANGE
    requires Total(m, t) + PlanDelta(plan1, t) + PlanDelta(plan2, t) < Quota.U64_RANGE
    ensures var data := ApplyOp(ApplyOp(m, EngineOp(w1.op, w1.key, w1.stored)), EngineOp(w2.op, w2.key, w2.stored));
            var billed := if swapped then Billed(Billed(q, plan2), plan1) else Billed(Billed(q, plan1), plan2);
            var counter := Quota.Used(billed, t);
            counter == Total(data, t) <==> !swapped || Total(m, t) + PlanDelta(plan2, t) >= 0
  {
    hide Sound, UsageExact, Total, Billed, Quota.Used, PlanDelta, ApplyOp;
    var op1 := EngineOp(w1.op, w1.key, w1.stored);
    UsageAt(m, q, t);
    SoundMoves(m, w1, plan1, t);
    SoundMoves(ApplyOp(m, op1), w2, plan2, t);
    BilledCounter(q, plan1, t);
    BilledCounter(q, plan2, t);
    BilledCounter(Billed(q, plan1), plan2, t);
    BilledCounter(Billed(q, plan2), plan1, t);
  }

  lemma LaterOpWins(m: Store, op1: StoreOp, op2: StoreOp)
    requires op1.key == op2.key
    ensures ApplyOp(ApplyOp(m, op1), op2) == ApplyOp(m, op2)
  {}

  /** Below its range the counter moves by the plan and stops at zero. */
  lemma BilledCounter(q: Quota.QuotaState, plan: Option<NodeSpec.Accounting>, t: Bytes)
    requires Quota.Used(q, t) + PlanDelta(plan, t) < Quota.U64_RANGE
    ensures var after := Quota.Used(q, t) + PlanDelta(plan, t);
      Quota.Used(Billed(q, plan), t) == if after < 0 then 0 else after
  {}

  /** For example: both plan against an absent key, both are billed in full, and the counter
      ends above the data by what the first one stored. */
  lemma SameKeyDrifts(t: Bytes, p: Bytes, v1: Bytes, v2: Bytes)
    requires KeyCodec.LegalTenant(t) && |p| + |v1| > 0
    requires |p| + |v1| + |p| + |v2| < Quota.U64_RANGE
    ensures var key := KeyCodec.DataKey(t, p);
      var plan1, plan2 := PlanPut(map[], key, |v1|), PlanPut(map[], key, |v2|);
      var stored := map[key := ValueCodec.Encode(v2, None)];
      && plan1.Ok? && plan1.value.Some? && plan2.Ok? && plan2.value.Some?
      && Quota.ApplyDelta(Quota.ApplyDelta(0, plan1.value.value.delta), plan2.value.value.delta)
           == Total(stored, t) + |p| + |v1|
  {
    hide ValueCodec.Encode, ValueCodec.Decode, KeyCodec.Decode, KeyCodec.DataKey, KeyCodec.ValidUtf8;
    var key := KeyCodec.DataKey(t, p);
    KeyCodec.DataKeyDecodes(t, p);
    ValueCodec.DecodeEncode(v2, None);
    var stored: Store := map[key := ValueCodec.Encode(v2, None)];
    TotalRemove(stored, t, key);
    assert stored - {key} == map[];
  }

  /** And: a put stores, a delete plans against it and applies first, its subtraction clips
      at zero, and the put's addition then leaves the counter above a tenant that stores
      nothing. */
  lemma LateDeleteDrifts(t: Bytes, p: Bytes, v: Bytes)
    requires KeyCodec.LegalTenant(t) && 0 < |p| + |v| < Quota.U64_RANGE
    ensures var key := KeyCodec.DataKey(t, p);
      var stored: Store := map[key := ValueCodec.Encode(v, None)];
      var put, delete := PlanPut(map[], key, |v|), PlanDelete(stored, key);
      && put.Ok? && put.value.Some? && delete.Ok? && delete.value.Some?
      && Total(ApplyOp(stored, StoreDelete(key)), t) == 0
      && Quota.ApplyDelta(Quota.ApplyDelta(0, delete.value.value.delta), put.value.value.delta) == |p| + |v|
  {
    hide ValueCodec.Encode, ValueCodec.Decode, ValueCodec.PayloadLen, KeyCodec.Decode, KeyCodec.DataKey;
    hide KeyCodec.ValidUtf8;
    var key := KeyCodec.DataKey(t, p);
    KeyCodec.DataKeyDecodes(t, p);
    ValueCodec.DecodeEncode(v, None);
    ValueCodec.ShortcutsAgree(ValueCodec.Encode(v, None), 0);
    var stored: Store := map[key := ValueCodec.Encode(v, None)];
    assert ApplyOp(stored, StoreDelete(key)) == map[];
  }

  // --------------------------------------------------------------- quotas under races

  /** A write is planned only if the quota check lets it. */
  predicate Admitted(s: Shared, m: Move) {
    m.Plan? && m.plan.Some? ==> Quota.CheckWrite(s.quota, m.plan.value.tenant, m.plan.value.delta).Ok?
  }

  /** By how much a writer will still raise a tenant's counter. */
  function Raises(x: Writer, t: Bytes): nat {
    if PlanDelta(x.plan, t) > 0 then PlanDelta(x.plan, t) else 0
  }

  function RaisesOf(t: Bytes): Writer -> int {
    (x: Writer) => Raises(x, t)
  }

  /** What has been admitted and not yet counted. */
  ghost function Claimed(ws: map<nat, Writer>, t: Bytes): int {
    Sum(ws, RaisesOf(t))
  }

  lemma {:induction false} ClaimedIsNat(ws: map<nat, Writer>, t: Bytes)
    ensures Claimed(ws, t) >= 0
    decreases |ws|
  {
    hide Raises;
    if i :| i in ws {
      assert (ws - {i}).Keys == ws.Keys - {i};
      SumRemove(ws, RaisesOf(t), i);
      ClaimedIsNat(ws - {i}, t);
    }
  }

  /** One move, seen from one tenant with a limit: the counter plus what is claimed ends at most
      where it was or, for an admission, at the limit plus what was claimed before it. */
  lemma ClaimStep(s: Shared, m: Move, s': Shared, t: Bytes)
    requires Step(s, m, s') && Admitted(s, m)
    ensures Quota.LimitOf(s'.quota, t) == Quota.LimitOf(s.quota, t)
    ensures var limit := Quota.LimitOf(s.quota, t);
            var before := Quota.Used(s.quota, t) + Claimed(s.writers, t);
            var after := Quota.Used(s'.quota, t) + Claimed(s'.writers, t);
      0 < limit < U64_MAX ==>
        after <= before || (m.Plan? && PlanDelta(m.plan, t) > 0 && after <= limit + Claimed(s.writers, t))
  {
    hide Sum, Sound, ApplyOp;
    match m {
      case Plan(id, w, plan) => SumUpdate(s.writers, RaisesOf(t), id, Writer(w, plan, Planned));
      case StoreIt(id) => SumUpdate(s.writers, RaisesOf(t), id, s'.writers[id]);
      case Load(id) => SumUpdate(s.writers, RaisesOf(t), id, s'.writers[id]);
      case Apply(id) => SumRemove(s.writers, RaisesOf(t), id);
    }
  }

  /** Quotas among racing writers. Every write is checked against the counter alone, so writes
      admitted and not yet counted are not seen. If at every admission of growth at most
      `unseen` bytes of growth are under way for the tenant, its usage never exceeds the
      larger of where it started and its limit plus `unseen`; with nothing ever under way
      this is the bound of one request at a time. */
  lemma {:induction false} QuotaUnderRaces(states: seq<Shared>, moves: seq<Move>, n: nat, t: Bytes, unseen: nat)
    requires IsRun(states, moves) && n < |states| && Quota.LimitOf(states[0].quota, t) > 0
    requires forall i | 0 <= i < |moves| :: Admitted(states[i], moves[i])
    requires forall i | 0 <= i < |moves| && moves[i].Plan? && PlanDelta(moves[i].plan, t) > 0 ::
               Claimed(states[i].writers, t) <= unseen
    ensures var start, limit := Quota.Used(states[0].quota, t), Quota.LimitOf(states[0].quota, t);
      && Quota.LimitOf(states[n].quota, t) == limit
      && Quota.Used(states[n].quota, t) <= (if start > limit + unseen then start else limit + unseen)
  {
    hide Step, Admitted, UsageExact, Claimed, PlanDelta;
    ClaimBound(states, moves, n, t, unseen);
    ClaimedIsNat(states[n].writers, t);
  }

  lemma {:induction false} ClaimBound(states: seq<Shared>, moves: seq<Move>, n: nat, t: Bytes, unseen: nat)
    requires IsRun(states, moves) && n < |states| && Quota.LimitOf(states[0].quota, t) > 0
    requires forall i | 0 <= i < |moves| :: Admitted(states[i], moves[i])
    requires forall i | 0 <= i < |moves| && moves[i].Plan? && PlanDelta(moves[i].plan, t) > 0 ::
               Claimed(states[i].writers, t) <= unseen
    ensures var start, limit := Quota.Used(states[0].quota, t), Quota.LimitOf(states[0].quota, t);
      && Quota.LimitOf(states[n].quota, t) == limit
      && (limit < U64_MAX ==>
            Quota.Used(states[n].quota, t) + Claimed(states[n].writers, t)
              <= (if start > limit + unseen then start else limit + unseen))
  {
    hide Step, Admitted, UsageExact, PlanDelta, Quota.Used, Quota.LimitOf, RaisesOf;
    if n > 0 {
      ClaimBound(states, moves, n - 1, t, unseen);
      assert Step(states[n - 1], moves[n - 1], states[n]) && Admitted(states[n - 1], moves[n - 1]);
      ClaimStep(states[n - 1], moves[n - 1], states[n], t);
    }
  }

  /** For example: two equal puts, each within the limit and both admitted before either is
      counted, together pass it. */
  lemma RacingPutsPassLimit(q: Quota.QuotaState, t: Bytes, growth: nat)
    requires Quota.Used(q, t) + growth <= Quota.LimitOf(q, t) < Quota.Used(q, t) + 2 * growth < Quota.U64_RANGE
    ensures var plan := Some(NodeSpec.Accounting(t, growth));
      && Quota.CheckWrite(q, t, growth).Ok?
      && Quota.Used(Billed(Billed(q, plan), plan), t) == Quota.Used(q, t) + 2 * growth > Quota.LimitOf(q, t)
  {
    var plan := Some(NodeSpec.Accounting(t, growth));
    BilledCounter(q, plan, t);
    BilledCounter(Billed(q, plan), plan, t);
  }
}
