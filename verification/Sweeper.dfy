/** The sweeper's sleep: schedulers, the stored wakeup and the clocks, interleaved. */
module Sweeper {
  import opened ByteStrings
  import opened TtlIndex

  /** The loop of the sweeper, one shared read at a time. */
  datatype Phase =
    | Starting                                // about to work out when to wake
    | HasInstant(instant: nat)                // has read the timer
    | HasDue(instant: nat, due: Option<u64>)  // has read the earliest expiration
    | Waiting(wake: nat)                      // asleep until `wake` or a wakeup
    | Awake                                   // about to read the clock
    | Draining(now: u64)                      // about to drain what is due at `now`

  /** `timer` is the monotonic timer sleeps are measured on and `clock` the wall clock
      expirations are measured on. `notifiers` counts schedulers that have released the
      index and not yet stored their wakeup; `permit` is the stored wakeup. */
  datatype World = World(timer: nat, clock: u64, buckets: Buckets, permit: bool, notifiers: nat, phase: Phase)

  datatype Move =
    | Tick(elapsed: nat)
    | Insert(key: Bytes, expiresAt: u64)
    | Notify
    | ReadInstant
    | ReadDue
    | FallAsleep
    | WakeByTimer
    | WakeByPermit
    | ReadNow
    | Drain

  /** A scheduler wakes the sweeper if its expiration is now the earliest. */
  ghost predicate Wakes(b: Buckets, expiresAt: u64) {
    Earliest(b).None? || expiresAt < Earliest(b).value
  }

  /** When to wake, from a timer read before the earliest expiration and a clock read after
      it. */
  function WakeupAt(instant: nat, due: Option<u64>, clock: u64, fallback: nat): nat {
    match due
    case None => instant + fallback
    case Some(d) =>
      if d <= clock then instant
      else if d - clock < fallback then instant + (d - clock)
      else instant + fallback
  }

  ghost predicate Step(fallback: nat, s: World, m: Move, s': World) {
    match m
    case Tick(elapsed) =>
      s.clock + elapsed <= U64_MAX && s' == s.(timer := s.timer + elapsed, clock := s.clock + elapsed)
    case Insert(key, e) =>
      s' == s.(buckets := s.buckets[e := Bucket(s.buckets, e) + {key}],
               notifiers := if Wakes(s.buckets, e) then s.notifiers + 1 else s.notifiers)
    case Notify => s.notifiers > 0 && s' == s.(notifiers := s.notifiers - 1, permit := true)
    case ReadInstant => s.phase.Starting? && s' == s.(phase := HasInstant(s.timer))
    case ReadDue => s.phase.HasInstant? && s' == s.(phase := HasDue(s.phase.instant, Earliest(s.buckets)))
    case FallAsleep =>
      s.phase.HasDue? && s' == s.(phase := Waiting(WakeupAt(s.phase.instant, s.phase.due, s.clock, fallback)))
    case WakeByTimer => s.phase.Waiting? && s.timer >= s.phase.wake && s' == s.(phase := Awake)
    case WakeByPermit => s.phase.Waiting? && s.permit && s' == s.(phase := Awake, permit := false)
    case ReadNow => s.phase.Awake? && s' == s.(phase := Draining(s.clock))
    case Drain => s.phase.Draining? && s' == s.(phase := Starting, buckets := Later(s.buckets, s.phase.now))
  }

  // ---------------------------------------------------------------- the invariant

  predicate Notified(s: World) {
    s.permit || s.notifiers > 0
  }

  /** `bound` is no later than every scheduled expiration. */
  ghost predicate NoLater(bound: int, b: Buckets) {
    forall e | e in b :: bound <= e
  }

  /** What the clock will show when the timer shows `wake`. */
  function ClockAt(s: World, wake: int): int {
    s.clock + (wake - s.timer)
  }

  ghost predicate Inv(fallback: nat, s: World) {
    match s.phase
    case HasInstant(instant) => instant <= s.timer
    case HasDue(instant, due) =>
      && instant <= s.timer
      && (Notified(s) || (if due.None? then s.buckets == map[] else NoLater(due.value, s.buckets)))
    case Waiting(wake) =>
      && wake <= s.timer + fallback
      && (Notified(s) || wake <= s.timer || NoLater(ClockAt(s, wake), s.buckets))
    case _ => true
  }

  /** A bound on all expirations survives any insertion that does not wake the sweeper. */
  lemma InsertKeepsBound(b: Buckets, key: Bytes, e: u64, bound: int)
    requires NoLater(bound, b) && !Wakes(b, e)
    ensures NoLater(bound, b[e := Bucket(b, e) + {key}])
  {
    hide Bucket;
    var first := Earliest(b).value;
    assert first in b && bound <= first <= e;
  }

  lemma EarliestBounds(b: Buckets)
    ensures Earliest(b).Some? ==> NoLater(Earliest(b).value, b)
  {}

  lemma WakeupBound(instant: nat, due: Option<u64>, clock: u64, timer: nat, fallback: nat)
    requires instant <= timer
    ensures WakeupAt(instant, due, clock, fallback) <= timer + fallback
  {}

  /** Sleeping on what was the earliest expiration is never oversleeping it. */
  lemma SleepIsShort(s: World, instant: nat, due: Option<u64>, fallback: nat)
    requires instant <= s.timer
    requires if due.None? then s.buckets == map[] else NoLater(due.value, s.buckets)
    ensures var wake := WakeupAt(instant, due, s.clock, fallback);
      wake <= s.timer || NoLater(ClockAt(s, wake), s.buckets)
  {}

  lemma InsertKeeps(fallback: nat, s: World, key: Bytes, e: u64, s': World)
    requires Inv(fallback, s) && Step(fallback, s, Insert(key, e), s')
    ensures Inv(fallback, s')
  {
    hide NoLater, Bucket, WakeupAt, Later;
    if !Wakes(s.buckets, e) && !Notified(s) {
      match s.phase {
        case HasDue(_, due) =>
          if due.Some? { InsertKeepsBound(s.buckets, key, e, due.value); }
        case Waiting(wake) =>
          if wake > s.timer { InsertKeepsBound(s.buckets, key, e, ClockAt(s, wake)); }
        case _ =>
      }
    }
  }

  lemma StepKeeps(fallback: nat, s: World, m: Move, s': World)
    requires Inv(fallback, s) && Step(fallback, s, m, s')
    ensures Inv(fallback, s')
  {
    hide NoLater, Bucket, Wakes, Later, WakeupAt;
    match m {
      case Insert(key, e) =>
        InsertKeeps(fallback, s, key, e, s');
      case ReadDue =>
        EarliestBounds(s.buckets);
      case FallAsleep =>
        WakeupBound(s.phase.instant, s.phase.due, s.clock, s.timer, fallback);
        if !Notified(s) { SleepIsShort(s, s.phase.instant, s.phase.due, fallback); }
      case _ =>
    }
  }

  // ------------------------------------------------------------------ whole runs

  ghost predicate IsRun(fallback: nat, worlds: seq<World>, moves: seq<Move>) {
    && |worlds| == |moves| + 1
    && worlds[0].phase.Starting?
    && forall i | 0 <= i < |moves| :: Step(fallback, worlds[i], moves[i], worlds[i + 1])
  }

  lemma {:induction false} RunKeeps(fallback: nat, worlds: seq<World>, moves: seq<Move>, i: nat)
    requires IsRun(fallback, worlds, moves) && i < |worlds|
    ensures Inv(fallback, worlds[i])
  {
    hide Step;
    if i > 0 {
      RunKeeps(fallback, worlds, moves, i - 1);
      assert Step(fallback, worlds[i - 1], moves[i - 1], worlds[i]);
      StepKeeps(fallback, worlds[i - 1], moves[i - 1], worlds[i]);
    }
  }

  /** Where a half-made decision comes from: the timer was read at the move `j`. */
  lemma {:induction false} InstantRead(fallback: nat, worlds: seq<World>, moves: seq<Move>, i: nat) returns (j: nat)
    requires IsRun(fallback, worlds, moves) && i < |worlds| && worlds[i].phase.HasInstant?
    ensures j < i && moves[j].ReadInstant? && worlds[i].phase.instant == worlds[j].timer
  {
    hide Later, Bucket, Wakes, WakeupAt;
    assert Step(fallback, worlds[i - 1], moves[i - 1], worlds[i]);
    if moves[i - 1].ReadInstant? {
      j := i - 1;
    } else {
      j := InstantRead(fallback, worlds, moves, i - 1);
    }
  }

  lemma {:induction false} DueRead(fallback: nat, worlds: seq<World>, moves: seq<Move>, i: nat) returns (j: nat, k: nat)
    requires IsRun(fallback, worlds, moves) && i < |worlds| && worlds[i].phase.HasDue?
    ensures j < k < i && moves[j].ReadInstant? && moves[k].ReadDue?
    ensures worlds[i].phase == HasDue(worlds[j].timer, Earliest(worlds[k].buckets))
  {
    hide Later, Bucket, Wakes, WakeupAt;
    assert Step(fallback, worlds[i - 1], moves[i - 1], worlds[i]);
    if moves[i - 1].ReadDue? {
      k := i - 1;
      j := InstantRead(fallback, worlds, moves, k);
    } else {
      j, k := DueRead(fallback, worlds, moves, i - 1);
    }
  }

  /** How long it sleeps, in every run: counted from the timer it read at `j`, exactly the
      shorter of the fallback interval and the time left, on the clock it falls asleep by, to
      the earliest expiration scheduled at `k`; no time at all once that has passed. */
  lemma SleepIsExact(fallback: nat, worlds: seq<World>, moves: seq<Move>, i: nat) returns (j: nat, k: nat)
    requires IsRun(fallback, worlds, moves) && i < |moves| && moves[i].FallAsleep?
    ensures j < k < i && moves[j].ReadInstant? && moves[k].ReadDue? && worlds[i + 1].phase.Waiting?
    ensures var sleep := worlds[i + 1].phase.wake - worlds[j].timer;
            var clock, b := worlds[i].clock, worlds[k].buckets;
      && 0 <= sleep <= fallback
      && (sleep > 0 ==> forall e | e in b :: clock + sleep <= e)
      && (sleep < fallback ==> exists e :: e in b && e <= clock + sleep)
  {
    hide Later, Bucket, Wakes;
    assert Step(fallback, worlds[i], moves[i], worlds[i + 1]);
    j, k := DueRead(fallback, worlds, moves, i);
    var b := worlds[k].buckets;
    if Earliest(b).Some? { assert Earliest(b).value in b; }
  }

  /** No wakeup is lost. In every world of every run where the sweeper waits, a wakeup is
      stored or on its way, or its time has come, or it will wake before the clock passes
      any scheduled expiration; and it never sleeps longer than the fallback interval. */
  lemma NoLostWakeup(fallback: nat, worlds: seq<World>, moves: seq<Move>, i: nat)
    requires IsRun(fallback, worlds, moves) && i < |worlds| && worlds[i].phase.Waiting?
    ensures var s := worlds[i];
      || s.permit || s.notifiers > 0 || s.phase.wake <= s.timer
      || forall e | e in s.buckets :: s.clock + (s.phase.wake - s.timer) <= e
    ensures worlds[i].phase.wake <= worlds[i].timer + fallback
  {
    RunKeeps(fallback, worlds, moves, i);
  }

  /** So once an entry is due and no scheduler is half-way, the waiting sweeper can wake at
      once, and its pass then takes out exactly what was due. */
  lemma DueIsSwept(fallback: nat, worlds: seq<World>, moves: seq<Move>, i: nat, e: u64)
    returns (m: Move, woken: World, draining: World, swept: World)
    requires IsRun(fallback, worlds, moves) && i < |worlds| && worlds[i].phase.Waiting?
    requires worlds[i].notifiers == 0 && e in worlds[i].buckets && e <= worlds[i].clock
    ensures (m.WakeByTimer? || m.WakeByPermit?) && Step(fallback, worlds[i], m, woken)
    ensures Step(fallback, woken, ReadNow, draining) && Step(fallback, draining, Drain, swept)
    ensures forall f :: f in swept.buckets <==> f in worlds[i].buckets && f > worlds[i].clock
  {
    var s := worlds[i];
    NoLostWakeup(fallback, worlds, moves, i);
    if s.permit {
      m, woken := WakeByPermit, s.(phase := Awake, permit := false);
    } else {
      assert s.timer >= s.phase.wake;
      m, woken := WakeByTimer, s.(phase := Awake);
    }
    draining := woken.(phase := Draining(s.clock));
    swept := draining.(phase := Starting, buckets := Later(s.buckets, s.clock));
  }

  /** The index's own operation is an insertion followed by its notification. */
  lemma ScheduleIsInsert(s: World, key: Bytes, e: u64, total: nat, fallback: nat)
    returns (inserted: World, notified: World)
    requires s.notifiers == 0
    ensures Step(fallback, s, Insert(key, e), inserted)
    ensures notified == inserted || Step(fallback, inserted, Notify, notified)
    ensures var t := Scheduled(TtlState(s.buckets, total, s.permit), key, e);
      notified.buckets == t.buckets && notified.permit == t.permit && notified.notifiers == 0
  {
    inserted := s.(buckets := s.buckets[e := Bucket(s.buckets, e) + {key}],
                   notifiers := if Wakes(s.buckets, e) then 1 else 0);
    notified := if Wakes(s.buckets, e) then inserted.(notifiers := 0, permit := true) else inserted;
  }
}
