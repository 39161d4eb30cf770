/** A sweep among other writers: looking at an entry and deleting it are separate steps. */
module SweepRaces {
  import opened ByteStrings
  import opened Disk
  import opened NodeSpec
  import opened NodeInvariants
  import KeyCodec
  import ValueCodec
  import Quota

  /** What others write between the sweep's look and its delete, each with its own plan. */
  datatype Other = Other(w: Write, plan: Option<Accounting>)

  ghost predicate Lawful(c: Config, n: Node, others: seq<Other>)
    decreases |others|, 0
  {
    others == [] ||
    var init, last := others[..|others| - 1], others[|others| - 1];
    Lawful(c, n, init) && Sound(After(c, n, init).store, last.w, last.plan)
  }

  ghost function After(c: Config, n: Node, others: seq<Other>): Node
    requires Lawful(c, n, others)
    decreases |others|, 1
  {
    if others == [] then n
    else Perform(c, After(c, n, others[..|others| - 1]), others[|others| - 1].w, others[|others| - 1].plan)
  }

  function LastTo(others: seq<Other>, key: Bytes): Option<Write> {
    if others == [] then None
    else if others[|others| - 1].w.key == key then Some(others[|others| - 1].w)
    else LastTo(others[..|others| - 1], key)
  }

  /** The last of the writes to a key decides what the sweep finds there. */
  lemma {:induction false} AfterHolds(c: Config, n: Node, others: seq<Other>, key: Bytes)
    requires WellFormed(n.store) && Lawful(c, n, others) && !Quota.IsUsageRecord(key)
    ensures var m, last := After(c, n, others).store, LastTo(others, key);
      && WellFormed(m)
      && Lookup(m, key) == (if last.None? then Lookup(n.store, key)
                            else if last.value.op.Put? then Some(last.value.stored) else None)
      && (last.Some? && last.value.op.Put? ==> Expiry(last.value.stored) == last.value.expiresAt)
  {
    hide Perform, WellFormed, Quota.IsUsageRecord, Weight, LegalPlan, ValueCodec.Decode;
    if others != [] {
      var init, last := others[..|others| - 1], others[|others| - 1];
      AfterHolds(c, n, init, key);
      PerformStore(c, After(c, n, init), last.w, last.plan);
    }
  }

  /** The sweep looked and found the entry expired. */
  predicate Seen(m: Store, key: Bytes, now: u64) {
    key in m && ValueCodec.IsExpired(m[key], now) == Ok(true)
  }

  predicate LiveAt(m: Store, key: Bytes, at: u64) {
    key in m && !Expired(m[key], at)
  }

  /** Exactly when a sweep deletes something alive. It found the key expired at `now`; others
      wrote; then, at `later`, it deletes. The delete always succeeds and removes the key, and
      what it removes is alive if and only if the last write to the key in between was a put
      whose expiry has not come. */
  lemma SweepRaceExact(c: Config, n: Node, others: seq<Other>, now: u64, later: u64, key: Bytes)
    requires WellFormed(n.store) && Lawful(c, n, others) && !Quota.IsUsageRecord(key)
    requires Seen(n.store, key, now) && now <= later
    ensures var m := After(c, n, others).store;
            var (n', res) := NodeSpec.Delete(c, After(c, n, others), key);
      && res.Ok? && key !in n'.store
      && (LiveAt(m, key, later) <==>
            var last := LastTo(others, key);
            last.Some? && last.value.op.Put? && (last.value.expiresAt.None? || later < last.value.expiresAt.value))
  {
    hide Perform, Sound, Lawful, After, WellFormed, Quota.IsUsageRecord, PlanDelete, ValueCodec.Decode;
    hide ValueCodec.IsExpired;
    AfterHolds(c, n, others, key);
    ValueCodec.ShortcutsAgree(n.store[key], now);
    var n1 := After(c, n, others);
    PlannedDeleteIsSound(n1.store, key);
    PlansAreLegal(n1, key, []);
    PerformStore(c, n1, DeleteWrite(key), PlanDelete(n1.store, key).value);
  }

  /** For example: a put without expiry lands in between. It is acknowledged and readable, and
      the sweep then deletes it. */
  lemma SweepDeletesFreshPut(c: Config, n: Node, now: u64, key: Bytes, value: Bytes)
    requires WellFormed(n.store) && !Quota.IsUsageRecord(key) && Seen(n.store, key, now)
    requires AdmitPut(n, key, value).Ok?
    ensures var (put, res) := NodeSpec.Put(c, n, now, key, value, 0);
            var (swept, removed) := NodeSpec.Delete(c, put, key);
      && res.Ok? && removed.Ok?
      && Get(put.store, now, key) == Ok(Some(value)) && Get(swept.store, now, key) == Ok(None)
  {
    hide Perform, Sound, WellFormed, Quota.IsUsageRecord, PlanDelete, AdmitPut, ValueCodec.Decode;
    hide ValueCodec.IsExpired, ValueCodec.Encode;
    AdmittedPutIsSound(n, now, key, value, 0);
    PlansAreLegal(n, key, value);
    var w, plan := PutWrite(now, key, value, 0), AdmitPut(n, key, value).value;
    var others := [Other(w, plan)];
    assert others[..0] == [];
    OneOther(c, n, w, plan);
    SweepRaceExact(c, n, others, now, now, key);
    AfterHolds(c, n, others, key);
    ValueCodec.DecodeEncode(value, None);
    ValueCodec.ShortcutsAgree(w.stored, now);
  }

  lemma OneOther(c: Config, n: Node, w: Write, plan: Option<Accounting>)
    requires Sound(n.store, w, plan)
    ensures var others := [Other(w, plan)];
      Lawful(c, n, others) && After(c, n, others) == Perform(c, n, w, plan) && LastTo(others, w.key) == Some(w)
  {
    hide Perform, Weight, LegalPlan;
    assert [Other(w, plan)][..0] == [];
  }
}
