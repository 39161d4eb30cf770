/** What a node leaves on disk, and the effects that change it one at a time.

    The order of effects is what crash safety depends on, so every component that
    touches the WAL file or the storage engine records what it did, in order. */
module Disk {
  import opened ByteStrings

  datatype StoreOp = StorePut(key: Bytes, value: Bytes) | StoreDelete(key: Bytes)

  type Store = map<Bytes, Bytes>

  function Lookup(m: Store, k: Bytes): Option<Bytes> {
    if k in m then Some(m[k]) else None
  }

  function ApplyOp(m: Store, op: StoreOp): Store {
    match op
    case StorePut(k, v) => m[k := v]
    case StoreDelete(k) => m - {k}
  }

  function ApplyAll(m: Store, ops: seq<StoreOp>): Store {
    if ops == [] then m else ApplyOp(ApplyAll(m, ops[..|ops| - 1]), ops[|ops| - 1])
  }

  /** What an operation leaves at its key. */
  function Written(op: StoreOp): Option<Bytes> {
    match op
    case StorePut(_, v) => Some(v)
    case StoreDelete(_) => None
  }

  datatype Effect =
    | AppendFile(bytes: Bytes)     // write_all to the WAL file
    | TruncateFile(len: nat)       // set_len, or opening with truncate(true)
    | Engine(op: StoreOp)          // a put or delete reaching the storage engine
    | Flush                        // the engine's fsync

  /** The WAL file and the storage engine. The engine is split at its last flush: a
      crash may undo, key by key, anything after it. */
  datatype Disk = Disk(file: Bytes, flushed: Store, journal: seq<StoreOp>) {
    function Data(): Store {
      ApplyAll(flushed, journal)
    }

    function Do(e: Effect): Disk {
      match e
      case AppendFile(bytes) => this.(file := file + bytes)
      case TruncateFile(len) => this.(file := if len <= |file| then file[..len] else file)
      case Engine(op) => this.(journal := journal + [op])
      case Flush => this.(flushed := Data(), journal := [])
    }

    function DoAll(es: seq<Effect>): Disk {
      if es == [] then this else DoAll(es[..|es| - 1]).Do(es[|es| - 1])
    }

    /** A state a process crash may leave the engine in: every key at some value it held
        since the last flush. An engine that is not durable leaves nothing. */
    ghost predicate Survives(durable: bool, m: Store) {
      if durable
      then forall k :: exists j: nat | j <= |journal| :: Lookup(m, k) == Lookup(ApplyAll(flushed, journal[..j]), k)
      else m == map[]
    }
  }

  lemma ApplyOpAt(m: Store, op: StoreOp, k: Bytes)
    ensures Lookup(ApplyOp(m, op), k) == if op.key == k then Written(op) else Lookup(m, k)
  {}

  lemma ApplyNone(m: Store)
    ensures ApplyAll(m, []) == m
  {}

  lemma ApplyAllAppend(m: Store, ops: seq<StoreOp>, op: StoreOp)
    ensures ApplyAll(m, ops + [op]) == ApplyOp(ApplyAll(m, ops), op)
  {
    assert (ops + [op])[..|ops|] == ops;
  }

  lemma {:induction false} ApplyAllConcat(m: Store, xs: seq<StoreOp>, ys: seq<StoreOp>)
    ensures ApplyAll(m, xs + ys) == ApplyAll(ApplyAll(m, xs), ys)
  {
    if ys == [] {
      assert xs + ys == xs;
    } else {
      var n := |ys| - 1;
      ApplyAllConcat(m, xs, ys[..n]);
      assert (xs + ys)[..|xs + ys| - 1] == xs + ys[..n];
    }
  }

  lemma ApplyFirst(m: Store, op: StoreOp, ops: seq<StoreOp>)
    ensures ApplyAll(m, [op] + ops) == ApplyAll(ApplyOp(m, op), ops)
  {
    ApplyAllConcat(m, [op], ops);
    assert [op][..0] == [];
  }

  lemma DoAllAppend(d: Disk, es: seq<Effect>, e: Effect)
    ensures d.DoAll(es + [e]) == d.DoAll(es).Do(e)
  {
    assert (es + [e])[..|es|] == es;
  }

  lemma {:induction false} DoAllConcat(d: Disk, xs: seq<Effect>, ys: seq<Effect>)
    ensures d.DoAll(xs + ys) == d.DoAll(xs).DoAll(ys)
  {
    if ys == [] {
      assert xs + ys == xs;
    } else {
      var n := |ys| - 1;
      DoAllConcat(d, xs, ys[..n]);
      assert (xs + ys)[..|xs + ys| - 1] == xs + ys[..n];
    }
  }

  /** A crash may leave the engine as it stood at any point since the flush. */
  lemma PointSurvives(d: Disk, j: nat)
    requires j <= |d.journal|
    ensures d.Survives(true, ApplyAll(d.flushed, d.journal[..j]))
  {
    hide ApplyAll;
  }

  lemma DoNone(d: Disk)
    ensures d.DoAll([]) == d
  {}

  lemma DoFirst(d: Disk, e: Effect, es: seq<Effect>)
    ensures d.DoAll([e] + es) == d.Do(e).DoAll(es)
  {
    DoAllConcat(d, [e], es);
    assert [e][..0] == [];
  }

  /** Records effects in the order they reach the disk. */
  class Recorder {
    ghost var effects: seq<Effect>

    constructor ()
      ensures effects == []
    {
      effects := [];
    }
  }
}
