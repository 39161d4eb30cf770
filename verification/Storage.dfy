/** The storage engine contract, with the in-memory engine's own scans. */
module Storage {
  import opened ByteStrings
  import opened Listing
  import Disk

  /** The part of a store under a key prefix. */
  function Under(m: Disk.Store, prefix: Bytes): Disk.Store {
    map k | k in m && prefix <= k :: m[k]
  }

  /** The part of a store in the half-open key range. */
  function Between(m: Disk.Store, start: Bytes, end: Bytes): Disk.Store {
    map k | k in m && AtMost(start, k) && Less(k, end) :: m[k]
  }

  /** A scan yields, in key order, exactly the entries it was asked for. */
  lemma ScansExact(m: Disk.Store, prefix: Bytes, start: Bytes, end: Bytes)
    ensures Ascending(Keys(Listed(Under(m, prefix)))) && Ascending(Keys(Listed(Between(m, start, end))))
    ensures forall k, v :: (k, v) in Listed(Under(m, prefix)) <==> k in m && prefix <= k && v == m[k]
    ensures forall k, v :: (k, v) in Listed(Between(m, start, end)) <==>
              k in m && AtMost(start, k) && Less(k, end) && v == m[k]
  {
    hide Listed, Less, AtMost, Ascending;
    ListedEntries(Under(m, prefix));
    ListedEntries(Between(m, start, end));
  }

  class Storage {
    const recorder: Disk.Recorder
    const durable: bool
    var data: Disk.Store

    constructor (recorder: Disk.Recorder, durable: bool, data: Disk.Store)
      ensures this.recorder == recorder && this.durable == durable && this.data == data
    {
      this.recorder, this.durable, this.data := recorder, durable, data;
    }

    method Get(key: Bytes) returns (value: Option<Bytes>)
      ensures value == Disk.Lookup(data, key)
    {
      value := if key in data then Some(data[key]) else None;
    }

    method Put(key: Bytes, value: Bytes)
      modifies this, recorder
      ensures data == Disk.ApplyOp(old(data), Disk.StorePut(key, value))
      ensures recorder.effects == old(recorder.effects) + [Disk.Engine(Disk.StorePut(key, value))]
    {
      data := data[key := value];
      recorder.effects := recorder.effects + [Disk.Engine(Disk.StorePut(key, value))];
    }

    method Delete(key: Bytes)
      modifies this, recorder
      ensures data == Disk.ApplyOp(old(data), Disk.StoreDelete(key))
      ensures recorder.effects == old(recorder.effects) + [Disk.Engine(Disk.StoreDelete(key))]
    {
      data := data - {key};
      recorder.effects := recorder.effects + [Disk.Engine(Disk.StoreDelete(key))];
    }

    /** Makes every write so far durable; nothing to do for an engine that is not. */
    method Flush()
      modifies recorder
      ensures recorder.effects == old(recorder.effects) + (if durable then [Disk.Flush] else [])
    {
      if durable {
        recorder.effects := recorder.effects + [Disk.Flush];
      }
    }

    /** Walks every entry, in whatever order the map yields them, keeps those asked for,
        then sorts. */
    method Collect(keep: Bytes -> bool, ghost part: Disk.Store) returns (out: seq<Entry>)
      requires part == map k | k in data && keep(k) :: data[k]
      ensures out == Listed(part)
    {
      var collected: seq<Entry> := [];
      var todo := data.Keys;
      while todo != {}
        invariant todo <= data.Keys
        invariant forall i | 0 <= i < |collected| ::
          collected[i].0 in part && collected[i].0 !in todo && collected[i].1 == part[collected[i].0]
        invariant forall i, j | 0 <= i < j < |collected| :: collected[i].0 != collected[j].0
        invariant forall k | k in part && k !in todo :: (k, part[k]) in collected
        decreases |todo|
      {
        var k :| k in todo;
        if keep(k) {
          collected := collected + [(k, data[k])];
        }
        todo := todo - {k};
      }
      out := SortEntries(collected, part);
    }

    method Scan(prefix: Bytes) returns (out: seq<Entry>)
      ensures out == Listed(Under(data, prefix))
    {
      out := Collect(k => prefix <= k, Under(data, prefix));
    }

    method ScanRange(start: Bytes, end: Bytes) returns (out: seq<Entry>)
      ensures out == Listed(Between(data, start, end))
    {
      out := Collect(k => AtMost(start, k) && Less(k, end), Between(data, start, end));
    }
  }
}
