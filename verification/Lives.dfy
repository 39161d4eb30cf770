/** Overlapping requests over any number of crashes and restarts. */
module Lives {
  import opened ByteStrings
  import opened Disk
  import opened WalFrames
  import opened WriteAheadLog
  import opened NodeSpec
  import Protocol
  import opened Concurrency
  import Quota

  /** The world a restart leads to: the disk after everything opening does to it, and the
      same log. */
  function Restarted(durable: bool, s: World, file: Bytes, m: Store): World
    requires Recover(file).Ok?
  {
    var rec, disk := Recover(file).value, Disk(file, m, []).DoAll(OpenNodeEffects(durable, file));
    if durable
    then World(disk, s.Log(), rec.nextSeq, [], rec.nextSeq, true, All(|s.Log()|), All(|s.Log()|))
    else World(disk, [], s.base, rec.records, rec.nextSeq, true, All(|rec.records|), {})
  }

  lemma {:induction false} EnginesRun(d: Disk, ops: seq<StoreOp>)
    ensures d.DoAll(Engines(ops)) == Disk(d.file, d.flushed, d.journal + ops)
  {
    if ops == [] {
      assert d.journal + ops == d.journal;
    } else {
      var n := |ops| - 1;
      EnginesRun(d, ops[..n]);
      assert Engines(ops)[..n] == Engines(ops[..n]);
      assert d.journal + ops == d.journal + ops[..n] + [ops[n]];
    }
  }

  /** Opening the log changes the file only. */
  lemma OpenTouchesFile(file: Bytes, m: Store)
    ensures var d := Disk(file, m, []).DoAll(OpenEffects(file)); d.flushed == m && d.journal == []
    ensures file != [] && Recover(file).Ok? ==>
      var rec := Recover(file).value;
      |file| == rec.segmentBytes + rec.truncatedBytes ==>
        Disk(file, m, []).DoAll(OpenEffects(file)).file == file[..rec.segmentBytes]
  {
    hide Recover, Header;
    var d, es := Disk(file, m, []), OpenEffects(file);
    if es != [] { assert es[..0] == []; }
    if file != [] && Recover(file).Ok? && Recover(file).value.truncatedBytes == 0 {
      assert file[..|file|] == file;
    }
  }

  lemma DurableRestart(file: Bytes, m: Store)
    requires Recover(file).Ok?
    ensures var rec := Recover(file).value;
      Disk(file, m, []).DoAll(OpenNodeEffects(true, file))
        == Disk(Header(rec.nextSeq), ApplyAll(m, RecordOps(rec.records)), [])
  {
    hide Recover, Header, RecordOps, Engines, OpenEffects, ApplyAll, Disk.DoAll;
    var rec, d := Recover(file).value, Disk(file, m, []);
    var ops := RecordOps(rec.records);
    var first, rest := OpenEffects(file) + Engines(ops), [Flush, TruncateFile(0), AppendFile(Header(rec.nextSeq))];
    assert OpenNodeEffects(true, file) == first + rest;
    DoAllConcat(d, first, rest);
    DoAllConcat(d, OpenEffects(file), Engines(ops));
    OpenTouchesFile(file, m);
    EnginesRun(d.DoAll(OpenEffects(file)), ops);
    assert [] + ops == ops;
    RotationRuns(d.DoAll(first), rec.nextSeq);
  }

  lemma RotationRuns(d: Disk, next: u64)
    ensures d.DoAll([Flush, TruncateFile(0), AppendFile(Header(next))]) == Disk(Header(next), d.Data(), [])
  {
    hide Header, ApplyAll, Disk.DoAll;
    var a, b, c := Flush, TruncateFile(0), AppendFile(Header(next));
    assert [a, b, c] == [a] + [b, c] && [b, c] == [b] + [c] && [c] == [c] + [];
    DoFirst(d, a, [b, c]);
    DoFirst(d.Do(a), b, [c]);
    DoFirst(d.Do(a).Do(b), c, []);
    DoNone(d.Do(a).Do(b).Do(c));
    assert [] + Header(next) == Header(next);
  }

  lemma MemoryRestart(s: World, file: Bytes, m: Store)
    requires FileFine(s) && s.headed && CrashFile(s, file)
    ensures Recover(file).Ok? && Recover(file).value.records == s.seg && Recover(file).value.nextSeq == s.next
    ensures Disk(file, m, []).DoAll(OpenNodeEffects(false, file))
         == Disk(Header(s.base) + Frames(s.seg), m, RecordOps(s.seg))
  {
    hide Recover, Header, RecordOps, Engines, OpenEffects, Frame, Frames, Disk.DoAll, Quota.IsUsageRecord;
    var torn :| Protocol.IsTorn(torn) && file == Header(s.base) + Frames(s.seg) + torn;
    var r, c: nat :| Fits(r) && c < |Frame(r)| && torn == Frame(r)[..c];
    RecoverTorn(s.base, s.seg, r, c);
    var d, ops := Disk(file, m, []), RecordOps(s.seg);
    assert OpenNodeEffects(false, file) == OpenEffects(file) + Engines(ops);
    DoAllConcat(d, OpenEffects(file), Engines(ops));
    OpenTouchesFile(file, m);
    EnginesRun(d.DoAll(OpenEffects(file)), ops);
    assert [] + ops == ops;
    assert file[..|Header(s.base) + Frames(s.seg)|] == Header(s.base) + Frames(s.seg);
  }

  /** A node that restarts after a crash is an opened node again, with the log it had. */
  lemma RestartedIsOpened(durable: bool, s: World, file: Bytes, m: Store)
    requires Inv(s) && All(|s.before|) <= s.safe && (!durable ==> s.before == [] && s.headed)
    requires CanCrash(durable, s, file, m) && Recover(file).Ok?
    ensures Opened(durable, Restarted(durable, s, file, m)) && Restarted(durable, s, file, m).Log() == s.Log()
  {
    hide Recover, Header, Ends, Sets, JournalShows, Journaled, Disk.DoAll, Quota.IsUsageRecord, CrashFile;
    hide RecordOps, OpenNodeEffects, ApplyAll, All;
    var s' := Restarted(durable, s, file, m);
    if durable {
      DurableRestart(file, m);
      FramesOfNone();
      NoRecords();
      assert s'.Log() == s.Log();
      assert s'.disk.file == Header(s'.base) + [];
      forall k | !Quota.IsUsageRecord(k) ensures Lookup(s'.disk.flushed, k) == Lookup(ApplyAll(map[], s.Log()), k) {
        SettledRecovers(durable, s, file, m, k);
      }
    } else {
      MemoryRestart(s, file, m);
      ApplyNone(map[]);
      assert s'.Log() == s.Log();
    }
  }

  lemma NoRecords()
    ensures RecordOps([]) == []
  {}

  /** One life of a node: what its requests do, in log order and with settled rotations, and
      the crash that ends it. */
  datatype Life = Life(worlds: seq<World>, moves: seq<Move>, file: Bytes, m: Store)

  ghost predicate IsLife(durable: bool, l: Life) {
    && |l.worlds| == |l.moves| + 1
    && (forall i | 0 <= i < |l.moves| :: Step(durable, l.worlds[i], l.moves[i], l.worlds[i + 1]))
    && AllInOrder(l.worlds, l.moves) && AllSettled(l.worlds, l.moves)
    && CanCrash(durable, l.worlds[|l.moves|], l.file, l.m)
  }

  /** Any number of lives, each starting where opening the last one's remains leads. */
  ghost predicate AreLives(durable: bool, lives: seq<Life>) {
    && (forall j | 0 <= j < |lives| :: IsLife(durable, lives[j]))
    && (lives != [] ==> Opened(durable, lives[0].worlds[0]))
    && (forall j | 0 <= j < |lives| - 1 :: Follows(durable, lives[j], lives[j + 1]))
  }

  ghost predicate Follows(durable: bool, l: Life, l': Life)
    requires IsLife(durable, l) && IsLife(durable, l')
  {
    Recover(l.file).Ok? && l'.worlds[0] == Restarted(durable, l.worlds[|l.moves|], l.file, l.m)
  }

  lemma LifeIsRun(durable: bool, l: Life)
    requires IsLife(durable, l) && Opened(durable, l.worlds[0])
    ensures IsRun(durable, l.worlds, l.moves)
  {
    hide Opened, Step;
  }

  lemma {:induction false} LivesOpen(durable: bool, lives: seq<Life>, j: nat)
    requires AreLives(durable, lives) && j < |lives|
    ensures Opened(durable, lives[j].worlds[0])
    ensures j > 0 ==> lives[j].worlds[0].Log() == lives[j - 1].worlds[|lives[j - 1].moves|].Log()
  {
    hide Opened, Inv, Step, CanCrash, AllInOrder, AllSettled, Restarted, Recover;
    if j > 0 {
      var l := lives[j - 1];
      LivesOpen(durable, lives, j - 1);
      assert IsLife(durable, l) && IsLife(durable, lives[j]) && Follows(durable, l, lives[j]);
      LifeIsRun(durable, l);
      var n := |l.moves|;
      RunKeeps(durable, l.worlds, l.moves, n);
      DroppedIsSafe(durable, l.worlds, l.moves, n);
      RunFile(durable, l.worlds, l.moves, n);
      RestartedIsOpened(durable, l.worlds[n], l.file, l.m);
    }
  }

  /** Crash safety for overlapping requests, life after life: under the two conditions no
      number of crashes and restarts loses anything. Every life starts with the log the last
      one ended with, and at every point of every life any crash recovers exactly the log. */
  lemma LivesAreSafe(durable: bool, lives: seq<Life>, j: nat, i: nat, file: Bytes, m: Store, k: Bytes)
    requires AreLives(durable, lives) && j < |lives| && i < |lives[j].worlds|
    requires CanCrash(durable, lives[j].worlds[i], file, m) && !Quota.IsUsageRecord(k)
    ensures j > 0 ==> lives[j].worlds[0].Log() == lives[j - 1].worlds[|lives[j - 1].moves|].Log()
    ensures Recover(file).Err? ==> 0 < |file| < HEADER_LEN
    ensures Recover(file).Ok? ==> Recovered(file, m, k) == Logged(lives[j].worlds[i], k)
  {
    hide Opened, Step, CanCrash, AllInOrder, AllSettled, Recover, Recovered, Logged;
    LivesOpen(durable, lives, j);
    assert IsLife(durable, lives[j]);
    LifeIsRun(durable, lives[j]);
    ConcurrentCrashSafety(durable, lives[j].worlds, lives[j].moves, i, file, m, k);
  }
}
