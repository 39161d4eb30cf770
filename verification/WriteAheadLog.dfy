/** The write-ahead log: one segment file, the next sequence number, the tracked size. */
module WriteAheadLog {
  import opened ByteStrings
  import opened WalFrames
  import opened Disk

  datatype WalState = WalState(file: Bytes, nextSeq: u64, segmentBytes: nat)

  /** What opening a segment finds. */
  datatype Recovery = Recovery(records: seq<WalRecord>, truncatedBytes: nat, nextSeq: u64, segmentBytes: nat)

  function Max(a: u64, b: u64): u64 { if a < b then b else a }

  function Recover(file: Bytes): Result<Recovery> {
    if file == [] then Ok(Recovery([], 0, 0, HEADER_LEN))
    else match ParseHeader(file)
      case Err(e) => Err(e)
      case Ok(baseSeq) =>
        var p := ParseFrames(file[HEADER_LEN..]);
        var validLen := HEADER_LEN + p.consumed;
        var resume := if p.records == [] then baseSeq else SaturatingAdd(p.records[|p.records| - 1].seqno, 1);
        Ok(Recovery(p.records, |file| - validLen, Max(resume, baseSeq), validLen))
  }

  /** What opening does to the file: a fresh header, or the torn tail cut off. */
  function OpenEffects(file: Bytes): seq<Effect> {
    if file == [] then [AppendFile(Header(0))]
    else match Recover(file)
      case Err(_) => []
      case Ok(rec) => if rec.truncatedBytes > 0 then [TruncateFile(rec.segmentBytes)] else []
  }

  function OpenedFile(file: Bytes): Bytes {
    if file == [] then Header(0)
    else match Recover(file)
      case Err(_) => file
      case Ok(rec) => if rec.segmentBytes <= |file| then file[..rec.segmentBytes] else file
  }

  /** The record an append writes. */
  function NextRecord(w: WalState, op: WalOp, key: Bytes, value: Bytes): WalRecord {
    WalRecord(w.nextSeq, op, key, value)
  }

  function Appended(w: WalState, r: WalRecord): WalState {
    WalState(w.file + Frame(r), SaturatingAdd(r.seqno, 1), w.segmentBytes + |Frame(r)|)
  }

  function Rotated(w: WalState): WalState {
    WalState(Header(w.nextSeq), w.nextSeq, HEADER_LEN)
  }

  function RotateEffects(w: WalState): seq<Effect> {
    [TruncateFile(0), AppendFile(Header(w.nextSeq))]
  }

  // -------------------------------------------------------- the open segment

  class Wal {
    const recorder: Recorder
    var file: Bytes
    var nextSeq: u64
    var segmentBytes: nat

    ghost function View(): WalState
      reads this
    {
      WalState(file, nextSeq, segmentBytes)
    }

    constructor (recorder: Recorder, file: Bytes, nextSeq: u64, segmentBytes: nat)
      ensures this.recorder == recorder
      ensures View() == WalState(file, nextSeq, segmentBytes)
    {
      this.recorder, this.file, this.nextSeq, this.segmentBytes := recorder, file, nextSeq, segmentBytes;
    }

    method Append(op: WalOp, key: Bytes, value: Bytes) returns (seqno: u64)
      modifies this, recorder
      ensures seqno == old(nextSeq)
      ensures View() == Appended(old(View()), NextRecord(old(View()), op, key, value))
      ensures recorder.effects == old(recorder.effects) + [AppendFile(Frame(NextRecord(old(View()), op, key, value)))]
    {
      hide Crc32.Checksum, LE;
      seqno := nextSeq;
      var frame := LE(seqno, 8);
      frame := frame + [op.Code()];
      frame := frame + LE(|key|, 4);
      frame := frame + key;
      frame := frame + LE(|value|, 4);
      frame := frame + value;
      var crc := Crc32.Checksum(frame);
      frame := frame + LE(crc, 4);
      file := file + frame;
      recorder.effects := recorder.effects + [AppendFile(frame)];
      nextSeq := SaturatingAdd(seqno, 1);
      segmentBytes := segmentBytes + |frame|;
    }

    method Rotate()
      modifies this, recorder
      ensures View() == Rotated(old(View()))
      ensures recorder.effects == old(recorder.effects) + RotateEffects(old(View()))
    {
      var baseSeq := nextSeq;
      file := [];
      recorder.effects := recorder.effects + [TruncateFile(0)];
      file := file + Header(baseSeq);
      recorder.effects := recorder.effects + [AppendFile(Header(baseSeq))];
      segmentBytes := HEADER_LEN;
    }
  }

  /** Starts from whatever bytes the log file has: the records in them come back, a torn
      end is cut away, and bytes that are no segment are refused. */
  method Open(recorder: Recorder, onDisk: Bytes) returns (wal: Wal?, recovery: Result<Recovery>)
    modifies recorder
    ensures recovery == Recover(onDisk)
    ensures recorder.effects == old(recorder.effects) + OpenEffects(onDisk)
    ensures wal != null <==> recovery.Ok?
    ensures wal != null ==> fresh(wal) && wal.recorder == recorder
    ensures wal != null ==>
      wal.View() == WalState(OpenedFile(onDisk), recovery.value.nextSeq, recovery.value.segmentBytes)
  {
    hide ParseFrames, ParseHeader, LE;
    var file := onDisk;
    if file == [] {
      file := file + Header(0);
      recorder.effects := recorder.effects + [AppendFile(Header(0))];
      recovery := Ok(Recovery([], 0, 0, HEADER_LEN));
    } else {
      match ParseHeader(file) {
        case Err(e) =>
          return null, Err(e);
        case Ok(baseSeq) =>
          HeaderExact(file, baseSeq);
          var records, consumed := ParseFramesLoop(file[HEADER_LEN..]);
          var validLen := HEADER_LEN + consumed;
          var truncated := |file| - validLen;
          if truncated > 0 {
            file := file[..validLen];
            recorder.effects := recorder.effects + [TruncateFile(validLen)];
          }
          var resume := if records == [] then baseSeq else SaturatingAdd(records[|records| - 1].seqno, 1);
          recovery := Ok(Recovery(records, truncated, Max(resume, baseSeq), validLen));
      }
    }
    wal := new Wal(recorder, file, recovery.value.nextSeq, recovery.value.segmentBytes);
  }

  // ---------------------------------------------------------- what it keeps

  /** Sequence numbers count up from `baseSeq` without gaps, pinned at the largest u64. */
  function SeqAt(baseSeq: u64, i: nat): u64 {
    if baseSeq + i > U64_MAX then U64_MAX else baseSeq + i
  }

  predicate Dense(baseSeq: u64, rs: seq<WalRecord>) {
    forall i | 0 <= i < |rs| :: rs[i].seqno == SeqAt(baseSeq, i)
  }

  /** The segment holds exactly `rs`, numbered densely from `baseSeq`. */
  predicate Holds(w: WalState, baseSeq: u64, rs: seq<WalRecord>) {
    && w.file == Header(baseSeq) + Frames(rs)
    && Dense(baseSeq, rs)
    && w.nextSeq == SeqAt(baseSeq, |rs|)
    && w.segmentBytes == |w.file|
  }

  lemma AppendKeeps(w: WalState, baseSeq: u64, rs: seq<WalRecord>, op: WalOp, key: Bytes, value: Bytes)
    requires Holds(w, baseSeq, rs)
    ensures var r := NextRecord(w, op, key, value); Holds(Appended(w, r), baseSeq, rs + [r])
  {
    hide Frame, Header;
    var r := NextRecord(w, op, key, value);
    FramesAppend(rs, r);
    assert Header(baseSeq) + Frames(rs) + Frame(r) == Header(baseSeq) + (Frames(rs) + Frame(r));
  }

  lemma RotateKeeps(w: WalState)
    ensures Holds(Rotated(w), w.nextSeq, [])
  {
    assert Header(w.nextSeq) + Frames([]) == Header(w.nextSeq);
  }

  /** A file that starts with a header and whole frames and ends in part of a frame is
      reopened to exactly the whole frames, the torn part counted and cut off, and the
      sequence resumes right after the last whole frame. */
  lemma RecoverTorn(baseSeq: u64, rs: seq<WalRecord>, r: WalRecord, c: nat)
    requires AllFit(rs) && Fits(r) && c < |Frame(r)| && Dense(baseSeq, rs)
    ensures var clean := Header(baseSeq) + Frames(rs);
      && Recover(clean + Frame(r)[..c]) == Ok(Recovery(rs, c, SeqAt(baseSeq, |rs|), |clean|))
      && OpenedFile(clean + Frame(r)[..c]) == clean
  {
    hide Frame, Header, ParseFrames, ParseHeader, LE;
    var clean := Header(baseSeq) + Frames(rs);
    var file := clean + Frame(r)[..c];
    assert file[..HEADER_LEN] == Header(baseSeq);
    HeaderExact(file, baseSeq);
    assert file[HEADER_LEN..] == Frames(rs) + Frame(r)[..c];
    TornAppend(rs, r, c);
    assert file[..|clean|] == clean;
  }

  /** Reopening a healthy segment gives back the state it was left in, whichever way the
      last write ended: nothing of it on disk, part of it, or all of it. */
  lemma ReopenResumes(w: WalState, baseSeq: u64, rs: seq<WalRecord>, op: WalOp, key: Bytes, value: Bytes, c: nat)
    requires Holds(w, baseSeq, rs) && AllFit(rs)
    requires var r := NextRecord(w, op, key, value); Fits(r) && c <= |Frame(r)|
    ensures var r := NextRecord(w, op, key, value);
            var whole := c == |Frame(r)|;
            var after := if whole then Appended(w, r) else w;
            Recover(w.file + Frame(r)[..c]) ==
              Ok(Recovery(if whole then rs + [r] else rs, if whole then 0 else c, after.nextSeq, after.segmentBytes))
  {
    hide Frame, Header, Recover;
    var r := NextRecord(w, op, key, value);
    if c < |Frame(r)| {
      RecoverTorn(baseSeq, rs, r, c);
    } else {
      assert Frame(r)[..c] == Frame(r);
      AppendKeeps(w, baseSeq, rs, op, key, value);
      assert 0 < |Frame(r)| by { FrameLayout(r); }
      RecoverTorn(baseSeq, rs + [r], r, 0);
      var w' := Appended(w, r);
      assert w'.file + Frame(r)[..0] == w'.file;
    }
  }

  /** A crash inside a rotation leaves part of the fresh header. Reopening then keeps the
      sequence if and only if the header is complete, or nothing of it was written and
      nothing had ever been numbered: an empty file restarts at zero, any other partial
      header is refused. */
  lemma RotationCrash(w: WalState, c: nat)
    requires c <= HEADER_LEN
    ensures var res := Recover(Header(w.nextSeq)[..c]);
      && (res.Ok? <==> c == 0 || c == HEADER_LEN)
      && (res.Ok? && res.value.nextSeq >= w.nextSeq <==> c == HEADER_LEN || (c == 0 && w.nextSeq == 0))
      && (res.Ok? ==> res.value.records == [])
  {
    hide Header, Frame, ParseFrame, LE;
    var file := Header(w.nextSeq)[..c];
    if c == HEADER_LEN {
      assert file == Header(w.nextSeq);
      HeaderExact(file, w.nextSeq);
      WalRoundTrip([]);
      assert file[HEADER_LEN..] == Frames([]);
    }
  }

  /** While the numbers last, they are strictly increasing. */
  lemma DenseIncreases(baseSeq: u64, rs: seq<WalRecord>, i: nat, j: nat)
    requires Dense(baseSeq, rs) && i < j < |rs| && baseSeq + |rs| <= U64_MAX
    ensures rs[i].seqno < rs[j].seqno < SeqAt(baseSeq, |rs|)
  {}
}
