/** The bytes of a WAL segment: header, frames, and the parser recovery runs over them. */
module WalFrames {
  import opened ByteStrings
  import Crc32

  datatype WalOp = Put | Delete {
    function Code(): byte {
      match this
      case Put => 1
      case Delete => 2
    }
  }

  function WalOpOf(b: byte): Option<WalOp> {
    match b
    case 1 => Some(Put)
    case 2 => Some(Delete)
    case _ => None
  }

  datatype WalRecord = WalRecord(seqno: u64, op: WalOp, key: Bytes, value: Bytes)

  const MAGIC: Bytes := [0x46, 0x4B, 0x56, 0x57]
  const FORMAT_VERSION: nat := 1
  const HEADER_LEN: nat := 14
  const MIN_FRAME_LEN: nat := 21

  // ------------------------------------------------------------------ encoding

  /** Everything the checksum covers. The lengths go through a cast to 32 bits. */
  function FrameBody(r: WalRecord): Bytes {
    LE(r.seqno, 8) + [r.op.Code()] + LE(|r.key|, 4) + r.key + LE(|r.value|, 4) + r.value
  }

  function Frame(r: WalRecord): Bytes {
    FrameBody(r) + LE(Crc32.Checksum(FrameBody(r)), 4)
  }

  function Frames(rs: seq<WalRecord>): Bytes {
    if rs == [] then [] else Frame(rs[0]) + Frames(rs[1..])
  }

  function Header(baseSeq: u64): (h: Bytes)
    ensures |h| == HEADER_LEN
  {
    MAGIC + LE(FORMAT_VERSION, 2) + LE(baseSeq, 8)
  }

  /** The lengths survive the cast. */
  predicate Fits(r: WalRecord) {
    |r.key| < 0x1_0000_0000 && |r.value| < 0x1_0000_0000
  }

  predicate AllFit(rs: seq<WalRecord>) {
    forall i | 0 <= i < |rs| :: Fits(rs[i])
  }

  // ------------------------------------------------------------------- parsing

  function ParseFrame(buf: Bytes): (res: Option<(WalRecord, nat)>)
    ensures res.Some? ==> MIN_FRAME_LEN <= res.value.1 <= |buf|
  {
    if |buf| < MIN_FRAME_LEN then None
    else if WalOpOf(buf[8]).None? then None
    else
      var keyEnd := 13 + U32LE(buf[9..13]);
      var vlenEnd := keyEnd + 4;
      if vlenEnd > |buf| then None
      else
        var valueEnd := vlenEnd + U32LE(buf[keyEnd..vlenEnd]);
        var frameEnd := valueEnd + 4;
        if frameEnd > |buf| then None
        else if Crc32.Checksum(buf[..valueEnd]) != U32LE(buf[valueEnd..frameEnd]) then None
        else
          var r := WalRecord(U64LE(buf[0..8]), WalOpOf(buf[8]).value, buf[13..keyEnd], buf[vlenEnd..valueEnd]);
          Some((r, frameEnd))
  }

  datatype Parsed = Parsed(records: seq<WalRecord>, consumed: nat)

  /** The run of intact frames that `body` starts with. */
  function ParseFrames(body: Bytes): (p: Parsed)
    ensures p.consumed <= |body|
    decreases |body|
  {
    match ParseFrame(body)
    case None => Parsed([], 0)
    case Some((r, n)) =>
      var rest := ParseFrames(body[n..]);
      Parsed([r] + rest.records, n + rest.consumed)
  }

  /** The parser as it runs: a cursor moved forward frame by frame. */
  method ParseFramesLoop(body: Bytes) returns (records: seq<WalRecord>, pos: nat)
    ensures Parsed(records, pos) == ParseFrames(body)
  {
    hide ParseFrame, Frame;
    records, pos := [], 0;
    var next := ParseFrame(body[pos..]);
    while next.Some?
      invariant pos <= |body|
      invariant next == ParseFrame(body[pos..])
      invariant var rest := ParseFrames(body[pos..]);
                ParseFrames(body) == Parsed(records + rest.records, pos + rest.consumed)
      decreases |body| - pos
    {
      var (r, n) := next.value;
      assert body[pos..][n..] == body[pos + n..];
      assert records + ([r] + ParseFrames(body[pos + n..]).records)
          == (records + [r]) + ParseFrames(body[pos + n..]).records;
      records, pos := records + [r], pos + n;
      next := ParseFrame(body[pos..]);
    }
    assert records + [] == records;
  }

  function ParseHeader(buf: Bytes): Result<u64> {
    if |buf| < HEADER_LEN then Err(Corrupt("wal header is truncated"))
    else if buf[0..4] != MAGIC then Err(Corrupt("file is not a ferriskv wal segment"))
    else if FromLE(buf[4..6]) != FORMAT_VERSION then Err(Corrupt("unsupported wal format version"))
    else Ok(U64LE(buf[6..14]))
  }

  /** The header: the magic number, the version, the base, numbers low byte first. */
  lemma HeaderLayout(baseSeq: u64)
    ensures var h := Header(baseSeq);
      && h[..6] == [0x46, 0x4B, 0x56, 0x57, 1, 0] && |h| == 14
      && forall i | 0 <= i < 8 :: Pow256(i) > 0 && h[6 + i] == baseSeq / Pow256(i) % 256
  {
    var h := Header(baseSeq);
    assert LE(1, 2) == [1] + LE(0, 1);
    assert LE(0, 1) == [0];
    hide LE;
    assert h[..6] == MAGIC + LE(1, 2);
    forall i | 0 <= i < 8 ensures Pow256(i) > 0 && h[6 + i] == baseSeq / Pow256(i) % 256 {
      LEDigit(baseSeq, 8, i);
      assert h[6 + i] == LE(baseSeq, 8)[i];
    }
  }

  /** A header is accepted exactly when it is one this format writes. */
  lemma HeaderExact(buf: Bytes, baseSeq: u64)
    ensures ParseHeader(buf) == Ok(baseSeq) <==> |buf| >= HEADER_LEN && buf[..HEADER_LEN] == Header(baseSeq)
  {
    hide LE, U64LE;
    Pow256Values();
    if ParseHeader(buf) == Ok(baseSeq) {
      assert buf[..HEADER_LEN] == buf[0..4] + buf[4..6] + buf[6..14];
      LEInverse(buf[4..6]);
    }
    if |buf| >= HEADER_LEN && buf[..HEADER_LEN] == Header(baseSeq) {
      var h := Header(baseSeq);
      assert buf[0..4] == h[0..4] == MAGIC;
      assert buf[4..6] == h[4..6] == LE(FORMAT_VERSION, 2);
      assert buf[6..14] == h[6..14] == LE(baseSeq, 8);
      LERoundTrip(FORMAT_VERSION, 2);
      U64LEEncode(baseSeq);
    }
  }

  // ------------------------------------------------------------- where things are

  function KeyEnd(r: WalRecord): nat { 13 + |r.key| }
  function ValueEnd(r: WalRecord): nat { 17 + |r.key| + |r.value| }

  /** A byte position inside one of the frame's two length fields. */
  predicate InLengthField(r: WalRecord, o: nat) {
    9 <= o < 13 || KeyEnd(r) <= o < KeyEnd(r) + 4
  }

  /** Where everything is: the number at 0, the operation (1 for a put, 2 for a delete) at 8,
      then key and value behind their lengths, and the checksum of all of it at the end. */
  lemma FrameLayout(r: WalRecord)
    ensures var f := Frame(r);
      && |f| == ValueEnd(r) + 4
      && f[0..8] == LE(r.seqno, 8)
      && f[8] == r.op.Code() == (if r.op.Put? then 1 else 2)
      && f[9..13] == LE(|r.key|, 4)
      && f[13..KeyEnd(r)] == r.key
      && f[KeyEnd(r)..KeyEnd(r) + 4] == LE(|r.value|, 4)
      && f[KeyEnd(r) + 4..ValueEnd(r)] == r.value
      && f[..ValueEnd(r)] == FrameBody(r)
      && f[ValueEnd(r)..] == LE(Crc32.Checksum(FrameBody(r)), 4)
  {
    hide LE, Crc32.Checksum;
    var f, b := Frame(r), FrameBody(r);
    assert f[..ValueEnd(r)] == b;
    assert b[0..8] == LE(r.seqno, 8);
    assert b[9..13] == LE(|r.key|, 4);
    assert b[13..KeyEnd(r)] == r.key;
    assert b[KeyEnd(r)..KeyEnd(r) + 4] == LE(|r.value|, 4);
    assert b[KeyEnd(r) + 4..] == r.value;
    forall i, j | 0 <= i <= j <= |b| ensures f[i..j] == b[i..j] {}
  }

  /** What the parser reads as lengths in any buffer that starts like the frame of `r`. */
  lemma LengthsRead(r: WalRecord, buf: Bytes)
    requires Fits(r)
    requires |buf| >= 13 && buf[9..13] == Frame(r)[9..13]
    ensures U32LE(buf[9..13]) == |r.key|
    ensures KeyEnd(r) + 4 <= |buf| && buf[KeyEnd(r)..KeyEnd(r) + 4] == Frame(r)[KeyEnd(r)..KeyEnd(r) + 4]
        ==> U32LE(buf[KeyEnd(r)..KeyEnd(r) + 4]) == |r.value|
  {
    FrameLayout(r);
    U32LEEncode(|r.key|);
    U32LEEncode(|r.value|);
  }

  // ---------------------------------------------------------------- round trips

  lemma ParseWholeFrame(r: WalRecord, rest: Bytes)
    requires Fits(r)
    ensures ParseFrame(Frame(r) + rest) == Some((r, |Frame(r)|))
  {
    hide LE, U32LE, U64LE, Crc32.Checksum, FrameBody, Frame;
    var f, buf := Frame(r), Frame(r) + rest;
    FrameLayout(r);
    forall i, j | 0 <= i <= j <= |f| ensures buf[i..j] == f[i..j] {}
    LengthsRead(r, buf);
    assert buf[..ValueEnd(r)] == FrameBody(r);
    assert buf[ValueEnd(r)..ValueEnd(r) + 4] == f[ValueEnd(r)..];
    U64LEEncode(r.seqno);
    U32LEEncode(Crc32.Checksum(FrameBody(r)));
  }

  /** A frame reads back as its record if and only if both lengths fit in 32 bits; past
      that the length fields wrap and no reader can recover the record. */
  lemma FrameRoundTrip(r: WalRecord, rest: Bytes)
    ensures ParseFrame(Frame(r) + rest) == Some((r, |Frame(r)|)) <==> Fits(r)
  {
    if Fits(r) {
      ParseWholeFrame(r, rest);
    } else {
      FrameLayout(r);
      var buf := Frame(r) + rest;
      assert ParseFrame(buf).Some? ==>
        |ParseFrame(buf).value.0.key| < 0x1_0000_0000 && |ParseFrame(buf).value.0.value| < 0x1_0000_0000;
    }
  }

  /** Whatever the parser accepts is the frame of the record it returns. */
  lemma AcceptedIsFrame(buf: Bytes)
    requires ParseFrame(buf).Some?
    ensures var (r, n) := ParseFrame(buf).value; Fits(r) && buf[..n] == Frame(r)
  {
    hide LE, Crc32.Checksum;
    var (r, n) := ParseFrame(buf).value;
    var keyEnd := KeyEnd(r);
    assert buf[..n - 4]
        == buf[0..8] + [buf[8]] + buf[9..13] + buf[13..keyEnd] + buf[keyEnd..keyEnd + 4] + buf[keyEnd + 4..n - 4];
    assert buf[..n - 4] == FrameBody(r);
    assert buf[..n] == buf[..n - 4] + buf[n - 4..n];
  }

  /** A frame cut short anywhere is never taken for a frame. */
  lemma TornFrame(r: WalRecord, c: nat)
    requires Fits(r) && c < |Frame(r)|
    ensures ParseFrame(Frame(r)[..c]) == None
  {
    hide LE, U32LE, U64LE, Crc32.Checksum, FrameBody, Frame;
    var f, buf := Frame(r), Frame(r)[..c];
    FrameLayout(r);
    if c >= MIN_FRAME_LEN {
      assert buf[9..13] == f[9..13];
      if KeyEnd(r) + 4 <= c {
        assert buf[KeyEnd(r)..KeyEnd(r) + 4] == f[KeyEnd(r)..KeyEnd(r) + 4];
      }
      LengthsRead(r, buf);
    }
  }

  lemma FramesOfNone()
    ensures Frames([]) == []
  {}

  lemma {:induction false} FramesAppend(rs: seq<WalRecord>, r: WalRecord)
    ensures Frames(rs + [r]) == Frames(rs) + Frame(r)
  {
    hide ParseFrame, Frame;
    if rs == [] {
      assert [r][1..] == [];
    } else {
      assert (rs + [r])[1..] == rs[1..] + [r];
      FramesAppend(rs[1..], r);
    }
  }

  /** Whole frames at the front are read back whatever follows them, and what follows
      is parsed as if it stood alone. */
  lemma {:induction false} ParseAfterFrames(rs: seq<WalRecord>, x: Bytes)
    requires AllFit(rs)
    ensures var p := ParseFrames(x);
            ParseFrames(Frames(rs) + x) == Parsed(rs + p.records, |Frames(rs)| + p.consumed)
  {
    hide ParseFrame, Frame;
    var p := ParseFrames(x);
    if rs == [] {
      assert Frames(rs) + x == x && rs + p.records == p.records;
    } else {
      var f, rest := Frame(rs[0]), Frames(rs[1..]) + x;
      assert Frames(rs) + x == f + rest;
      ParseWholeFrame(rs[0], rest);
      assert (f + rest)[|f|..] == rest;
      ParseAfterFrames(rs[1..], x);
      assert [rs[0]] + (rs[1..] + p.records) == rs + p.records;
    }
  }

  /** Appended frames read back exactly, with nothing left over. */
  lemma WalRoundTrip(rs: seq<WalRecord>)
    requires AllFit(rs)
    ensures ParseFrames(Frames(rs)) == Parsed(rs, |Frames(rs)|)
  {
    ParseAfterFrames(rs, []);
    assert Frames(rs) + [] == Frames(rs);
  }

  /** For any input at all: the bytes consumed are the frames of the records returned,
      so parsing them again gives the same records and consumes all of them. */
  lemma {:induction false} ParseCanonical(body: Bytes)
    ensures var p := ParseFrames(body);
      && AllFit(p.records)
      && body[..p.consumed] == Frames(p.records)
      && ParseFrames(body[..p.consumed]) == p
    decreases |body|
  {
    hide ParseFrame, Frame;
    var p := ParseFrames(body);
    if ParseFrame(body).Some? {
      var (r, n) := ParseFrame(body).value;
      AcceptedIsFrame(body);
      ParseCanonical(body[n..]);
      assert body[..p.consumed] == body[..n] + body[n..][..p.consumed - n];
      assert p.records[1..] == ParseFrames(body[n..]).records;
    }
    WalRoundTrip(p.records);
  }

  // ---------------------------------------------------------------- torn tails

  /** How many whole frames fit in the first `c` bytes. */
  function WholeFrames(rs: seq<WalRecord>, c: nat): (n: nat)
    ensures n <= |rs|
  {
    if rs == [] || |Frame(rs[0])| > c then 0 else 1 + WholeFrames(rs[1..], c - |Frame(rs[0])|)
  }

  lemma {:induction false} FramesSplit(rs: seq<WalRecord>, i: nat)
    requires i <= |rs|
    ensures Frames(rs) == Frames(rs[..i]) + Frames(rs[i..])
  {
    hide ParseFrame, Frame;
    if i == 0 {
      assert rs[..0] == [] && rs[0..] == rs;
    } else {
      FramesSplit(rs[1..], i - 1);
      assert rs[..i][1..] == rs[1..][..i - 1] && rs[i..] == rs[1..][i - 1..];
    }
  }

  /** The cut that crashes produce: whole frames, then part of one more. */
  lemma TornAppend(rs: seq<WalRecord>, r: WalRecord, c: nat)
    requires AllFit(rs) && Fits(r) && c < |Frame(r)|
    ensures ParseFrames(Frames(rs) + Frame(r)[..c]) == Parsed(rs, |Frames(rs)|)
  {
    hide ParseFrame, Frame;
    ParseAfterFrames(rs, Frame(r)[..c]);
    TornFrame(r, c);
    assert rs + [] == rs;
  }

  lemma {:induction false} WholeFramesSpan(rs: seq<WalRecord>, c: nat)
    requires c <= |Frames(rs)|
    ensures var n := WholeFrames(rs, c);
            |Frames(rs[..n])| <= c && (n < |rs| ==> c < |Frames(rs[..n + 1])|)
  {
    hide Frame;
    if rs != [] {
      var n := WholeFrames(rs, c);
      if n == 0 {
        assert rs[..1][1..] == [];
      } else {
        WholeFramesSpan(rs[1..], c - |Frame(rs[0])|);
        assert rs[..n][1..] == rs[1..][..n - 1];
        assert n < |rs| ==> rs[..n + 1][1..] == rs[1..][..n];
      }
    }
  }

  /** Cutting a segment body at any byte leaves exactly the longest run of whole frames
      that fits before the cut. */
  lemma TornTail(rs: seq<WalRecord>, c: nat)
    requires AllFit(rs) && c <= |Frames(rs)|
    ensures var n := WholeFrames(rs, c);
      && ParseFrames(Frames(rs)[..c]) == Parsed(rs[..n], |Frames(rs[..n])|)
      && |Frames(rs[..n])| <= c
      && (n < |rs| ==> c < |Frames(rs[..n + 1])|)
  {
    hide ParseFrame, Frame, ParseFrames;
    var n := WholeFrames(rs, c);
    WholeFramesSpan(rs, c);
    var at := |Frames(rs[..n])|;
    FramesSplit(rs, n);
    if n == |rs| {
      assert rs[..n] == rs && Frames(rs)[..c] == Frames(rs);
      WalRoundTrip(rs);
    } else {
      FramesAppend(rs[..n], rs[n]);
      assert rs[..n] + [rs[n]] == rs[..n + 1] && rs[n..][0] == rs[n];
      assert Frames(rs)[..c] == Frames(rs[..n]) + Frame(rs[n])[..c - at];
      TornAppend(rs[..n], rs[n], c - at);
    }
  }

  // ---------------------------------------------------------------- corruption

  /** One changed byte outside the length fields makes the frame unreadable. */
  lemma CorruptFrame(r: WalRecord, o: nat, b: byte, rest: Bytes)
    requires Fits(r) && o < |Frame(r)| && Frame(r)[o] != b && !InLengthField(r, o)
    ensures ParseFrame(Frame(r)[o := b] + rest) == None
  {
    hide LE, U32LE, U64LE, Crc32.Checksum, FrameBody, Frame;
    var f, g := Frame(r), Frame(r)[o := b];
    var buf := g + rest;
    FrameLayout(r);
    assert buf[9..13] == f[9..13];
    assert buf[KeyEnd(r)..KeyEnd(r) + 4] == f[KeyEnd(r)..KeyEnd(r) + 4];
    LengthsRead(r, buf);
    var stored := buf[ValueEnd(r)..ValueEnd(r) + 4];
    if o < ValueEnd(r) {
      assert buf[..ValueEnd(r)] == FrameBody(r)[o := b];
      assert stored == f[ValueEnd(r)..];
      Crc32.ChecksumDetects(FrameBody(r), o, b);
      U32LEEncode(Crc32.Checksum(FrameBody(r)));
    } else {
      assert buf[..ValueEnd(r)] == FrameBody(r);
      assert stored[o - ValueEnd(r)] == b != f[ValueEnd(r)..][o - ValueEnd(r)];
      assert stored != LE(Crc32.Checksum(FrameBody(r)), 4);
    }
  }

  /** Changing any single byte of frame `i` outside its two length fields makes recovery
      return exactly the first `i` records and stop at that frame's offset. */
  lemma OneByteCorruption(rs: seq<WalRecord>, i: nat, o: nat, b: byte)
    requires AllFit(rs) && i < |rs|
    requires o < |Frame(rs[i])| && Frame(rs[i])[o] != b && !InLengthField(rs[i], o)
    ensures var at := |Frames(rs[..i])|;
      && at + o < |Frames(rs)|
      && ParseFrames(Frames(rs)[at + o := b]) == Parsed(rs[..i], at)
  {
    hide ParseFrame, Frame;
    var at, rest := |Frames(rs[..i])|, Frames(rs[i + 1..]);
    FramesSplit(rs, i);
    assert rs[i..][0] == rs[i] && rs[i..][1..] == rs[i + 1..];
    var x := Frame(rs[i])[o := b] + rest;
    assert Frames(rs)[at + o := b] == Frames(rs[..i]) + x;
    CorruptFrame(rs[i], o, b, rest);
    ParseAfterFrames(rs[..i], x);
    assert rs[..i] + [] == rs[..i];
  }

  /** Damage of any kind from frame `i` on, length fields included, never changes an
      earlier record. */
  lemma EarlierRecordsSurvive(rs: seq<WalRecord>, i: nat, damaged: Bytes)
    requires AllFit(rs) && i <= |rs|
    requires Frames(rs[..i]) <= damaged
    ensures rs[..i] <= ParseFrames(damaged).records
  {
    hide ParseFrame, Frame;
    var at := |Frames(rs[..i])|;
    assert damaged == Frames(rs[..i]) + damaged[at..];
    ParseAfterFrames(rs[..i], damaged[at..]);
  }
}
