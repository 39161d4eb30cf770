/** Which byte strings the key codec takes for text: exactly the encodings of Unicode scalar
    values (sections 3 and 4 of RFC 3629). */
module Utf8 {
  import opened ByteStrings
  import opened KeyCodec

  /** A code point that is not a surrogate. */
  predicate Scalar(c: nat) {
    c < 0xD800 || 0xE000 <= c < 0x11_0000
  }

  function EncodeScalar(c: nat): Bytes
    requires Scalar(c)
  {
    if c < 0x80 then [c]
    else if c < 0x800 then [0xC0 + c / 64, 0x80 + c % 64]
    else if c < 0x1_0000 then [0xE0 + c / 4096, 0x80 + c / 64 % 64, 0x80 + c % 64]
    else [0xF0 + c / 262144, 0x80 + c / 4096 % 64, 0x80 + c / 64 % 64, 0x80 + c % 64]
  }

  ghost predicate AllScalar(cs: seq<nat>) {
    forall i | 0 <= i < |cs| :: Scalar(cs[i])
  }

  function EncodeText(cs: seq<nat>): Bytes
    requires AllScalar(cs)
  {
    if cs == [] then [] else EncodeScalar(cs[0]) + EncodeText(cs[1..])
  }

  /** What the payload bits of a character's bytes add up to. */
  function Joined(a: int, b: int, c: int, d: int): int {
    a * 262144 + b * 4096 + c * 64 + d
  }

  lemma JoinedSplits(a: nat, b: nat, c: nat, d: nat)
    requires b < 64 && c < 64 && d < 64
    ensures var n := Joined(a, b, c, d);
      n >= 0 && n % 64 == d && n / 64 % 64 == c && n / 4096 % 64 == b && n / 262144 == a
  {
    var n := Joined(a, b, c, d);
    assert n / 64 == a * 4096 + b * 64 + c;
    assert n / 4096 == a * 64 + b;
  }

  /** What the character at the front denotes. */
  function FrontScalar(s: Bytes): int
    requires CharLen(s) > 0
  {
    var s0: int := s[0];
    if CharLen(s) == 1 then s0
    else
      var s1: int := s[1];
      if CharLen(s) == 2 then Joined(0, 0, s0 - 0xC0, s1 - 0x80)
      else
        var s2: int := s[2];
        if CharLen(s) == 3 then Joined(0, s0 - 0xE0, s1 - 0x80, s2 - 0x80)
        else
          var s3: int := s[3];
          Joined(s0 - 0xF0, s1 - 0x80, s2 - 0x80, s3 - 0x80)
  }

  lemma FrontIsScalar(s: Bytes)
    requires CharLen(s) > 0
    ensures FrontScalar(s) >= 0 && Scalar(FrontScalar(s)) && s[..CharLen(s)] == EncodeScalar(FrontScalar(s))
  {
    if CharLen(s) == 2 {
      TwoBytes(s);
    } else if CharLen(s) == 3 {
      ThreeBytes(s);
    } else if CharLen(s) == 4 {
      FourBytes(s);
    }
  }

  lemma TwoBytes(s: Bytes)
    requires CharLen(s) == 2
    ensures FrontScalar(s) >= 0 && Scalar(FrontScalar(s)) && s[..2] == EncodeScalar(FrontScalar(s))
  {
    var s0: int, s1: int := s[0], s[1];
    JoinedSplits(0, 0, s0 - 0xC0, s1 - 0x80);
  }

  lemma ThreeBytes(s: Bytes)
    requires CharLen(s) == 3
    ensures FrontScalar(s) >= 0 && Scalar(FrontScalar(s)) && s[..3] == EncodeScalar(FrontScalar(s))
  {
    var s0: int, s1: int, s2: int := s[0], s[1], s[2];
    JoinedSplits(0, s0 - 0xE0, s1 - 0x80, s2 - 0x80);
  }

  lemma FourBytes(s: Bytes)
    requires CharLen(s) == 4
    ensures FrontScalar(s) >= 0 && Scalar(FrontScalar(s)) && s[..4] == EncodeScalar(FrontScalar(s))
  {
    var s0: int, s1: int, s2: int, s3: int := s[0], s[1], s[2], s[3];
    JoinedSplits(s0 - 0xF0, s1 - 0x80, s2 - 0x80, s3 - 0x80);
  }

  lemma ScalarIsFront(c: nat, rest: Bytes)
    requires Scalar(c)
    ensures CharLen(EncodeScalar(c) + rest) == |EncodeScalar(c)| > 0
  {}

  lemma {:induction false} TextOf(s: Bytes) returns (cs: seq<nat>)
    requires ValidUtf8(s)
    ensures AllScalar(cs) && EncodeText(cs) == s
    decreases |s|
  {
    hide CharLen, FrontScalar, EncodeScalar, Scalar;
    if s == [] {
      cs := [];
    } else {
      FrontIsScalar(s);
      var rest := TextOf(s[CharLen(s)..]);
      cs := [FrontScalar(s)] + rest;
      assert cs[1..] == rest;
    }
  }

  lemma {:induction false} TextIsValid(cs: seq<nat>)
    requires AllScalar(cs)
    ensures ValidUtf8(EncodeText(cs))
  {
    hide CharLen, EncodeScalar, Scalar;
    if cs != [] {
      var front, rest := EncodeScalar(cs[0]), EncodeText(cs[1..]);
      TextIsValid(cs[1..]);
      ScalarIsFront(cs[0], rest);
      assert (front + rest)[|front|..] == rest;
    }
  }

  /** A tenant name is valid if and only if it is some text, encoded. */
  lemma ValidIsText(s: Bytes)
    ensures ValidUtf8(s) <==> exists cs :: AllScalar(cs) && EncodeText(cs) == s
  {
    hide ValidUtf8, EncodeText, Scalar;
    if ValidUtf8(s) {
      var cs := TextOf(s);
    }
    if cs :| AllScalar(cs) && EncodeText(cs) == s {
      TextIsValid(cs);
    }
  }
}
