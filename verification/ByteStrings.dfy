/** Byte strings: fixed-width integer encodings and the lexicographic order that
    storage scans, key ranges and placement lookups all rely on. */
module ByteStrings {

  type byte = x: int | 0 <= x < 256
  type u32 = x: int | 0 <= x < 0x1_0000_0000
  type u64 = x: int | 0 <= x < 0x1_0000_0000_0000_0000
  type Bytes = seq<byte>

  const U64_MAX: u64 := 0xFFFF_FFFF_FFFF_FFFF

  /** `u64::saturating_add` */
  function SaturatingAdd(a: u64, b: u64): u64 {
    if a + b > U64_MAX then U64_MAX else a + b
  }

  datatype Option<+T> = None | Some(value: T)

  /** What the node reports instead of a value. */
  datatype Error = Corrupt(reason: string) | Config(reason: string) | QuotaExceeded(used: u64, limit: u64)

  datatype Result<+T> = Ok(value: T) | Err(error: Error)

  // ---------------------------------------------------------------- integers

  function Pow256(width: nat): nat {
    if width == 0 then 1 else 256 * Pow256(width - 1)
  }

  /** The low `width` bytes of `n`, least significant first: a cast to a narrower
      integer followed by `to_le_bytes`. */
  function LE(n: nat, width: nat): (s: Bytes)
    ensures |s| == width
    decreases width
  {
    if width == 0 then [] else [n % 256] + LE(n / 256, width - 1)
  }

  function FromLE(s: Bytes): nat {
    if s == [] then 0 else s[0] + 256 * FromLE(s[1..])
  }

  function BE(n: nat, width: nat): (s: Bytes)
    ensures |s| == width
    decreases width
  {
    if width == 0 then [] else BE(n / 256, width - 1) + [n % 256]
  }

  function FromBE(s: Bytes): nat {
    if s == [] then 0 else 256 * FromBE(s[..|s| - 1]) + s[|s| - 1]
  }

  lemma Pow256Values()
    ensures Pow256(2) == 0x1_0000
    ensures Pow256(4) == 0x1_0000_0000
    ensures Pow256(8) == 0x1_0000_0000_0000_0000
  {
    assert Pow256(4) == 256 * (256 * Pow256(2));
    assert Pow256(6) == 256 * (256 * Pow256(4));
  }

  lemma {:induction false} FromLEBound(s: Bytes)
    ensures FromLE(s) < Pow256(|s|)
  {
    if s != [] {
      FromLEBound(s[1..]);
    }
  }

  /** Encoding keeps a number exactly when it fits: what is read back is the number
      modulo 256^width. */
  lemma {:induction false} LERoundTrip(n: nat, width: nat)
    ensures n < Pow256(width) ==> FromLE(LE(n, width)) == n
    decreases width
  {
    if width > 0 {
      LERoundTrip(n / 256, width - 1);
      assert LE(n, width)[1..] == LE(n / 256, width - 1);
    }
  }

  lemma {:induction false} LEInverse(s: Bytes)
    ensures LE(FromLE(s), |s|) == s
  {
    if s != [] {
      LEInverse(s[1..]);
      var n := FromLE(s);
      assert n % 256 == s[0] && n / 256 == FromLE(s[1..]);
    }
  }

  lemma {:induction false} FromBEBound(s: Bytes)
    ensures FromBE(s) < Pow256(|s|)
  {
    if s != [] {
      FromBEBound(s[..|s| - 1]);
    }
  }

  lemma {:induction false} BERoundTrip(n: nat, width: nat)
    ensures n < Pow256(width) ==> FromBE(BE(n, width)) == n
    decreases width
  {
    if width > 0 {
      BERoundTrip(n / 256, width - 1);
      assert BE(n, width)[..width - 1] == BE(n / 256, width - 1);
    }
  }

  lemma {:induction false} BEInverse(s: Bytes)
    ensures BE(FromBE(s), |s|) == s
  {
    if s != [] {
      BEInverse(s[..|s| - 1]);
      var n := FromBE(s);
      assert n % 256 == s[|s| - 1] && n / 256 == FromBE(s[..|s| - 1]);
      assert s == s[..|s| - 1] + [s[|s| - 1]];
    }
  }

  lemma {:induction false} TimesAtLeast(d: nat, x: nat)
    requires x > 0
    ensures d * x >= d
  {
    if x > 1 {
      TimesAtLeast(d, x - 1);
      assert d * x == d * (x - 1) + d;
    }
  }

  lemma QuotientIs(n: nat, d: nat, q: nat, r: nat)
    requires r < d && n == d * q + r
    ensures n / d == q
  {
    var q', r' := n / d, n % d;
    assert d * q' + r' == d * q + r;
    Apart(d, q', q);
    Apart(d, q, q');
  }

  lemma Apart(d: nat, x: nat, y: nat)
    ensures x < y ==> d * x + d <= d * y
  {
    if x < y {
      TimesAtLeast(d, y - x);
      assert d * (y - x) == d * y - d * x;
    }
  }

  lemma DivDiv(n: nat, b: nat)
    requires b > 0
    ensures n / 256 / b == n / (256 * b)
  {
    var q, r, low := n / 256 / b, n / 256 % b, n % 256;
    assert n / 256 == b * q + r;
    assert 256 * (b * q) == (256 * b) * q;
    QuotientIs(n, 256 * b, q, 256 * r + low);
  }

  lemma Pow256Positive(k: nat)
    ensures Pow256(k) > 0
  {}

  /** The byte at `i` is the digit of weight 256^i. */
  lemma {:induction false} LEDigit(n: nat, width: nat, i: nat)
    requires i < width
    ensures Pow256(i) > 0 && LE(n, width)[i] == n / Pow256(i) % 256
    decreases width
  {
    Pow256Positive(i);
    if i > 0 {
      LEDigit(n / 256, width - 1, i - 1);
      DivDiv(n, Pow256(i - 1));
    }
  }

  /** Most significant byte first, the digit of weight 256^i is `i` places from the end. */
  lemma {:induction false} BEDigit(n: nat, width: nat, i: nat)
    requires i < width
    ensures Pow256(i) > 0 && BE(n, width)[width - 1 - i] == n / Pow256(i) % 256
    decreases width
  {
    Pow256Positive(i);
    if i > 0 {
      BEDigit(n / 256, width - 1, i - 1);
      DivDiv(n, Pow256(i - 1));
    }
  }

  /** What four little-endian bytes denote. */
  function U32LE(s: Bytes): (n: u32)
    requires |s| == 4
    ensures LE(n, 4) == s
  {
    FromLEBound(s); LEInverse(s); Pow256Values();
    FromLE(s)
  }

  function U64LE(s: Bytes): (n: u64)
    requires |s| == 8
    ensures LE(n, 8) == s
  {
    FromLEBound(s); LEInverse(s); Pow256Values();
    FromLE(s)
  }

  function U64BE(s: Bytes): (n: u64)
    requires |s| == 8
    ensures BE(n, 8) == s
  {
    FromBEBound(s); BEInverse(s); Pow256Values();
    FromBE(s)
  }

  lemma U32LEEncode(n: u32)
    ensures U32LE(LE(n, 4)) == n
  {
    LERoundTrip(n, 4); Pow256Values();
  }

  lemma U64LEEncode(n: u64)
    ensures U64LE(LE(n, 8)) == n
  {
    LERoundTrip(n, 8); Pow256Values();
  }

  lemma U64BEEncode(n: u64)
    ensures U64BE(BE(n, 8)) == n
  {
    BERoundTrip(n, 8); Pow256Values();
  }

  // -------------------------------------------------------------- the order

  /** Byte-wise lexicographic order, the `Ord` of Rust byte slices. */
  predicate Less(a: Bytes, b: Bytes) {
    b != [] && (a == [] || a[0] < b[0] || (a[0] == b[0] && Less(a[1..], b[1..])))
  }

  predicate AtMost(a: Bytes, b: Bytes) {
    a == b || Less(a, b)
  }

  lemma {:induction false} LessIrreflexive(a: Bytes)
    ensures !Less(a, a)
  {
    if a != [] { LessIrreflexive(a[1..]); }
  }

  lemma {:induction false} LessTransitive(a: Bytes, b: Bytes, c: Bytes)
    requires Less(a, b) && Less(b, c)
    ensures Less(a, c)
  {
    if a != [] && a[0] == b[0] == c[0] {
      LessTransitive(a[1..], b[1..], c[1..]);
    }
  }

  lemma {:induction false} LessTotal(a: Bytes, b: Bytes)
    ensures a == b || Less(a, b) || Less(b, a)
  {
    if a != [] && b != [] && a[0] == b[0] {
      LessTotal(a[1..], b[1..]);
      assert a == [a[0]] + a[1..] && b == [b[0]] + b[1..];
    }
  }

  /** The three facts above in the form case splits need them. */
  lemma LessTrichotomy(a: Bytes, b: Bytes)
    ensures Less(a, b) ==> a != b && !Less(b, a)
    ensures a == b || Less(a, b) || Less(b, a)
    ensures !Less(a, b) <==> AtMost(b, a)
  {
    LessTotal(a, b);
    LessIrreflexive(a);
    if Less(a, b) && Less(b, a) { LessTransitive(a, b, a); }
  }

  /** A common prefix never decides a comparison. */
  lemma {:induction false} LessCommonPrefix(p: Bytes, a: Bytes, b: Bytes)
    ensures Less(p + a, p + b) <==> Less(a, b)
  {
    if p == [] {
      assert p + a == a && p + b == b;
    } else {
      assert (p + a)[1..] == p[1..] + a && (p + b)[1..] == p[1..] + b;
      LessCommonPrefix(p[1..], a, b);
    }
  }

  /** An extension never sorts before what it extends. */
  lemma PrefixAtMost(p: Bytes, k: Bytes)
    requires p <= k
    ensures AtMost(p, k)
  {
    var r := k[|p|..];
    assert k == p + r && p == p + [];
    LessCommonPrefix(p, [], r);
  }
}
