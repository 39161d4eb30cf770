/** The stored form of a value: a version byte, an optional expiry stamp, the payload. */
module ValueCodec {
  import opened ByteStrings

  const VERSION_NO_TTL: byte := 0
  const VERSION_WITH_TTL: byte := 1

  datatype StoredValue = StoredValue(expiresAt: Option<u64>, value: Bytes)

  function Encode(value: Bytes, expiresAt: Option<u64>): Bytes {
    match expiresAt
    case None => [VERSION_NO_TTL] + value
    case Some(exp) => [VERSION_WITH_TTL] + BE(exp, 8) + value
  }

  function Decode(raw: Bytes): Result<StoredValue> {
    if raw == [] then Err(Corrupt("empty value"))
    else if raw[0] == VERSION_NO_TTL then Ok(StoredValue(None, raw[1..]))
    else if raw[0] == VERSION_WITH_TTL then
      if |raw| < 9 then Err(Corrupt("ttl value too short"))
      else Ok(StoredValue(Some(U64BE(raw[1..9])), raw[9..]))
    else Err(Corrupt("unknown value version"))
  }

  /** Length of the payload, without decoding. */
  function PayloadLen(raw: Bytes): Result<nat> {
    if raw == [] then Err(Corrupt("empty value"))
    else if raw[0] == VERSION_NO_TTL then Ok(|raw| - 1)
    else if raw[0] == VERSION_WITH_TTL then
      if |raw| < 9 then Err(Corrupt("ttl value too short")) else Ok(|raw| - 9)
    else Err(Corrupt("unknown value version"))
  }

  function IsExpired(raw: Bytes, now: u64): Result<bool> {
    if raw == [] then Err(Corrupt("empty value"))
    else if raw[0] == VERSION_NO_TTL then Ok(false)
    else if raw[0] == VERSION_WITH_TTL then
      if |raw| < 9 then Err(Corrupt("ttl value too short")) else Ok(U64BE(raw[1..9]) <= now)
    else Err(Corrupt("unknown value version"))
  }

  /** `Decode` accepts exactly what `Encode` produces, and the two invert each other. */
  lemma CodecBijection(raw: Bytes, value: Bytes, expiresAt: Option<u64>)
    ensures Decode(raw) == Ok(StoredValue(expiresAt, value)) <==> Encode(value, expiresAt) == raw
  {
    if Encode(value, expiresAt) == raw {
      match expiresAt
      case None => assert raw[1..] == value;
      case Some(exp) =>
        assert raw[1..9] == BE(exp, 8) && raw[9..] == value;
        U64BEEncode(exp);
    }
    if Decode(raw) == Ok(StoredValue(expiresAt, value)) && expiresAt.Some? {
      assert raw == [raw[0]] + raw[1..9] + raw[9..];
    }
  }

  /** The two shortcuts answer what decoding would, including which inputs they refuse;
      an entry is expired exactly when it has a stamp that is not in the future. */
  lemma ShortcutsAgree(raw: Bytes, now: u64)
    ensures PayloadLen(raw) == match Decode(raw) case Ok(sv) => Ok(|sv.value|) case Err(e) => Err(e)
    ensures IsExpired(raw, now) == match Decode(raw)
                                   case Ok(sv) => Ok(sv.expiresAt.Some? && sv.expiresAt.value <= now)
                                   case Err(e) => Err(e)
  {}

  /** The stored format: a version, for version 1 the stamp with its most significant byte
      first, the value. */
  lemma ValueLayout(value: Bytes, expiresAt: Option<u64>)
    ensures var raw := Encode(value, expiresAt);
      match expiresAt
      case None => |raw| == 1 + |value| && raw[0] == 0 && raw[1..] == value
      case Some(e) =>
        && |raw| == 9 + |value| && raw[0] == 1 && raw[9..] == value
        && forall i | 0 <= i < 8 :: Pow256(i) > 0 && raw[8 - i] == e / Pow256(i) % 256
  {
    hide BE;
    var raw := Encode(value, expiresAt);
    match expiresAt
    case None => assert raw[1..] == value;
    case Some(e) =>
      assert raw[9..] == value;
      forall i | 0 <= i < 8 ensures Pow256(i) > 0 && raw[8 - i] == e / Pow256(i) % 256 {
        BEDigit(e, 8, i);
        assert raw[8 - i] == BE(e, 8)[7 - i];
      }
  }

  lemma DecodeEncode(value: Bytes, expiresAt: Option<u64>)
    ensures Decode(Encode(value, expiresAt)) == Ok(StoredValue(expiresAt, value))
  {
    CodecBijection(Encode(value, expiresAt), value, expiresAt);
  }
}
