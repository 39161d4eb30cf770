/** The tenant key codec: length-prefixed tenant, subspace byte, user key. */
module KeyCodec {
  import opened ByteStrings

  datatype Subspace = Metadata | Data | Index | Stats {
    function Code(): byte {
      match this
      case Metadata => 0
      case Data => 1
      case Index => 2
      case Stats => 3
    }
  }

  function SubspaceOf(b: byte): Option<Subspace> {
    match b
    case 0 => Some(Metadata)
    case 1 => Some(Data)
    case 2 => Some(Index)
    case 3 => Some(Stats)
    case _ => None
  }

  datatype DecodedKey = DecodedKey(tenant: Bytes, subspace: Subspace, payload: Bytes)

  const MAX_TENANT_LEN: nat := 255

  predicate Tail(s: Bytes, i: nat, lo: byte, hi: byte) {
    i < |s| && lo <= s[i] <= hi
  }

  /** Length of the UTF-8 character at the front of `s`, or 0 if there is none
      (section 4 of RFC 3629). */
  function CharLen(s: Bytes): (n: nat)
    ensures n <= |s|
  {
    if s == [] then 0
    else if s[0] <= 0x7F then 1
    else if 0xC2 <= s[0] <= 0xDF then (if Tail(s, 1, 0x80, 0xBF) then 2 else 0)
    else if 0xE0 <= s[0] <= 0xEF then
      var lo := if s[0] == 0xE0 then 0xA0 else 0x80;
      var hi := if s[0] == 0xED then 0x9F else 0xBF;
      if Tail(s, 1, lo, hi) && Tail(s, 2, 0x80, 0xBF) then 3 else 0
    else if 0xF0 <= s[0] <= 0xF4 then
      var lo := if s[0] == 0xF0 then 0x90 else 0x80;
      var hi := if s[0] == 0xF4 then 0x8F else 0xBF;
      if Tail(s, 1, lo, hi) && Tail(s, 2, 0x80, 0xBF) && Tail(s, 3, 0x80, 0xBF) then 4 else 0
    else 0
  }

  /** What Rust guarantees of a `&str` and checks in `from_utf8`. */
  predicate ValidUtf8(s: Bytes)
    decreases |s|
  {
    s == [] || (CharLen(s) > 0 && ValidUtf8(s[CharLen(s)..]))
  }

  predicate LegalTenant(tenant: Bytes) {
    ValidUtf8(tenant) && 0 < |tenant| <= MAX_TENANT_LEN
  }

  function TenantPrefix(tenant: Bytes): Bytes
    requires |tenant| <= MAX_TENANT_LEN
  {
    [|tenant|] + tenant
  }

  /** The encoded form of a key of a legal tenant. */
  function Key(tenant: Bytes, subspace: Subspace, payload: Bytes): Bytes
    requires |tenant| <= MAX_TENANT_LEN
  {
    TenantPrefix(tenant) + [subspace.Code()] + payload
  }

  function DataKey(tenant: Bytes, payload: Bytes): Bytes
    requires |tenant| <= MAX_TENANT_LEN
  {
    Key(tenant, Data, payload)
  }

  function Encode(tenant: Bytes, subspace: Subspace, payload: Bytes): Result<Bytes>
    requires ValidUtf8(tenant)
  {
    if tenant == [] then Err(Config("empty tenant"))
    else if |tenant| > MAX_TENANT_LEN then Err(Config("tenant too long"))
    else Ok(Key(tenant, subspace, payload))
  }

  function Decode(key: Bytes): Result<DecodedKey> {
    if key == [] then Err(Corrupt("empty key"))
    else
      var tlen := key[0];
      if tlen == 0 then Err(Corrupt("empty tenant"))
      else if 1 + tlen + 1 > |key| then Err(Corrupt("truncated key"))
      else if !ValidUtf8(key[1..1 + tlen]) then Err(Corrupt("tenant utf8"))
      else match SubspaceOf(key[1 + tlen])
        case None => Err(Corrupt("subspace byte"))
        case Some(sub) => Ok(DecodedKey(key[1..1 + tlen], sub, key[2 + tlen..]))
  }

  lemma DecodeKey(tenant: Bytes, subspace: Subspace, payload: Bytes)
    requires LegalTenant(tenant)
    ensures Decode(Key(tenant, subspace, payload)) == Ok(DecodedKey(tenant, subspace, payload))
  {
    var key := Key(tenant, subspace, payload);
    assert key[1 + |tenant|] == subspace.Code();
    assert key[1..1 + |tenant|] == tenant;
    assert key[2 + |tenant|..] == payload;
  }

  lemma KeyOfDecoded(key: Bytes)
    requires Decode(key).Ok?
    ensures LegalTenant(Decode(key).value.tenant)
    ensures var d := Decode(key).value; Key(d.tenant, d.subspace, d.payload) == key
  {
    var tlen := key[0];
    assert key == [tlen] + key[1..1 + tlen] + [key[1 + tlen]] + key[2 + tlen..];
  }

  /** The stored format: the tenant's length, the tenant, the subspace, the user key; and which
      names cannot be a tenant's. */
  lemma KeyLayout(tenant: Bytes, subspace: Subspace, payload: Bytes)
    requires ValidUtf8(tenant)
    ensures Encode(tenant, subspace, payload).Ok? <==> 1 <= |tenant| <= 255
    ensures Encode(tenant, subspace, payload).Ok? ==>
      var key, n := Encode(tenant, subspace, payload).value, |tenant|;
      && |key| == n + 2 + |payload|
      && key[0] == n && key[1..n + 1] == tenant && key[n + 2..] == payload
      && key[n + 1] == (match subspace case Metadata => 0 case Data => 1 case Index => 2 case Stats => 3)
  {
    if 1 <= |tenant| <= 255 {
      var key := Key(tenant, subspace, payload);
      assert key[1..|tenant| + 1] == tenant;
      assert key[|tenant| + 2..] == payload;
    }
  }

  lemma DataKeyDecodes(tenant: Bytes, payload: Bytes)
    requires LegalTenant(tenant)
    ensures Decode(DataKey(tenant, payload)) == Ok(DecodedKey(tenant, Data, payload))
  {
    DecodeKey(tenant, Data, payload);
  }

  /** `Decode` accepts exactly what `Encode` produces, and the two invert each other. */
  lemma CodecBijection(key: Bytes, tenant: Bytes, subspace: Subspace, payload: Bytes)
    ensures Decode(key) == Ok(DecodedKey(tenant, subspace, payload))
       <==> ValidUtf8(tenant) && Encode(tenant, subspace, payload) == Ok(key)
  {
    if Decode(key) == Ok(DecodedKey(tenant, subspace, payload)) {
      KeyOfDecoded(key);
    }
    if ValidUtf8(tenant) && Encode(tenant, subspace, payload) == Ok(key) {
      DecodeKey(tenant, subspace, payload);
    }
  }

  /** No tenant's prefix reaches into another tenant's keys, however similar the names. */
  lemma TenantsNeverOverlap(t: Bytes, u: Bytes, subspace: Subspace, payload: Bytes)
    requires |t| <= MAX_TENANT_LEN && |u| <= MAX_TENANT_LEN
    ensures TenantPrefix(t) <= Key(u, subspace, payload) <==> t == u
    ensures TenantPrefix(t) <= TenantPrefix(u) <==> t == u
  {
    var k := Key(u, subspace, payload);
    if TenantPrefix(t) <= k {
      assert k[0] == TenantPrefix(t)[0];
      assert t == TenantPrefix(t)[1..] == k[1..1 + |t|] == u;
    }
    if TenantPrefix(t) <= TenantPrefix(u) {
      assert TenantPrefix(u)[0] == TenantPrefix(t)[0];
      assert t == TenantPrefix(t)[1..] == TenantPrefix(u)[1..] == u;
    }
  }

  /** Within a tenant, encoded order is subspace order, then user-key order. */
  lemma KeyOrder(t: Bytes, s1: Subspace, p1: Bytes, s2: Subspace, p2: Bytes)
    requires |t| <= MAX_TENANT_LEN
    ensures Less(Key(t, s1, p1), Key(t, s2, p2))
       <==> s1.Code() < s2.Code() || (s1 == s2 && Less(p1, p2))
  {
    var x, y := [s1.Code()] + p1, [s2.Code()] + p2;
    assert Key(t, s1, p1) == TenantPrefix(t) + x && Key(t, s2, p2) == TenantPrefix(t) + y;
    LessCommonPrefix(TenantPrefix(t), x, y);
    assert x[1..] == p1 && y[1..] == p2;
  }
}
