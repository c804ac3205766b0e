/**
 The bridge key on the wire: the gateway publishes a P-256 point as two
 Base64urlUInt texts (section 2 of RFC 7518), the MCP server reads them back
 into the cached verification key.
 */
module BridgeKeys {
  import opened Wrappers
  import opened Base64Url

  // ---- Integers as big-endian octets ----

  function BitLength(v: nat): nat {
    if v == 0 then 0 else 1 + BitLength(v / 2)
  }

  function ByteLength(v: nat): (n: nat)
    ensures n >= 1
  {
    if BitLength(v) == 0 then 1 else (BitLength(v) + 7) / 8
  }

  function Pow(base: nat, n: nat): nat {
    if n == 0 then 1 else base * Pow(base, n - 1)
  }

  /** `int.to_bytes(n, "big")`, which raises when the value does not fit. */
  function ToBytes(v: nat, n: nat): Option<seq<byte>> {
    if n == 0 then (if v == 0 then Some([]) else None)
    else
      match ToBytes(v / 256, n - 1)
      case None => None
      case Some(high) => Some(high + [v % 256])
  }

  /** `int.from_bytes(b, "big")` */
  function FromBytes(b: seq<byte>): nat {
    if b == [] then 0 else FromBytes(b[..|b| - 1]) * 256 + b[|b| - 1]
  }

  /** The gateway's `_b64url_uint`; None stands for the OverflowError. */
  function EncodeUint(v: nat): Option<string> {
    match ToBytes(v, ByteLength(v))
    case None => None
    case Some(raw) => Some(Encode(raw))
  }

  /** The MCP server's `_b64url_uint`. */
  function DecodeUint(s: string): Option<nat> {
    match Decode(s)
    case None => None
    case Some(raw) => Some(FromBytes(raw))
  }

  lemma {:induction false} ToBytesFits(v: nat, n: nat)
    ensures ToBytes(v, n).Some? <==> v < Pow(256, n)
    ensures ToBytes(v, n).Some? ==> |ToBytes(v, n).value| == n && FromBytes(ToBytes(v, n).value) == v
  {
    if n > 0 {
      ToBytesFits(v / 256, n - 1);
      assert v / 256 < Pow(256, n - 1) <==> v < 256 * Pow(256, n - 1);
      if ToBytes(v, n).Some? {
        var raw := ToBytes(v, n).value;
        assert raw[..|raw| - 1] == ToBytes(v / 256, n - 1).value;
      }
    }
  }

  lemma {:induction false} BitLengthBounds(v: nat)
    ensures v < Pow(2, BitLength(v))
    ensures v > 0 ==> Pow(2, BitLength(v) - 1) <= v
  {
    if v > 1 {
      BitLengthBounds(v / 2);
    } else if v == 1 {
      assert BitLength(0) == 0 && Pow(2, 0) == 1;
    }
  }

  lemma {:induction false} PowMonotonic(base: nat, m: nat, n: nat)
    requires base >= 1 && m <= n
    ensures 1 <= Pow(base, m) <= Pow(base, n)
  {
    if m < n {
      PowMonotonic(base, m, n - 1);
      assert base * Pow(base, n - 1) >= Pow(base, n - 1);
    } else if n > 0 {
      PowMonotonic(base, m - 1, n - 1);
      assert base * Pow(base, n - 1) >= Pow(base, n - 1);
    }
  }

  lemma {:induction false} Pow256IsPow2(n: nat)
    ensures Pow(256, n) == Pow(2, 8 * n)
  {
    if n > 0 {
      Pow256IsPow2(n - 1);
      var k := 8 * n - 8;
      assert Pow(2, k + 1) == 2 * Pow(2, k);
      assert Pow(2, k + 2) == 2 * Pow(2, k + 1);
      assert Pow(2, k + 3) == 2 * Pow(2, k + 2);
      assert Pow(2, k + 4) == 2 * Pow(2, k + 3);
      assert Pow(2, k + 5) == 2 * Pow(2, k + 4);
      assert Pow(2, k + 6) == 2 * Pow(2, k + 5);
      assert Pow(2, k + 7) == 2 * Pow(2, k + 6);
      assert Pow(2, k + 8) == 2 * Pow(2, k + 7);
    }
  }

  /** The octet count is the least that holds the value (one octet for zero). */
  lemma ByteLengthIsMinimal(v: nat, n: nat)
    requires n >= 1
    ensures ByteLength(v) <= n <==> v < Pow(256, n)
  {
    var bits := BitLength(v);
    BitLengthBounds(v);
    Pow256IsPow2(n);
    if bits <= 8 * n {
      PowMonotonic(2, bits, 8 * n);
    } else {
      PowMonotonic(2, 8 * n, bits - 1);
    }
  }

  /** What the gateway publishes, the verifier reads back, for every integer. */
  lemma UintRoundTrip(v: nat)
    ensures EncodeUint(v).Some?
    ensures DecodeUint(EncodeUint(v).value) == Some(v)
  {
    ByteLengthIsMinimal(v, ByteLength(v));
    ToBytesFits(v, ByteLength(v));
    RoundTrip(ToBytes(v, ByteLength(v)).value);
  }

  /** No leading zero octet, except the single octet of zero. */
  lemma NoLeadingZeroOctet(v: nat)
    requires v > 0
    ensures var raw := ToBytes(v, ByteLength(v));
            raw.Some? && raw.value != [] && raw.value[0] != 0
  {
    var n := ByteLength(v);
    ByteLengthIsMinimal(v, n);
    ToBytesFits(v, n);
    if n > 1 {
      ByteLengthIsMinimal(v, n - 1);
    }
    LeadingOctet(v, n);
  }

  lemma {:induction false} LeadingOctet(v: nat, n: nat)
    requires n >= 1 && v < Pow(256, n)
    ensures ToBytes(v, n).Some? && |ToBytes(v, n).value| == n
    ensures ToBytes(v, n).value[0] == 0 <==> v < Pow(256, n - 1)
  {
    ToBytesFits(v, n);
    if n > 1 {
      assert v / 256 < Pow(256, n - 1);
      LeadingOctet(v / 256, n - 1);
      assert v / 256 < Pow(256, n - 2) <==> v < 256 * Pow(256, n - 2);
    } else {
      assert ToBytes(v / 256, 0) == Some([]);
    }
  }

  /** Length of the published text, and its alphabet: unpadded base64url throughout. */
  lemma UintText(v: nat)
    ensures EncodeUint(v).Some?
    ensures |EncodeUint(v).value| == (4 * ByteLength(v) + 2) / 3
    ensures forall i :: 0 <= i < |EncodeUint(v).value| ==> InAlphabet(EncodeUint(v).value[i])
    ensures v == 0 ==> EncodeUint(v) == Some("AA")
  {
    ByteLengthIsMinimal(v, ByteLength(v));
    ToBytesFits(v, ByteLength(v));
    var raw := ToBytes(v, ByteLength(v)).value;
    EncodeIsUnpadded(raw);
    UnpaddedShape(raw);
    if v == 0 {
      assert ToBytes(0, 0) == Some([]);
      assert raw == [0];
    }
  }

  /** A coordinate below 2^256 never needs more than 43 characters.  The full size
      that section 6.2.1.2 of RFC 7518 demands of a P-256 coordinate is reached
      exactly by those that need all 32 octets. */
  lemma CoordinateLength(v: nat)
    requires v < Pow(256, 32)
    ensures EncodeUint(v).Some? && |EncodeUint(v).value| <= 43
    ensures |EncodeUint(v).value| == 43 <==> v >= Pow(256, 31)
  {
    UintText(v);
    ByteLengthIsMinimal(v, 32);
    ByteLengthIsMinimal(v, 31);
  }

  // ---- The published document and the verifier's cache ----

  datatype PublicKey = PublicKey(x: nat, y: nat)

  /** A JWK document; a field may be absent from what the network returned. */
  datatype Jwk = Jwk(kty: Option<string>, crv: Option<string>, x: Option<string>, y: Option<string>,
                     kid: Option<string>, alg: Option<string>, use: Option<string>)

  /** `public_jwk` */
  function PublicJwk(key: PublicKey, kid: string): Jwk {
    Jwk(Some("EC"), Some("P-256"), EncodeUint(key.x), EncodeUint(key.y),
        Some(kid), Some("ES256"), Some("sig"))
  }

  /** `_public_key_from_jwk` behind the checks of `set_jwk`; `onCurve` is the library's
      own test of the point. */
  function ReadJwk(jwk: Jwk, onCurve: PublicKey -> bool): Option<PublicKey> {
    if jwk.kty != Some("EC") || jwk.crv != Some("P-256") || jwk.x.None? || jwk.y.None? then None
    else
      match (DecodeUint(jwk.x.value), DecodeUint(jwk.y.value))
      case (Some(x), Some(y)) => if onCurve(PublicKey(x, y)) then Some(PublicKey(x, y)) else None
      case _ => None
  }

  class BridgeVerifier {
    var cachedJwk: Option<Jwk>
    var cachedKey: Option<PublicKey>

    /** The two globals always agree. */
    ghost predicate Valid(onCurve: PublicKey -> bool)
      reads this
    {
      match cachedJwk
      case None => cachedKey == None
      case Some(jwk) => cachedKey.Some? && ReadJwk(jwk, onCurve) == cachedKey
    }

    constructor ()
      ensures cachedJwk == None && cachedKey == None
    {
      cachedJwk := None;
      cachedKey := None;
    }

    /** `set_jwk`: a malformed refresh raises and leaves the previous key in place. */
    method SetJwk(jwk: Jwk, onCurve: PublicKey -> bool) returns (ok: bool)
      requires Valid(onCurve)
      modifies this
      ensures Valid(onCurve)
      ensures ok <==>
              && jwk.kty == Some("EC") && jwk.crv == Some("P-256") && jwk.x.Some? && jwk.y.Some?
              && DecodeUint(jwk.x.value).Some? && DecodeUint(jwk.y.value).Some?
              && onCurve(PublicKey(DecodeUint(jwk.x.value).value, DecodeUint(jwk.y.value).value))
      ensures ok ==>
                && cachedJwk == Some(jwk)
                && cachedKey == Some(PublicKey(DecodeUint(jwk.x.value).value, DecodeUint(jwk.y.value).value))
      ensures !ok ==> cachedJwk == old(cachedJwk) && cachedKey == old(cachedKey)
    {
      if jwk.kty != Some("EC") || jwk.crv != Some("P-256") {
        return false;
      }
      if jwk.x.None? || jwk.y.None? {
        return false;
      }
      var x := DecodeUint(jwk.x.value);
      var y := DecodeUint(jwk.y.value);
      if x.None? || y.None? || !onCurve(PublicKey(x.value, y.value)) {
        return false;
      }
      cachedJwk := Some(jwk);
      cachedKey := Some(PublicKey(x.value, y.value));
      return true;
    }
  }

  /** The verifier ends up with exactly the key the gateway signs for, provided the
      point is on the curve; the document says what it is for. */
  lemma PublishedKeyIsReadBack(key: PublicKey, kid: string, onCurve: PublicKey -> bool)
    ensures var jwk := PublicJwk(key, kid);
            jwk.kid == Some(kid) && jwk.alg == Some("ES256") && jwk.use == Some("sig")
    ensures ReadJwk(PublicJwk(key, kid), onCurve) == if onCurve(key) then Some(key) else None
  {
    UintRoundTrip(key.x);
    UintRoundTrip(key.y);
  }
}
