/**
 Unpadded base64url (section 5 of RFC 4648) as the cursors, session ids and JWK
 coordinates use it: `urlsafe_b64encode(..).rstrip("=")` one way, and
 `urlsafe_b64decode(s + "=" * (-len(s) % 4))` the other.  The decoder is the
 non-strict scanner behind `base64.b64decode`: it skips foreign characters and
 stops at a pad that completes a group of four.
 */
module Base64Url {
  import opened Strings
  import opened Wrappers

  type byte = x: int | 0 <= x < 256

  /** The character standing for six bits, in the URL-safe alphabet. */
  function Symbol(v: int): (c: char)
    requires 0 <= v < 64
    ensures SixBits(c) == Some(v)
    ensures InAlphabet(c)
  {
    if v < 26 then ('A' as int + v) as char
    else if v < 52 then ('a' as int + (v - 26)) as char
    else if v < 62 then ('0' as int + (v - 52)) as char
    else if v == 62 then '-'
    else '_'
  }

  /** Six bits for a character; the standard alphabet's '+' and '/' are taken too. */
  function SixBits(c: char): (v: Option<int>)
    ensures v.Some? ==> 0 <= v.value < 64
  {
    if 'A' <= c <= 'Z' then Some(c as int - 'A' as int)
    else if 'a' <= c <= 'z' then Some(c as int - 'a' as int + 26)
    else if '0' <= c <= '9' then Some(c as int - '0' as int + 52)
    else if c == '-' || c == '+' then Some(62)
    else if c == '_' || c == '/' then Some(63)
    else None
  }

  predicate InAlphabet(c: char) {
    'A' <= c <= 'Z' || 'a' <= c <= 'z' || '0' <= c <= '9' || c == '-' || c == '_'
  }

  predicate IsAscii(s: string) {
    forall i :: 0 <= i < |s| ==> s[i] < 128 as char
  }

  /** The two, three or four symbols of a group; `low` fills the last one. */
  function Two(b0: byte, low: int): (s: string)
    requires 0 <= low < 16
    ensures |s| == 2 && forall i :: 0 <= i < |s| ==> InAlphabet(s[i])
  {
    [Symbol(b0 / 4), Symbol(b0 % 4 * 16 + low)]
  }

  function Three(b0: byte, b1: byte, low: int): (s: string)
    requires 0 <= low < 4
    ensures |s| == 3 && forall i :: 0 <= i < |s| ==> InAlphabet(s[i])
  {
    Two(b0, b1 / 16) + [Symbol(b1 % 16 * 4 + low)]
  }

  function Four(b0: byte, b1: byte, b2: byte): (s: string)
    ensures |s| == 4 && forall i :: 0 <= i < |s| ==> InAlphabet(s[i])
  {
    Three(b0, b1, b2 / 64) + [Symbol(b2 % 64)]
  }

  function EncodePadded(b: seq<byte>): string {
    if |b| == 0 then ""
    else if |b| == 1 then Two(b[0], 0) + "=="
    else if |b| == 2 then Three(b[0], b[1], 0) + "="
    else Four(b[0], b[1], b[2]) + EncodePadded(b[3..])
  }

  function StripPad(s: string): (r: string)
    ensures r <= s
    ensures r == "" || r[|r| - 1] != '='
  {
    if s != "" && s[|s| - 1] == '=' then StripPad(s[..|s| - 1]) else s
  }

  function Encode(b: seq<byte>): string {
    StripPad(EncodePadded(b))
  }

  /** The scanner: `quad` symbols of the current group seen, `left` the bits carried
      over, `pads` the pads since the last symbol. */
  function Scan(s: string, quad: int, left: int, pads: nat): Option<seq<byte>>
    requires 0 <= quad < 4
    requires quad == 0 ==> left == 0
    requires quad == 1 ==> 0 <= left < 64
    requires quad == 2 ==> 0 <= left < 16
    requires quad == 3 ==> 0 <= left < 4
    decreases |s|
  {
    if s == "" then (if quad == 0 then Some([]) else None)
    else if s[0] == '=' then
      if quad >= 2 && quad + pads + 1 >= 4 then Some([])
      else Scan(s[1..], quad, left, if quad >= 2 then pads + 1 else pads)
    else
      match SixBits(s[0])
      case None => Scan(s[1..], quad, left, pads)
      case Some(v) =>
        if quad == 0 then Scan(s[1..], 1, v, 0)
        else if quad == 1 then Emit(left * 4 + v / 16, Scan(s[1..], 2, v % 16, 0))
        else if quad == 2 then Emit(left * 16 + v / 4, Scan(s[1..], 3, v % 4, 0))
        else Emit(left * 64 + v, Scan(s[1..], 0, 0, 0))
  }

  function Emit(b: byte, rest: Option<seq<byte>>): Option<seq<byte>> {
    match rest
    case None => None
    case Some(r) => Some([b] + r)
  }

  function Padding(n: nat): string {
    if n % 4 == 0 then "" else if n % 4 == 1 then "===" else if n % 4 == 2 then "==" else "="
  }

  function Decode(s: string): Option<seq<byte>> {
    if IsAscii(s) then Scan(s + Padding(|s|), 0, 0, 0) else None
  }

  // ---- The codec laws ----

  /** The encoding without pads, group by group. */
  function Unpadded(b: seq<byte>): string {
    if |b| == 0 then ""
    else if |b| == 1 then Two(b[0], 0)
    else if |b| == 2 then Three(b[0], b[1], 0)
    else Four(b[0], b[1], b[2]) + Unpadded(b[3..])
  }

  /** The pads that end a text of `n` bytes. */
  function Pads(n: nat): string {
    if n % 3 == 0 then "" else if n % 3 == 1 then "==" else "="
  }

  lemma PadsAreThePadding(n: nat)
    ensures Pads(n) == Padding((4 * n + 2) / 3)
  {
    var q, k := n / 3, n % 3;
    assert 4 * n + 2 == 3 * (4 * q) + (4 * k + 2);
    assert (4 * n + 2) / 3 == 4 * q + (4 * k + 2) / 3;
  }

  lemma {:induction false} UnpaddedShape(b: seq<byte>)
    ensures |Unpadded(b)| == (4 * |b| + 2) / 3
    ensures forall i :: 0 <= i < |Unpadded(b)| ==> InAlphabet(Unpadded(b)[i])
  {
    if |b| >= 3 {
      UnpaddedShape(b[3..]);
      assert 4 * |b| + 2 == (4 * |b[3..]| + 2) + 12;
    }
  }

  lemma {:induction false} PaddedIsUnpaddedThenPads(b: seq<byte>)
    ensures EncodePadded(b) == Unpadded(b) + Pads(|b|)
  {
    if |b| >= 3 {
      var n := |b|;
      assert Pads(n) == Pads(n - 3);
      PaddedIsUnpaddedThenPads(b[3..]);
      AppendAssociates(Four(b[0], b[1], b[2]), Unpadded(b[3..]), Pads(|b[3..]|));
    }
  }

  lemma {:induction false} StripPadDropsPads(s: string, n: nat)
    requires s == "" || s[|s| - 1] != '='
    ensures StripPad(s + seq(n, _ => '=')) == s
  {
    var t := s + seq(n, _ => '=');
    if n == 0 {
      assert t == s;
    } else {
      assert t[..|t| - 1] == s + seq(n - 1, _ => '=');
      StripPadDropsPads(s, n - 1);
    }
  }

  lemma EncodeIsUnpadded(b: seq<byte>)
    ensures Encode(b) == Unpadded(b)
  {
    var u := Unpadded(b);
    UnpaddedShape(b);
    PaddedIsUnpaddedThenPads(b);
    assert u == "" || InAlphabet(u[|u| - 1]);
    var n := |Pads(|b|)|;
    assert Pads(|b|) == seq(n, _ => '=');
    StripPadDropsPads(u, n);
  }

  /** Bits carried over once symbol `v` of a group is read. */
  function Carried(quad: int, v: int): int {
    if quad == 0 then v else if quad == 1 then v % 16 else if quad == 2 then v % 4 else 0
  }

  lemma ScanSymbol(v: int, rest: string, quad: int, left: int)
    requires 0 <= v < 64 && 0 <= quad < 4
    requires quad == 0 ==> left == 0
    requires quad == 1 ==> 0 <= left < 64
    requires quad == 2 ==> 0 <= left < 16
    requires quad == 3 ==> 0 <= left < 4
    ensures var after := Scan(rest, (quad + 1) % 4, Carried(quad, v), 0);
            Scan([Symbol(v)] + rest, quad, left, 0) ==
            if quad == 0 then after
            else Emit(if quad == 1 then left * 4 + v / 16
                      else if quad == 2 then left * 16 + v / 4
                      else left * 64 + v, after)
  {
    var s := [Symbol(v)] + rest;
    assert s[1..] == rest;
  }

  lemma ScanTwo(b0: byte, low: int, rest: string)
    requires 0 <= low < 16
    ensures Scan(Two(b0, low) + rest, 0, 0, 0) == Emit(b0, Scan(rest, 2, low, 0))
  {
    var v := b0 % 4 * 16 + low;
    assert Two(b0, low) + rest == [Symbol(b0 / 4)] + ([Symbol(v)] + rest);
    ScanSymbol(b0 / 4, [Symbol(v)] + rest, 0, 0);
    ScanSymbol(v, rest, 1, b0 / 4);
    assert v / 16 == b0 % 4 && v % 16 == low;
  }

  lemma ScanThree(b0: byte, b1: byte, low: int, rest: string)
    requires 0 <= low < 4
    ensures Scan(Three(b0, b1, low) + rest, 0, 0, 0) == Emit(b0, Emit(b1, Scan(rest, 3, low, 0)))
  {
    var v := b1 % 16 * 4 + low;
    assert Three(b0, b1, low) == Two(b0, b1 / 16) + [Symbol(v)];
    AppendAssociates(Two(b0, b1 / 16), [Symbol(v)], rest);
    ScanTwo(b0, b1 / 16, [Symbol(v)] + rest);
    ThirdSymbol(b1, low, rest);
  }

  lemma ThirdSymbol(b1: byte, low: int, rest: string)
    requires 0 <= low < 4
    ensures Scan([Symbol(b1 % 16 * 4 + low)] + rest, 2, b1 / 16, 0) == Emit(b1, Scan(rest, 3, low, 0))
  {
    var v := b1 % 16 * 4 + low;
    ScanSymbol(v, rest, 2, b1 / 16);
    assert v / 4 == b1 % 16 && v % 4 == low;
  }

  lemma ScanFour(b0: byte, b1: byte, b2: byte, rest: string)
    ensures Scan(Four(b0, b1, b2) + rest, 0, 0, 0)
         == Emit(b0, Emit(b1, Emit(b2, Scan(rest, 0, 0, 0))))
  {
    var last := [Symbol(b2 % 64)];
    AppendAssociates(Three(b0, b1, b2 / 64), last, rest);
    ScanThree(b0, b1, b2 / 64, last + rest);
    ScanSymbol(b2 % 64, rest, 3, b2 / 64);
  }

  lemma ScanPads()
    ensures Scan("==", 2, 0, 0) == Some([]) && Scan("=", 3, 0, 0) == Some([])
  {
    assert "=="[1..] == "=";
    assert Scan("=", 2, 0, 1) == Some([]);
  }

  lemma {:induction false} ScanInvertsEncoding(b: seq<byte>)
    ensures Scan(EncodePadded(b), 0, 0, 0) == Some(b)
  {
    ScanPads();
    if |b| == 1 {
      ScanTwo(b[0], 0, "==");
      assert [b[0]] + [] == b;
    } else if |b| == 2 {
      ScanThree(b[0], b[1], 0, "=");
      assert [b[1]] + [] == [b[1]];
      assert [b[0]] + [b[1]] == b;
    } else if |b| > 2 {
      ScanFour(b[0], b[1], b[2], EncodePadded(b[3..]));
      ScanInvertsEncoding(b[3..]);
      assert b == [b[0]] + ([b[1]] + ([b[2]] + b[3..]));
    }
  }

  lemma EncodedIsAscii(b: seq<byte>)
    ensures IsAscii(Encode(b))
  {
    EncodeIsUnpadded(b);
    UnpaddedShape(b);
    forall i | 0 <= i < |Encode(b)| ensures Encode(b)[i] < 128 as char {
      assert InAlphabet(Encode(b)[i]);
    }
  }

  lemma PaddingOfUnpadded(b: seq<byte>)
    ensures Padding(|Unpadded(b)|) == Pads(|b|)
  {
    var n, u := |b|, Unpadded(b);
    UnpaddedShape(b);
    PadsAreThePadding(n);
    assert |u| == (4 * n + 2) / 3;
  }

  lemma EncodedThenPadding(b: seq<byte>)
    ensures Encode(b) + Padding(|Encode(b)|) == EncodePadded(b)
  {
    EncodeIsUnpadded(b);
    PaddingOfUnpadded(b);
    PaddedIsUnpaddedThenPads(b);
  }

  /** Decoding undoes encoding, for every byte string. */
  lemma RoundTrip(b: seq<byte>)
    ensures Decode(Encode(b)) == Some(b)
  {
    EncodedIsAscii(b);
    EncodedThenPadding(b);
    ScanInvertsEncoding(b);
  }
}
