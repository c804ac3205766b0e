/** UTF-8 (RFC 3629) over Unicode scalar values, as `str.encode` and the strict
    `bytes.decode` do it. */
module Utf8 {
  import opened Wrappers
  import opened Base64Url

  function EncodeChar(c: char): (b: seq<byte>)
    ensures 1 <= |b| <= 4
  {
    var p := c as int;
    if p < 0x80 then [p]
    else if p < 0x800 then [0xC0 + p / 64, 0x80 + p % 64]
    else if p < 0x10000 then [0xE0 + p / 4096, 0x80 + p / 64 % 64, 0x80 + p % 64]
    else [0xF0 + p / 262144, 0x80 + p / 4096 % 64, 0x80 + p / 64 % 64, 0x80 + p % 64]
  }

  function Encode(s: string): seq<byte> {
    if s == "" then [] else EncodeChar(s[0]) + Encode(s[1..])
  }

  predicate Continuation(b: byte) {
    0x80 <= b < 0xC0
  }

  /** The six payload bits of a continuation octet. */
  function Low(b: byte): (v: int)
    requires Continuation(b)
    ensures 0 <= v < 64
  {
    b - 0x80
  }

  /** The code point at the front of `b`: over-long forms and surrogates are malformed. */
  function FirstChar(b: seq<byte>): (r: Option<(char, int)>)
    requires b != []
    ensures r.Some? ==> 1 <= r.value.1 <= |b|
  {
    if b[0] < 0x80 then Some((b[0] as char, 1))
    else if 0xC2 <= b[0] < 0xE0 && |b| >= 2 && Continuation(b[1]) then
      var lead: int := b[0] - 0xC0;
      Some(((lead * 64 + Low(b[1])) as char, 2))
    else if 0xE0 <= b[0] < 0xF0 && |b| >= 3 && Continuation(b[1]) && Continuation(b[2]) then
      var lead: int := b[0] - 0xE0;
      var p := lead * 4096 + Low(b[1]) * 64 + Low(b[2]);
      if 0x800 <= p < 0xD800 || 0xE000 <= p then Some((p as char, 3)) else None
    else if 0xF0 <= b[0] < 0xF5 && |b| >= 4
      && Continuation(b[1]) && Continuation(b[2]) && Continuation(b[3]) then
      var lead: int := b[0] - 0xF0;
      var p := lead * 262144 + Low(b[1]) * 4096 + Low(b[2]) * 64 + Low(b[3]);
      if 0x10000 <= p < 0x110000 then Some((p as char, 4)) else None
    else None
  }

  function Decode(b: seq<byte>): Option<string>
    decreases |b|
  {
    if b == [] then Some("")
    else
      match FirstChar(b)
      case None => None
      case Some((c, n)) =>
        match Decode(b[n..])
        case None => None
        case Some(rest) => Some([c] + rest)
  }

  /** A code point in six-bit digits. */
  lemma SixBitDigits(p: nat)
    requires p < 0x110000
    ensures p == p / 4096 * 4096 + p / 64 % 64 * 64 + p % 64
    ensures p == p / 262144 * 262144 + p / 4096 % 64 * 4096 + p / 64 % 64 * 64 + p % 64
    ensures p < 0x10000 ==> p / 4096 < 16
    ensures p / 262144 < 5
  {
  }

  lemma ThreeOctets(c: char, rest: seq<byte>)
    requires 0x800 <= c as int < 0x10000
    ensures FirstChar(EncodeChar(c) + rest) == Some((c, 3))
  {
    var p := c as int;
    var b := EncodeChar(c) + rest;
    SixBitDigits(p);
    assert b[0] == 0xE0 + p / 4096 && b[1] == 0x80 + p / 64 % 64 && b[2] == 0x80 + p % 64;
  }

  lemma FourOctets(c: char, rest: seq<byte>)
    requires 0x10000 <= c as int
    ensures FirstChar(EncodeChar(c) + rest) == Some((c, 4))
  {
    var p := c as int;
    var b := EncodeChar(c) + rest;
    SixBitDigits(p);
    assert b[0] == 0xF0 + p / 262144 && b[1] == 0x80 + p / 4096 % 64;
    assert b[2] == 0x80 + p / 64 % 64 && b[3] == 0x80 + p % 64;
  }

  lemma FirstCharInvertsEncodeChar(c: char, rest: seq<byte>)
    ensures FirstChar(EncodeChar(c) + rest) == Some((c, |EncodeChar(c)|))
  {
    if 0x800 <= c as int < 0x10000 {
      ThreeOctets(c, rest);
    } else if 0x10000 <= c as int {
      FourOctets(c, rest);
    }
  }

  lemma {:induction false} RoundTrip(s: string)
    ensures Decode(Encode(s)) == Some(s)
  {
    if s != "" {
      var head := EncodeChar(s[0]);
      FirstCharInvertsEncodeChar(s[0], Encode(s[1..]));
      assert (head + Encode(s[1..]))[|head|..] == Encode(s[1..]);
      RoundTrip(s[1..]);
      assert [s[0]] + s[1..] == s;
    }
  }
}
