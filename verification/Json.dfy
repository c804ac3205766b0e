/**
 Canonical JSON: what `json.dumps(.., sort_keys=True, separators=(",", ":"))`
 writes, and a reader of that form (RFC 8259).  A finite float is named by its `repr`,
 which is what `dumps` writes and what tells two floats apart.
 Strings hold Unicode scalar values, so a lone surrogate cannot occur.
 */
module Json {
  import opened Wrappers
  import opened Strings

  /** Where a run of digits ends. */
  function DigitRun(s: string): (n: nat)
    ensures n <= |s|
  {
    if s == "" || !IsDigit(s[0]) then 0 else 1 + DigitRun(s[1..])
  }

  /** `e+22`, `e-07` */
  predicate IsExponent(u: string) {
    |u| >= 3 && u[0] == 'e' && (u[1] == '+' || u[1] == '-') && DigitRun(u[2..]) == |u| - 2
  }

  /** `.5`, `.5e-07`, or an exponent alone. */
  predicate IsFraction(u: string) {
    if u != "" && u[0] == '.' then
      var j := DigitRun(u[1..]); j > 0 && (u[1 + j..] == "" || IsExponent(u[1 + j..]))
    else IsExponent(u)
  }

  /** The `repr` of a finite float: never that of an integer. */
  predicate IsFloatText(t: string) {
    var u := if t != "" && t[0] == '-' then t[1..] else t;
    var i := DigitRun(u);
    i > 0 && (i == 1 || u[0] != '0') && IsFraction(u[i..])
  }

  function Zero(): (t: string)
    ensures IsFloatText(t)
  {
    assert DigitRun("0.0"[1..]) == 0 && DigitRun("0.0") == 1;
    assert "0.0"[1..] == ".0" && ".0"[1..] == "0";
    assert DigitRun("0"[1..]) == 0 && DigitRun("0") == 1;
    "0.0"
  }

  type FloatText = t: string | IsFloatText(t) witness Zero()

  /** A Python value; an object lists its members in insertion order. */
  datatype Json =
    | Null
    | Bool(b: bool)
    | Int(n: int)
    | Float(repr: FloatText)
    | Str(s: string)
    | Arr(elems: Elems)
    | Obj(members: Members)

  datatype Elems = NoElems | Elem(head: Json, tail: Elems)

  datatype Members = NoMembers | Member(key: string, value: Json, rest: Members)

  // ---- Writing ----

  function Digit(d: nat): (c: char)
    requires d < 10
    ensures IsDigit(c) && DigitValue(c) == d
  {
    ('0' as int + d) as char
  }

  predicate IsDigit(c: char) {
    '0' <= c <= '9'
  }

  function NatText(n: nat): string {
    if n < 10 then [Digit(n)] else NatText(n / 10) + [Digit(n % 10)]
  }

  function IntText(n: int): string {
    if n < 0 then "-" + NatText(-n) else NatText(n)
  }

  function HexDigit(d: int): (c: char)
    requires 0 <= d < 16
    ensures HexValue(c) == Some(d)
  {
    if d < 10 then ('0' as int + d) as char else ('a' as int + (d - 10)) as char
  }

  function HexValue(c: char): (v: Option<int>)
    ensures v.Some? ==> 0 <= v.value < 16
  {
    if '0' <= c <= '9' then Some(c as int - '0' as int)
    else if 'a' <= c <= 'f' then Some(c as int - 'a' as int + 10)
    else if 'A' <= c <= 'F' then Some(c as int - 'A' as int + 10)
    else None
  }

  /** `\uXXXX` for one UTF-16 code unit. */
  function UnitText(u: int): (t: string)
    requires 0 <= u < 0x10000
    ensures |t| == 6 && t[0] == '\\' && t[1] == 'u'
  {
    ['\\', 'u', HexDigit(u / 4096), HexDigit(u / 256 % 16), HexDigit(u / 16 % 16), HexDigit(u % 16)]
  }

  /** The escaped form of a character: everything outside printable ASCII is `\u`-escaped. */
  function CharText(c: char): (t: string)
    ensures t != "" && t[0] != '"'
  {
    var p := c as int;
    if c == '"' then "\\\"" else if c == '\\' then "\\\\"
    else if c == '\n' then "\\n" else if c == '\r' then "\\r" else if c == '\t' then "\\t"
    else if p == 8 then "\\b" else if p == 12 then "\\f"
    else if 32 <= p < 127 then [c]
    else if p < 0x10000 then UnitText(p)
    else UnitText(0xD800 + (p - 0x10000) / 1024) + UnitText(0xDC00 + (p - 0x10000) % 1024)
  }

  function CharsText(s: string): string {
    if s == "" then "" else CharText(s[0]) + CharsText(s[1..])
  }

  function StrText(s: string): string {
    "\"" + CharsText(s) + "\""
  }

  function Text(v: Json): string {
    match v
    case Null => "null"
    case Bool(b) => if b then "true" else "false"
    case Int(n) => IntText(n)
    case Float(t) => t
    case Str(s) => StrText(s)
    case Arr(es) => "[" + ElemsText(es) + "]"
    case Obj(ms) => "{" + MembersText(ms) + "}"
  }

  function ElemsText(es: Elems): string {
    match es
    case NoElems => ""
    case Elem(v, NoElems) => Text(v)
    case Elem(v, more) => Text(v) + "," + ElemsText(more)
  }

  function MembersText(ms: Members): string {
    match ms
    case NoMembers => ""
    case Member(k, v, NoMembers) => StrText(k) + ":" + Text(v)
    case Member(k, v, more) => StrText(k) + ":" + Text(v) + "," + MembersText(more)
  }

  /** Inserts a member by key. */
  function Insert(k: string, v: Json, ms: Members): Members {
    match ms
    case NoMembers => Member(k, v, NoMembers)
    case Member(k', v', more) =>
      if Less(k', k) then Member(k', v', Insert(k, v, more)) else Member(k, v, ms)
  }

  /** `sort_keys`, at every level. */
  function Sorted(v: Json): Json {
    match v
    case Arr(es) => Arr(SortedElems(es))
    case Obj(ms) => Obj(SortedMembers(ms))
    case _ => v
  }

  function SortedElems(es: Elems): Elems {
    match es
    case NoElems => NoElems
    case Elem(v, more) => Elem(Sorted(v), SortedElems(more))
  }

  function SortedMembers(ms: Members): Members {
    match ms
    case NoMembers => NoMembers
    case Member(k, v, more) => Insert(k, Sorted(v), SortedMembers(more))
  }

  function Dumps(v: Json): string {
    Text(Sorted(v))
  }

  // ---- Reading ----

  function ParseHex4(s: string): (u: Option<int>)
    ensures u.Some? ==> |s| >= 4 && 0 <= u.value < 0x10000
  {
    if |s| < 4 then None
    else
      match (HexValue(s[0]), HexValue(s[1]), HexValue(s[2]), HexValue(s[3]))
      case (Some(a), Some(b), Some(c), Some(d)) => Some(a * 4096 + b * 256 + c * 16 + d)
      case _ => None
  }

  /** One character or escape sequence inside a string. */
  function ParseChar(s: string): (r: Option<(char, string)>)
    requires s != ""
    ensures r.Some? ==> |r.value.1| < |s|
  {
    if s[0] < ' ' then None
    else if s[0] != '\\' then Some((s[0], s[1..]))
    else if |s| < 2 then None
    else if s[1] == '"' || s[1] == '\\' || s[1] == '/' then Some((s[1], s[2..]))
    else if s[1] == 'n' then Some(('\n', s[2..]))
    else if s[1] == 'r' then Some(('\r', s[2..]))
    else if s[1] == 't' then Some(('\t', s[2..]))
    else if s[1] == 'b' then Some((8 as char, s[2..]))
    else if s[1] == 'f' then Some((12 as char, s[2..]))
    else if s[1] == 'u' then ParseUnits(s[2..])
    else None
  }

  /** The rest of a `\u` escape, with its second half when it opens a surrogate pair. */
  function ParseUnits(s: string): (r: Option<(char, string)>)
    ensures r.Some? ==> |r.value.1| < |s|
  {
    match ParseHex4(s)
    case None => None
    case Some(u) =>
      if u < 0xD800 || 0xE000 <= u then Some((u as char, s[4..]))
      else if u < 0xDC00 && |s| >= 6 && s[4] == '\\' && s[5] == 'u' then
        match ParseHex4(s[6..])
        case None => None
        case Some(w) =>
          if 0xDC00 <= w < 0xE000 then
            Some(((0x10000 + (u - 0xD800) * 1024 + (w - 0xDC00)) as char, s[10..]))
          else None
      else None
  }

  function ParseChars(s: string): (r: Option<(string, string)>)
    ensures r.Some? ==> |r.value.1| < |s|
    decreases |s|
  {
    if s == "" then None
    else if s[0] == '"' then Some(("", s[1..]))
    else
      match ParseChar(s)
      case None => None
      case Some((c, more)) =>
        match ParseChars(more)
        case None => None
        case Some((cs, rest)) => Some(([c] + cs, rest))
  }

  function DigitValue(c: char): nat
    requires IsDigit(c)
  {
    c as int - '0' as int
  }

  function Value(s: string): nat
    requires forall i :: 0 <= i < |s| ==> IsDigit(s[i])
  {
    if s == "" then 0 else Value(s[..|s| - 1]) * 10 + DigitValue(s[|s| - 1])
  }

  lemma {:induction false} DigitRunIsDigits(s: string)
    ensures forall i :: 0 <= i < DigitRun(s) ==> IsDigit(s[i])
  {
    if s != "" && IsDigit(s[0]) {
      DigitRunIsDigits(s[1..]);
    }
  }

  function ParseNat(s: string): (r: Option<(nat, string)>)
    ensures r.Some? ==> |r.value.1| < |s|
  {
    var n := DigitRun(s);
    DigitRunIsDigits(s);
    if n == 0 || (n > 1 && s[0] == '0') then None else Some((Value(s[..n]), s[n..]))
  }

  function ParseInt(s: string): (r: Option<(int, string)>)
    requires s != ""
    ensures r.Some? ==> |r.value.1| < |s|
  {
    if s[0] == '-' then
      match ParseNat(s[1..])
      case None => None
      case Some((n, rest)) => Some((-(n as int), rest))
    else
      match ParseNat(s)
      case None => None
      case Some((n, rest)) => Some((n, rest))
  }

  predicate NumberChar(c: char) {
    IsDigit(c) || c == '-' || c == '+' || c == '.' || c == 'e'
  }

  function NumberRun(s: string): (n: nat)
    ensures n <= |s|
  {
    if s == "" || !NumberChar(s[0]) then 0 else 1 + NumberRun(s[1..])
  }

  function ParseNumber(s: string): (r: Option<(Json, string)>)
    requires s != ""
    ensures r.Some? ==> |r.value.1| < |s|
  {
    var n := NumberRun(s);
    if IsFloatText(s[..n]) then Some((Float(s[..n]), s[n..]))
    else
      match ParseInt(s)
      case None => None
      case Some((m, rest)) => Some((Int(m), rest))
  }

  function ParseValue(s: string): (r: Option<(Json, string)>)
    ensures r.Some? ==> |r.value.1| < |s|
    decreases |s|, 2
  {
    if s == "" then None
    else if s[0] == 'n' then (if "null" <= s then Some((Null, s[4..])) else None)
    else if s[0] == 't' then (if "true" <= s then Some((Bool(true), s[4..])) else None)
    else if s[0] == 'f' then (if "false" <= s then Some((Bool(false), s[5..])) else None)
    else if s[0] == '"' then
      match ParseChars(s[1..])
      case None => None
      case Some((cs, rest)) => Some((Str(cs), rest))
    else if s[0] == '[' then
      if |s| > 1 && s[1] == ']' then Some((Arr(NoElems), s[2..]))
      else
        match ParseElems(s[1..])
        case None => None
        case Some((es, rest)) => Some((Arr(es), rest))
    else if s[0] == '{' then
      if |s| > 1 && s[1] == '}' then Some((Obj(NoMembers), s[2..]))
      else
        match ParseMembers(s[1..])
        case None => None
        case Some((ms, rest)) => Some((Obj(ms), rest))
    else ParseNumber(s)
  }

  function ParseElems(s: string): (r: Option<(Elems, string)>)
    ensures r.Some? ==> |r.value.1| < |s|
    decreases |s|, 3
  {
    match ParseValue(s)
    case None => None
    case Some((v, more)) =>
      if more == "" then None
      else if more[0] == ']' then Some((Elem(v, NoElems), more[1..]))
      else if more[0] == ',' then
        match ParseElems(more[1..])
        case None => None
        case Some((es, rest)) => Some((Elem(v, es), rest))
      else None
  }

  function ParseMembers(s: string): (r: Option<(Members, string)>)
    ensures r.Some? ==> |r.value.1| < |s|
    decreases |s|, 3
  {
    if s == "" || s[0] != '"' then None
    else
      match ParseChars(s[1..])
      case None => None
      case Some((k, after)) =>
        if after == "" || after[0] != ':' then None
        else
          match ParseValue(after[1..])
          case None => None
          case Some((v, more)) =>
            if more == "" then None
            else if more[0] == '}' then Some((Member(k, v, NoMembers), more[1..]))
            else if more[0] == ',' then
              match ParseMembers(more[1..])
              case None => None
              case Some((ms, rest)) => Some((Member(k, v, ms), rest))
            else None
  }

  function Loads(s: string): Option<Json> {
    match ParseValue(s)
    case Some((v, rest)) => if rest == "" then Some(v) else None
    case None => None
  }

  // ---- Reading undoes writing ----

  lemma HexPlaces(u: int)
    ensures u == u / 4096 * 4096 + u / 256 % 16 * 256 + u / 16 % 16 * 16 + u % 16
  {
    assert u / 256 == u / 16 / 16 && u / 4096 == u / 256 / 16;
  }

  lemma UnitRoundTrip(u: int, rest: string)
    requires 0 <= u < 0x10000
    ensures ParseHex4(UnitText(u)[2..] + rest) == Some(u)
  {
    var s := UnitText(u)[2..] + rest;
    var a, b, c, d := u / 4096, u / 256 % 16, u / 16 % 16, u % 16;
    assert s[0] == HexDigit(a) && s[1] == HexDigit(b) && s[2] == HexDigit(c) && s[3] == HexDigit(d);
    HexPlaces(u);
    assert ParseHex4(s) == Some(a * 4096 + b * 256 + c * 16 + d);
  }

  lemma PairRoundTrip(u: int, w: int, rest: string)
    requires 0xD800 <= u < 0xDC00 <= w < 0xE000
    ensures ParseUnits((UnitText(u) + UnitText(w) + rest)[2..])
         == Some(((0x10000 + (u - 0xD800) * 1024 + (w - 0xDC00)) as char, rest))
  {
    var s := (UnitText(u) + UnitText(w) + rest)[2..];
    assert s == UnitText(u)[2..] + (UnitText(w) + rest);
    UnitRoundTrip(u, UnitText(w) + rest);
    assert s[4] == '\\' && s[5] == 'u';
    assert s[6..] == UnitText(w)[2..] + rest;
    UnitRoundTrip(w, rest);
    assert s[10..] == rest;
  }

  lemma UnitCharRoundTrip(c: char, rest: string)
    requires c as int < 0x10000
    ensures ParseChar(UnitText(c as int) + rest) == Some((c, rest))
  {
    var p := c as int;
    var s := UnitText(p) + rest;
    assert s[2..] == UnitText(p)[2..] + rest;
    UnitRoundTrip(p, rest);
    assert s[2..][4..] == rest;
  }

  lemma PairParse(u: int, w: int, rest: string)
    requires 0xD800 <= u < 0xDC00 <= w < 0xE000
    ensures ParseChar(UnitText(u) + UnitText(w) + rest)
         == Some(((0x10000 + (u - 0xD800) * 1024 + (w - 0xDC00)) as char, rest))
  {
    var s := UnitText(u) + UnitText(w) + rest;
    assert s[0] == '\\' && s[1] == 'u';
    PairRoundTrip(u, w, rest);
  }

  lemma PairCharRoundTrip(c: char, rest: string)
    requires c as int >= 0x10000
    ensures ParseChar(CharText(c) + rest) == Some((c, rest))
  {
    var q := c as int - 0x10000;
    var u, w := 0xD800 + q / 1024, 0xDC00 + q % 1024;
    assert q < 0x100000 && 0x10000 + (u - 0xD800) * 1024 + (w - 0xDC00) == c as int;
    assert CharText(c) == UnitText(u) + UnitText(w);
    PairParse(u, w, rest);
  }

  lemma CharRoundTrip(c: char, rest: string)
    ensures ParseChar(CharText(c) + rest) == Some((c, rest))
  {
    var p := c as int;
    if p >= 0x10000 {
      PairCharRoundTrip(c, rest);
    } else if CharText(c) == UnitText(p) {
      UnitCharRoundTrip(c, rest);
    } else if |CharText(c)| == 1 {
      assert (CharText(c) + rest)[1..] == rest;
    } else {
      assert (CharText(c) + rest)[2..] == rest;
    }
  }

  lemma CharThenChars(t: string, c: char, tail: string, cs: string, rest: string)
    requires t != "" && t[0] != '"'
    requires ParseChar(t + tail) == Some((c, tail)) && ParseChars(tail) == Some((cs, rest))
    ensures ParseChars(t + tail) == Some(([c] + cs, rest))
  {
  }

  lemma {:induction false} CharsRoundTrip(s: string, rest: string)
    ensures ParseChars(CharsText(s) + ("\"" + rest)) == Some((s, rest))
  {
    if s == "" {
      assert ("" + ("\"" + rest))[1..] == rest;
    } else {
      var t, tail := CharText(s[0]), CharsText(s[1..]) + ("\"" + rest);
      CharRoundTrip(s[0], tail);
      CharsRoundTrip(s[1..], rest);
      CharThenChars(t, s[0], tail, s[1..], rest);
      AppendAssociates(t, CharsText(s[1..]), "\"" + rest);
      assert [s[0]] + s[1..] == s;
    }
  }

  lemma StrRoundTrip(s: string, rest: string)
    ensures var t := StrText(s) + rest; t[0] == '"' && ParseChars(t[1..]) == Some((s, rest))
  {
    CharsRoundTrip(s, rest);
    assert (StrText(s) + rest)[1..] == CharsText(s) + ("\"" + rest);
  }

  lemma {:induction false} NatTextShape(n: nat)
    ensures var t := NatText(n);
            |t| >= 1 && (forall i :: 0 <= i < |t| ==> IsDigit(t[i])) && Value(t) == n
    ensures |NatText(n)| > 1 ==> NatText(n)[0] != '0'
    ensures n > 0 ==> NatText(n)[0] != '0'
  {
    var t := NatText(n);
    if n < 10 {
      assert t[..0] == "";
    } else {
      NatTextShape(n / 10);
      assert t[..|t| - 1] == NatText(n / 10);
    }
  }

  /** Nothing that could lengthen a number follows. */
  predicate Stops(rest: string) {
    rest == "" || !NumberChar(rest[0])
  }

  lemma {:induction false} RunOfNumber(t: string, rest: string)
    requires forall i :: 0 <= i < |t| ==> NumberChar(t[i])
    requires Stops(rest)
    ensures NumberRun(t + rest) == |t|
  {
    if t != "" {
      assert (t + rest)[1..] == t[1..] + rest;
      RunOfNumber(t[1..], rest);
    } else {
      assert t + rest == rest;
    }
  }

  lemma ExponentChars(u: string)
    requires IsExponent(u)
    ensures forall i :: 0 <= i < |u| ==> NumberChar(u[i])
  {
    DigitRunIsDigits(u[2..]);
    forall i | 2 <= i < |u| ensures NumberChar(u[i]) {
      assert u[i] == u[2..][i - 2];
    }
  }

  lemma FractionChars(u: string)
    requires IsFraction(u)
    ensures u != "" && (u[0] == '.' || u[0] == 'e') && forall i :: 0 <= i < |u| ==> NumberChar(u[i])
  {
    if u[0] == '.' {
      var j := DigitRun(u[1..]);
      DigitRunIsDigits(u[1..]);
      if u[1 + j..] != "" {
        ExponentChars(u[1 + j..]);
      }
      forall i | 1 <= i < |u| ensures NumberChar(u[i]) {
        assert i <= j ==> u[i] == u[1..][i - 1];
        assert i > j ==> u[i] == u[1 + j..][i - 1 - j];
      }
    } else {
      ExponentChars(u);
    }
  }

  lemma UnsignedFloat(u: string)
    requires DigitRun(u) > 0 && IsFraction(u[DigitRun(u)..])
    ensures u != "" && IsDigit(u[0]) && forall i :: 0 <= i < |u| ==> NumberChar(u[i])
    ensures exists i :: 0 <= i < |u| && (u[i] == '.' || u[i] == 'e')
  {
    var n := DigitRun(u);
    DigitRunIsDigits(u);
    FractionChars(u[n..]);
    assert u[n] == u[n..][0];
    forall i | 0 <= i < |u| ensures NumberChar(u[i]) {
      assert i >= n ==> u[i] == u[n..][i - n];
    }
  }

  /** A float's text is one number token, and no integer's. */
  lemma FloatShape(t: FloatText)
    ensures t != "" && (t[0] == '-' || IsDigit(t[0])) && forall i :: 0 <= i < |t| ==> NumberChar(t[i])
    ensures exists i :: 0 <= i < |t| && (t[i] == '.' || t[i] == 'e')
  {
    if t[0] == '-' {
      UnsignedFloat(t[1..]);
      var i :| 0 <= i < |t[1..]| && (t[1..][i] == '.' || t[1..][i] == 'e');
      assert t[i + 1] == t[1..][i];
      forall j | 1 <= j < |t| ensures NumberChar(t[j]) {
        assert t[j] == t[1..][j - 1];
      }
    } else {
      UnsignedFloat(t);
    }
  }

  lemma FloatRoundTrip(t: FloatText, rest: string)
    requires Stops(rest)
    ensures ParseNumber(t + rest) == Some((Float(t), rest))
  {
    FloatShape(t);
    RunOfNumber(t, rest);
    assert (t + rest)[..|t|] == t && (t + rest)[|t|..] == rest;
  }

  lemma IntIsNoFloat(n: int, rest: string)
    requires Stops(rest)
    ensures var s := IntText(n) + rest; !IsFloatText(s[..NumberRun(s)])
  {
    var t := IntText(n);
    NatTextShape(if n < 0 then -n else n);
    forall i | 0 <= i < |t| ensures NumberChar(t[i]) && t[i] != '.' && t[i] != 'e' {
      assert n < 0 && i > 0 ==> t[i] == NatText(-n)[i - 1];
    }
    RunOfNumber(t, rest);
    assert (t + rest)[..|t|] == t;
    if IsFloatText(t) {
      FloatShape(t);
    }
  }

  lemma {:induction false} RunOfDigits(t: string, rest: string)
    requires forall i :: 0 <= i < |t| ==> IsDigit(t[i])
    requires Stops(rest)
    ensures DigitRun(t + rest) == |t|
  {
    if t != "" {
      assert (t + rest)[1..] == t[1..] + rest;
      RunOfDigits(t[1..], rest);
    } else {
      assert t + rest == rest;
    }
  }

  lemma NatRoundTrip(n: nat, rest: string)
    requires Stops(rest)
    ensures ParseNat(NatText(n) + rest) == Some((n, rest))
  {
    var t := NatText(n);
    NatTextShape(n);
    RunOfDigits(t, rest);
    assert (t + rest)[..|t|] == t && (t + rest)[|t|..] == rest;
  }

  /** The first character decides which branch of the reader takes a text. */
  lemma TextStart(v: Json)
    ensures Text(v) != "" && Text(v)[0] != ']' && Text(v)[0] != '}'
  {
    if v.Int? {
      NatTextShape(if v.n < 0 then -v.n else v.n);
    } else if v.Float? {
      FloatShape(v.repr);
    }
  }

  lemma IntRoundTrip(n: int, rest: string)
    requires Stops(rest)
    ensures var s := IntText(n) + rest;
            s != "" && (s[0] == '-' || IsDigit(s[0])) && ParseInt(s) == Some((n, rest))
  {
    var m := if n < 0 then -n else n;
    var s := NatText(m) + rest;
    NatRoundTrip(m, rest);
    NatTextShape(m);
    if n < 0 {
      AppendAssociates("-", NatText(m), rest);
      assert ("-" + s)[1..] == s;
    } else {
      assert IsDigit(s[0]);
    }
  }

  lemma IntValueRoundTrip(n: int, rest: string)
    requires Stops(rest)
    ensures ParseValue(IntText(n) + rest) == Some((Int(n), rest))
  {
    IntRoundTrip(n, rest);
    IntIsNoFloat(n, rest);
  }

  lemma FloatValueRoundTrip(t: FloatText, rest: string)
    requires Stops(rest)
    ensures ParseValue(t + rest) == Some((Float(t), rest))
  {
    FloatShape(t);
    FloatRoundTrip(t, rest);
  }

  lemma {:induction false} TextRoundTrip(v: Json, rest: string)
    requires Stops(rest)
    ensures ParseValue(Text(v) + rest) == Some((v, rest))
    decreases v, 1
  {
    var s := Text(v) + rest;
    match v {
      case Null => assert s[4..] == rest;
      case Bool(b) => assert b ==> s[4..] == rest; assert !b ==> s[5..] == rest;
      case Int(n) => IntValueRoundTrip(n, rest);
      case Float(t) => FloatValueRoundTrip(t, rest);
      case Str(t) => StrRoundTrip(t, rest);
      case Arr(es) => ArrRoundTrip(es, rest);
      case Obj(ms) => ObjRoundTrip(ms, rest);
    }
  }

  lemma {:induction false} ArrRoundTrip(es: Elems, rest: string)
    ensures ParseValue(Text(Arr(es)) + rest) == Some((Arr(es), rest))
    decreases es, 2
  {
    var s := Text(Arr(es)) + rest;
    if es == NoElems {
      assert s[2..] == rest;
    } else {
      assert s[1..] == ElemsText(es) + ("]" + rest);
      ElemsRoundTrip(es, rest);
      TextStart(es.head);
      assert ElemsText(es)[0] == Text(es.head)[0];
    }
  }

  lemma {:induction false} ObjRoundTrip(ms: Members, rest: string)
    ensures ParseValue(Text(Obj(ms)) + rest) == Some((Obj(ms), rest))
    decreases ms, 2
  {
    var s := Text(Obj(ms)) + rest;
    if ms == NoMembers {
      assert s[2..] == rest;
    } else {
      assert s[1..] == MembersText(ms) + ("}" + rest);
      MembersRoundTrip(ms, rest);
      assert MembersText(ms)[0] == '"';
    }
  }

  lemma {:induction false} ElemsRoundTrip(es: Elems, rest: string)
    requires es != NoElems
    ensures ParseElems(ElemsText(es) + ("]" + rest)) == Some((es, rest))
    decreases es, 1
  {
    if es.tail == NoElems {
      var after := "]" + rest;
      TextRoundTrip(es.head, after);
      assert after[1..] == rest;
    } else {
      var after := "," + (ElemsText(es.tail) + ("]" + rest));
      assert ElemsText(es) + ("]" + rest) == Text(es.head) + after;
      TextRoundTrip(es.head, after);
      assert after[1..] == ElemsText(es.tail) + ("]" + rest);
      ElemsRoundTrip(es.tail, rest);
    }
  }

  lemma MembersTextSplits(ms: Members, end: string, after: string)
    requires ms != NoMembers
    requires after == if ms.rest == NoMembers then end else "," + (MembersText(ms.rest) + end)
    ensures MembersText(ms) + end == StrText(ms.key) + (":" + (Text(ms.value) + after))
  {
    var k, v, more := StrText(ms.key), Text(ms.value), MembersText(ms.rest);
    if ms.rest == NoMembers {
      AppendAssociates(k + ":", v, end);
      AppendAssociates(k, ":", v + end);
    } else {
      AppendAssociates(k + ":" + v + ",", more, end);
      AppendAssociates(k + ":" + v, ",", more + end);
      AppendAssociates(k + ":", v, "," + (more + end));
      AppendAssociates(k, ":", v + ("," + (more + end)));
    }
  }

  lemma {:induction false} MembersRoundTrip(ms: Members, rest: string)
    requires ms != NoMembers
    ensures ParseMembers(MembersText(ms) + ("}" + rest)) == Some((ms, rest))
    decreases ms, 1
  {
    var after := if ms.rest == NoMembers then "}" + rest else "," + (MembersText(ms.rest) + ("}" + rest));
    var value := Text(ms.value) + after;
    MembersTextSplits(ms, "}" + rest, after);
    StrRoundTrip(ms.key, ":" + value);
    assert (":" + value)[1..] == value;
    TextRoundTrip(ms.value, after);
    if ms.rest == NoMembers {
      assert after[1..] == rest;
    } else {
      assert after[1..] == MembersText(ms.rest) + ("}" + rest);
      MembersRoundTrip(ms.rest, rest);
    }
  }

  /** The reader recovers any value from its text. */
  lemma LoadsInvertsText(v: Json)
    ensures Loads(Text(v)) == Some(v)
  {
    TextRoundTrip(v, "");
    assert Text(v) + "" == Text(v);
  }

  // ---- What a value means, whatever the order of its keys ----

  datatype Meaning =
    | MNull
    | MBool(b: bool)
    | MInt(n: int)
    | MFloat(repr: FloatText)
    | MStr(s: string)
    | MArr(elems: seq<Meaning>)
    | MObj(fields: map<string, Meaning>)

  function Means(v: Json): Meaning {
    match v
    case Null => MNull
    case Bool(b) => MBool(b)
    case Int(n) => MInt(n)
    case Float(t) => MFloat(t)
    case Str(s) => MStr(s)
    case Arr(es) => MArr(ElemsMean(es))
    case Obj(ms) => MObj(MembersMean(ms))
  }

  function ElemsMean(es: Elems): seq<Meaning> {
    match es
    case NoElems => []
    case Elem(v, more) => [Means(v)] + ElemsMean(more)
  }

  function MembersMean(ms: Members): map<string, Meaning> {
    match ms
    case NoMembers => map[]
    case Member(k, v, more) => MembersMean(more)[k := Means(v)]
  }

  /** Python dicts hold each key once. */
  predicate WellFormed(v: Json) {
    match v
    case Arr(es) => WellFormedElems(es)
    case Obj(ms) => WellFormedMembers(ms)
    case _ => true
  }

  predicate WellFormedElems(es: Elems) {
    match es
    case NoElems => true
    case Elem(v, more) => WellFormed(v) && WellFormedElems(more)
  }

  predicate WellFormedMembers(ms: Members) {
    match ms
    case NoMembers => true
    case Member(k, v, more) => WellFormed(v) && WellFormedMembers(more) && k !in MembersMean(more)
  }

  /** Keys strictly ascending, at every level. */
  predicate Canonical(v: Json) {
    match v
    case Arr(es) => CanonicalElems(es)
    case Obj(ms) => CanonicalMembers(ms)
    case _ => true
  }

  predicate CanonicalElems(es: Elems) {
    match es
    case NoElems => true
    case Elem(v, more) => Canonical(v) && CanonicalElems(more)
  }

  predicate CanonicalMembers(ms: Members) {
    match ms
    case NoMembers => true
    case Member(k, v, more) =>
      Canonical(v) && CanonicalMembers(more) && forall q :: q in MembersMean(more) ==> Less(k, q)
  }

  lemma PrependKeeps(k: string, v: Json, ms: Members)
    requires CanonicalMembers(ms) && Canonical(v) && ms.Member? && Less(k, ms.key)
    ensures CanonicalMembers(Member(k, v, ms))
  {
    forall q | q in MembersMean(ms) ensures Less(k, q) {
      if q != ms.key {
        LessIsTransitive(k, ms.key, q);
      }
    }
  }

  lemma SwapUpdates(m: map<string, Meaning>, k: string, v: Meaning, k': string, v': Meaning)
    requires k != k'
    ensures m[k := v][k' := v'] == m[k' := v'][k := v]
  {
  }

  lemma {:induction false} InsertKeeps(k: string, v: Json, ms: Members)
    requires CanonicalMembers(ms) && Canonical(v) && k !in MembersMean(ms)
    ensures CanonicalMembers(Insert(k, v, ms))
    ensures MembersMean(Insert(k, v, ms)) == MembersMean(ms)[k := Means(v)]
  {
    if ms.Member? {
      if Less(ms.key, k) {
        InsertKeeps(k, v, ms.rest);
        SwapUpdates(MembersMean(ms.rest), k, Means(v), ms.key, Means(ms.value));
      } else {
        LessIsTotal(ms.key, k);
        PrependKeeps(k, v, ms);
      }
    }
  }

  lemma {:induction false} SortedKeepsMeaning(v: Json)
    requires WellFormed(v)
    ensures Canonical(Sorted(v)) && Means(Sorted(v)) == Means(v)
  {
    match v {
      case Arr(es) => SortedElemsKeepMeaning(es);
      case Obj(ms) => SortedMembersKeepMeaning(ms);
      case _ =>
    }
  }

  lemma {:induction false} SortedElemsKeepMeaning(es: Elems)
    requires WellFormedElems(es)
    ensures CanonicalElems(SortedElems(es)) && ElemsMean(SortedElems(es)) == ElemsMean(es)
  {
    if es.Elem? {
      SortedKeepsMeaning(es.head);
      SortedElemsKeepMeaning(es.tail);
    }
  }

  lemma {:induction false} SortedMembersKeepMeaning(ms: Members)
    requires WellFormedMembers(ms)
    ensures CanonicalMembers(SortedMembers(ms)) && MembersMean(SortedMembers(ms)) == MembersMean(ms)
  {
    if ms.Member? {
      SortedKeepsMeaning(ms.value);
      SortedMembersKeepMeaning(ms.rest);
      InsertKeeps(ms.key, Sorted(ms.value), SortedMembers(ms.rest));
    }
  }

  /** Two canonical values that mean the same are the same. */
  lemma {:induction false} CanonicalIsUnique(v: Json, w: Json)
    requires Canonical(v) && Canonical(w) && Means(v) == Means(w)
    ensures v == w
  {
    match v {
      case Arr(es) => CanonicalElemsAreUnique(es, w.elems);
      case Obj(ms) => CanonicalMembersAreUnique(ms, w.members);
      case _ =>
    }
  }

  lemma {:induction false} CanonicalElemsAreUnique(es: Elems, fs: Elems)
    requires CanonicalElems(es) && CanonicalElems(fs) && ElemsMean(es) == ElemsMean(fs)
    ensures es == fs
  {
    if es.Elem? {
      assert ElemsMean(es) != [];
      assert fs.Elem?;
      assert ElemsMean(es)[0] == ElemsMean(fs)[0];
      CanonicalIsUnique(es.head, fs.head);
      assert ElemsMean(es)[1..] == ElemsMean(es.tail) && ElemsMean(fs)[1..] == ElemsMean(fs.tail);
      CanonicalElemsAreUnique(es.tail, fs.tail);
    } else {
      assert fs == NoElems;
    }
  }

  lemma NoMembersMeanNothing(ms: Members)
    ensures MembersMean(ms) == map[] <==> ms == NoMembers
  {
    if ms.Member? {
      assert ms.key in MembersMean(ms);
    }
  }

  lemma {:induction false} CanonicalMembersAreUnique(ms: Members, ns: Members)
    requires CanonicalMembers(ms) && CanonicalMembers(ns) && MembersMean(ms) == MembersMean(ns)
    ensures ms == ns
  {
    if ms.Member? {
      assert ms.key in MembersMean(ms);
      assert ns.Member?;
      assert ns.key in MembersMean(ns);
      LessIsStrict(ms.key, ns.key);
      assert ms.key == ns.key;
      var k := ms.key;
      assert MembersMean(ms)[k] == Means(ms.value) && MembersMean(ns)[k] == Means(ns.value);
      CanonicalIsUnique(ms.value, ns.value);
      LessIsStrict(k, k);
      assert MembersMean(ms.rest) == MembersMean(ms) - {k};
      assert MembersMean(ns.rest) == MembersMean(ns) - {k};
      CanonicalMembersAreUnique(ms.rest, ns.rest);
    } else {
      NoMembersMeanNothing(ns);
    }
  }

  /** The canonical text is the value up to the order of keys: equal texts mean equal
      values, and no reordering of insertions changes the text. */
  lemma DumpsIsCanonical(v: Json, w: Json)
    requires WellFormed(v) && WellFormed(w)
    ensures Dumps(v) == Dumps(w) <==> Means(v) == Means(w)
  {
    SortedKeepsMeaning(v);
    SortedKeepsMeaning(w);
    if Dumps(v) == Dumps(w) {
      LoadsInvertsText(Sorted(v));
      LoadsInvertsText(Sorted(w));
    }
    if Means(v) == Means(w) {
      CanonicalIsUnique(Sorted(v), Sorted(w));
    }
  }

  /** The reader recovers the dict from its canonical text. */
  lemma LoadsRecoversDict(v: Json)
    requires WellFormed(v)
    ensures Loads(Dumps(v)).Some? && Means(Loads(Dumps(v)).value) == Means(v)
  {
    LoadsInvertsText(Sorted(v));
    SortedKeepsMeaning(v);
  }
}
