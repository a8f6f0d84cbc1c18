/** UTF-8 as Go's unicode/utf8 package reads and writes it (sections 3 and 4 of RFC 3629). */
module Utf8 {
  type byte = x: int | 0 <= x < 0x100
  type Rune = int

  const RUNE_ERROR: Rune := 0xFFFD

  /** Length announced by a leading byte; 0 for a byte that cannot start a rune. */
  function LeadLen(b: byte): nat {
    if b < 0x80 then 1
    else if 0xC2 <= b <= 0xDF then 2
    else if 0xE0 <= b <= 0xEF then 3
    else if 0xF0 <= b <= 0xF4 then 4
    else 0
  }

  /** Section 4 of RFC 3629 narrows the second byte after E0, ED, F0 and F4. */
  predicate Second(lead: byte, b: byte) {
    var lo := if lead == 0xE0 then 0xA0 else if lead == 0xF0 then 0x90 else 0x80;
    var hi := if lead == 0xED then 0x9F else if lead == 0xF4 then 0x8F else 0xBF;
    lo <= b <= hi
  }

  predicate Tail(b: byte) {
    0x80 <= b <= 0xBF
  }

  /** Length of the well-formed rune at the head of `s`, 0 if there is none. */
  function RuneLen(s: seq<byte>): (n: nat)
    ensures n <= |s| && n <= 4
  {
    if s == [] then 0
    else
      var n := LeadLen(s[0]);
      if n == 1 then 1
      else if n == 0 || |s| < n || !Second(s[0], s[1]) then 0
      else if n >= 3 && !Tail(s[2]) then 0
      else if n == 4 && !Tail(s[3]) then 0
      else n
  }

  function RuneValue(s: seq<byte>): Rune
    requires RuneLen(s) > 0
  {
    match RuneLen(s)
    case 1 => s[0]
    case 2 => Low(s[0], 0xC0) * 0x40 + Low(s[1], 0x80)
    case 3 => Low(s[0], 0xE0) * 0x1000 + Low(s[1], 0x80) * 0x40 + Low(s[2], 0x80)
    case _ => Low(s[0], 0xF0) * 0x40000 + Low(s[1], 0x80) * 0x1000 + Low(s[2], 0x80) * 0x40 + Low(s[3], 0x80)
  }

  /** The payload of a byte whose marker bits are worth `mark`. */
  function Low(b: byte, mark: int): int {
    b - mark
  }

  /** utf8.DecodeRune: an ill-formed head is RUNE_ERROR of width 1. */
  function DecodeRune(s: seq<byte>): (d: (Rune, nat))
    ensures d.1 <= |s| && (s != [] ==> d.1 > 0)
  {
    if s == [] then (RUNE_ERROR, 0)
    else if RuneLen(s) == 0 then (RUNE_ERROR, 1)
    else (RuneValue(s), RuneLen(s))
  }

  /** utf8.FullRune: false only while more bytes could still complete the rune. */
  predicate FullRune(s: seq<byte>) {
    && s != []
    && (|| |s| >= LeadLen(s[0])
        || (|s| > 1 && !Second(s[0], s[1]))
        || (|s| > 2 && !Tail(s[2])))
  }

  /** utf8.ValidString. */
  predicate Valid(s: seq<byte>)
    decreases |s|
  {
    s == [] || (RuneLen(s) > 0 && Valid(s[RuneLen(s)..]))
  }

  predicate IsScalar(r: Rune) {
    0 <= r < 0xD800 || 0xE000 <= r <= 0x10FFFF
  }

  /** What a rune becomes when it is written as bytes: surrogates and out-of-range values become U+FFFD. */
  function Scalar(r: Rune): Rune {
    if IsScalar(r) then r else RUNE_ERROR
  }

  function Scalars(rs: seq<Rune>): (ss: seq<Rune>)
    ensures |ss| == |rs|
    ensures forall i :: 0 <= i < |rs| ==> ss[i] == Scalar(rs[i])
  {
    seq(|rs|, i requires 0 <= i < |rs| => Scalar(rs[i]))
  }

  function EncodeRune(r: Rune): (s: seq<byte>)
    ensures s != []
  {
    var v := Scalar(r);
    if v < 0x80 then [v]
    else if v < 0x800 then [0xC0 + v / 0x40, 0x80 + v % 0x40]
    else if v < 0x10000 then [0xE0 + v / 0x1000, 0x80 + v / 0x40 % 0x40, 0x80 + v % 0x40]
    else [0xF0 + v / 0x40000, 0x80 + v / 0x1000 % 0x40, 0x80 + v / 0x40 % 0x40, 0x80 + v % 0x40]
  }

  /** []byte(string(rs)) */
  function Encode(rs: seq<Rune>): seq<byte> {
    if rs == [] then [] else EncodeRune(rs[0]) + Encode(rs[1..])
  }

  /** []rune(string(s)) */
  function Decode(s: seq<byte>): seq<Rune>
    decreases |s|
  {
    if s == [] then [] else
      var d := DecodeRune(s);
      [d.0] + Decode(s[d.1..])
  }

  // ---- One rune ----

  lemma RuneLenExtend(s: seq<byte>, t: seq<byte>)
    requires RuneLen(s) > 0
    ensures RuneLen(s + t) == RuneLen(s) && RuneValue(s + t) == RuneValue(s)
  {
    var u := s + t;
    assert forall i :: 0 <= i < |s| ==> u[i] == s[i];
  }

  lemma RuneLenRestrict(s: seq<byte>, n: nat)
    requires 0 < RuneLen(s) <= n <= |s|
    ensures RuneLen(s[..n]) == RuneLen(s) && RuneValue(s[..n]) == RuneValue(s)
  {
    var u := s[..n];
    assert forall i :: 0 <= i < n ==> u[i] == s[i];
  }

  lemma RuneValueIsScalar(s: seq<byte>)
    requires RuneLen(s) > 0
    ensures IsScalar(RuneValue(s))
    ensures RuneValue(s) < 0x80 <==> RuneLen(s) == 1
  {
  }

  lemma EncodeRuneDecodes(r: Rune)
    ensures RuneLen(EncodeRune(r)) == |EncodeRune(r)|
    ensures RuneValue(EncodeRune(r)) == Scalar(r)
  {
    var v := Scalar(r);
    if v < 0x80 {
    } else if v < 0x800 {
    } else if v < 0x10000 {
      assert v / 0x40 / 0x40 == v / 0x1000;
    } else {
      assert v / 0x40 / 0x40 == v / 0x1000 && v / 0x1000 / 0x40 == v / 0x40000;
    }
  }

  /** The base-64 digits of a value. */
  lemma Digits(a: nat, b: nat, c: nat, d: nat)
    requires b < 0x40 && c < 0x40 && d < 0x40
    ensures var v := a * 0x40000 + b * 0x1000 + c * 0x40 + d;
            && v / 0x40000 == a && v / 0x1000 % 0x40 == b && v / 0x40 % 0x40 == c && v % 0x40 == d
            && (a == 0 ==> v / 0x1000 == b && (b == 0 ==> v / 0x40 == c))
  {
    var v := a * 0x40000 + b * 0x1000 + c * 0x40 + d;
    assert v / 0x40 == a * 0x1000 + b * 0x40 + c;
    assert v / 0x1000 == a * 0x40 + b;
  }

  lemma DecodeRuneEncodes(s: seq<byte>)
    requires RuneLen(s) > 0
    ensures EncodeRune(RuneValue(s)) == s[..RuneLen(s)]
  {
    RuneValueIsScalar(s);
    match RuneLen(s)
    case 1 =>
    case 2 => Digits(0, 0, Low(s[0], 0xC0), Low(s[1], 0x80));
    case 3 => Digits(0, Low(s[0], 0xE0), Low(s[1], 0x80), Low(s[2], 0x80));
    case _ => Digits(Low(s[0], 0xF0), Low(s[1], 0x80), Low(s[2], 0x80), Low(s[3], 0x80));
  }

  /** A head that is not a full rune yet is at most three bytes long and is no rune. */
  lemma PartialIsShort(s: seq<byte>)
    requires s != [] && !FullRune(s)
    ensures |s| <= 3 && RuneLen(s) == 0 && s[0] >= 0x80
  {
  }

  lemma InsideIsTail(v: seq<byte>)
    requires RuneLen(v) > 0
    ensures forall i :: 0 < i < RuneLen(v) ==> Tail(v[i])
  {
  }

  // ---- Whole strings ----

  lemma {:induction false} EncodeAppend(a: seq<Rune>, b: seq<Rune>)
    ensures Encode(a + b) == Encode(a) + Encode(b)
  {
    if a == [] {
      assert a + b == b;
    } else {
      assert (a + b)[0] == a[0] && (a + b)[1..] == a[1..] + b;
      EncodeAppend(a[1..], b);
    }
  }

  /** Writing runes as bytes and reading them back loses only what is not a scalar value. */
  lemma {:induction false} DecodeEncode(rs: seq<Rune>)
    ensures Decode(Encode(rs)) == Scalars(rs)
    ensures Valid(Encode(rs))
  {
    hide RuneLen, RuneValue, EncodeRune;
    if rs != [] {
      var e := EncodeRune(rs[0]);
      var s := e + Encode(rs[1..]);
      EncodeRuneDecodes(rs[0]);
      RuneLenExtend(e, Encode(rs[1..]));
      assert s[|e|..] == Encode(rs[1..]);
      DecodeEncode(rs[1..]);
      assert Scalars(rs) == [Scalar(rs[0])] + Scalars(rs[1..]);
    }
  }

  /** Reading well-formed bytes as runes and writing them back is the identity. */
  lemma {:induction false} EncodeDecode(s: seq<byte>)
    requires Valid(s)
    ensures Encode(Decode(s)) == s
    ensures Scalars(Decode(s)) == Decode(s)
    decreases |s|
  {
    hide RuneLen, RuneValue, EncodeRune;
    if s != [] {
      var n, v, rest := RuneLen(s), RuneValue(s), Decode(s[RuneLen(s)..]);
      assert EncodeRune(v) == s[..n] by { DecodeRuneEncodes(s); }
      assert IsScalar(v) by { RuneValueIsScalar(s); }
      EncodeDecode(s[n..]);
      EncodeCons(v, rest);
      assert Decode(s) == [v] + rest;
      assert s == s[..n] + s[n..];
    }
  }

  lemma EncodeCons(r: Rune, rs: seq<Rune>)
    ensures Encode([r] + rs) == EncodeRune(r) + Encode(rs)
    ensures Scalars([r] + rs) == [Scalar(r)] + Scalars(rs)
  {
    assert ([r] + rs)[1..] == rs;
  }

  /** A well-formed prefix ends on a rune boundary, so decoding and validity split there. */
  lemma {:induction false} SplitValid(a: seq<byte>, b: seq<byte>)
    requires Valid(a)
    ensures Decode(a + b) == Decode(a) + Decode(b)
    ensures Valid(a + b) <==> Valid(b)
    decreases |a|
  {
    hide RuneLen, RuneValue;
    if a == [] {
      assert a + b == b;
    } else {
      var n := RuneLen(a);
      RuneLenExtend(a, b);
      assert (a + b)[n..] == a[n..] + b;
      SplitValid(a[n..], b);
    }
  }

  lemma ValidNothing()
    ensures Valid([])
  {
  }

  lemma {:induction false} AsciiIsValid(s: seq<byte>)
    requires forall i :: 0 <= i < |s| ==> s[i] < 0x80
    ensures Valid(s)
    decreases |s|
  {
    if s != [] {
      AsciiIsValid(s[1..]);
    }
  }

  lemma {:induction false} ValidIffRoundTrip(s: seq<byte>)
    ensures Valid(s) <==> Encode(Decode(s)) == s
  {
    if Valid(s) {
      EncodeDecode(s);
    } else {
      DecodeEncode(Decode(s));
    }
  }

  lemma ScalarsAppend(a: seq<Rune>, b: seq<Rune>)
    ensures Scalars(a + b) == Scalars(a) + Scalars(b)
  {
  }
}
