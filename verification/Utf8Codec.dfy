/** UTF-8 as section 3 of RFC 3629 defines it: encoding, and strict decoding in pieces. */
module Utf8Codec {
  import opened Bytes

  /** A Unicode scalar value. */
  type Char = c: int | 0 <= c <= 0x10FFFF && !(0xD800 <= c <= 0xDFFF)

  type Text = seq<Char>

  // -------- encoding --------

  function Width(c: Char): (n: nat)
    ensures 1 <= n <= 4
  {
    if c < 0x80 then 1 else if c < 0x800 then 2 else if c < 0x10000 then 3 else 4
  }

  function EncodeChar(c: Char): (r: seq<Byte>)
    ensures |r| == Width(c)
  {
    if c < 0x80 then [c]
    else if c < 0x800 then [0xC0 + c / 0x40, 0x80 + c % 0x40]
    else if c < 0x10000 then [0xE0 + c / 0x1000, 0x80 + c / 0x40 % 0x40, 0x80 + c % 0x40]
    else [0xF0 + c / 0x4_0000, 0x80 + c / 0x1000 % 0x40, 0x80 + c / 0x40 % 0x40, 0x80 + c % 0x40]
  }

  function Utf8(t: Text): seq<Byte> {
    if t == [] then [] else EncodeChar(t[0]) + Utf8(t[1..])
  }

  lemma {:induction false} Utf8Concat(a: Text, b: Text)
    ensures Utf8(a + b) == Utf8(a) + Utf8(b)
  {
    if a == [] {
      assert a + b == b;
    } else {
      assert (a + b)[1..] == a[1..] + b;
      Utf8Concat(a[1..], b);
    }
  }

  /** The examples of section 7 of RFC 3629 in short: one character for each number of octets. */
  lemma KnownEncodings()
    ensures EncodeChar(0x41) == [0x41] && EncodeChar(0xE9) == [0xC3, 0xA9]
    ensures EncodeChar(0x2262) == [0xE2, 0x89, 0xA2] && EncodeChar(0x233B4) == [0xF0, 0xA3, 0x8E, 0xB4]
  {
  }

  // -------- decoding --------

  predicate IsTail(b: Byte) {
    0x80 <= b <= 0xBF
  }

  /** What may follow the first octet of a longer form: no overlong form, no surrogate, nothing above 10FFFF. */
  predicate IsSecond(lead: Byte, b: Byte) {
    IsTail(b)
    && (lead == 0xE0 ==> b >= 0xA0) && (lead == 0xED ==> b < 0xA0)
    && (lead == 0xF0 ==> b >= 0x90) && (lead == 0xF4 ==> b < 0x90)
  }

  /** The first character of a stream, if all of it is there; Partial when it is left for more octets to decide. */
  datatype First = Whole(c: Char, width: nat) | Partial | Invalid

  /** How many octets a first octet announces, none if it cannot be one. */
  function Announced(lead: Byte): (n: nat)
    ensures n <= 4
  {
    if lead < 0x80 then 1
    else if lead < 0xC2 then 0
    else if lead < 0xE0 then 2
    else if lead < 0xF0 then 3
    else if lead < 0xF5 then 4
    else 0
  }

  /** All octets that are there may follow. */
  predicate MayGoOn(s: seq<Byte>)
    requires s != []
  {
    && (|s| >= 2 ==> IsSecond(s[0], s[1]))
    && (|s| >= 3 ==> IsTail(s[2])) && (|s| >= 4 ==> IsTail(s[3]))
  }

  function Value(s: seq<Byte>): (c: int)
    requires 1 <= |s| <= 4
  {
    if |s| == 1 then s[0]
    else if |s| == 2 then Two(s[0], s[1])
    else if |s| == 3 then Three(s[0], s[1], s[2])
    else Four(s[0], s[1], s[2], s[3])
  }

  function Two(a: int, b: int): int {
    (a - 0xC0) * 0x40 + (b - 0x80)
  }

  function Three(a: int, b: int, c: int): int {
    (a - 0xE0) * 0x1000 + (b - 0x80) * 0x40 + (c - 0x80)
  }

  function Four(a: int, b: int, c: int, d: int): int {
    (a - 0xF0) * 0x4_0000 + (b - 0x80) * 0x1000 + (c - 0x80) * 0x40 + (d - 0x80)
  }

  lemma TwoIsChar(a: Byte, b: Byte)
    requires 0xC2 <= a < 0xE0 && IsTail(b)
    ensures 0x80 <= Two(a, b) < 0x800 && EncodeChar(Two(a, b)) == [a, b]
  {
    assert Two(a, b) / 0x40 == a as int - 0xC0;
  }

  lemma ThreeIsChar(a: Byte, b: Byte, c: Byte)
    requires 0xE0 <= a < 0xF0 && IsSecond(a, b) && IsTail(c)
    ensures 0x800 <= Three(a, b, c) < 0x10000 && !(0xD800 <= Three(a, b, c) <= 0xDFFF)
    ensures EncodeChar(Three(a, b, c)) == [a, b, c]
  {
    var v := Three(a, b, c);
    assert v / 0x40 == (a as int - 0xE0) * 0x40 + (b as int - 0x80);
    assert v / 0x1000 == a as int - 0xE0;
  }

  lemma FourIsChar(a: Byte, b: Byte, c: Byte, d: Byte)
    requires 0xF0 <= a < 0xF5 && IsSecond(a, b) && IsTail(c) && IsTail(d)
    ensures 0x10000 <= Four(a, b, c, d) <= 0x10FFFF
    ensures EncodeChar(Four(a, b, c, d)) == [a, b, c, d]
  {
    var v := Four(a, b, c, d);
    assert v / 0x40 == (a as int - 0xF0) * 0x1000 + (b as int - 0x80) * 0x40 + (c as int - 0x80);
    assert v / 0x1000 == (a as int - 0xF0) * 0x40 + (b as int - 0x80);
    assert v / 0x4_0000 == a as int - 0xF0;
  }

  lemma ValueIsChar(s: seq<Byte>)
    requires s != [] && Announced(s[0]) == |s| && MayGoOn(s)
    ensures 0 <= Value(s) <= 0x10FFFF && !(0xD800 <= Value(s) <= 0xDFFF)
    ensures EncodeChar(Value(s)) == s
  {
    hide EncodeChar, Two, Three, Four;
    if |s| == 1 {
      assert EncodeChar(s[0]) == s by { OneIsChar(s[0]); }
    } else if |s| == 2 {
      TwoIsChar(s[0], s[1]);
    } else if |s| == 3 {
      ThreeIsChar(s[0], s[1], s[2]);
    } else {
      FourIsChar(s[0], s[1], s[2], s[3]);
    }
  }

  lemma OneIsChar(a: Byte)
    requires a < 0x80
    ensures EncodeChar(a) == [a]
  {
  }

  /** The first two octets of a surrogate and nothing else: Python's incremental decoder holds these back, and finds
      them malformed with the next octet. */
  predicate IsTruncatedSurrogate(s: seq<Byte>) {
    |s| == 2 && s[0] == 0xED && 0xA0 <= s[1] <= 0xBF
  }

  function DecodeFirst(s: seq<Byte>): (r: First)
    requires s != []
    ensures r.Whole? ==> 1 <= r.width <= |s|
  {
    var n := Announced(s[0]);
    var head := if |s| < n then s else s[..n];
    if IsTruncatedSurrogate(s) then Partial
    else if n == 0 || !MayGoOn(head) then Invalid
    else if |head| < n then Partial
    else
      ValueIsChar(head);
      Whole(Value(head), n)
  }

  /** What a strict decoder makes of a stream: the characters, and the octets of one that is not all there. */
  datatype Decoded = Decoded(text: Text, rest: seq<Byte>) | Malformed

  function Behind(t: Text, d: Decoded): Decoded {
    if d.Malformed? then Malformed else Decoded(t + d.text, d.rest)
  }

  function Decode(s: seq<Byte>): Decoded {
    if s == [] then Decoded([], [])
    else
      match DecodeFirst(s)
      case Invalid => Malformed
      case Partial => Decoded([], s)
      case Whole(c, width) => Behind([c], Decode(s[width..]))
  }

  lemma EncodedIsAnnounced(c: Char)
    ensures var s := EncodeChar(c); Announced(s[0]) == |s| && MayGoOn(s) && Value(s) == c
  {
    var a, b := c / 0x40, c / 0x1000;
    assert c == 0x40 * a + c % 0x40 && a == 0x40 * b + a % 0x40;
    assert a / 0x40 == b && b / 0x40 == c / 0x4_0000 && b == 0x40 * (b / 0x40) + b % 0x40;
  }

  lemma FirstOfEncoded(c: Char, rest: seq<Byte>)
    ensures DecodeFirst(EncodeChar(c) + rest) == Whole(c, Width(c))
    ensures (EncodeChar(c) + rest)[Width(c)..] == rest
  {
    hide Value, EncodeChar, MayGoOn;
    EncodedIsAnnounced(c);
    var s := EncodeChar(c);
    assert (s + rest)[..|s|] == s;
  }

  /** Decoding undoes encoding, whatever follows. */
  lemma {:induction false} DecodeUndoesEncode(t: Text, rest: seq<Byte>)
    ensures Decode(Utf8(t) + rest) == Behind(t, Decode(rest))
  {
    hide DecodeFirst, EncodeChar;
    if t == [] {
      assert Utf8(t) + rest == rest;
      BehindNothing(Decode(rest));
    } else {
      var s := Utf8(t[1..]) + rest;
      assert Utf8(t) + rest == EncodeChar(t[0]) + s;
      FirstOfEncoded(t[0], s);
      DecodeUndoesEncode(t[1..], rest);
      BehindBoth([t[0]], t[1..], Decode(rest));
      assert [t[0]] + t[1..] == t;
    }
  }

  lemma FirstIsEncoded(s: seq<Byte>)
    requires s != [] && DecodeFirst(s).Whole?
    ensures var f := DecodeFirst(s); s == EncodeChar(f.c) + s[f.width..]
  {
    hide Value, EncodeChar, MayGoOn;
    var n := Announced(s[0]);
    ValueIsChar(s[..n]);
    assert s == s[..n] + s[n..];
  }

  /** And encoding undoes decoding: there is one way to write a text. */
  lemma {:induction false} EncodeUndoesDecode(s: seq<Byte>)
    requires Decode(s).Decoded?
    ensures s == Utf8(Decode(s).text) + Decode(s).rest
    decreases |s|
  {
    hide DecodeFirst, EncodeChar;
    if s != [] && DecodeFirst(s).Whole? {
      var f := DecodeFirst(s);
      var tail := s[f.width..];
      FirstIsEncoded(s);
      EncodeUndoesDecode(tail);
      assert Utf8([f.c] + Decode(tail).text) == EncodeChar(f.c) + Utf8(Decode(tail).text) by {
        assert ([f.c] + Decode(tail).text)[1..] == Decode(tail).text;
      }
    }
  }

  lemma FirstStays(s: seq<Byte>, more: seq<Byte>)
    requires s != [] && !DecodeFirst(s).Partial?
    ensures DecodeFirst(s + more) == DecodeFirst(s)
  {
    hide Value;
    var n := Announced(s[0]);
    assert |s| >= n ==> (s + more)[..n] == s[..n];
    var head := if |s + more| < n then s + more else (s + more)[..n];
    assert n > 0 ==> head[0] == s[0] && (|s| >= 2 && n >= 2 ==> head[1] == s[1])
                     && (|s| >= 3 && n >= 3 ==> head[2] == s[2]) && (|s| >= 4 && n >= 4 ==> head[3] == s[3]);
  }

  /** Decoding may stop anywhere and go on from the octets that were left. */
  lemma {:induction false} DecodeInPieces(s: seq<Byte>, more: seq<Byte>)
    ensures Decode(s + more) == if Decode(s).Malformed? then Malformed else Behind(Decode(s).text, Decode(Decode(s).rest + more))
    decreases |s|
  {
    hide DecodeFirst;
    if s == [] {
      assert s + more == more;
      BehindNothing(Decode(more));
    } else {
      match DecodeFirst(s)
      case Invalid => FirstStays(s, more);
      case Partial => BehindNothing(Decode(s + more));
      case Whole(c, width) =>
        FirstStays(s, more);
        assert (s + more)[width..] == s[width..] + more;
        DecodeInPieces(s[width..], more);
        if Decode(s[width..]).Decoded? {
          BehindBoth([c], Decode(s[width..]).text, Decode(Decode(s[width..]).rest + more));
        }
    }
  }

  lemma BehindNothing(d: Decoded)
    ensures Behind([], d) == d
  {
    if d.Decoded? {
      assert [] + d.text == d.text;
    }
  }

  lemma BehindBoth(a: Text, b: Text, d: Decoded)
    ensures Behind(a, Behind(b, d)) == Behind(a + b, d)
  {
    if d.Decoded? {
      assert a + (b + d.text) == a + b + d.text;
    }
  }

  // -------- the incremental decoder --------

  /** Python's strict incremental decoder. */
  class IncrementalDecoder {
    var buffer: seq<Byte>

    constructor ()
      ensures buffer == []
    {
      buffer := [];
    }

    /** decode: None stands for the exception. */
    method Feed(input: seq<Byte>, final: bool) returns (r: Decoded)
      modifies this
      ensures r == if final && Decode(old(buffer) + input).Decoded? && Decode(old(buffer) + input).rest != [] then Malformed
                   else Decode(old(buffer) + input)
      ensures r.Decoded? ==> buffer == r.rest
    {
      r := Decode(buffer + input);
      if r.Malformed? {
        return;
      }
      if final && r.rest != [] {
        return Malformed;
      }
      buffer := r.rest;
    }
  }
}
