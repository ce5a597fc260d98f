/** Base64 of RFC 4648 in its standard and URL-safe alphabets, as binascii computes it. */
module Base64 {
  import opened Bytes

  datatype Alphabet = Standard | UrlSafe

  datatype Decoded = Data(data: seq<Byte>) | Invalid

  function Symbol(a: Alphabet, n: int): (c: Byte)
    requires 0 <= n < 64
  {
    if n < 26 then 65 + n
    else if n < 52 then 71 + n
    else if n < 62 then n - 4
    else if n == 62 then (if a == Standard then 43 else 45)
    else (if a == Standard then 47 else 95)
  }

  /** The value of a symbol, or -1 for an octet outside the alphabet. */
  function Value(a: Alphabet, c: Byte): (n: int)
    ensures -1 <= n < 64
  {
    if 65 <= c <= 90 then c - 65
    else if 97 <= c <= 122 then c - 71
    else if 48 <= c <= 57 then c + 4
    else if c == (if a == Standard then 43 else 45) then 62
    else if c == (if a == Standard then 47 else 95) then 63
    else -1
  }

  lemma ValueOfSymbol(a: Alphabet, n: int)
    requires 0 <= n < 64
    ensures Value(a, Symbol(a, n)) == n && Symbol(a, n) != EQUALS && 33 <= Symbol(a, n) <= 126
  {
  }

  /** The four sextets that carry three octets. */
  function Sextets(x: Byte, y: Byte, z: Byte): (q: seq<int>)
    ensures |q| == 4 && forall i :: 0 <= i < 4 ==> 0 <= q[i] < 64
  {
    [x / 4, x % 4 * 16 + y / 16, y % 16 * 4 + z / 64, z % 64]
  }

  function Octets(p: int, q: int, r: int, s: int): (b: seq<Byte>)
    requires 0 <= p < 64 && 0 <= q < 64 && 0 <= r < 64 && 0 <= s < 64
    ensures |b| == 3
  {
    [p * 4 + q / 16, q % 16 * 16 + r / 4, r % 4 * 64 + s]
  }

  lemma OctetsOfSextets(x: Byte, y: Byte, z: Byte)
    ensures var q := Sextets(x, y, z); Octets(q[0], q[1], q[2], q[3]) == [x, y, z]
  {
  }

  function Group(a: Alphabet, x: Byte, y: Byte, z: Byte): (t: seq<Byte>)
    ensures |t| == 4
  {
    var q := Sextets(x, y, z);
    [Symbol(a, q[0]), Symbol(a, q[1]), Symbol(a, q[2]), Symbol(a, q[3])]
  }

  function Encode(a: Alphabet, s: seq<Byte>): seq<Byte> {
    if |s| == 0 then []
    else if |s| == 1 then Group(a, s[0], 0, 0)[..2] + [EQUALS, EQUALS]
    else if |s| == 2 then Group(a, s[0], s[1], 0)[..3] + [EQUALS]
    else Group(a, s[0], s[1], s[2]) + Encode(a, s[3..])
  }

  /** Strict about length and alphabet; the unused low bits of a last symbol are ignored. */
  function Decode(a: Alphabet, t: seq<Byte>): Decoded {
    if t == [] then Data([])
    else if |t| < 4 || Value(a, t[0]) < 0 || Value(a, t[1]) < 0 then Invalid
    else if |t| == 4 && t[2] == EQUALS && t[3] == EQUALS then
      Data(Octets(Value(a, t[0]), Value(a, t[1]), 0, 0)[..1])
    else if Value(a, t[2]) < 0 then Invalid
    else if |t| == 4 && t[3] == EQUALS then
      Data(Octets(Value(a, t[0]), Value(a, t[1]), Value(a, t[2]), 0)[..2])
    else if Value(a, t[3]) < 0 then Invalid
    else
      match Decode(a, t[4..])
      case Invalid => Invalid
      case Data(rest) => Data(Octets(Value(a, t[0]), Value(a, t[1]), Value(a, t[2]), Value(a, t[3])) + rest)
  }

  lemma GroupRoundTrip(a: Alphabet, x: Byte, y: Byte, z: Byte)
    ensures var t := Group(a, x, y, z);
            && (forall i :: 0 <= i < 4 ==> Value(a, t[i]) == Sextets(x, y, z)[i] && t[i] != EQUALS)
            && Octets(Value(a, t[0]), Value(a, t[1]), Value(a, t[2]), Value(a, t[3])) == [x, y, z]
  {
    var q := Sextets(x, y, z);
    ValueOfSymbol(a, q[0]);
    ValueOfSymbol(a, q[1]);
    ValueOfSymbol(a, q[2]);
    ValueOfSymbol(a, q[3]);
    OctetsOfSextets(x, y, z);
  }

  lemma OneOctet(a: Alphabet, x: Byte)
    ensures Decode(a, Group(a, x, 0, 0)[..2] + [EQUALS, EQUALS]) == Data([x])
  {
    GroupRoundTrip(a, x, 0, 0);
    var t := Group(a, x, 0, 0);
    assert Octets(Value(a, t[0]), Value(a, t[1]), 0, 0)[0] == x;
  }

  lemma TwoOctets(a: Alphabet, x: Byte, y: Byte)
    ensures Decode(a, Group(a, x, y, 0)[..3] + [EQUALS]) == Data([x, y])
  {
    GroupRoundTrip(a, x, y, 0);
    var t := Group(a, x, y, 0);
    var b := Octets(Value(a, t[0]), Value(a, t[1]), Value(a, t[2]), 0);
    assert b[..2] == [x, y];
  }

  lemma GroupThenRest(a: Alphabet, x: Byte, y: Byte, z: Byte, rest: seq<Byte>)
    requires Decode(a, rest).Data?
    ensures Decode(a, Group(a, x, y, z) + rest) == Data([x, y, z] + Decode(a, rest).data)
  {
    GroupRoundTrip(a, x, y, z);
    var t := Group(a, x, y, z) + rest;
    assert t[4..] == rest;
  }

  lemma {:induction false} RoundTrip(a: Alphabet, s: seq<Byte>)
    ensures Decode(a, Encode(a, s)) == Data(s)
  {
    if |s| == 1 {
      OneOctet(a, s[0]);
      assert s == [s[0]];
    } else if |s| == 2 {
      TwoOctets(a, s[0], s[1]);
      assert s == [s[0], s[1]];
    } else if |s| > 2 {
      GroupRoundTrip(a, s[0], s[1], s[2]);
      RoundTrip(a, s[3..]);
      GroupThenRest(a, s[0], s[1], s[2], Encode(a, s[3..]));
      assert s == [s[0], s[1], s[2]] + s[3..];
    }
  }

  /** Whole groups of three octets encode on their own. */
  lemma {:induction false} EncodeConcat(a: Alphabet, s: seq<Byte>, rest: seq<Byte>)
    requires |s| % 3 == 0
    ensures Encode(a, s + rest) == Encode(a, s) + Encode(a, rest)
  {
    if s == [] {
      assert s + rest == rest;
    } else {
      assert (s + rest)[3..] == s[3..] + rest;
      EncodeConcat(a, s[3..], rest);
    }
  }

  /** Four characters for every three octets begun. */
  lemma {:induction false} EncodeLength(a: Alphabet, s: seq<Byte>)
    ensures |Encode(a, s)| == (|s| + 2) / 3 * 4
  {
    if |s| > 2 {
      EncodeLength(a, s[3..]);
    }
  }

  /** Examples of section 10 of RFC 4648, and one that tells the alphabets apart. */
  lemma KnownEncodings(a: Alphabet)
    ensures Encode(a, [102]) == [90, 103, EQUALS, EQUALS]
    ensures Encode(a, [102, 111]) == [90, 109, 56, EQUALS]
    ensures Encode(a, [102, 111, 111, 98, 97, 114]) == [90, 109, 57, 118, 89, 109, 70, 121]
    ensures Encode(Standard, [251, 255]) == [43, 47, 56, EQUALS] && Encode(UrlSafe, [251, 255]) == [45, 95, 56, EQUALS]
  {
    hide Group;
    KnownGroups(a);
    ThreeOctets(a, [102, 111, 111, 98, 97, 114]);
    ThreeOctets(a, [98, 97, 114]);
    assert [102, 111, 111, 98, 97, 114][3..] == [98, 97, 114] && [98, 97, 114][3..] == [];
    hide Encode;
    ShortEncodings(a);
  }

  lemma ThreeOctets(a: Alphabet, s: seq<Byte>)
    requires |s| >= 3
    ensures Encode(a, s) == Group(a, s[0], s[1], s[2]) + Encode(a, s[3..]) && Encode(a, []) == []
  {
    hide Group;
  }

  lemma ShortEncodings(a: Alphabet)
    ensures Encode(a, [102]) == [90, 103, EQUALS, EQUALS]
    ensures Encode(a, [102, 111]) == [90, 109, 56, EQUALS]
    ensures Encode(Standard, [251, 255]) == [43, 47, 56, EQUALS] && Encode(UrlSafe, [251, 255]) == [45, 95, 56, EQUALS]
  {
    hide Group;
    KnownGroups(a);
    KnownGroups(Standard);
    KnownGroups(UrlSafe);
  }

  lemma KnownGroups(a: Alphabet)
    ensures Group(a, 102, 0, 0)[..2] == [90, 103] && Group(a, 102, 111, 0)[..3] == [90, 109, 56]
    ensures Group(a, 102, 111, 111) == [90, 109, 57, 118] && Group(a, 98, 97, 114) == [89, 109, 70, 121]
    ensures Group(a, 251, 255, 0)[..3] == if a == Standard then [43, 47, 56] else [45, 95, 56]
  {
    hide Group;
    GroupOf(a, 102, 0, 0, 25, 32, 0, 0);
    GroupOf(a, 102, 111, 0, 25, 38, 60, 0);
    GroupOf(a, 102, 111, 111, 25, 38, 61, 47);
    GroupOf(a, 98, 97, 114, 24, 38, 5, 50);
    GroupOf(a, 251, 255, 0, 62, 63, 60, 0);
  }

  lemma GroupOf(a: Alphabet, x: Byte, y: Byte, z: Byte, p: int, q: int, r: int, s: int)
    requires 0 <= p < 64 && 0 <= q < 64 && 0 <= r < 64 && 0 <= s < 64
    requires p == x / 4 && q == x % 4 * 16 + y / 16 && r == y % 16 * 4 + z / 64 && s == z % 64
    ensures Group(a, x, y, z) == [Symbol(a, p), Symbol(a, q), Symbol(a, r), Symbol(a, s)]
  {
    hide Symbol;
  }

  /** Symbols of the alphabet first, then padding only. */
  lemma {:induction false} CharacterAt(a: Alphabet, s: seq<Byte>, i: nat)
    requires i < |Encode(a, s)|
    ensures Encode(a, s)[i] == EQUALS || Value(a, Encode(a, s)[i]) >= 0
    ensures Value(a, Encode(a, s)[i]) >= 0 <==> i < (4 * |s| + 2) / 3
  {
    if |s| <= 2 {
      GroupRoundTrip(a, s[0], if |s| == 2 then s[1] else 0, 0);
    } else if i < 4 {
      GroupRoundTrip(a, s[0], s[1], s[2]);
    } else {
      assert Encode(a, s)[i] == Encode(a, s[3..])[i - 4];
      CharacterAt(a, s[3..], i - 4);
    }
  }

  lemma ValueIsPrintable(a: Alphabet, c: Byte)
    requires Value(a, c) >= 0
    ensures 33 <= c <= 126
  {
  }
}
