/** The opaque keyset cursor: app/api_cursor.py. */
module Cursor {
  import opened Bytes
  import Base64

  datatype Kind = Trips | Review | Expenses

  /** The last row of a page: microseconds since the Unix epoch and id. */
  datatype Position = Position(micros: int, id: int)

  datatype Result = Ok(position: Position) | InvalidCursor

  /** SHA-256 as far as the cursor needs it. */
  type Hash = seq<Byte> -> seq<Byte>

  const CURSOR_VERSION: Byte := 1
  const MAX_ID := 0x7FFF_FFFF_FFFF_FFFF
  const MIN_MICROS := -62_135_596_800_000_000  // 0001-01-01
  const MAX_MICROS := 253_402_300_799_999_999  // the last microsecond of 9999
  const HEADER_SIZE := 18
  const LAYOUT_SIZE := 34
  const TEXT_LENGTH := 46

  ghost predicate IsHash(hash: Hash) {
    forall s :: |hash(s)| == 32
  }

  function KindCode(k: Kind): Byte {
    match k
    case Trips => 1
    case Review => 2
    case Expenses => 3
  }

  // -------- fixed-size integers --------

  const TWO_64 := 0x1_0000_0000_0000_0000

  predicate IsInt64(n: int) {
    -0x8000_0000_0000_0000 <= n < 0x8000_0000_0000_0000
  }

  /** The k low octets of a number, the most significant first. */
  function BigEndian(n: nat, k: nat): (r: seq<Byte>)
    ensures |r| == k
  {
    if k == 0 then [] else BigEndian(n / 256, k - 1) + [n % 256]
  }

  function Number(s: seq<Byte>): nat {
    if s == [] then 0 else 256 * Number(s[..|s| - 1]) + s[|s| - 1] as int
  }

  function Power(k: nat): (p: nat)
    ensures p >= 1
  {
    if k == 0 then 1 else 256 * Power(k - 1)
  }

  lemma {:induction false} NumberOfBigEndian(n: nat, k: nat)
    requires n < Power(k)
    ensures Number(BigEndian(n, k)) == n
  {
    if k > 0 {
      var r := BigEndian(n, k);
      assert n / 256 < Power(k - 1);
      NumberOfBigEndian(n / 256, k - 1);
      assert r[..|r| - 1] == BigEndian(n / 256, k - 1);
    }
  }

  /** struct 'q', two's complement. */
  function PackInt64(n: int): (r: seq<Byte>)
    requires IsInt64(n)
    ensures |r| == 8
  {
    BigEndian(if n >= 0 then n else n + TWO_64, 8)
  }

  function UnpackInt64(s: seq<Byte>): int {
    var n := Number(s);
    if n < TWO_64 / 2 then n else n - TWO_64
  }

  lemma Int64ReadsBack(n: int)
    requires IsInt64(n)
    ensures UnpackInt64(PackInt64(n)) == n
  {
    var u := if n >= 0 then n else n + TWO_64;
    assert Power(8) == TWO_64 by { PowerOfEight(); }
    NumberOfBigEndian(u, 8);
  }

  lemma PowerOfEight()
    ensures Power(8) == TWO_64
  {
    assert Power(2) == 0x1_0000;
    assert Power(4) == 0x1_0000_0000;
    assert Power(6) == 0x1_0000_0000_0000;
  }

  // -------- encoding --------

  predicate InRange(p: Position) {
    MIN_MICROS <= p.micros <= MAX_MICROS && 1 <= p.id <= MAX_ID
  }

  function Header(kind: Kind, p: Position): (h: seq<Byte>)
    requires InRange(p)
    ensures |h| == HEADER_SIZE
  {
    [CURSOR_VERSION, KindCode(kind)] + PackInt64(p.micros) + PackInt64(p.id)
  }

  /** _check. */
  function Check(hash: Hash, header: seq<Byte>, digest: seq<Byte>): seq<Byte> {
    var h := hash(header + digest);
    if |h| >= 16 then h[..16] else h
  }

  function RStripEquals(s: seq<Byte>): seq<Byte> {
    if s == [] || s[|s| - 1] != EQUALS then s else RStripEquals(s[..|s| - 1])
  }

  function Raw(hash: Hash, kind: Kind, p: Position, digest: seq<Byte>): seq<Byte>
    requires InRange(p)
  {
    Header(kind, p) + Check(hash, Header(kind, p), digest)
  }

  /** encode_cursor. */
  function Encode(hash: Hash, kind: Kind, p: Position, digest: seq<Byte>): seq<Byte>
    requires InRange(p)
  {
    RStripEquals(Base64.Encode(Base64.UrlSafe, Raw(hash, kind, p, digest)))
  }

  // -------- decoding --------

  predicate IsCursorText(text: seq<Byte>) {
    |text| == TEXT_LENGTH && forall i :: 0 <= i < |text| ==> Base64.Value(Base64.UrlSafe, text[i]) >= 0
  }

  /** The fields of a decoded layout. */
  function Fields(hash: Hash, kind: Kind, raw: seq<Byte>, digest: seq<Byte>): Result {
    if |raw| != LAYOUT_SIZE then InvalidCursor
    else
      var micros, id := UnpackInt64(raw[2..10]), UnpackInt64(raw[10..18]);
      if raw[0] != CURSOR_VERSION || raw[1] != KindCode(kind) || raw[18..] != Check(hash, raw[..18], digest)
         || !(1 <= id <= MAX_ID) then InvalidCursor
      else if !(MIN_MICROS <= micros <= MAX_MICROS) then InvalidCursor
      else Ok(Position(micros, id))
  }

  /** decode_cursor. */
  function Decode(hash: Hash, kind: Kind, text: seq<Byte>, digest: seq<Byte>): Result {
    if !IsCursorText(text) then InvalidCursor
    else
      match Base64.Decode(Base64.UrlSafe, text + [EQUALS, EQUALS])
      case Invalid => InvalidCursor
      case Data(raw) => Fields(hash, kind, raw, digest)
  }

  // -------- decoding undoes encoding --------

  lemma TextOfRaw(raw: seq<Byte>)
    requires |raw| == LAYOUT_SIZE
    ensures var text := Base64.Encode(Base64.UrlSafe, raw);
            RStripEquals(text) + [EQUALS, EQUALS] == text && IsCursorText(RStripEquals(text))
  {
    hide Base64.Encode, Base64.Value, RStripEquals;
    var text := Base64.Encode(Base64.UrlSafe, raw);
    Base64.EncodeLength(Base64.UrlSafe, raw);
    assert |text| == 48;
    forall i | 0 <= i < |text|
      ensures if i < 46 then Base64.Value(Base64.UrlSafe, text[i]) >= 0 else text[i] == EQUALS
    {
      Base64.CharacterAt(Base64.UrlSafe, raw, i);
    }
    SymbolIsNotPadding(text[45]);
    StripTwo(text);
  }

  lemma SymbolIsNotPadding(c: Byte)
    requires Base64.Value(Base64.UrlSafe, c) >= 0
    ensures c != EQUALS
  {
  }

  lemma StripTwo(text: seq<Byte>)
    requires |text| == 48 && text[45] != EQUALS && text[46] == EQUALS && text[47] == EQUALS
    ensures RStripEquals(text) == text[..46] && text[..46] + [EQUALS, EQUALS] == text
  {
    var once := text[..47];
    assert RStripEquals(text) == RStripEquals(once);
    assert once[..46] == text[..46];
    assert RStripEquals(once) == RStripEquals(text[..46]);
  }

  lemma RawFields(hash: Hash, kind: Kind, p: Position, digest: seq<Byte>, kind': Kind, digest': seq<Byte>)
    requires IsHash(hash) && InRange(p)
    ensures |Raw(hash, kind, p, digest)| == LAYOUT_SIZE
    ensures Fields(hash, kind', Raw(hash, kind, p, digest), digest')
         == if kind == kind' && Check(hash, Header(kind, p), digest) == Check(hash, Header(kind, p), digest') then Ok(p)
            else InvalidCursor
  {
    hide PackInt64, UnpackInt64, InRange;
    var raw := Raw(hash, kind, p, digest);
    assert IsInt64(p.micros) && IsInt64(p.id) && InRange(p) by { InRangeFits(p); }
    Int64ReadsBack(p.micros);
    Int64ReadsBack(p.id);
    InRangeFits(p);
    assert raw[2..10] == PackInt64(p.micros) && raw[10..18] == PackInt64(p.id);
    assert raw[..18] == Header(kind, p) && raw[18..] == Check(hash, Header(kind, p), digest);
    assert raw[0] == CURSOR_VERSION && raw[1] == KindCode(kind);
    assert KindCode(kind) == KindCode(kind') <==> kind == kind';
  }

  lemma InRangeFits(p: Position)
    requires InRange(p)
    ensures IsInt64(p.micros) && IsInt64(p.id)
    ensures MIN_MICROS <= p.micros <= MAX_MICROS && 1 <= p.id <= MAX_ID
  {
  }

  // -------- what is accepted was written --------

  lemma {:induction false} BigEndianOfNumber(s: seq<Byte>)
    ensures BigEndian(Number(s), |s|) == s && Number(s) < Power(|s|)
  {
    if s != [] {
      var n := |s| - 1;
      BigEndianOfNumber(s[..n]);
      assert Number(s) / 256 == Number(s[..n]) && Number(s) % 256 == s[n] as int;
      assert s == s[..n] + [s[n]];
    }
  }

  lemma Int64WritesBack(s: seq<Byte>)
    requires |s| == 8
    ensures IsInt64(UnpackInt64(s)) && PackInt64(UnpackInt64(s)) == s
  {
    BigEndianOfNumber(s);
    PowerOfEight();
  }

  /** Whatever text is accepted carries exactly the octets that its position is written with, so its version, kind and
      check value are right, and its position is one that a row can have. */
  lemma AcceptedIsWritten(hash: Hash, kind: Kind, text: seq<Byte>, digest: seq<Byte>)
    requires IsHash(hash) && Decode(hash, kind, text, digest).Ok?
    ensures var p := Decode(hash, kind, text, digest).position;
            && MIN_MICROS <= p.micros <= MAX_MICROS && 1 <= p.id <= MAX_ID && |text| == TEXT_LENGTH
            && InRange(p) && Base64.Decode(Base64.UrlSafe, text + [EQUALS, EQUALS]) == Base64.Data(Raw(hash, kind, p, digest))
  {
    hide PackInt64, UnpackInt64, Check, Base64.Decode;
    var raw := Base64.Decode(Base64.UrlSafe, text + [EQUALS, EQUALS]).data;
    Int64WritesBack(raw[2..10]);
    Int64WritesBack(raw[10..18]);
    var p := Decode(hash, kind, text, digest).position;
    assert raw[..18] == Header(kind, p);
    assert raw == raw[..18] + raw[18..];
  }

  /** A cursor decodes to the position it was made from, and only for its own kind and for filters with
      the same check value. */
  lemma DecodeUndoesEncode(hash: Hash, kind: Kind, p: Position, digest: seq<Byte>, kind': Kind, digest': seq<Byte>)
    requires IsHash(hash) && InRange(p)
    ensures Decode(hash, kind', Encode(hash, kind, p, digest), digest')
         == if kind == kind' && Check(hash, Header(kind, p), digest) == Check(hash, Header(kind, p), digest') then Ok(p)
            else InvalidCursor
    ensures |Encode(hash, kind, p, digest)| == TEXT_LENGTH
  {
    hide Fields, Raw, InRange, RStripEquals;
    var raw := Raw(hash, kind, p, digest);
    RawFields(hash, kind, p, digest, kind', digest');
    TextOfRaw(raw);
    Base64.RoundTrip(Base64.UrlSafe, raw);
  }
}
