/** The chunk structure of the PNG validator: app/avatar_images.py, _detect_png. */
module PngChunks {
  import opened Common
  import opened Bytes
  import opened PngRows

  /** CRC-32 as far as the validator needs it. */
  type Crc = seq<Byte> -> nat

  const SIGNATURE: seq<Byte> := [137, 80, 78, 71, 13, 10, 26, 10]
  const IHDR: seq<Byte> := [73, 72, 68, 82]
  const IDAT: seq<Byte> := [73, 68, 65, 84]
  const PLTE: seq<Byte> := [80, 76, 84, 69]
  const IEND: seq<Byte> := [73, 69, 78, 68]
  const MAX_AVATAR_PIXELS := 16_777_216
  const MAX_AVATAR_SIDE := 8192

  datatype Chunk = Chunk(kind: seq<Byte>, payload: seq<Byte>)

  datatype ImageHeader = ImageHeader(width: nat, height: nat, depth: Byte, color: Byte, compression: Byte,
        filter: Byte, interlace: Byte)

  // -------- chunks as octets --------

  predicate IsChunk(c: Chunk) {
    |c.kind| == 4 && |c.payload| < TWO_32
  }

  function Sum(crc: Crc, c: Chunk): nat {
    crc(c.kind + c.payload) % TWO_32
  }

  function Write(crc: Crc, c: Chunk): seq<Byte> {
    Pack32(|c.payload|) + c.kind + c.payload + Pack32(Sum(crc, c))
  }

  function WriteAll(crc: Crc, chunks: seq<Chunk>): seq<Byte> {
    if chunks == [] then [] else Write(crc, chunks[0]) + WriteAll(crc, chunks[1..])
  }

  /** The chunk at the front of some data, if it is whole and its check value is right. */
  function First(crc: Crc, data: seq<Byte>): Option<Chunk> {
    if |data| < 12 then None
    else
      var length := Unpack32(data[..4]);
      if 12 + length > |data| then None
      else
        var c := Chunk(data[4..8], data[8..8 + length]);
        if Sum(crc, c) != Unpack32(data[8 + length..12 + length]) then None else Some(c)
  }

  lemma FirstReadsWritten(crc: Crc, c: Chunk, rest: seq<Byte>)
    requires IsChunk(c)
    ensures |Write(crc, c)| == 12 + |c.payload| && First(crc, Write(crc, c) + rest) == Some(c)
    ensures (Write(crc, c) + rest)[12 + |c.payload|..] == rest
  {
    hide Pack32, Unpack32, Sum;
    var n := |c.payload|;
    var data := Write(crc, c) + rest;
    UnpackUndoesPack(n);
    assert Sum(crc, c) < TWO_32 by { SumIsSmall(crc, c); }
    UnpackUndoesPack(Sum(crc, c));
    assert data[..4] == Pack32(n) && data[4..8] == c.kind && data[8..8 + n] == c.payload;
    assert data[8 + n..12 + n] == Pack32(Sum(crc, c));
  }

  lemma SumIsSmall(crc: Crc, c: Chunk)
    ensures Sum(crc, c) < TWO_32
  {
  }

  lemma FirstIsWritten(crc: Crc, data: seq<Byte>)
    requires First(crc, data).Some?
    ensures var c := First(crc, data).value;
            IsChunk(c) && 12 + |c.payload| <= |data| && data == Write(crc, c) + data[12 + |c.payload|..]
  {
    hide Pack32, Unpack32, Sum;
    var c := First(crc, data).value;
    var n := |c.payload|;
    PackUndoesUnpack(data[..4]);
    PackUndoesUnpack(data[8 + n..12 + n]);
    assert data == data[..4] + data[4..8] + data[8..8 + n] + data[8 + n..12 + n] + data[12 + n..];
  }

  // -------- the header --------

  predicate ValidDepth(color: Byte, depth: Byte) {
    match color
    case 0 => depth == 1 || depth == 2 || depth == 4 || depth == 8 || depth == 16
    case 3 => depth == 1 || depth == 2 || depth == 4 || depth == 8
    case 2 | 4 | 6 => depth == 8 || depth == 16
    case _ => false
  }

  function ReadHeader(payload: seq<Byte>): ImageHeader
    requires |payload| == 13
  {
    ImageHeader(Unpack32(payload[..4]), Unpack32(payload[4..8]), payload[8], payload[9], payload[10], payload[11], payload[12])
  }

  predicate HeaderOk(h: ImageHeader) {
    && h.width > 0 && h.height > 0 && ValidDepth(h.color, h.depth)
    && h.compression == 0 && h.filter == 0 && h.interlace <= 1
  }

  predicate Oversized(h: ImageHeader) {
    h.width * h.height > MAX_AVATAR_PIXELS || h.width > MAX_AVATAR_SIDE || h.height > MAX_AVATAR_SIDE
  }

  predicate IsHeaderChunk(c: Chunk) {
    c.kind == IHDR && |c.payload| == 13 && HeaderOk(ReadHeader(c.payload))
  }

  // -------- the loop, chunk by chunk --------

  /** The flags of the loop once the header was seen, and the image data so far. */
  datatype State = State(header: ImageHeader, sawPlte: bool, sawIdat: bool, endedIdat: bool, data: seq<Byte>)

  /** Image: the structure is sound, and the image data is still to be judged. */
  datatype Verdict = Invalid | TooLarge | Image(header: ImageHeader, data: seq<Byte>)

  datatype Next = Go(state: State) | Stop(verdict: Verdict)

  predicate Ancillary(c: Chunk) {
    c.kind != [] && c.kind[0] / 32 % 2 == 1
  }

  predicate PaletteOk(h: ImageHeader, c: Chunk) {
    h.color != 0 && h.color != 4 && 0 < |c.payload| <= 768 && |c.payload| % 3 == 0
  }

  function Step(s: State, c: Chunk, atEnd: bool): Next {
    if c.kind == IDAT then
      if s.endedIdat then Stop(Invalid) else Go(s.(sawIdat := true, data := s.data + c.payload))
    else if c.kind == PLTE then
      if s.sawPlte || s.sawIdat || !PaletteOk(s.header, c) then Stop(Invalid) else Go(s.(sawPlte := true))
    else if c.kind == IEND then
      if !(s.sawIdat && (s.header.color != 3 || s.sawPlte) && c.payload == [] && atEnd) then Stop(Invalid)
      else if Oversized(s.header) then Stop(TooLarge)
      else Stop(Image(s.header, s.data))
    else if !Ancillary(c) then Stop(Invalid)
    else Go(if s.sawIdat then s.(endedIdat := true) else s)
  }

  function Start(c: Chunk): Next {
    if IsHeaderChunk(c) then Go(State(ReadHeader(c.payload), false, false, false, [])) else Stop(Invalid)
  }

  function StepOrStart(s: Option<State>, c: Chunk, atEnd: bool): Next {
    match s
    case None => Start(c)
    case Some(state) => Step(state, c, atEnd)
  }

  /** The loop over the octets after the signature. */
  function Scan(crc: Crc, s: Option<State>, data: seq<Byte>): Verdict
    decreases |data|
  {
    match First(crc, data)
    case None => Invalid
    case Some(c) =>
      var size := 12 + |c.payload|;
      match StepOrStart(s, c, size == |data|)
      case Stop(v) => v
      case Go(next) => Scan(crc, Some(next), data[size..])
  }

  /** The same over chunks. */
  function Judge(s: Option<State>, chunks: seq<Chunk>): Verdict
    decreases |chunks|
  {
    if chunks == [] then Invalid
    else
      match StepOrStart(s, chunks[0], |chunks| == 1)
      case Stop(v) => v
      case Go(next) => Judge(Some(next), chunks[1..])
  }

  ghost predicate AllChunks(chunks: seq<Chunk>) {
    forall i :: 0 <= i < |chunks| ==> IsChunk(chunks[i])
  }

  lemma {:induction false} ScanJudgesChunks(crc: Crc, s: Option<State>, chunks: seq<Chunk>)
    requires AllChunks(chunks)
    ensures Scan(crc, s, WriteAll(crc, chunks)) == Judge(s, chunks)
    decreases |chunks|
  {
    hide Write, First, StepOrStart;
    if chunks == [] {
      NothingFirst(crc);
    } else {
      var c, rest := chunks[0], chunks[1..];
      assert IsChunk(c) && AllChunks(rest);
      FirstReadsWritten(crc, c, WriteAll(crc, rest));
      NothingWritten(crc, rest);
      var next := StepOrStart(s, c, |chunks| == 1);
      if next.Go? {
        ScanJudgesChunks(crc, Some(next.state), rest);
      }
    }
  }

  lemma NothingFirst(crc: Crc)
    ensures First(crc, []) == None
  {
  }

  lemma NothingWritten(crc: Crc, chunks: seq<Chunk>)
    ensures WriteAll(crc, chunks) == [] <==> chunks == []
  {
  }

  /** Data that is not refused is a sequence of chunks. */
  lemma {:induction false} AcceptedIsChunks(crc: Crc, s: Option<State>, data: seq<Byte>) returns (chunks: seq<Chunk>)
    requires Scan(crc, s, data) != Invalid
    ensures AllChunks(chunks) && data == WriteAll(crc, chunks)
    decreases |data|
  {
    hide Write, First, StepOrStart;
    var c := First(crc, data).value;
    FirstIsWritten(crc, data);
    var rest := data[12 + |c.payload|..];
    var next := StepOrStart(s, c, 12 + |c.payload| == |data|);
    if next.Go? {
      var tail := AcceptedIsChunks(crc, Some(next.state), rest);
      chunks := [c] + tail;
      assert chunks[1..] == tail;
    } else {
      VerdictOnlyAtEnd(s, c, 12 + |c.payload| == |data|);
      assert rest == [];
      chunks := [c];
      assert chunks[1..] == [];
    }
  }

  lemma VerdictOnlyAtEnd(s: Option<State>, c: Chunk, atEnd: bool)
    requires StepOrStart(s, c, atEnd).Stop? && StepOrStart(s, c, atEnd).verdict != Invalid
    ensures atEnd && c.kind == IEND && s.Some?
  {
  }

  // -------- what the loop accepts --------

  function Payloads(m: seq<Chunk>): seq<Byte> {
    if m == [] then []
    else Payloads(m[..|m| - 1]) + (if m[|m| - 1].kind == IDAT then m[|m| - 1].payload else [])
  }

  ghost predicate HasKind(m: seq<Chunk>, kind: seq<Byte>) {
    exists i :: 0 <= i < |m| && m[i].kind == kind
  }

  /** A chunk that may stand between header and end. */
  predicate Allowed(h: ImageHeader, c: Chunk) {
    c.kind == IDAT || (c.kind == PLTE && PaletteOk(h, c)) || Ancillary(c)
  }

  /** The chunks between header and end: only allowed ones, the image data in one run, and at most one palette,
      before the image data. */
  ghost predicate Orderly(h: ImageHeader, m: seq<Chunk>) {
    && (forall i :: 0 <= i < |m| ==> Allowed(h, m[i]))
    && (forall i, j, k :: 0 <= i < j < k < |m| && m[i].kind == IDAT && m[k].kind == IDAT ==> m[j].kind == IDAT)
    && (forall i, j :: 0 <= i < j < |m| && m[j].kind == PLTE ==> m[i].kind != IDAT && m[i].kind != PLTE)
  }

  ghost predicate Closed(m: seq<Chunk>) {
    exists i, j :: 0 <= i < j < |m| && m[i].kind == IDAT && m[j].kind != IDAT
  }

  /** The middle of the loop. */
  function Fold(s: State, m: seq<Chunk>): Option<State> {
    if m == [] then Some(s)
    else
      match Fold(s, m[..|m| - 1])
      case None => None
      case Some(state) =>
        match Step(state, m[|m| - 1], false)
        case Stop(_) => None
        case Go(next) => Some(next)
  }

  lemma KindsSnoc(m: seq<Chunk>, c: Chunk, kind: seq<Byte>)
    ensures HasKind(m + [c], kind) <==> HasKind(m, kind) || c.kind == kind
  {
    var all := m + [c];
    if HasKind(m, kind) {
      var i :| 0 <= i < |m| && m[i].kind == kind;
      assert all[i].kind == kind;
    }
    assert all[|m|] == c;
  }

  lemma ClosedSnoc(m: seq<Chunk>, c: Chunk)
    ensures Closed(m + [c]) <==> Closed(m) || (HasKind(m, IDAT) && c.kind != IDAT)
  {
    var all := m + [c];
    assert all[|m|] == c;
    if Closed(m) {
      var i, j :| 0 <= i < j < |m| && m[i].kind == IDAT && m[j].kind != IDAT;
      assert all[i] == m[i] && all[j] == m[j];
    }
    if HasKind(m, IDAT) && c.kind != IDAT {
      var i :| 0 <= i < |m| && m[i].kind == IDAT;
      assert all[i] == m[i];
    }
  }

  lemma OrderlySnoc(h: ImageHeader, m: seq<Chunk>, c: Chunk)
    ensures Orderly(h, m + [c]) <==>
            && Orderly(h, m) && Allowed(h, c)
            && (c.kind == IDAT ==> !Closed(m))
            && (c.kind == PLTE ==> !HasKind(m, IDAT) && !HasKind(m, PLTE))
  {
    hide Allowed, IDAT, PLTE;
    var all, n := m + [c], |m|;
    assert all[n] == c && forall i :: 0 <= i < n ==> all[i] == m[i];
    if Orderly(h, all) {
      assert Orderly(h, m) by {
        forall i | 0 <= i < n
          ensures Allowed(h, m[i])
        {
          assert Allowed(h, all[i]);
        }
      }
      assert Allowed(h, all[n]);
    }
  }

  ghost predicate FoldsTo(h: ImageHeader, m: seq<Chunk>, s: State) {
    s == State(h, HasKind(m, PLTE), HasKind(m, IDAT), Closed(m), Payloads(m))
  }

  lemma DifferentKinds()
    ensures IDAT != PLTE && IDAT != IEND && PLTE != IEND && IHDR != IDAT && IHDR != PLTE && IHDR != IEND
    ensures IDAT[0] / 32 % 2 == 0 && PLTE[0] / 32 % 2 == 0 && IEND[0] / 32 % 2 == 0
  {
    assert IDAT[1] != IEND[1] && IHDR[1] != IDAT[1] && IHDR[1] != IEND[1];
  }

  lemma StepInTheMiddle(h: ImageHeader, m: seq<Chunk>, s: State, c: Chunk)
    requires FoldsTo(h, m, s) && (Closed(m) ==> HasKind(m, IDAT))
    ensures Step(s, c, false).Go? <==>
            && Allowed(h, c) && (c.kind == IDAT ==> !Closed(m)) && (c.kind == PLTE ==> !HasKind(m, IDAT) && !HasKind(m, PLTE))
    ensures Step(s, c, false).Go? ==> FoldsTo(h, m + [c], Step(s, c, false).state)
  {
    hide HasKind, Closed, PaletteOk;
    DifferentKinds();
    KindsSnoc(m, c, IDAT);
    KindsSnoc(m, c, PLTE);
    ClosedSnoc(m, c);
    assert (m + [c])[..|m|] == m;
  }

  /** The fold gets through exactly the orderly middles, and its flags mean what they say. */
  lemma {:induction false} FoldIsOrderly(h: ImageHeader, m: seq<Chunk>)
    ensures var r := Fold(State(h, false, false, false, []), m);
            && (r.Some? <==> Orderly(h, m))
            && (r.Some? ==> FoldsTo(h, m, r.value))
  {
    if m != [] {
      var front, c := m[..|m| - 1], m[|m| - 1];
      FoldIsOrderly(h, front);
      assert m == front + [c];
      var r := Fold(State(h, false, false, false, []), front);
      hide Orderly, FoldsTo, Allowed, HasKind, Closed, Step;
      OrderlySnoc(h, front, c);
      ClosedMeans(front);
      if r.Some? {
        StepInTheMiddle(h, front, r.value, c);
      }
    }
  }

  lemma ClosedMeans(m: seq<Chunk>)
    ensures Closed(m) ==> HasKind(m, IDAT)
  {
  }

  lemma {:induction false} FoldCons(s: State, c: Chunk, m: seq<Chunk>)
    ensures Fold(s, [c] + m) == match Step(s, c, false) case Stop(_) => None case Go(next) => Fold(next, m)
    decreases |m|
  {
    hide Step;
    var all := [c] + m;
    if m == [] {
      assert all[..0] == [];
      assert Fold(s, all[..0]) == Some(s);
    } else {
      assert all[..|all| - 1] == [c] + m[..|m| - 1];
      FoldCons(s, c, m[..|m| - 1]);
    }
  }

  /** A verdict other than a refusal comes from the last chunk, after the middle was folded. */
  lemma {:induction false} JudgeIsFoldThenLast(s: State, m: seq<Chunk>, last: Chunk)
    ensures Judge(Some(s), m + [last]) ==
            match Fold(s, m)
            case None => Invalid
            case Some(state) => (match Step(state, last, true) case Stop(v) => v case Go(_) => Invalid)
    decreases |m|
  {
    hide Step;
    var all := m + [last];
    if m == [] {
      assert all[1..] == [];
      assert Judge(Some(s), all) == match Step(s, last, true) case Stop(v) => v case Go(_) => Invalid by {
        JudgeNothing();
      }
    } else {
      assert all[1..] == m[1..] + [last] && m == [m[0]] + m[1..];
      FoldCons(s, m[0], m[1..]);
      MiddleStops(s, m[0]);
      var next := Step(s, m[0], false);
      if next.Go? {
        JudgeIsFoldThenLast(next.state, m[1..], last);
      }
    }
  }

  lemma JudgeNothing()
    ensures forall s: Option<State> :: Judge(s, []) == Invalid
  {
  }

  lemma MiddleStops(s: State, c: Chunk)
    ensures Step(s, c, false).Stop? ==> Step(s, c, false).verdict == Invalid
  {
  }

  /** Header first, an orderly middle with image data and, for palette colours, a palette, and an empty end last. */
  ghost predicate WellFormed(chunks: seq<Chunk>) {
    && |chunks| >= 2 && IsHeaderChunk(chunks[0]) && chunks[|chunks| - 1] == Chunk(IEND, [])
    && var h, m := ReadHeader(chunks[0].payload), chunks[1..|chunks| - 1];
       Orderly(h, m) && HasKind(m, IDAT) && (h.color == 3 ==> HasKind(m, PLTE))
  }

  function VerdictOf(chunks: seq<Chunk>): Verdict
    requires |chunks| >= 2 && |chunks[0].payload| == 13
  {
    var h := ReadHeader(chunks[0].payload);
    if Oversized(h) then TooLarge else Image(h, Payloads(chunks[1..|chunks| - 1]))
  }

  lemma JudgeIsWellFormed(chunks: seq<Chunk>)
    ensures Judge(None, chunks) != Invalid <==> WellFormed(chunks)
    ensures WellFormed(chunks) ==> Judge(None, chunks) == VerdictOf(chunks)
  {
    hide Orderly, HasKind, Closed, Fold, Payloads;
    if |chunks| == 1 {
      assert chunks[1..] == [];
    } else if |chunks| >= 2 && IsHeaderChunk(chunks[0]) {
      var h, m, last := ReadHeader(chunks[0].payload), chunks[1..|chunks| - 1], chunks[|chunks| - 1];
      var start := State(h, false, false, false, []);
      assert chunks[1..] == m + [last];
      JudgeIsFoldThenLast(start, m, last);
      FoldIsOrderly(h, m);
      if Fold(start, m).Some? {
        LastStep(Fold(start, m).value, last);
      }
    }
  }

  lemma LastStep(s: State, last: Chunk)
    ensures var r := Step(s, last, true);
            var ok := last == Chunk(IEND, []) && s.sawIdat && (s.header.color == 3 ==> s.sawPlte);
            && (r.Stop? && r.verdict != Invalid <==> ok)
            && (ok ==> r.verdict == if Oversized(s.header) then TooLarge else Image(s.header, s.data))
  {
    DifferentKinds();
  }

  // -------- the validator --------

  datatype Status = NoMatch | Refused | Oversize | Valid

  function Channels(color: Byte): nat {
    if color == 2 then 3 else if color == 4 then 2 else if color == 6 then 4 else 1
  }

  ghost predicate ImageRows(h: ImageHeader, data: Inflated) {
    data.complete &&
    IsRows(Rows(Passes(h.interlace == 1), h.width, h.height, Channels(h.color) * h.depth), Flatten(data.pieces))
  }

  ghost function StatusOf(crc: Crc, inflate: seq<Byte> -> Inflated, data: seq<Byte>): Status {
    if !(SIGNATURE <= data) then NoMatch
    else
      match Scan(crc, None, data[|SIGNATURE|..])
      case Invalid => Refused
      case TooLarge => Oversize
      case Image(h, compressed) => if ImageRows(h, inflate(compressed)) then Valid else Refused
  }

  /** _detect_png. */
  method DetectPng(crc: Crc, inflate: seq<Byte> -> Inflated, data: seq<Byte>) returns (status: Status)
    ensures status == StatusOf(crc, inflate, data)
  {
    hide Scan, First, StepOrStart, ImageRows, SIGNATURE, StatusOf, IsRows, Rows, Write;
    SignatureSize();
    if !(SIGNATURE <= data) {
      NoSignature(crc, inflate, data);
      return NoMatch;
    }
    StatusByVerdict(crc, inflate, data);
    var offset := 8;
    var state: Option<State> := None;
    while offset < |data|
      invariant 8 <= offset <= |data|
      invariant Scan(crc, state, data[offset..]) == Scan(crc, None, data[8..])
      decreases |data| - offset
    {
      var rest := data[offset..];
      ScanNext(crc, state, rest);
      if |rest| < 12 {
        return Refused;
      }
      var chunk := First(crc, rest);
      if chunk.None? {
        return Refused;
      }
      var size := 12 + |chunk.value.payload|;
      FirstIsWritten(crc, rest);
      assert rest[size..] == data[offset + size..];
      var next := StepOrStart(state, chunk.value, offset + size == |data|);
      match next {
        case Stop(Invalid) => return Refused;
        case Stop(TooLarge) => return Oversize;
        case Stop(Image(h, compressed)) =>
          var ok := ImageDataIsValid(inflate(compressed), h.width, h.height, Channels(h.color) * h.depth, h.interlace == 1);
          assert ok <==> ImageRows(h, inflate(compressed)) by { ImageRowsMeans(h, inflate(compressed)); }
          return if ok then Valid else Refused;
        case Go(s) => state := Some(s);
      }
      offset := offset + size;
    }
    ScanNext(crc, state, []);
    assert data[offset..] == [];
    return Refused;
  }

  /** One turn of the loop. */
  lemma ScanNext(crc: Crc, s: Option<State>, rest: seq<Byte>)
    ensures |rest| < 12 ==> First(crc, rest) == None
    ensures Scan(crc, s, rest) ==
            match First(crc, rest)
            case None => Invalid
            case Some(c) =>
              (match StepOrStart(s, c, 12 + |c.payload| == |rest|)
               case Stop(v) => v
               case Go(next) => Scan(crc, Some(next), rest[12 + |c.payload|..]))
  {
    hide StepOrStart;
  }

  lemma NoSignature(crc: Crc, inflate: seq<Byte> -> Inflated, data: seq<Byte>)
    requires !(SIGNATURE <= data)
    ensures StatusOf(crc, inflate, data) == NoMatch
  {
  }

  lemma StatusByVerdict(crc: Crc, inflate: seq<Byte> -> Inflated, data: seq<Byte>)
    requires SIGNATURE <= data && |SIGNATURE| == 8
    ensures StatusOf(crc, inflate, data)
         == match Scan(crc, None, data[8..])
            case Invalid => Refused
            case TooLarge => Oversize
            case Image(h, compressed) => if ImageRows(h, inflate(compressed)) then Valid else Refused
  {
    hide Scan, ImageRows;
  }

  lemma SignatureSize()
    ensures |SIGNATURE| == 8
  {
  }

  lemma ImageRowsMeans(h: ImageHeader, data: Inflated)
    ensures ImageRows(h, data) <==>
            data.complete &&
            IsRows(Rows(Passes(h.interlace == 1), h.width, h.height, Channels(h.color) * h.depth), Flatten(data.pieces))
  {
  }

  /** What the scan lets through is exactly the data made of well-formed chunks, with right check values and
      nothing after the end. */
  lemma ScanAcceptsExactly(crc: Crc, data: seq<Byte>)
    ensures Scan(crc, None, data) != Invalid
       <==> exists chunks :: AllChunks(chunks) && WellFormed(chunks) && data == WriteAll(crc, chunks)
  {
    hide WellFormed, Scan, Judge, WriteAll;
    if Scan(crc, None, data) != Invalid {
      var chunks := AcceptedIsChunks(crc, None, data);
      ScanJudgesChunks(crc, None, chunks);
      JudgeIsWellFormed(chunks);
    }
    if chunks :| AllChunks(chunks) && WellFormed(chunks) && data == WriteAll(crc, chunks) {
      ScanJudgesChunks(crc, None, chunks);
      JudgeIsWellFormed(chunks);
    }
  }

  /** And the verdict is about the header and the image data of those chunks. */
  lemma VerdictIsAboutTheChunks(crc: Crc, chunks: seq<Chunk>)
    requires AllChunks(chunks) && WellFormed(chunks)
    ensures Scan(crc, None, WriteAll(crc, chunks)) == VerdictOf(chunks)
  {
    ScanJudgesChunks(crc, None, chunks);
    JudgeIsWellFormed(chunks);
  }
}
