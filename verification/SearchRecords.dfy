/** The framed records that carry a search pattern: app/export_filters.py, pattern, and its reader
    in app/export_preparation.py, assemble_search_pattern. */
module SearchRecords {
  import opened Common
  import opened Bytes
  import opened Utf8Codec
  import opened SearchPattern
  import opened TextStore

  const PIECE := 4096

  // -------- framing --------

  function Frame(records: seq<seq<Byte>>): seq<Byte> {
    if records == [] then [] else Pack32(|records[0]|) + records[0] + Frame(records[1..])
  }

  lemma {:induction false} FrameSnoc(records: seq<seq<Byte>>, raw: seq<Byte>)
    ensures Frame(records + [raw]) == Frame(records) + Pack32(|raw|) + raw
  {
    if records == [] {
      assert ([raw])[1..] == [];
      assert records + [raw] == [raw];
      assert Frame([raw]) == Pack32(|raw|) + raw + [];
      assert [] + Pack32(|raw|) + raw == Pack32(|raw|) + raw + [];
    } else {
      assert (records + [raw])[1..] == records[1..] + [raw];
      FrameSnoc(records[1..], raw);
      var h := Pack32(|records[0]|) + records[0];
      assert h + (Frame(records[1..]) + Pack32(|raw|) + raw) == h + Frame(records[1..]) + Pack32(|raw|) + raw;
    }
  }

  /** What the reader makes of a file. */
  function Parse(file: seq<Byte>): Result<seq<seq<Byte>>>
    decreases |file|
  {
    if file == [] then Ok([])
    else if |file| < 4 then Err(IncompleteRecord)
    else
      var size := Unpack32(file[..4]);
      if !(0 < size <= FRAME_BYTES) then Err(InvalidRecord)
      else if |file| < 4 + size then Err(IncompleteRecord)
      else
        match Parse(file[4 + size..])
        case Err(e) => Err(e)
        case Ok(rest) => Ok([file[4..4 + size]] + rest)
  }

  /** Files of records, and nothing else, are read, and read back as they were written. */
  lemma {:induction false} ParseUndoesFrame(records: seq<seq<Byte>>)
    requires AllFit(records)
    ensures Parse(Frame(records)) == Ok(records)
  {
    if records != [] {
      var raw, rest, file := records[0], records[1..], Frame(records);
      assert Fits(raw);
      assert AllFit(rest);
      ParseUndoesFrame(rest);
      UnpackUndoesPack(|raw|);
      assert file[..4] == Pack32(|raw|);
      assert file[4..4 + |raw|] == raw && file[4 + |raw|..] == Frame(rest);
      assert records == [raw] + rest;
    }
  }

  lemma {:induction false} FrameUndoesParse(file: seq<Byte>)
    requires Parse(file).Ok?
    ensures AllFit(Parse(file).value) && Frame(Parse(file).value) == file
    decreases |file|
  {
    hide Pack32, Unpack32;
    if file != [] {
      var size := Unpack32(file[..4]);
      var raw, tail := file[4..4 + size], file[4 + size..];
      var rest := Parse(tail).value;
      FrameUndoesParse(tail);
      PackUndoesUnpack(file[..4]);
      assert ([raw] + rest)[1..] == rest;
      assert file == file[..4] + raw + tail;
    }
  }

  // -------- the writer --------

  /** The escaped pieces of a chunk. */
  function Pieces(chunk: Text): seq<Text>
    decreases |chunk|
  {
    if chunk == [] then []
    else if |chunk| <= PIECE then [Replaced(chunk)]
    else [Replaced(chunk[..PIECE])] + Pieces(chunk[PIECE..])
  }

  function ChunkPieces(chunks: seq<Text>): seq<Text> {
    if chunks == [] then [] else Pieces(chunks[0]) + ChunkPieces(chunks[1..])
  }

  function Records(chunks: seq<Text>): seq<Text> {
    [[PERCENT]] + ChunkPieces(chunks) + [[PERCENT]]
  }

  lemma {:induction false} PiecesCarryTheChunk(chunk: Text)
    ensures Flatten(Pieces(chunk)) == Escape(chunk)
    decreases |chunk|
  {
    if chunk == [] {
    } else if |chunk| <= PIECE {
      ReplacedIsEscaped(chunk);
      assert [Replaced(chunk)][1..] == [];
      assert Flatten([Replaced(chunk)]) == Replaced(chunk) + [];
    } else {
      assert chunk == chunk[..PIECE] + chunk[PIECE..];
      EscapeConcat(chunk[..PIECE], chunk[PIECE..]);
      ReplacedIsEscaped(chunk[..PIECE]);
      PiecesCarryTheChunk(chunk[PIECE..]);
    }
  }

  lemma {:induction false} ChunkPiecesCarryTheText(chunks: seq<Text>)
    ensures Flatten(ChunkPieces(chunks)) == Escape(Flatten(chunks))
  {
    if chunks != [] {
      PiecesCarryTheChunk(chunks[0]);
      ChunkPiecesCarryTheText(chunks[1..]);
      FlattenConcat(Pieces(chunks[0]), ChunkPieces(chunks[1..]));
      EscapeConcat(chunks[0], Flatten(chunks[1..]));
    }
  }

  /** Whatever the chunks, the records together are the pattern of the whole text. */
  lemma RecordsCarryThePattern(chunks: seq<Text>)
    ensures Flatten(Records(chunks)) == [PERCENT] + Escape(Flatten(chunks)) + [PERCENT]
  {
    var percent: seq<Text> := [[PERCENT]];
    ChunkPiecesCarryTheText(chunks);
    FlattenConcat(percent + ChunkPieces(chunks), percent);
    FlattenConcat(percent, ChunkPieces(chunks));
    assert percent[1..] == [];
    assert Flatten(percent) == [PERCENT] + [];
  }

  // -------- encoded records --------

  /** A client codec: at most four octets for a character, and it has the characters of the pattern syntax. */
  ghost predicate Bounded(enc: Codec) {
    (forall c: Char :: |enc(c)| <= 4) && enc(BACKSLASH) != [] && enc(PERCENT) != [] && enc(UNDERSCORE) != []
  }

  /** The codec has every character of the text. */
  predicate Encodable(enc: Codec, t: Text) {
    forall i :: 0 <= i < |t| ==> enc(t[i]) != []
  }

  lemma EncodableConcat(enc: Codec, a: Text, b: Text)
    ensures Encodable(enc, a + b) <==> Encodable(enc, a) && Encodable(enc, b)
  {
    if Encodable(enc, a + b) {
      assert forall i :: 0 <= i < |a| ==> a[i] == (a + b)[i];
      assert forall i :: 0 <= i < |b| ==> b[i] == (a + b)[|a| + i];
    }
  }

  lemma {:induction false} EscapeKeepsEncodable(enc: Codec, t: Text)
    requires enc(BACKSLASH) != []
    ensures Encodable(enc, Escape(t)) <==> Encodable(enc, t)
  {
    if t != [] {
      EscapeKeepsEncodable(enc, t[1..]);
      assert t == [t[0]] + t[1..];
      EncodableConcat(enc, [t[0]], t[1..]);
      EncodableConcat(enc, if IsSpecial(t[0]) then [BACKSLASH, t[0]] else [t[0]], Escape(t[1..]));
      EncodableConcat(enc, [BACKSLASH], [t[0]]);
      assert [BACKSLASH] + [t[0]] == [BACKSLASH, t[0]];
    }
  }

  function EncodeAll(enc: Codec, records: seq<Text>): (r: seq<seq<Byte>>)
    ensures |r| == |records| && forall i :: 0 <= i < |r| ==> r[i] == Encode(enc, records[i])
  {
    if records == [] then [] else [Encode(enc, records[0])] + EncodeAll(enc, records[1..])
  }

  lemma {:induction false} EncodeAllConcat(enc: Codec, a: seq<Text>, b: seq<Text>)
    ensures EncodeAll(enc, a + b) == EncodeAll(enc, a) + EncodeAll(enc, b)
  {
  }

  lemma {:induction false} EncodedTogether(enc: Codec, records: seq<Text>)
    ensures Flatten(EncodeAll(enc, records)) == Encode(enc, Flatten(records))
  {
    if records != [] {
      EncodedTogether(enc, records[1..]);
      EncodeConcat(enc, records[0], Flatten(records[1..]));
    }
  }

  lemma {:induction false} EncodedSize(enc: Codec, t: Text)
    requires Bounded(enc)
    ensures |Encode(enc, t)| <= 4 * |t|
    ensures Encodable(enc, t) ==> |t| <= |Encode(enc, t)|
  {
    if t != [] {
      EncodedSize(enc, t[1..]);
      EncodableConcat(enc, [t[0]], t[1..]);
      assert t == [t[0]] + t[1..];
      assert Encodable(enc, [t[0]]) ==> enc([t[0]][0]) != [];
    }
  }

  lemma {:induction false} EscapedSize(t: Text)
    ensures |t| <= |Escape(t)| <= 2 * |t|
    ensures NUL in Escape(t) <==> NUL in t
  {
    if t != [] {
      EscapedSize(t[1..]);
      assert NUL in t <==> t[0] == NUL || NUL in t[1..];
    }
  }

  /** A piece of at most 4096 characters always makes a record of an allowed size. */
  lemma PieceFits(enc: Codec, piece: Text)
    requires Bounded(enc) && 1 <= |piece| <= PIECE
    ensures Encodable(enc, piece) ==> Fits(Encode(enc, Replaced(piece)))
    ensures Encodable(enc, Replaced(piece)) <==> Encodable(enc, piece)
    ensures NUL in Replaced(piece) <==> NUL in piece
  {
    ReplacedIsEscaped(piece);
    EscapedSize(piece);
    EscapeKeepsEncodable(enc, piece);
    EncodedSize(enc, Replaced(piece));
  }

  function TotalSize(records: seq<seq<Byte>>): nat {
    if records == [] then 0 else |records[0]| + TotalSize(records[1..])
  }

  lemma {:induction false} TotalSnoc(records: seq<seq<Byte>>, raw: seq<Byte>)
    ensures TotalSize(records + [raw]) == TotalSize(records) + |raw|
  {
    if records == [] {
      assert ([raw])[1..] == [];
      assert records + [raw] == [raw];
    } else {
      assert (records + [raw])[1..] == records[1..] + [raw];
      TotalSnoc(records[1..], raw);
    }
  }

  /** The file being written, and the counters that go with it. */
  class PatternFile {
    const enc: Codec
    var file: seq<Byte>
    var count: nat
    var size: nat
    ghost var records: seq<seq<Byte>>

    ghost predicate Valid()
      reads this
    {
      file == Frame(records) && count == |records| && size == TotalSize(records) && AllFit(records)
    }

    constructor (codec: Codec)
      ensures Valid() && enc == codec && records == []
    {
      enc, file, count, size, records := codec, [], 0, 0, [];
    }

    /** record. */
    method Record(text: Text) returns (error: Option<Error>)
      requires Valid()
      modifies this
      ensures Valid()
      ensures error == if NUL in text then Some(DataError)
                       else if !Encodable(enc, text) then Some(EncodeError)
                       else if !Fits(Encode(enc, text)) then Some(InvalidRecord) else None
      ensures records == if error == None then old(records) + [Encode(enc, text)] else old(records)
    {
      if NUL in text {
        return Some(DataError);
      }
      if !Encodable(enc, text) {
        return Some(EncodeError);
      }
      var raw := Encode(enc, text);
      if |raw| == 0 || |raw| > FRAME_BYTES {
        return Some(InvalidRecord);
      }
      FrameSnoc(records, raw);
      TotalSnoc(records, raw);
      file := file + Pack32(|raw|);
      file := file + raw;
      count := count + 1;
      size := size + |raw|;
      records := records + [raw];
      return None;
    }
  }

  datatype Artifact = Artifact(file: seq<Byte>, count: nat, size: nat)

  datatype Search = NoSearch | Search(artifact: Artifact) | Refused(error: Error)

  function Written(enc: Codec, chunks: seq<Text>): Artifact {
    var raws := EncodeAll(enc, Records(chunks));
    Artifact(Frame(raws), |raws|, TotalSize(raws))
  }

  lemma PercentRecord(enc: Codec)
    requires Bounded(enc)
    ensures Fits(Encode(enc, [PERCENT])) && NUL !in [PERCENT] && Encodable(enc, [PERCENT])
  {
    EncodedSize(enc, [PERCENT]);
  }

  lemma FirstPiece(chunk: Text, offset: nat)
    requires offset < |chunk|
    ensures var n := if |chunk| - offset <= PIECE then |chunk| - offset else PIECE;
            Pieces(chunk[offset..]) == [Replaced(chunk[offset..offset + n])] + Pieces(chunk[offset + n..])
  {
    var rest := chunk[offset..];
    if |rest| <= PIECE {
      assert chunk[offset..|chunk|] == rest;
    } else {
      assert rest[..PIECE] == chunk[offset..offset + PIECE] && rest[PIECE..] == chunk[offset + PIECE..];
    }
  }

  /** A text that can be recorded. */
  predicate Writable(enc: Codec, t: Text) {
    NUL !in t && Encodable(enc, t)
  }

  /** Why a text cannot be recorded. */
  predicate Explains(enc: Codec, t: Text, error: Error) {
    (error == DataError && NUL in t) || (error == EncodeError && !Encodable(enc, t))
  }

  /** The inner loop of pattern: the pieces of one chunk. */
  method WriteChunk(target: PatternFile, chunk: Text) returns (error: Option<Error>)
    requires target.Valid() && Bounded(target.enc)
    modifies target
    ensures target.Valid()
    ensures error == None <==> Writable(target.enc, chunk)
    ensures error == None ==> target.records == old(target.records) + EncodeAll(target.enc, Pieces(chunk))
    ensures error != None ==> Explains(target.enc, chunk, error.value)
  {
    hide Bounded, Replaced, Pieces, Encodable, EncodeAll, Encode;
    var offset := 0;
    assert chunk[0..] == chunk && chunk[..0] == [];
    NothingWritable(target.enc);
    while offset < |chunk|
      invariant offset <= |chunk| && target.Valid() && Writable(target.enc, chunk[..offset])
      invariant target.records + EncodeAll(target.enc, Pieces(chunk[offset..]))
             == old(target.records) + EncodeAll(target.enc, Pieces(chunk))
      decreases |chunk| - offset
    {
      var next := if |chunk| - offset <= PIECE then |chunk| else offset + PIECE;
      var value := chunk[offset..next];
      PieceFits(target.enc, value);
      FirstPiece(chunk, offset);
      OneMoreRecord(target.records, target.enc, Replaced(value), Pieces(chunk[next..]));
      assert chunk[..next] == chunk[..offset] + value;
      EncodableConcat(target.enc, chunk[..offset], value);
      error := target.Record(Replaced(value));
      if error != None {
        PartHas(target.enc, chunk, offset, next);
        return;
      }
      offset := next;
    }
    assert chunk[..offset] == chunk && chunk[offset..] == [];
    NoPieces(target.records, target.enc);
    return None;
  }

  lemma NothingWritable(enc: Codec)
    ensures Writable(enc, [])
  {
  }

  lemma PartHas(enc: Codec, chunk: Text, from: nat, to: nat)
    requires from <= to <= |chunk|
    ensures NUL in chunk[from..to] ==> NUL in chunk
    ensures !Encodable(enc, chunk[from..to]) ==> !Encodable(enc, chunk)
  {
    var front, back := chunk[..from] + chunk[from..to], chunk[to..];
    assert chunk == front + back;
    EncodableConcat(enc, front, back);
    EncodableConcat(enc, chunk[..from], chunk[from..to]);
  }

  lemma NoPieces(records: seq<seq<Byte>>, enc: Codec)
    ensures records + EncodeAll(enc, Pieces([])) == records
  {
  }

  lemma OneMoreRecord(records: seq<seq<Byte>>, enc: Codec, piece: Text, rest: seq<Text>)
    ensures records + EncodeAll(enc, [piece] + rest) == records + [Encode(enc, piece)] + EncodeAll(enc, rest)
  {
    assert ([piece] + rest)[1..] == rest;
    assert records + ([Encode(enc, piece)] + EncodeAll(enc, rest)) == records + [Encode(enc, piece)] + EncodeAll(enc, rest);
  }

  /** What pattern makes of a stored reference: the first error in reading it, nothing for a text that is only white
      space, an explained refusal, or the records of the stripped text, however it was cut. */
  ghost predicate IsPattern(enc: Codec, spool: seq<Byte>, ref: Range, r: Search) {
    match ReadText(spool, ref)
    case Err(e) => r == Refused(e)
    case Ok(t) =>
      var q := Strip(t);
      if q == [] then r == NoSearch
      else if !Writable(enc, q) then r.Refused? && Explains(enc, q, r.error)
      else exists chunks: seq<Text> :: Flatten(chunks) == q && r == Search(Written(enc, chunks))
  }

  /** pattern: it reads the reference to trim it, and the trimmed reference to write the records. */
  method Pattern(store: TextStore, ref: Range, enc: Codec) returns (r: Search)
    requires Bounded(enc)
    ensures IsPattern(enc, store.output, ref, r)
  {
    hide Bounded, Strip, Pieces, TrimmedRange, ReadText, Encodable;
    var first := store.Chunks(ref);
    if first.Err? {
      return Refused(first.error);
    }
    var trimmed := Trimmed(ref.offset, first.value);
    SizeMeansText(ref.offset, Flatten(first.value));
    if trimmed.size == 0 {
      return NoSearch;
    }
    TrimmedRangeIsRead(store.output, ref);
    var second := store.Chunks(trimmed);
    r := WriteAll(second.value, enc);
  }

  lemma NoChunks(records: seq<seq<Byte>>, enc: Codec)
    ensures Flatten<Char>([]) == [] && records + EncodeAll(enc, ChunkPieces([])) == records
  {
  }

  lemma SizeMeansText(offset: nat, t: Text)
    ensures TrimmedRange(offset, t).size == 0 <==> Strip(t) == []
  {
    hide Strip, Lead;
    LengthOf(Strip(t));
  }

  /** The outer loop of pattern, between its two single percent signs. */
  method WriteAll(chunks: seq<Text>, enc: Codec) returns (r: Search)
    requires Bounded(enc)
    ensures if Writable(enc, Flatten(chunks)) then r == Search(Written(enc, chunks))
            else r.Refused? && Explains(enc, Flatten(chunks), r.error)
  {
    hide Bounded, Pieces, Encodable, Explains, EncodeAll, Encode, ChunkPieces, Flatten, Records;
    var target := new PatternFile(enc);
    PercentRecord(enc);
    var _ := target.Record([PERCENT]);
    var i := 0;
    assert chunks[..0] == [] && chunks[0..] == chunks;
    NothingWritable(enc);
    NoChunks(target.records, enc);
    ghost var first := target.records;
    while i < |chunks|
      invariant i <= |chunks| && target.Valid() && Writable(enc, Flatten(chunks[..i]))
      invariant target.records + EncodeAll(enc, ChunkPieces(chunks[i..])) == first + EncodeAll(enc, ChunkPieces(chunks))
    {
      SplitChunk(target.records, enc, chunks, i);
      ChunkHas(enc, chunks, i);
      var error := WriteChunk(target, chunks[i]);
      if error != None {
        return Refused(error.value);
      }
      FlattenSnoc(chunks[..i], chunks[i]);
      EncodableConcat(enc, Flatten(chunks[..i]), chunks[i]);
      assert chunks[..i + 1] == chunks[..i] + [chunks[i]];
      i := i + 1;
    }
    assert chunks[..i] == chunks && chunks[i..] == [];
    NoChunks(target.records, enc);
    var _ := target.Record([PERCENT]);
    AllRecords(enc, chunks, first, target.records);
    return Search(Artifact(target.file, target.count, target.size));
  }

  lemma SplitChunk(records: seq<seq<Byte>>, enc: Codec, chunks: seq<Text>, i: nat)
    requires i < |chunks|
    ensures records + EncodeAll(enc, ChunkPieces(chunks[i..]))
         == records + EncodeAll(enc, Pieces(chunks[i])) + EncodeAll(enc, ChunkPieces(chunks[i + 1..]))
  {
    assert chunks[i..][1..] == chunks[i + 1..];
    EncodeAllConcat(enc, Pieces(chunks[i]), ChunkPieces(chunks[i + 1..]));
    Associative(records, EncodeAll(enc, Pieces(chunks[i])), EncodeAll(enc, ChunkPieces(chunks[i + 1..])));
  }

  lemma ChunkHas(enc: Codec, chunks: seq<Text>, i: nat)
    requires i < |chunks|
    ensures Writable(enc, Flatten(chunks)) ==> Writable(enc, chunks[i])
    ensures forall error :: Explains(enc, chunks[i], error) ==> Explains(enc, Flatten(chunks), error)
  {
    var before, all := Flatten(chunks[..i]), Flatten(chunks);
    assert chunks == chunks[..i] + [chunks[i]] + chunks[i + 1..];
    FlattenConcat(chunks[..i] + [chunks[i]], chunks[i + 1..]);
    FlattenSnoc(chunks[..i], chunks[i]);
    EncodableConcat(enc, before + chunks[i], Flatten(chunks[i + 1..]));
    EncodableConcat(enc, before, chunks[i]);
  }

  lemma AllRecords(enc: Codec, chunks: seq<Text>, first: seq<seq<Byte>>, records: seq<seq<Byte>>)
    requires first == [Encode(enc, [PERCENT])]
    requires records == first + EncodeAll(enc, ChunkPieces(chunks)) + [Encode(enc, [PERCENT])]
    ensures records == EncodeAll(enc, Records(chunks))
  {
    EncodeAllConcat(enc, [[PERCENT]] + ChunkPieces(chunks), [[PERCENT]]);
    EncodeAllConcat(enc, [[PERCENT]], ChunkPieces(chunks));
  }

  // -------- the reader --------

  /** What the helper reports about the search. */
  datatype Metadata = Metadata(search: bool, path: string, records: nat, bytes: nat)

  const ARTIFACT := "export-pattern"

  /** What the setting becomes, if it is set at all. */
  function Assembly(file: seq<Byte>, metadata: Metadata): Result<Option<seq<Byte>>> {
    if !metadata.search then Ok(None)
    else if metadata.path != ARTIFACT then Err(InvalidArtifact)
    else
      match Parse(file)
      case Err(e) => Err(e)
      case Ok(raws) =>
        if |raws| == metadata.records && TotalSize(raws) == metadata.bytes then Ok(Some(Flatten(raws)))
        else Err(IncompleteArtifact)
  }

  /** assemble_search_pattern: the bytes appended to the setting, against the metadata of the artifact. */
  method Assemble(file: seq<Byte>, metadata: Metadata) returns (r: Result<Option<seq<Byte>>>)
    ensures r == Assembly(file, metadata)
  {
    if !metadata.search {
      return Ok(None);
    }
    if metadata.path != ARTIFACT {
      return Err(InvalidArtifact);
    }
    hide Parse, Assembled, TotalSize, Flatten;
    var setting: seq<Byte>, total, count, at := [], 0, 0, 0;
    assert file[0..] == file;
    NoRecords();
    ghost var raws: seq<seq<Byte>> := [];
    NothingAssembled(Parse(file));
    while at < |file|
      invariant at <= |file|
      invariant setting == Flatten(raws) && total == TotalSize(raws) && count == |raws|
      invariant Assembled(raws, Parse(file[at..])) == Parse(file)
    {
      var value := ReadRecord(file[at..]);
      AssembledAs(raws, Parse(file[at..]));
      if value.Err? {
        return Err(value.error);
      }
      ParsedNext(raws, file, at, value.value);
      FlattenSnoc(raws, value.value);
      TotalSnoc(raws, value.value);
      raws := raws + [value.value];
      setting := setting + value.value;
      total := total + |value.value|;
      count := count + 1;
      at := at + 4 + |value.value|;
    }
    assert file[at..] == [];
    ParseRefuses([]);
    AssembledAs(raws, Parse([]));
    if total != metadata.bytes || count != metadata.records {
      return Err(IncompleteArtifact);
    }
    return Ok(Some(setting));
  }

  /** A record stands in front of the rest. */
  ghost predicate Leads(value: seq<Byte>, rest: seq<Byte>) {
    Fits(value) && 4 + |value| <= |rest| && Unpack32(rest[..4]) == |value| && rest[4..4 + |value|] == value
  }

  /** The two reads of the loop. */
  method ReadRecord(rest: seq<Byte>) returns (r: Result<seq<Byte>>)
    requires rest != []
    ensures if r.Ok? then Leads(r.value, rest) else Parse(rest) == Err(r.error)
  {
    hide Parse, Unpack32;
    ParseRefuses(rest);
    var header := if |rest| < 4 then rest else rest[..4];
    if |header| != 4 {
      return Err(IncompleteRecord);
    }
    var size := Unpack32(header);
    if !(0 < size <= FRAME_BYTES) {
      return Err(InvalidRecord);
    }
    var value := if |rest| < 4 + size then rest[4..] else rest[4..4 + size];
    if |value| != size {
      return Err(IncompleteRecord);
    }
    return Ok(value);
  }

  lemma ParsedNext(raws: seq<seq<Byte>>, file: seq<Byte>, at: nat, value: seq<Byte>)
    requires at <= |file| && Leads(value, file[at..])
    ensures at + 4 + |value| <= |file|
    ensures Assembled(raws, Parse(file[at..])) == Assembled(raws + [value], Parse(file[at + 4 + |value|..]))
  {
    hide Parse, Unpack32, Assembled;
    ParseStep(raws, file[at..], value);
    assert file[at..][4 + |value|..] == file[at + 4 + |value|..];
  }

  function Assembled(front: seq<seq<Byte>>, rest: Result<seq<seq<Byte>>>): Result<seq<seq<Byte>>> {
    match rest
    case Err(e) => Err(e)
    case Ok(raws) => Ok(front + raws)
  }

  lemma NoRecords()
    ensures Flatten<Byte>([]) == [] && TotalSize([]) == 0
  {
  }

  lemma AssembledAs(front: seq<seq<Byte>>, rest: Result<seq<seq<Byte>>>)
    ensures rest.Err? ==> Assembled(front, rest) == rest
    ensures rest == Ok([]) ==> Assembled(front, rest) == Ok(front)
  {
    assert front + [] == front;
  }

  lemma NothingAssembled(r: Result<seq<seq<Byte>>>)
    ensures Assembled([], r) == r
  {
    if r.Ok? {
      assert [] + r.value == r.value;
    }
  }

  lemma ParseRefuses(rest: seq<Byte>)
    ensures rest == [] ==> Parse(rest) == Ok([])
    ensures 0 < |rest| < 4 ==> Parse(rest) == Err(IncompleteRecord)
    ensures |rest| >= 4 && !(0 < Unpack32(rest[..4]) <= FRAME_BYTES) ==> Parse(rest) == Err(InvalidRecord)
    ensures |rest| >= 4 && 0 < Unpack32(rest[..4]) <= FRAME_BYTES && |rest| < 4 + Unpack32(rest[..4]) ==>
              Parse(rest) == Err(IncompleteRecord)
  {
    hide Unpack32;
  }

  lemma ParseStep(front: seq<seq<Byte>>, rest: seq<Byte>, value: seq<Byte>)
    requires |rest| >= 4 && 0 < Unpack32(rest[..4]) <= FRAME_BYTES && |rest| >= 4 + Unpack32(rest[..4])
    requires value == rest[4..4 + Unpack32(rest[..4])]
    ensures Assembled(front, Parse(rest)) == Assembled(front + [value], Parse(rest[4 + Unpack32(rest[..4])..]))
  {
    hide Unpack32;
    var tail := Parse(rest[4 + Unpack32(rest[..4])..]);
    if tail.Ok? {
      assert front + ([value] + tail.value) == front + [value] + tail.value;
    }
  }

  // -------- the whole way --------

  lemma {:induction false} PiecesFit(enc: Codec, chunk: Text)
    requires Bounded(enc) && Encodable(enc, chunk)
    ensures AllFit(EncodeAll(enc, Pieces(chunk)))
    decreases |chunk|
  {
    if chunk != [] {
      var n := if |chunk| <= PIECE then |chunk| else PIECE;
      assert chunk == chunk[..n] + chunk[n..];
      EncodableConcat(enc, chunk[..n], chunk[n..]);
      PieceFits(enc, chunk[..n]);
      if |chunk| > PIECE {
        PiecesFit(enc, chunk[PIECE..]);
      } else {
        assert chunk[..n] == chunk;
      }
    }
  }

  lemma {:induction false} ChunkPiecesFit(enc: Codec, chunks: seq<Text>)
    requires Bounded(enc) && Encodable(enc, Flatten(chunks))
    ensures AllFit(EncodeAll(enc, ChunkPieces(chunks)))
  {
    if chunks != [] {
      EncodableConcat(enc, chunks[0], Flatten(chunks[1..]));
      PiecesFit(enc, chunks[0]);
      ChunkPiecesFit(enc, chunks[1..]);
      EncodeAllConcat(enc, Pieces(chunks[0]), ChunkPieces(chunks[1..]));
    }
  }

  lemma RecordsFit(enc: Codec, chunks: seq<Text>)
    requires Bounded(enc) && Encodable(enc, Flatten(chunks))
    ensures AllFit(EncodeAll(enc, Records(chunks)))
  {
    PercentRecord(enc);
    ChunkPiecesFit(enc, chunks);
    EncodeAllConcat(enc, [[PERCENT]] + ChunkPieces(chunks), [[PERCENT]]);
    EncodeAllConcat(enc, [[PERCENT]], ChunkPieces(chunks));
  }

  lemma WrittenIsAssembled(enc: Codec, chunks: seq<Text>)
    requires Bounded(enc) && Encodable(enc, Flatten(chunks))
    ensures var a := Written(enc, chunks);
            Assembly(a.file, Metadata(true, ARTIFACT, a.count, a.size))
            == Ok(Some(Encode(enc, [PERCENT] + Replaced(Flatten(chunks)) + [PERCENT])))
  {
    hide Bounded, Replaced, Encodable, Records;
    RecordsFit(enc, chunks);
    ParseUndoesFrame(EncodeAll(enc, Records(chunks)));
    EncodedTogether(enc, Records(chunks));
    RecordsCarryThePattern(chunks);
    ReplacedIsEscaped(Flatten(chunks));
  }

  /** From the octets of a stored text through the file into the setting: there is a search exactly when the text has
      more than white space, it is refused exactly for a NUL or a character the client codec does not have, and
      otherwise the reader accepts what was written, and the setting is the encoding of a pattern that finds exactly
      the strings that contain the stripped text. */
  lemma SearchMeansWhatWasTyped(enc: Codec, before: seq<Byte>, t: Text, after: seq<Byte>, r: Search, fold: Char -> Char, s: Text)
    requires Bounded(enc) && IsPattern(enc, before + Utf8(t) + after, Range(|before|, |Utf8(t)|), r)
    ensures r.NoSearch? <==> Strip(t) == []
    ensures r.Search? <==> Strip(t) != [] && Writable(enc, Strip(t))
    ensures r.Search? ==>
              var p := [PERCENT] + Replaced(Strip(t)) + [PERCENT];
              var a := r.artifact;
              && Assembly(a.file, Metadata(true, ARTIFACT, a.count, a.size)) == Ok(Some(Encode(enc, p)))
              && (Like(fold, p, s) <==> Contains(fold, Strip(t), s))
  {
    hide Bounded, Like, Contains, Replaced, Assembly, Strip, Encodable, ReadText, Written;
    StoredTextIsRead(before, t, after);
    PatternMatchesExactly(fold, Strip(t), s);
    if r.Search? {
      var chunks: seq<Text> :| Flatten(chunks) == Strip(t) && r == Search(Written(enc, chunks));
      WrittenIsAssembled(enc, chunks);
    }
  }
}
