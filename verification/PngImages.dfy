/** What an accepted PNG image looks like, in the terms of the PNG specification. */
module PngImages {
  import opened Common
  import opened Bytes
  import opened PngRows
  import opened PngChunks

  // -------- colour types by their bits --------

  /** Bit 0: the samples are places in a palette. */
  predicate HasPalette(color: nat) {
    color % 2 == 1
  }

  /** Bit 1: the image has colour. */
  predicate HasColour(color: nat) {
    color / 2 % 2 == 1
  }

  /** Bit 2: a sample for the opacity. */
  predicate HasAlpha(color: nat) {
    color / 4 % 2 == 1
  }

  /** Samples for each pixel: one in a palette, else one grey or three colours, and one more for the opacity. */
  function Samples(color: nat): nat {
    if HasPalette(color) then 1 else (if HasColour(color) then 3 else 1) + (if HasAlpha(color) then 1 else 0)
  }

  /** The combinations that the specification allows: a palette comes with colour and without opacity; depths are powers
      of two, up to a whole octet in a palette, and at least one where a pixel has several samples. */
  predicate AllowedKind(color: nat, depth: nat) {
    && color <= 6 && (HasPalette(color) ==> HasColour(color) && !HasAlpha(color))
    && (depth == 1 || depth == 2 || depth == 4 || depth == 8 || depth == 16)
    && (HasPalette(color) ==> depth <= 8) && (Samples(color) > 1 ==> depth >= 8)
  }

  /** The table of colour types and depths is that of the specification, and the channels are the samples. */
  lemma KindsByBits(color: Byte, depth: Byte)
    ensures ValidDepth(color, depth) <==> AllowedKind(color, depth)
    ensures ValidDepth(color, depth) ==> Channels(color) == Samples(color)
  {
  }

  // -------- the header --------

  /** The 13 octets of the header chunk. */
  function HeaderPayload(h: ImageHeader): (payload: seq<Byte>)
    ensures |payload| == 13
  {
    Pack32(h.width) + Pack32(h.height) + [h.depth, h.color, h.compression, h.filter, h.interlace]
  }

  lemma HeaderIsRead(h: ImageHeader)
    requires h.width < TWO_32 && h.height < TWO_32
    ensures ReadHeader(HeaderPayload(h)) == h
  {
    hide Pack32, Unpack32;
    UnpackUndoesPack(h.width);
    UnpackUndoesPack(h.height);
    var p := HeaderPayload(h);
    assert p[..4] == Pack32(h.width) && p[4..8] == Pack32(h.height);
  }

  /** No side is longer than 8192, and there are no more than 16777216 pixels. */
  predicate WithinLimits(h: ImageHeader) {
    h.width <= 8192 && h.height <= 8192 && h.width * h.height <= 16_777_216
  }

  // -------- palettes and other chunks --------

  lemma PalettesByBits(h: ImageHeader, c: Chunk)
    requires ValidDepth(h.color, h.depth)
    ensures PaletteOk(h, c) <==> HasColour(h.color) && exists n :: 1 <= n <= 256 && |c.payload| == 3 * n
  {
    if PaletteOk(h, c) {
      var n := |c.payload| / 3;
      assert 1 <= n <= 256 && |c.payload| == 3 * n;
    }
  }

  /** A chunk may be skipped if the first letter of its name is a small one. */
  lemma SkippedChunksAreSmall(c: Chunk)
    requires c.kind != [] && (65 <= c.kind[0] <= 90 || 97 <= c.kind[0] <= 122)
    ensures Ancillary(c) <==> 97 <= c.kind[0] <= 122
  {
  }

  // -------- rows without interlacing --------

  /** The octets that hold so many bits, and not one too many. */
  lemma RowsHoldTheirBits(p: Pass, width: nat, bits: nat)
    requires p.stepX >= 1
    ensures PassWidth(p, width) * bits <= 8 * RowBytes(p, width, bits)
    ensures RowBytes(p, width, bits) > 0 ==> 8 * (RowBytes(p, width, bits) - 1) < PassWidth(p, width) * bits
  {
    hide PassWidth;
    OctetsHold(PassWidth(p, width) * bits);
  }

  lemma OctetsHold(n: nat)
    ensures var k := (n + 7) / 8; n <= 8 * k && (k > 0 ==> 8 * (k - 1) < n)
  {
  }

  /** height rows, each of a filter octet of at most 4 and n octets. */
  ghost predicate IsGrid(stream: seq<Byte>, height: nat, n: nat) {
    |stream| == height * (1 + n) && forall r :: 0 <= r < height ==> FilterAt(stream, r, n) <= 4
  }

  function FilterAt(stream: seq<Byte>, r: nat, n: nat): int {
    if r * (1 + n) < |stream| then stream[r * (1 + n)] else 255
  }

  lemma {:induction false} RepeatedRows(n: nat, height: nat, stream: seq<Byte>)
    ensures IsRows(Repeat(n, height), stream) <==> IsGrid(stream, height, n)
  {
    hide FilterAt;
    if height > 0 {
      assert Repeat(n, height)[1..] == Repeat(n, height - 1);
      FirstFilter(stream, n);
      assert height * (1 + n) == (height - 1) * (1 + n) + (1 + n);
      if |stream| >= 1 + n {
        var rest := stream[1 + n..];
        RepeatedRows(n, height - 1, rest);
        GridSplits(stream, height, n);
      } else {
        TooShort(height, n, stream);
      }
    }
  }

  lemma TooShort(height: nat, n: nat, stream: seq<Byte>)
    requires height > 0 && |stream| < 1 + n
    ensures |stream| != height * (1 + n)
  {
    assert height * (1 + n) == (height - 1) * (1 + n) + (1 + n) && (height - 1) * (1 + n) >= 0;
  }

  lemma FirstFilter(stream: seq<Byte>, n: nat)
    ensures FilterAt(stream, 0, n) == if stream == [] then 255 else stream[0]
  {
  }

  lemma NextFilter(stream: seq<Byte>, r: nat, n: nat)
    requires |stream| >= 1 + n
    ensures FilterAt(stream[1 + n..], r, n) == FilterAt(stream, r + 1, n)
  {
    assert (r + 1) * (1 + n) == r * (1 + n) + (1 + n);
  }

  lemma GridSplits(stream: seq<Byte>, height: nat, n: nat)
    requires height > 0 && |stream| >= 1 + n
    ensures IsGrid(stream, height, n) <==> FilterAt(stream, 0, n) <= 4 && IsGrid(stream[1 + n..], height - 1, n)
  {
    hide FilterAt;
    var rest := stream[1 + n..];
    assert height * (1 + n) == (height - 1) * (1 + n) + (1 + n);
    if IsGrid(stream, height, n) {
      forall r: nat | r < height - 1
        ensures FilterAt(rest, r, n) <= 4
      {
        NextFilter(stream, r, n);
      }
    }
    if FilterAt(stream, 0, n) <= 4 && IsGrid(rest, height - 1, n) {
      forall r: nat | r < height
        ensures FilterAt(stream, r, n) <= 4
      {
        if r > 0 {
          NextFilter(stream, r - 1, n);
        }
      }
    }
  }

  /** The octets of a row of so many pixels. */
  function RowOctets(width: nat, bits: nat): nat {
    (width * bits + 7) / 8
  }

  lemma WholeRows(width: nat, height: nat, bits: nat)
    ensures Steps(WHOLE) && Rows(WHOLE, width, height, bits) == Repeat(RowOctets(width, bits), height)
  {
    var p := Pass(0, 0, 1, 1);
    assert WHOLE[0] == p && WHOLE[1..] == [];
    WholeAlong(width);
    WholeAlong(height);
    assert Rows(WHOLE[1..], width, height, bits) == [];
  }

  lemma WholeAlong(n: nat)
    ensures Along(n, 0, 1) == n
  {
  }

  // -------- whole files --------

  /** The file of these chunks with the header in front and an empty end behind. */
  function File(crc: Crc, h: ImageHeader, middle: seq<Chunk>): seq<Byte> {
    SIGNATURE + WriteAll(crc, [Chunk(IHDR, HeaderPayload(h))] + middle + [Chunk(IEND, [])])
  }

  /** A middle as the specification wants it: one run of image data, behind a palette if the colours need one. */
  ghost predicate Proper(h: ImageHeader, middle: seq<Chunk>) {
    && AllChunks(middle) && Orderly(h, middle) && HasKind(middle, IDAT) && (HasPalette(h.color) ==> HasKind(middle, PLTE))
  }

  /** A header as the specification wants it. */
  predicate ProperHeader(h: ImageHeader) {
    && 0 < h.width < TWO_32 && 0 < h.height < TWO_32 && AllowedKind(h.color, h.depth)
    && h.compression == 0 && h.filter == 0 && h.interlace <= 1
  }

  lemma FileIsWellFormed(crc: Crc, h: ImageHeader, middle: seq<Chunk>)
    requires ProperHeader(h) && Proper(h, middle)
    ensures var chunks := [Chunk(IHDR, HeaderPayload(h))] + middle + [Chunk(IEND, [])];
            && AllChunks(chunks) && WellFormed(chunks) && ReadHeader(chunks[0].payload) == h
            && chunks[1..|chunks| - 1] == middle
  {
    hide Orderly, HasKind, HeaderPayload, ReadHeader;
    var chunks := [Chunk(IHDR, HeaderPayload(h))] + middle + [Chunk(IEND, [])];
    HeaderIsRead(h);
    KindsByBits(h.color, h.depth);
    assert chunks[1..|chunks| - 1] == middle;
    forall i | 0 <= i < |chunks|
      ensures IsChunk(chunks[i])
    {
      assert 0 < i < |chunks| - 1 ==> chunks[i] == middle[i - 1];
    }
  }

  /** What the image data of a file must inflate to: samples of the depth for every pixel, in rows with a filter octet;
      with interlacing the rows of the seven passes. */
  ghost predicate ProperData(h: ImageHeader, data: Inflated) {
    var bits := Samples(h.color) * h.depth;
    && data.complete
    && if h.interlace == 0 then IsGrid(Flatten(data.pieces), h.height, RowOctets(h.width, bits))
       else Steps(ADAM7) && IsRows(Rows(ADAM7, h.width, h.height, bits), Flatten(data.pieces))
  }

  lemma DataByBits(h: ImageHeader, data: Inflated)
    requires ProperHeader(h)
    ensures ImageRows(h, data) <==> ProperData(h, data)
  {
    hide IsRows, Rows, IsGrid, RowOctets, Flatten, Repeat, Channels, Samples, HasPalette, HasColour, HasAlpha;
    var bits := Samples(h.color) * h.depth;
    KindsByBits(h.color, h.depth);
    SameBits(h);
    AdamSteps();
    WholeRows(h.width, h.height, bits);
    RepeatedRows(RowOctets(h.width, bits), h.height, Flatten(data.pieces));
  }

  lemma AdamSteps()
    ensures Steps(ADAM7)
  {
    assert Passes(true) == ADAM7;
  }

  lemma SameBits(h: ImageHeader)
    requires ProperHeader(h)
    ensures Channels(h.color) * h.depth == Samples(h.color) * h.depth
  {
    KindsByBits(h.color, h.depth);
  }

  /** The verdict on every proper file: too large beyond the limits, and otherwise valid exactly if its image data
      inflates to the samples of its pixels. */
  lemma ProperFilesAreJudgedByTheirPixels(crc: Crc, inflate: seq<Byte> -> Inflated, h: ImageHeader, middle: seq<Chunk>)
    requires ProperHeader(h) && Proper(h, middle)
    ensures StatusOf(crc, inflate, File(crc, h, middle))
         == if !WithinLimits(h) then Oversize
            else if ProperData(h, inflate(Payloads(middle))) then Valid else Refused
  {
    hide WriteAll, Scan, Orderly, WellFormed, Payloads, SIGNATURE, ProperData, ImageRows, ReadHeader;
    var chunks := [Chunk(IHDR, HeaderPayload(h))] + middle + [Chunk(IEND, [])];
    FileIsWellFormed(crc, h, middle);
    VerdictIsAboutTheChunks(crc, chunks);
    DataByBits(h, inflate(Payloads(middle)));
    SignatureSize();
    var file := File(crc, h, middle);
    assert file[8..] == WriteAll(crc, chunks) && SIGNATURE <= file;
  }
}
