/** Quoted-printable body encoding with soft line breaks: app/mime_preparation.py, qp_chunks. */
module QuotedPrintable {
  import opened Bytes
  import opened Newlines

  // -------- the encoder --------

  const MAX_LINE := 78

  predicate IsBlank(c: Byte) {
    c == SPACE || c == TAB
  }

  /** Octets the body map leaves as they are: printable ASCII but "=", blanks, and CR and LF. */
  predicate IsSafe(c: Byte) {
    (32 <= c <= 126 && c != EQUALS) || c == TAB
  }

  function HexDigit(n: int): (c: Byte)
    requires 0 <= n < 16
  {
    if n < 10 then 48 + n else 55 + n
  }

  function Quote(c: Byte): seq<Byte> {
    [EQUALS, HexDigit(c / 16), HexDigit(c % 16)]
  }

  function MapByte(c: Byte): seq<Byte> {
    if IsSafe(c) || c == CR || c == LF then [c] else Quote(c)
  }

  /** The physical lines finished so far and the line being filled. */
  datatype Encoder = Encoder(lines: seq<seq<Byte>>, line: seq<Byte>)

  /** Where a line that is too long is cut, and the physical line that the cut leaves. */
  function CutAt(line: seq<Byte>): (cut: nat)
    requires |line| > MAX_LINE
  {
    if line[75] == EQUALS then 75 else if line[76] == EQUALS then 76 else 77
  }

  function SoftLine(line: seq<Byte>): seq<Byte>
    requires |line| > MAX_LINE
  {
    line[..CutAt(line)] + [EQUALS]
  }

  function Wrap(e: Encoder): Encoder
    decreases |e.line|
  {
    if |e.line| <= MAX_LINE then e
    else Wrap(Encoder(e.lines + [SoftLine(e.line)], e.line[CutAt(e.line)..]))
  }

  /** The physical lines that a line of text ends with: a trailing blank never ends one. */
  function HardLines(line: seq<Byte>): seq<seq<Byte>> {
    if line == [] || !IsBlank(line[|line| - 1]) then [line]
    else
      var text, blank := line[..|line| - 1], line[|line| - 1];
      var room := 79 - |line|;
      if room == 2 then [line + [EQUALS], []]
      else if room < 2 then [text + [EQUALS], Quote(blank)]
      else [text + Quote(blank)]
  }

  function EncodeByte(e: Encoder, c: Byte): Encoder {
    if c == LF then Encoder(e.lines + HardLines(e.line), [])
    else Wrap(Encoder(e.lines, e.line + MapByte(c)))
  }

  function Encode(s: seq<Byte>): Encoder {
    if s == [] then Encoder([], []) else EncodeByte(Encode(s[..|s| - 1]), s[|s| - 1])
  }

  lemma EncodeSnoc(s: seq<Byte>, c: Byte)
    ensures Encode(s + [c]) == EncodeByte(Encode(s), c)
  {
    assert (s + [c])[..|s|] == s;
  }

  // -------- the streaming method --------

  /** str.replace of LF by the separator. */
  function ReplaceLf(s: seq<Byte>, separator: seq<Byte>): seq<Byte> {
    if s == [] then []
    else (if s[0] == LF then separator else [s[0]]) + ReplaceLf(s[1..], separator)
  }

  lemma {:induction false} ReplaceLfIn(a: seq<Byte>, b: seq<Byte>, separator: seq<Byte>)
    requires LF !in a
    ensures ReplaceLf(a + [LF] + b, separator) == a + separator + ReplaceLf(b, separator)
  {
    var s := a + [LF] + b;
    if a == [] {
      assert s[1..] == b;
    } else {
      assert s[1..] == a[1..] + [LF] + b;
      ReplaceLfIn(a[1..], b, separator);
      assert [a[0]] + (a[1..] + separator + ReplaceLf(b, separator)) == a + separator + ReplaceLf(b, separator);
    }
  }

  lemma {:induction false} ReplaceLfWithout(a: seq<Byte>, separator: seq<Byte>)
    requires LF !in a
    ensures ReplaceLf(a, separator) == a
  {
    if a != [] {
      ReplaceLfWithout(a[1..], separator);
    }
  }

  /** Everything yielded, and whether the input ended at a line end (otherwise the source raises AssertionError). */
  method QpChunks(chunks: seq<seq<Byte>>, linesep: seq<Byte>) returns (output: seq<seq<Byte>>, finished: bool)
    ensures Flatten(output) == Join(Encode(Flatten(chunks)).lines, linesep)
    ensures finished <==> Flatten(chunks) == [] || EndsInLf(Flatten(chunks))
  {
    hide Encode, Join, Flatten, ReplaceLf;
    output := [];
    var line: seq<Byte> := [];
    ghost var lines: seq<seq<Byte>> := [];
    NothingEncoded(linesep);
    for i := 0 to |chunks|
      invariant Encoder(lines, line) == Encode(Flatten(chunks[..i]))
      invariant Flatten(output) == Join(lines, linesep)
    {
      var chunk := chunks[i];
      DoneChunk(chunks, i);
      for j := 0 to |chunk|
        invariant Encoder(lines, line) == Encode(Done(chunks, i, j))
        invariant Flatten(output) == Join(lines, linesep)
      {
        var value := chunk[j];
        DoneStep(chunks, i, j);
        ghost var done := Done(chunks, i, j);
        EncodeSnoc(done, value);
        LineIsBounded(done);
        if value == LF {
          ghost var ends := HardLines(line);
          if line != [] && IsBlank(line[|line| - 1]) {
            var room := 79 - |line|;
            var tail := Quote(line[|line| - 1]);
            if room == 2 {
              tail := [line[|line| - 1]] + [EQUALS, LF];
            } else if room < 2 {
              tail := [EQUALS, LF] + tail;
            }
            TailIsHardLines(line, tail, linesep);
            line := line[..|line| - 1] + tail;
          } else {
            ReplaceLfWithout(line, linesep);
            JoinOne(line, linesep);
          }
          var text := ReplaceLf(line, linesep) + linesep;
          FlattenSnoc(output, text);
          JoinConcat(lines, ends, linesep);
          output := output + [text];
          lines := lines + ends;
          line := [];
          continue;
        }
        line := line + MapByte(value);
        while |line| >= 79
          invariant Wrap(Encoder(lines, line)) == Encode(Done(chunks, i, j + 1))
          invariant Flatten(output) == Join(lines, linesep)
        {
          ghost var soft := SoftLine(line);
          JoinSnoc(lines, soft, linesep);
          Associative(Join(lines, linesep), soft, linesep);
          var text;
          if line[75] == EQUALS {
            assert line[..76] == soft;
            text := line[..76] + linesep;
            line := line[75..];
          } else if line[76] == EQUALS {
            assert line[..77] == soft;
            text := line[..77] + linesep;
            line := line[76..];
          } else {
            text := line[..77] + [EQUALS] + linesep;
            line := line[77..];
          }
          FlattenSnoc(output, text);
          output := output + [text];
          lines := lines + [soft];
        }
      }
    }
    assert chunks[..|chunks|] == chunks;
    LineIsEmptyOnlyAtLineEnds(Flatten(chunks));
    finished := line == [];
  }

  lemma NothingEncoded(linesep: seq<Byte>)
    ensures Encode([]) == Encoder([], []) && Join([], linesep) == []
    ensures Flatten<Byte>([]) == []
  {
  }

  lemma TailIsHardLines(line: seq<Byte>, tail: seq<Byte>, linesep: seq<Byte>)
    requires line != [] && IsBlank(line[|line| - 1]) && LF !in line && |line| <= MAX_LINE
    requires tail == (if |line| == 77 then [line[|line| - 1]] + [EQUALS, LF]
                      else if |line| == 78 then [EQUALS, LF] + Quote(line[|line| - 1])
                      else Quote(line[|line| - 1]))
    ensures ReplaceLf(line[..|line| - 1] + tail, linesep) + linesep == Join(HardLines(line), linesep)
  {
    var text, blank := line[..|line| - 1], line[|line| - 1];
    var quoted := Quote(blank);
    var all := text + tail;
    if |line| == 77 {
      assert all == (line + [EQUALS]) + [LF] + [];
      ReplaceLfIn(line + [EQUALS], [], linesep);
      JoinTwo(line + [EQUALS], [], linesep);
      assert ReplaceLf([], linesep) == [];
    } else if |line| == 78 {
      assert all == (text + [EQUALS]) + [LF] + quoted;
      ReplaceLfIn(text + [EQUALS], quoted, linesep);
      ReplaceLfWithout(quoted, linesep);
      JoinTwo(text + [EQUALS], quoted, linesep);
    } else {
      ReplaceLfWithout(all, linesep);
      JoinOne(all, linesep);
    }
  }

  lemma JoinTwo(a: seq<Byte>, b: seq<Byte>, separator: seq<Byte>)
    ensures Join([a, b], separator) == a + separator + b + separator
  {
    JoinOne(a, separator);
    JoinSnoc([a], b, separator);
    assert [a] + [b] == [a, b];
  }

  // -------- bounds on the lines --------

  /** Only octets that any mail transport carries. */
  ghost predicate IsPortable(line: seq<Byte>) {
    forall i :: 0 <= i < |line| ==> IsBlank(line[i]) || 33 <= line[i] <= 126
  }

  /** A physical line as RFC 2045 wants it: no bare line end, no trailing blank. */
  ghost predicate GoodLine(line: seq<Byte>) {
    PlainLine(line, MAX_LINE) && IsPortable(line) && (line != [] ==> !IsBlank(line[|line| - 1]))
  }

  ghost predicate GoodEncoder(e: Encoder, bound: nat) {
    PlainLine(e.line, bound) && IsPortable(e.line) && forall i :: 0 <= i < |e.lines| ==> GoodLine(e.lines[i])
  }

  lemma {:induction false} LineIsBounded(s: seq<Byte>)
    ensures |Encode(s).line| <= MAX_LINE && LF !in Encode(s).line
  {
    if s != [] {
      var e, c := Encode(s[..|s| - 1]), s[|s| - 1];
      LineIsBounded(s[..|s| - 1]);
      if c != LF {
        WrapOnce(Encoder(e.lines, e.line + MapByte(c)));
      }
    }
  }

  /** The loop over a line that is too long runs at most once for each byte. */
  lemma WrapOnce(e: Encoder)
    requires |e.line| <= MAX_LINE + 3
    ensures Wrap(e) == if |e.line| <= MAX_LINE then e
                       else Encoder(e.lines + [SoftLine(e.line)], e.line[CutAt(e.line)..])
  {
  }

  lemma {:induction false} LineIsEmptyOnlyAtLineEnds(s: seq<Byte>)
    ensures Encode(s).line == [] <==> s == [] || EndsInLf(s)
  {
    if s != [] {
      var e, c := Encode(s[..|s| - 1]), s[|s| - 1];
      LineIsBounded(s[..|s| - 1]);
      if c != LF {
        WrapOnce(Encoder(e.lines, e.line + MapByte(c)));
      }
    }
  }

  lemma {:induction false} EncodeGivesGoodLines(s: seq<Byte>)
    requires CR !in s
    ensures GoodEncoder(Encode(s), MAX_LINE)
  {
    if s != [] {
      var e, c := Encode(s[..|s| - 1]), s[|s| - 1];
      EncodeGivesGoodLines(s[..|s| - 1]);
      if c == LF {
        HardLinesAreGood(e.line);
      } else {
        WrapGivesGoodLines(Encoder(e.lines, e.line + MapByte(c)));
      }
    }
  }

  lemma WrapGivesGoodLines(e: Encoder)
    requires GoodEncoder(e, MAX_LINE + 3)
    ensures GoodEncoder(Wrap(e), MAX_LINE)
  {
    WrapOnce(e);
    if |e.line| > MAX_LINE {
      assert GoodLine(SoftLine(e.line));
    }
  }

  lemma HardLinesAreGood(line: seq<Byte>)
    requires PlainLine(line, MAX_LINE) && IsPortable(line)
    ensures forall i :: 0 <= i < |HardLines(line)| ==> GoodLine(HardLines(line)[i])
  {
  }

  // -------- what is left as it is --------

  /** A line that needs no encoding. */
  predicate NeedsNothing(line: seq<Byte>) {
    && |line| <= MAX_LINE && (line != [] ==> !IsBlank(line[|line| - 1]))
    && forall i :: 0 <= i < |line| ==> line[i] == TAB || (32 <= line[i] <= 126 && line[i] != 61)
  }

  lemma {:induction false} SafeRun(s: seq<Byte>, line: seq<Byte>)
    requires Encode(s).line == [] && |line| <= MAX_LINE
    requires forall i :: 0 <= i < |line| ==> line[i] == TAB || (32 <= line[i] <= 126 && line[i] != 61)
    ensures Encode(s + line) == Encoder(Encode(s).lines, line)
  {
    if line == [] {
      assert s + line == s;
    } else {
      var front, c := line[..|line| - 1], line[|line| - 1];
      SafeRun(s, front);
      EncodeSnoc(s + front, c);
      assert s + line == s + front + [c] && front + [c] == line;
      assert MapByte(c) == [c];
    }
  }

  /** Printable text in short lines is its own encoding. */
  lemma {:induction false} PlainTextStays(lines: seq<seq<Byte>>)
    requires forall i :: 0 <= i < |lines| ==> NeedsNothing(lines[i])
    ensures Encode(Join(lines, [LF])) == Encoder(lines, [])
  {
    if lines != [] {
      var n := |lines| - 1;
      var front, line := lines[..n], lines[n];
      assert lines == front + [line];
      PlainTextStays(front);
      JoinSnoc(front, line, [LF]);
      SafeRun(Join(front, [LF]), line);
      EncodeSnoc(Join(front, [LF]) + line, LF);
    }
  }

  ghost predicate SoftIsFull(line: seq<Byte>) {
    line != [] && line[|line| - 1] == EQUALS ==> |line| >= 76
  }

  /** The encoder's lines are full where they are broken softly, and no token is cut off its end. */
  ghost predicate FullEncoder(e: Encoder) {
    (e.line != [] ==> e.line[|e.line| - 1] != EQUALS) && forall i :: 0 <= i < |e.lines| ==> SoftIsFull(e.lines[i])
  }

  /** A soft break only ends a line that has 76 characters with it. */
  lemma {:induction false} SoftBreaksAreNeeded(s: seq<Byte>)
    ensures FullEncoder(Encode(s))
  {
    if s != [] {
      var e, c := Encode(s[..|s| - 1]), s[|s| - 1];
      SoftBreaksAreNeeded(s[..|s| - 1]);
      LineIsBounded(s[..|s| - 1]);
      if c == LF {
        HardLinesAreFull(e.line);
      } else {
        WrapOnce(Encoder(e.lines, e.line + MapByte(c)));
      }
    }
  }

  lemma HardLinesAreFull(line: seq<Byte>)
    requires line != [] ==> line[|line| - 1] != EQUALS
    ensures |line| <= MAX_LINE ==> forall i :: 0 <= i < |HardLines(line)| ==> SoftIsFull(HardLines(line)[i])
  {
  }

  // -------- the reference decoder of RFC 2045, section 6.7 --------

  datatype Phase = Text | Escape | EscapeLow(high: int) | SoftCr | HardCr

  /** Decoded text, and trailing blanks that count only if the line goes on. */
  datatype Decoder =
    | Decoder(phase: Phase, text: seq<Byte>, blanks: seq<Byte>)
    | Malformed

  function HexValue(c: Byte): int {
    if 48 <= c <= 57 then c - 48 else if 65 <= c <= 70 then c - 55 else -1
  }

  function DecodeByte(d: Decoder, c: Byte): Decoder {
    match d
    case Malformed => Malformed
    case Decoder(Text, text, blanks) =>
      if IsBlank(c) then Decoder(Text, text, blanks + [c])
      else if c == CR then Decoder(HardCr, text, [])
      else if c == EQUALS then Decoder(Escape, text + blanks, [])
      else if 33 <= c <= 126 then Decoder(Text, text + blanks + [c], [])
      else Malformed
    case Decoder(Escape, text, _) =>
      if c == CR then Decoder(SoftCr, text, [])
      else if HexValue(c) >= 0 then Decoder(EscapeLow(HexValue(c)), text, [])
      else Malformed
    case Decoder(EscapeLow(high), text, _) =>
      if HexValue(c) >= 0 && 0 <= high * 16 + HexValue(c) < 256 then
        Decoder(Text, text + [high * 16 + HexValue(c)], [])
      else Malformed
    case Decoder(SoftCr, text, _) => if c == LF then Decoder(Text, text, []) else Malformed
    case Decoder(HardCr, text, _) => if c == LF then Decoder(Text, text + [LF], []) else Malformed
  }

  function Feed(d: Decoder, s: seq<Byte>): Decoder {
    if s == [] then d else DecodeByte(Feed(d, s[..|s| - 1]), s[|s| - 1])
  }

  datatype Decoded = Body(body: seq<Byte>) | Invalid

  function Decode(s: seq<Byte>): Decoded {
    match Feed(Decoder(Text, [], []), s)
    case Decoder(Text, text, _) => Body(text)
    case _ => Invalid
  }

  lemma {:induction false} FeedConcat(d: Decoder, a: seq<Byte>, b: seq<Byte>)
    ensures Feed(d, a + b) == Feed(Feed(d, a), b)
  {
    if b == [] {
      assert a + b == a;
    } else {
      assert (a + b)[..|a + b| - 1] == a + b[..|b| - 1];
      FeedConcat(d, a, b[..|b| - 1]);
    }
  }

  lemma FeedOne(d: Decoder, c: Byte)
    ensures Feed(d, [c]) == DecodeByte(d, c)
  {
    assert [c][..0] == [];
  }

  lemma FeedPair(d: Decoder, a: Byte, b: Byte)
    ensures Feed(d, [a, b]) == DecodeByte(DecodeByte(d, a), b)
  {
    assert [a, b][..1] == [a];
    FeedOne(d, a);
  }

  lemma FeedThree(d: Decoder, a: Byte, b: Byte, c: Byte)
    ensures Feed(d, [a, b, c]) == DecodeByte(DecodeByte(DecodeByte(d, a), b), c)
  {
    assert [a, b, c][..2] == [a, b];
    FeedPair(d, a, b);
  }

  lemma {:induction false} MalformedStays(s: seq<Byte>)
    ensures Feed(Malformed, s) == Malformed
  {
    if s != [] {
      MalformedStays(s[..|s| - 1]);
    }
  }

  // -------- the round trip --------

  /** The decoder stands inside a line of text and has read exactly this. */
  ghost predicate HasRead(d: Decoder, s: seq<Byte>) {
    d.Decoder? && d.phase == Text && d.text + d.blanks == s
  }

  /** At the start of a physical line no blank is held back. */
  ghost predicate AtLineStart(d: Decoder, s: seq<Byte>) {
    d == Decoder(Text, s, [])
  }

  lemma QuoteRoundTrip(d: Decoder, c: Byte, s: seq<Byte>)
    requires HasRead(d, s)
    ensures AtLineStart(Feed(d, Quote(c)), s + [c])
  {
    var high, low := HexDigit(c / 16), HexDigit(c % 16);
    FeedThree(d, EQUALS, high, low);
    assert HexValue(high) == c / 16 && HexValue(low) == c % 16;
  }

  lemma MapRoundTrip(d: Decoder, c: Byte, s: seq<Byte>)
    requires HasRead(d, s) && c != CR && c != LF
    ensures HasRead(Feed(d, MapByte(c)), s + [c])
  {
    if IsSafe(c) {
      FeedOne(d, c);
      Associative(d.text, d.blanks, [c]);
    } else {
      QuoteRoundTrip(d, c, s);
      assert s + [c] + [] == s + [c];
    }
  }

  lemma SoftBreakKeepsText(d: Decoder, s: seq<Byte>)
    requires HasRead(d, s)
    ensures AtLineStart(Feed(d, [EQUALS] + CRLF), s)
  {
    assert [EQUALS] + CRLF == [EQUALS, CR, LF];
    FeedThree(d, EQUALS, CR, LF);
  }

  lemma HardBreakAddsLf(d: Decoder, s: seq<Byte>)
    requires AtLineStart(d, s)
    ensures AtLineStart(Feed(d, CRLF), s + [LF])
  {
    FeedPair(d, CR, LF);
  }

  /** Blanks are held back only behind a blank. */
  lemma NoBlanksHeld(d: Decoder, line: seq<Byte>, s: seq<Byte>)
    requires AtLineStart(d, s)
    requires Feed(d, line).Decoder? && Feed(d, line).phase == Text
    requires line == [] || !IsBlank(line[|line| - 1])
    ensures Feed(d, line).blanks == []
  {
  }

  /** In a line that decodes to text, a cut chosen by the encoder is never inside an escape. */
  lemma CutIsBetweenTokens(d: Decoder, line: seq<Byte>, s: seq<Byte>)
    requires AtLineStart(d, s) && |line| > MAX_LINE && CR !in line
    requires Feed(d, line).Decoder? && Feed(d, line).phase == Text
    ensures Feed(d, line[..CutAt(line)]).Decoder? && Feed(d, line[..CutAt(line)]).phase == Text
  {
    hide Feed;
    var cut := CutAt(line);
    PrefixDecodes(d, line, cut);
    PrefixDecodes(d, line, cut + 1);
    PrefixDecodes(d, line, cut - 1);
    var before, here, after := line[..cut - 1], line[..cut], line[..cut + 1];
    assert here == before + [line[cut - 1]] && after == here + [line[cut]];
    FeedConcat(d, before, [line[cut - 1]]);
    FeedOne(Feed(d, before), line[cut - 1]);
    FeedConcat(d, here, [line[cut]]);
    FeedOne(Feed(d, here), line[cut]);
    if line[cut] != EQUALS {
      PrefixDecodes(d, line, cut - 2);
      assert before == line[..cut - 2] + [line[cut - 2]];
      FeedConcat(d, line[..cut - 2], [line[cut - 2]]);
      FeedOne(Feed(d, line[..cut - 2]), line[cut - 2]);
    }
  }

  lemma PrefixDecodes(d: Decoder, line: seq<Byte>, k: nat)
    requires k <= |line| && Feed(d, line).Decoder?
    ensures Feed(d, line[..k]).Decoder?
  {
    assert line == line[..k] + line[k..];
    FeedConcat(d, line[..k], line[k..]);
    MalformedStays(line[k..]);
  }

  /** Two decoders that differ only in how much of the same text is held back as blanks. */
  ghost predicate SameText(d: Decoder, e: Decoder) {
    match (d, e)
    case (Malformed, Malformed) => true
    case (Decoder(p, t, b), Decoder(q, u, c)) =>
      p == q && p != SoftCr && p != HardCr && t + b == u + c && (p != Text ==> b == c == [])
    case _ => false
  }

  /** Until a line ends, how much is held back makes no difference. */
  lemma {:induction false} SameTextFeed(d: Decoder, e: Decoder, s: seq<Byte>)
    requires SameText(d, e) && CR !in s && LF !in s
    ensures SameText(Feed(d, s), Feed(e, s))
  {
    if s != [] {
      SameTextFeed(d, e, s[..|s| - 1]);
      SameTextByte(Feed(d, s[..|s| - 1]), Feed(e, s[..|s| - 1]), s[|s| - 1]);
    }
  }

  lemma SameTextByte(d: Decoder, e: Decoder, c: Byte)
    requires SameText(d, e) && c != CR && c != LF
    ensures SameText(DecodeByte(d, c), DecodeByte(e, c))
  {
    if d.Decoder? {
      if d.phase == Text {
        Associative(d.text, d.blanks, [c]);
        Associative(e.text, e.blanks, [c]);
      } else {
        assert d.text + [] == d.text && e.text + [] == e.text;
        assert d.text == e.text;
      }
    }
  }

  /** Decoding the finished lines reaches a line start, and the unfinished line completes the body. */
  ghost predicate Faithful(e: Encoder, body: seq<Byte>) {
    exists start, s ::
      && Feed(Decoder(Text, [], []), Join(e.lines, CRLF)) == start
      && AtLineStart(start, s)
      && HasRead(Feed(start, e.line), body)
  }

  lemma {:induction false} EncodeIsFaithful(body: seq<Byte>)
    requires CR !in body
    ensures Faithful(Encode(body), body)
  {
    if body == [] {
      var origin := Decoder(Text, [], []);
      assert AtLineStart(origin, []) && HasRead(Feed(origin, []), []);
    } else {
      var front, c := body[..|body| - 1], body[|body| - 1];
      EncodeIsFaithful(front);
      EncodeGivesGoodLines(front);
      assert body == front + [c];
      if c == LF {
        FaithfulAtLf(Encode(front), front);
      } else {
        FaithfulAtByte(Encode(front), front, c);
      }
    }
  }

  lemma FaithfulAtLf(e: Encoder, body: seq<Byte>)
    requires Faithful(e, body)
    ensures Faithful(EncodeByte(e, LF), body + [LF])
  {
    var origin := Decoder(Text, [], []);
    var start, s :| Feed(origin, Join(e.lines, CRLF)) == start && AtLineStart(start, s)
      && HasRead(Feed(start, e.line), body);
    HardLinesDecode(start, s, e.line, body);
    var ends := Join(HardLines(e.line), CRLF);
    JoinConcat(e.lines, HardLines(e.line), CRLF);
    FeedConcat(origin, Join(e.lines, CRLF), ends);
    var next := Feed(start, ends);
    assert Feed(next, []) == next && next.text + next.blanks == next.text;
  }

  lemma FaithfulAtByte(e: Encoder, body: seq<Byte>, c: Byte)
    requires Faithful(e, body) && GoodEncoder(e, MAX_LINE) && c != CR && c != LF
    ensures Faithful(EncodeByte(e, c), body + [c])
  {
    var origin := Decoder(Text, [], []);
    var start, s :| Feed(origin, Join(e.lines, CRLF)) == start && AtLineStart(start, s)
      && HasRead(Feed(start, e.line), body);
    var line := e.line + MapByte(c);
    FeedConcat(start, e.line, MapByte(c));
    MapRoundTrip(Feed(start, e.line), c, body);
    WrapOnce(Encoder(e.lines, line));
    if |line| > MAX_LINE {
      SoftCutDecodes(start, s, line, body + [c]);
      var soft := SoftLine(line);
      JoinSnoc(e.lines, soft, CRLF);
      Associative(Join(e.lines, CRLF), soft, CRLF);
      FeedConcat(origin, Join(e.lines, CRLF), soft + CRLF);
      var next := Feed(start, soft + CRLF);
      assert AtLineStart(next, next.text);
    }
  }

  /** A finished soft line leaves the decoder at a line start, and the rest of the line completes the body. */
  ghost predicate SoftCutIsFaithful(start: Decoder, soft: seq<Byte>, rest: seq<Byte>, body: seq<Byte>) {
    var next := Feed(start, soft + CRLF);
    next.Decoder? && AtLineStart(next, next.text) && HasRead(Feed(next, rest), body)
  }

  lemma SoftCutDecodes(start: Decoder, s: seq<Byte>, line: seq<Byte>, body: seq<Byte>)
    requires AtLineStart(start, s) && HasRead(Feed(start, line), body)
    requires |line| > MAX_LINE && CR !in line && LF !in line
    ensures SoftCutIsFaithful(start, SoftLine(line), line[CutAt(line)..], body)
  {
    hide Feed, SoftCutIsFaithful;
    CutIsBetweenTokens(start, line, s);
    var front, back := line[..CutAt(line)], line[CutAt(line)..];
    assert line == front + back;
    assert CR !in back && LF !in back;
    SoftBreakBetween(start, front, back, body);
  }

  lemma SoftBreakBetween(start: Decoder, front: seq<Byte>, back: seq<Byte>, body: seq<Byte>)
    requires Feed(start, front).Decoder? && Feed(start, front).phase == Text
    requires HasRead(Feed(start, front + back), body)
    requires CR !in back && LF !in back
    ensures SoftCutIsFaithful(start, front + [EQUALS], back, body)
  {
    var mid := Feed(start, front);
    var read := mid.text + mid.blanks;
    FeedConcat(start, front, back);
    Associative(front, [EQUALS], CRLF);
    FeedConcat(start, front, [EQUALS] + CRLF);
    SoftBreakKeepsText(mid, read);
    var next := Decoder(Text, read, []);
    assert read + [] == read;
    SameTextFeed(mid, next, back);
  }

  lemma HardLinesDecode(start: Decoder, s: seq<Byte>, line: seq<Byte>, body: seq<Byte>)
    requires AtLineStart(start, s) && HasRead(Feed(start, line), body)
    ensures AtLineStart(Feed(start, Join(HardLines(line), CRLF)), body + [LF])
  {
    if line == [] || !IsBlank(line[|line| - 1]) {
      NoBlanksHeld(start, line, s);
      JoinOne(line, CRLF);
      FeedConcat(start, line, CRLF);
      assert body + [] == body;
      HardBreakAddsLf(Feed(start, line), body);
    } else if |line| == 77 {
      BlankThenSoftBreak(start, line, body);
    } else {
      BlankIsQuoted(start, line, body);
    }
  }

  lemma BlankThenSoftBreak(start: Decoder, line: seq<Byte>, body: seq<Byte>)
    requires HasRead(Feed(start, line), body)
    ensures AtLineStart(Feed(start, Join([line + [EQUALS], []], CRLF)), body + [LF])
  {
    var soft := [EQUALS] + CRLF;
    JoinTwo(line + [EQUALS], [], CRLF);
    assert Join([line + [EQUALS], []], CRLF) == line + (soft + CRLF);
    FeedConcat(start, line, soft + CRLF);
    FeedConcat(Feed(start, line), soft, CRLF);
    SoftBreakKeepsText(Feed(start, line), body);
    HardBreakAddsLf(Feed(Feed(start, line), soft), body);
  }

  lemma BlankIsQuoted(start: Decoder, line: seq<Byte>, body: seq<Byte>)
    requires HasRead(Feed(start, line), body)
    requires line != [] && IsBlank(line[|line| - 1]) && |line| != 77
    ensures AtLineStart(Feed(start, Join(HardLines(line), CRLF)), body + [LF])
  {
    var text, blank := line[..|line| - 1], line[|line| - 1];
    var before := Feed(start, text);
    assert line == text + [blank];
    assert before.Decoder? && before.phase == Text;
    var read := before.text + before.blanks;
    Associative(before.text, before.blanks, [blank]);
    assert body == read + [blank];
    var end := Quote(blank) + CRLF;
    if |line| >= 78 {
      QuotedOnNextLine(start, text, blank, read);
    } else {
      JoinOne(text + Quote(blank), CRLF);
      Associative(text, Quote(blank), CRLF);
      FeedConcat(start, text, end);
      QuotedEnd(before, blank, read);
    }
  }

  lemma QuotedOnNextLine(start: Decoder, text: seq<Byte>, blank: Byte, read: seq<Byte>)
    requires HasRead(Feed(start, text), read)
    ensures AtLineStart(Feed(start, Join([text + [EQUALS], Quote(blank)], CRLF)), read + [blank] + [LF])
  {
    var soft, end := [EQUALS] + CRLF, Quote(blank) + CRLF;
    JoinTwo(text + [EQUALS], Quote(blank), CRLF);
    assert Join([text + [EQUALS], Quote(blank)], CRLF) == text + (soft + end);
    FeedConcat(start, text, soft + end);
    FeedConcat(Feed(start, text), soft, end);
    SoftBreakKeepsText(Feed(start, text), read);
    assert read + [] == read;
    QuotedEnd(Feed(Feed(start, text), soft), blank, read);
  }

  lemma QuotedEnd(d: Decoder, c: Byte, s: seq<Byte>)
    requires HasRead(d, s)
    ensures AtLineStart(Feed(d, Quote(c) + CRLF), s + [c] + [LF])
  {
    FeedConcat(d, Quote(c), CRLF);
    QuoteRoundTrip(d, c, s);
    HardBreakAddsLf(Feed(d, Quote(c)), s + [c]);
  }

  /** RFC 2045 section 6.7 reads every normal body back from its encoding, and its lines are good. */
  lemma RoundTrip(body: seq<Byte>)
    requires IsNormal(body)
    ensures Decode(Join(Encode(body).lines, CRLF)) == Body(body)
    ensures forall i :: 0 <= i < |Encode(body).lines| ==> GoodLine(Encode(body).lines[i])
  {
    EncodeIsFaithful(body);
    EncodeGivesGoodLines(body);
    LineIsEmptyOnlyAtLineEnds(body);
    var origin := Decoder(Text, [], []);
    var start, s :| Feed(origin, Join(Encode(body).lines, CRLF)) == start && AtLineStart(start, s)
      && HasRead(Feed(start, Encode(body).line), body);
    assert s + [] == s;
  }
}
