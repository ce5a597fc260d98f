/** Choosing and applying the content-transfer-encoding: app/mime_preparation.py, first_ten_lines to write_mime. */
module TransferEncoding {
  import opened Bytes
  import opened Newlines
  import Base64
  import Qp = QuotedPrintable

  const CHUNK := 65536

  datatype Cte = SevenBit | EightBit | QuotedPrintable | Base64Encoding

  datatype Result<T> = Ok(value: T) | AssertionFailed

  // -------- lines of a body --------

  /** The lines ended by an LF so far, and the line being read. */
  datatype Splitter = Splitter(lines: seq<seq<Byte>>, line: seq<Byte>)

  function Split(s: seq<Byte>): Splitter {
    if s == [] then Splitter([], [])
    else
      var before, c := Split(s[..|s| - 1]), s[|s| - 1];
      if c == LF then Splitter(before.lines + [before.line], [])
      else Splitter(before.lines, before.line + [c])
  }

  lemma SplitSnoc(s: seq<Byte>, c: Byte)
    ensures Split(s + [c]) == if c == LF then Splitter(Split(s).lines + [Split(s).line], [])
                              else Splitter(Split(s).lines, Split(s).line + [c])
  {
    assert (s + [c])[..|s|] == s;
  }

  lemma {:induction false} SplitIsTheBody(s: seq<Byte>)
    ensures s == Join(Split(s).lines, [LF]) + Split(s).line
    ensures s == [] || EndsInLf(s) ==> Split(s).line == []
  {
    if s != [] {
      var front, c := s[..|s| - 1], s[|s| - 1];
      SplitIsTheBody(front);
      assert s == front + [c];
      if c == LF {
        JoinSnoc(Split(front).lines, Split(front).line, [LF]);
      } else {
        Associative(Join(Split(front).lines, [LF]), Split(front).line, [c]);
      }
    }
  }

  lemma {:induction false} SplitLinesArePlain(s: seq<Byte>)
    ensures LF !in Split(s).line && (forall i :: 0 <= i < |Split(s).lines| ==> LF !in Split(s).lines[i])
    ensures CR !in s ==> CR !in Split(s).line && forall i :: 0 <= i < |Split(s).lines| ==> CR !in Split(s).lines[i]
  {
    if s != [] {
      SplitLinesArePlain(s[..|s| - 1]);
    }
  }

  function LongestLine(lines: seq<seq<Byte>>): nat {
    if lines == [] then 0
    else
      var before, last := LongestLine(lines[..|lines| - 1]), |lines[|lines| - 1]|;
      if last > before then last else before
  }

  lemma {:induction false} LongestLineBounds(lines: seq<seq<Byte>>, bound: nat)
    ensures LongestLine(lines) <= bound <==> forall i :: 0 <= i < |lines| ==> |lines[i]| <= bound
  {
    if lines != [] {
      LongestLineBounds(lines[..|lines| - 1], bound);
      assert forall i :: 0 <= i < |lines| - 1 ==> lines[..|lines| - 1][i] == lines[i];
    }
  }

  predicate IsAscii(s: seq<Byte>) {
    forall i :: 0 <= i < |s| ==> s[i] < 128
  }

  // -------- the sniffed prefix --------

  function CountLf(s: seq<Byte>): nat {
    if s == [] then 0 else CountLf(s[..|s| - 1]) + if s[|s| - 1] == LF then 1 else 0
  }

  lemma {:induction false} CountLfConcat(a: seq<Byte>, b: seq<Byte>)
    ensures CountLf(a + b) == CountLf(a) + CountLf(b)
  {
    if b == [] {
      assert a + b == a;
    } else {
      assert (a + b)[..|a + b| - 1] == a + b[..|b| - 1];
      CountLfConcat(a, b[..|b| - 1]);
    }
  }

  /** Everything up to and including the tenth LF, or everything. */
  function FirstTen(s: seq<Byte>): seq<Byte> {
    if s == [] then []
    else if CountLf(s[..|s| - 1]) < 10 then s
    else FirstTen(s[..|s| - 1])
  }

  lemma {:induction false} FirstTenIsShortest(s: seq<Byte>)
    ensures FirstTen(s) <= s && (FirstTen(s) == [] <==> s == [])
    ensures CountLf(s) < 10 ==> FirstTen(s) == s
    ensures CountLf(s) >= 10 ==> CountLf(FirstTen(s)) == 10 && EndsInLf(FirstTen(s))
    ensures EndsInLf(s) ==> EndsInLf(FirstTen(s))
  {
    if s != [] {
      FirstTenIsShortest(s[..|s| - 1]);
    }
  }

  lemma {:induction false} FirstTenIsSettled(s: seq<Byte>, rest: seq<Byte>)
    requires CountLf(s) >= 10
    ensures FirstTen(s + rest) == FirstTen(s)
  {
    if rest == [] {
      assert s + rest == s;
    } else {
      assert (s + rest)[..|s + rest| - 1] == s + rest[..|rest| - 1];
      FirstTenIsSettled(s, rest[..|rest| - 1]);
      CountLfConcat(s, rest[..|rest| - 1]);
    }
  }

  /** bytes.index of LF at or after an offset. */
  method IndexOfLf(s: seq<Byte>, start: nat) returns (k: nat)
    requires start <= |s| && CountLf(s[..start]) < CountLf(s)
    ensures start <= k < |s| && s[k] == LF && LF !in s[start..k]
  {
    k := start;
    assert s[..|s|] == s;
    while k < |s| && s[k] != LF
      invariant start <= k <= |s| && LF !in s[start..k]
    {
      k := k + 1;
    }
    if k == |s| {
      assert s == s[..start] + s[start..];
      CountLfConcat(s[..start], s[start..]);
      NoLfNoCount(s[start..]);
    }
  }

  lemma {:induction false} NoLfNoCount(s: seq<Byte>)
    requires LF !in s
    ensures CountLf(s) == 0
  {
    if s != [] {
      NoLfNoCount(s[..|s| - 1]);
    }
  }

  method FirstTenLines(chunks: seq<seq<Byte>>) returns (output: seq<seq<Byte>>)
    ensures Flatten(output) == FirstTen(Flatten(chunks))
  {
    hide FirstTen, CountLf, Flatten;
    output := [];
    var lines := 0;
    NoLines();
    for i := 0 to |chunks|
      invariant Flatten(output) == Flatten(chunks[..i])
      invariant lines == CountLf(Flatten(chunks[..i])) < 10
    {
      var chunk := chunks[i];
      ghost var done := Flatten(chunks[..i]);
      DoneChunk(chunks, i);
      assert Done(chunks, i, |chunk|) == done + chunk;
      CountLfConcat(done, chunk);
      if lines + CountLf(chunk) < 10 {
        lines := lines + CountLf(chunk);
        FlattenSnoc(output, chunk);
        output := output + [chunk];
        continue;
      }
      var offset := 0;
      while lines < 10
        invariant 0 <= offset <= |chunk|
        invariant lines == CountLf(done) + CountLf(chunk[..offset]) <= 10
        invariant lines == 10 ==> EndsInLf(done + chunk[..offset])
      {
        var at := IndexOfLf(chunk, offset);
        CountUpToLf(chunk, offset, at);
        offset := at + 1;
        lines := lines + 1;
      }
      TenthLineSettles(done, chunk, offset, Flatten(chunks[i + 1..]));
      DoneWithinAll(chunks, i, offset);
      FlattenSnoc(output, chunk[..offset]);
      output := output + [chunk[..offset]];
      return;
    }
    assert chunks[..|chunks|] == chunks;
    FirstTenIsShortest(Flatten(chunks));
  }

  lemma NoLines()
    ensures CountLf([]) == 0 && Flatten<Byte>([]) == []
  {
  }

  lemma CountUpToLf(chunk: seq<Byte>, offset: nat, at: nat)
    requires offset <= at < |chunk| && chunk[at] == LF && LF !in chunk[offset..at]
    ensures CountLf(chunk[..at + 1]) == CountLf(chunk[..offset]) + 1
  {
    assert chunk[..at] == chunk[..offset] + chunk[offset..at];
    CountLfConcat(chunk[..offset], chunk[offset..at]);
    NoLfNoCount(chunk[offset..at]);
    assert chunk[..at + 1][..at] == chunk[..at];
  }

  lemma TenthLineSettles(done: seq<Byte>, chunk: seq<Byte>, offset: nat, later: seq<Byte>)
    requires offset <= |chunk| && EndsInLf(done + chunk[..offset])
    requires CountLf(done) + CountLf(chunk[..offset]) == 10
    ensures FirstTen(done + chunk[..offset] + (chunk[offset..] + later)) == done + chunk[..offset]
  {
    var prefix := done + chunk[..offset];
    CountLfConcat(done, chunk[..offset]);
    FirstTenIsSettled(prefix, chunk[offset..] + later);
  }

  // -------- the choice --------

  method FileChunks(s: seq<Byte>) returns (chunks: seq<seq<Byte>>)
    ensures Flatten(chunks) == s
    ensures forall i :: 0 <= i < |chunks| ==> 0 < |chunks[i]| <= CHUNK
  {
    chunks := [];
    var offset := 0;
    while offset < |s|
      invariant 0 <= offset <= |s|
      invariant Flatten(chunks) == s[..offset]
      invariant forall i :: 0 <= i < |chunks| ==> 0 < |chunks[i]| <= CHUNK
    {
      var end := if |s| - offset < CHUNK then |s| else offset + CHUNK;
      FlattenSnoc(chunks, s[offset..end]);
      assert s[..offset] + s[offset..end] == s[..end];
      chunks := chunks + [s[offset..end]];
      offset := end;
    }
    assert s[..|s|] == s;
  }

  function SniffedQp(body: seq<Byte>): nat {
    |Join(Qp.Encode(FirstTen(body)).lines, [LF])|
  }

  function SniffedBase64(body: seq<Byte>): nat {
    4 * ((|FirstTen(body)| + 2) / 3) + 1
  }

  function Choice(body: seq<Byte>): Cte {
    if LongestLine(Split(body).lines) <= 78 then (if IsAscii(body) then SevenBit else EightBit)
    else if SniffedQp(body) > SniffedBase64(body) then Base64Encoding
    else QuotedPrintable
  }

  /** A line that is ended, and longer than the limit. */
  ghost predicate HasLongLine(body: seq<Byte>) {
    exists i :: 0 <= i < |Split(body).lines| && |Split(body).lines[i]| > 78
  }

  /** Octets stay as they are unless some line is too long. Then the shorter encoding is chosen, going by what the two
      make of the first ten lines: quoted-printable even where it is one octet longer. */
  ghost predicate ChosenBySize(body: seq<Byte>, cte: Cte) {
    var sample := FirstTen(body);
    if HasLongLine(body) then
      && (cte == QuotedPrintable || cte == Base64Encoding)
      && (cte == QuotedPrintable
          <==> |Join(Qp.Encode(sample).lines, [LF])| <= |Base64.Encode(Base64.Standard, sample)| + 1)
    else
      && (cte == SevenBit || cte == EightBit)
      && (cte == SevenBit <==> forall i :: 0 <= i < |body| ==> body[i] < 128)
  }

  lemma ChoiceIsBySize(body: seq<Byte>)
    ensures ChosenBySize(body, Choice(body))
  {
    LongestLineBounds(Split(body).lines, 78);
    Base64.EncodeLength(Base64.Standard, FirstTen(body));
  }

  /** What one scan of the body has seen. */
  ghost predicate Scanned(s: seq<Byte>, longest: nat, current: nat, lineCount: nat, sniffBytes: nat) {
    && longest == LongestLine(Split(s).lines) && current == |Split(s).line|
    && lineCount == CountLf(s) && sniffBytes == |FirstTen(s)|
  }

  lemma ScanByte(s: seq<Byte>, c: Byte, longest: nat, current: nat, lineCount: nat, sniffBytes: nat)
    requires Scanned(s, longest, current, lineCount, sniffBytes)
    ensures Scanned(s + [c], if c == LF && current > longest then current else longest,
                    if c == LF then 0 else current + 1, if c == LF then lineCount + 1 else lineCount,
                    if lineCount < 10 then sniffBytes + 1 else sniffBytes)
  {
    SplitSnoc(s, c);
    assert (s + [c])[..|s|] == s;
    FirstTenIsShortest(s);
    var lines := Split(s).lines + [Split(s).line];
    assert lines[..|lines| - 1] == Split(s).lines;
  }

  /** The first pass over the body. */
  method Scan(body: seq<Byte>) returns (asciiOnly: bool, longest: nat, sniffBytes: nat)
    ensures asciiOnly == IsAscii(body)
    ensures longest == LongestLine(Split(body).lines)
    ensures sniffBytes == |FirstTen(body)|
  {
    var current, lineCount := 0, 0;
    asciiOnly, longest, sniffBytes := true, 0, 0;
    var chunks := FileChunks(body);
    for i := 0 to |chunks|
      invariant Scanned(Flatten(chunks[..i]), longest, current, lineCount, sniffBytes)
      invariant asciiOnly == IsAscii(Flatten(chunks[..i]))
    {
      var chunk := chunks[i];
      DoneChunk(chunks, i);
      assert Done(chunks, i, |chunk|) == Flatten(chunks[..i]) + chunk;
      AsciiConcat(Flatten(chunks[..i]), chunk);
      asciiOnly := asciiOnly && IsAscii(chunk);
      for j := 0 to |chunk|
        invariant Scanned(Done(chunks, i, j), longest, current, lineCount, sniffBytes)
      {
        var value := chunk[j];
        DoneStep(chunks, i, j);
        ScanByte(Done(chunks, i, j), value, longest, current, lineCount, sniffBytes);
        if lineCount < 10 {
          sniffBytes := sniffBytes + 1;
        }
        if value == LF {
          longest := if current > longest then current else longest;
          current := 0;
          lineCount := lineCount + 1;
        } else {
          current := current + 1;
        }
      }
    }
    assert chunks[..|chunks|] == chunks;
  }

  method TotalLength(chunks: seq<seq<Byte>>) returns (total: nat)
    ensures total == |Flatten(chunks)|
  {
    total := 0;
    for i := 0 to |chunks|
      invariant total == |Flatten(chunks[..i])|
    {
      DoneChunk(chunks, i);
      assert Done(chunks, i, |chunks[i]|) == Flatten(chunks[..i]) + chunks[i];
      total := total + |chunks[i]|;
    }
    assert chunks[..|chunks|] == chunks;
  }

  /** The second pass: the quoted-printable size of the first ten lines. */
  method SniffQp(body: seq<Byte>) returns (r: Result<nat>)
    ensures r == if body == [] || EndsInLf(FirstTen(body)) then Ok(SniffedQp(body)) else AssertionFailed
  {
    var chunks := FileChunks(body);
    var sniffed := FirstTenLines(chunks);
    var encoded, finished := Qp.QpChunks(sniffed, [LF]);
    FirstTenIsShortest(body);
    if !finished {
      return AssertionFailed;
    }
    var total := TotalLength(encoded);
    r := Ok(total);
  }

  /** The choice of the encoding raises: a long line, and no LF behind the sniffed lines. */
  predicate ChoiceFails(body: seq<Byte>) {
    LongestLine(Split(body).lines) > 78 && !EndsInLf(FirstTen(body))
  }

  method ChooseCte(body: seq<Byte>) returns (r: Result<Cte>)
    ensures r == if ChoiceFails(body) then AssertionFailed else Ok(Choice(body))
    ensures r.Ok? ==> ChosenBySize(body, r.value)
  {
    ChoiceIsBySize(body);
    hide ChosenBySize;
    var asciiOnly, longest, sniffBytes := Scan(body);
    if longest <= 78 {
      return Ok(if asciiOnly then SevenBit else EightBit);
    }
    var sniffQp := SniffQp(body);
    if sniffQp.AssertionFailed? {
      return AssertionFailed;
    }
    var sniffB64 := 4 * ((sniffBytes + 2) / 3) + 1;
    r := Ok(if sniffQp.value > sniffB64 then Base64Encoding else QuotedPrintable);
  }

  lemma AsciiConcat(a: seq<Byte>, b: seq<Byte>)
    ensures IsAscii(a + b) <==> IsAscii(a) && IsAscii(b)
  {
    if IsAscii(a + b) {
      assert forall i :: 0 <= i < |a| ==> a[i] == (a + b)[i];
      assert forall i :: 0 <= i < |b| ==> b[i] == (a + b)[|a| + i];
    }
  }

  // -------- the encoded body --------

  /** Base64 text in lines of 57 octets, 76 characters. */
  function Base64Lines(s: seq<Byte>): seq<seq<Byte>> {
    if s == [] then []
    else if |s| <= 57 then [Base64.Encode(Base64.Standard, s)]
    else [Base64.Encode(Base64.Standard, s[..57])] + Base64Lines(s[57..])
  }

  /** The lines written, continued by the lines of what is unread, are the answer. */
  ghost predicate OnTrack(output: seq<seq<Byte>>, unread: seq<Byte>, whole: seq<Byte>) {
    Flatten(output) + Join(Base64Lines(unread), CRLF) == whole
  }

  lemma GroupStep(output: seq<seq<Byte>>, group: seq<Byte>, unread: seq<Byte>, whole: seq<Byte>)
    requires |group| == 57 && OnTrack(output, group + unread, whole)
    ensures OnTrack(output + [Base64.Encode(Base64.Standard, group) + CRLF], unread, whole)
  {
    var line, lines := Base64.Encode(Base64.Standard, group), Base64Lines(unread);
    assert (group + unread)[..57] == group && (group + unread)[57..] == unread;
    assert unread == [] ==> group + unread == group;
    assert Base64Lines(group + unread) == [line] + lines;
    assert ([line] + lines)[1..] == lines;
    Associative(Flatten(output), line + CRLF, Join(lines, CRLF));
    FlattenSnoc(output, line + CRLF);
  }

  lemma LastGroup(output: seq<seq<Byte>>, pending: seq<Byte>, whole: seq<Byte>)
    requires |pending| < 57 && OnTrack(output, pending, whole)
    ensures pending == [] ==> Flatten(output) == whole
    ensures pending != [] ==> Flatten(output + [Base64.Encode(Base64.Standard, pending) + CRLF]) == whole
  {
    if pending != [] {
      var line := Base64.Encode(Base64.Standard, pending);
      JoinOne(line, CRLF);
      FlattenSnoc(output, line + CRLF);
    }
  }

  /** The loop over the whole groups of 57 octets that are pending. */
  method WholeGroups(written: seq<seq<Byte>>, pending: seq<Byte>, ghost later: seq<Byte>, ghost whole: seq<Byte>)
    returns (output: seq<seq<Byte>>, left: seq<Byte>)
    requires OnTrack(written, pending + later, whole)
    ensures |left| < 57 && OnTrack(output, left + later, whole)
  {
    output := written;
    var groups := |pending| / 57;
    var offset := 0;
    assert pending[0..] == pending;
    for taken := 0 to groups
      invariant offset == 57 * taken
      invariant OnTrack(output, pending[offset..] + later, whole)
    {
      ghost var group, unread := pending[offset..offset + 57], pending[offset + 57..];
      assert pending[offset..] == group + unread;
      Associative(group, unread, later);
      GroupStep(output, group, unread + later, whole);
      output := output + [Base64.Encode(Base64.Standard, pending[offset..offset + 57]) + CRLF];
      offset := offset + 57;
    }
    left := pending[offset..];
  }

  method Base64Chunks(chunks: seq<seq<Byte>>) returns (output: seq<seq<Byte>>)
    ensures Flatten(output) == Join(Base64Lines(Flatten(chunks)), CRLF)
  {
    output := [];
    var pending: seq<Byte> := [];
    ghost var whole := Join(Base64Lines(Flatten(chunks)), CRLF);
    assert chunks[0..] == chunks && [] + Flatten(chunks) == Flatten(chunks);
    for i := 0 to |chunks|
      invariant |pending| < 57
      invariant OnTrack(output, pending + Flatten(chunks[i..]), whole)
    {
      ghost var later := Flatten(chunks[i + 1..]);
      assert chunks[i..][1..] == chunks[i + 1..];
      Associative(pending, chunks[i], later);
      pending := pending + chunks[i];
      output, pending := WholeGroups(output, pending, later, whole);
    }
    assert chunks[|chunks|..] == [] && pending + [] == pending;
    LastGroup(output, pending, whole);
    if pending != [] {
      output := output + [Base64.Encode(Base64.Standard, pending) + CRLF];
    }
  }

  function Encoded(cte: Cte, body: seq<Byte>): seq<Byte> {
    match cte
    case Base64Encoding => Join(Base64Lines(body), CRLF)
    case QuotedPrintable => Join(Qp.Encode(body).lines, CRLF)
    case _ => Qp.ReplaceLf(body, CRLF)
  }

  lemma {:induction false} ReplaceLfConcat(a: seq<Byte>, b: seq<Byte>)
    ensures Qp.ReplaceLf(a + b, CRLF) == Qp.ReplaceLf(a, CRLF) + Qp.ReplaceLf(b, CRLF)
  {
    if a == [] {
      assert a + b == b;
    } else {
      assert (a + b)[1..] == a[1..] + b;
      ReplaceLfConcat(a[1..], b);
    }
  }

  /** The generator for bodies that are sent as they are. */
  method LineEndChunks(chunks: seq<seq<Byte>>) returns (encoded: seq<seq<Byte>>)
    ensures Flatten(encoded) == Qp.ReplaceLf(Flatten(chunks), CRLF)
  {
    encoded := [];
    for i := 0 to |chunks|
      invariant Flatten(encoded) == Qp.ReplaceLf(Flatten(chunks[..i]), CRLF)
    {
      DoneChunk(chunks, i);
      assert Done(chunks, i, |chunks[i]|) == Flatten(chunks[..i]) + chunks[i];
      ReplaceLfConcat(Flatten(chunks[..i]), chunks[i]);
      FlattenSnoc(encoded, Qp.ReplaceLf(chunks[i], CRLF));
      encoded := encoded + [Qp.ReplaceLf(chunks[i], CRLF)];
    }
    assert chunks[..|chunks|] == chunks;
  }

  /** The body part of write_mime behind header octets that another module renders. Without an LF at the end it
      may raise, before anything is written or with all finished lines written. */
  method WriteMime(body: seq<Byte>, header: seq<Byte>) returns (r: Result<Cte>, sink: seq<Byte>)
    ensures sink == if ChoiceFails(body) then [] else header + Encoded(Choice(body), body)
    ensures r == if ChoiceFails(body) || (Choice(body) == QuotedPrintable && !EndsInLf(body)) then AssertionFailed
                 else Ok(Choice(body))
    ensures EndsInLf(body) ==> r == Ok(Choice(body))
  {
    hide ChoiceFails, Choice, Qp.Encode, FirstTen, Join, Base64Lines;
    NoLineIsShort(body);
    sink := [];
    r := ChooseCte(body);
    FirstTenIsShortest(body);
    if r.AssertionFailed? {
      return;
    }
    sink := header;
    var chunks := FileChunks(body);
    var encoded;
    match r.value {
      case Base64Encoding =>
        encoded := Base64Chunks(chunks);
      case QuotedPrintable =>
        var finished;
        encoded, finished := Qp.QpChunks(chunks, CRLF);
        if !finished {
          r := AssertionFailed;
        }
      case _ =>
        encoded := LineEndChunks(chunks);
    }
    for i := 0 to |encoded|
      invariant sink == header + Flatten(encoded[..i])
    {
      DoneChunk(encoded, i);
      assert Done(encoded, i, |encoded[i]|) == Flatten(encoded[..i]) + encoded[i];
      sink := sink + encoded[i];
    }
    assert encoded[..|encoded|] == encoded;
  }

  lemma NoLineIsShort(body: seq<Byte>)
    ensures body == [] ==> Choice(body) != QuotedPrintable
    ensures EndsInLf(body) ==> !ChoiceFails(body)
  {
    FirstTenIsShortest(body);
  }

  // -------- what the receiver makes of it --------

  datatype Received = Body(body: seq<Byte>) | Undecodable

  function WithoutLineEnds(s: seq<Byte>): seq<Byte> {
    if s == [] then []
    else (if s[0] == CR || s[0] == LF then [] else [s[0]]) + WithoutLineEnds(s[1..])
  }

  function Decoded(cte: Cte, text: seq<Byte>): Received {
    match cte
    case Base64Encoding =>
      (match Base64.Decode(Base64.Standard, WithoutLineEnds(text))
       case Data(data) => Body(data)
       case Invalid => Undecodable)
    case QuotedPrintable =>
      (match Qp.Decode(text)
       case Body(body) => Body(body)
       case Invalid => Undecodable)
    case _ => Body(UnixLines(text))
  }

  /** The physical lines an encoding puts on the wire. */
  function WireLines(cte: Cte, body: seq<Byte>): seq<seq<Byte>> {
    match cte
    case Base64Encoding => Base64Lines(body)
    case QuotedPrintable => Qp.Encode(body).lines
    case _ => Split(body).lines
  }

  lemma {:induction false} ReplaceLfOfJoin(lines: seq<seq<Byte>>)
    requires forall i :: 0 <= i < |lines| ==> LF !in lines[i]
    ensures Qp.ReplaceLf(Join(lines, [LF]), CRLF) == Join(lines, CRLF)
  {
    if lines != [] {
      ReplaceLfOfJoin(lines[1..]);
      Qp.ReplaceLfIn(lines[0], Join(lines[1..], [LF]), CRLF);
    }
  }

  lemma {:induction false} Base64LinesArePlain(s: seq<Byte>)
    ensures forall i :: 0 <= i < |Base64Lines(s)| ==> PlainLine(Base64Lines(s)[i], 76) && IsAscii(Base64Lines(s)[i])
  {
    if s != [] {
      Base64LineIsPlain(if |s| <= 57 then s else s[..57]);
      if |s| > 57 {
        Base64LinesArePlain(s[57..]);
      }
    }
  }

  /** Every line but the last has its 76 characters, and the last has some. */
  lemma {:induction false} Base64LinesAreFull(s: seq<Byte>, i: nat)
    requires i < |Base64Lines(s)|
    ensures if i < |Base64Lines(s)| - 1 then |Base64Lines(s)[i]| == 76 else 0 < |Base64Lines(s)[i]| <= 76
  {
    Base64.EncodeLength(Base64.Standard, if |s| <= 57 then s else s[..57]);
    if i > 0 {
      Base64LinesAreFull(s[57..], i - 1);
    }
  }

  lemma Base64LineIsPlain(s: seq<Byte>)
    requires |s| <= 57
    ensures PlainLine(Base64.Encode(Base64.Standard, s), 76) && IsAscii(Base64.Encode(Base64.Standard, s))
  {
    Base64LineIsShort(s);
    Base64IsPrintable(s);
    PrintableIsPlain(Base64.Encode(Base64.Standard, s));
  }

  lemma Base64LineIsShort(s: seq<Byte>)
    requires |s| <= 57
    ensures |Base64.Encode(Base64.Standard, s)| <= 76
  {
    Base64.EncodeLength(Base64.Standard, s);
    assert (|s| + 2) / 3 <= 19;
  }

  lemma Base64IsPrintable(s: seq<Byte>)
    ensures forall i :: 0 <= i < |Base64.Encode(Base64.Standard, s)| ==> Printable(Base64.Encode(Base64.Standard, s)[i])
  {
    forall i | 0 <= i < |Base64.Encode(Base64.Standard, s)|
      ensures Printable(Base64.Encode(Base64.Standard, s)[i])
    {
      CharacterIsPrintable(s, i);
    }
  }

  predicate Printable(c: Byte) {
    33 <= c <= 126
  }

  lemma CharacterIsPrintable(s: seq<Byte>, i: nat)
    requires i < |Base64.Encode(Base64.Standard, s)|
    ensures Printable(Base64.Encode(Base64.Standard, s)[i])
  {
    Base64.CharacterAt(Base64.Standard, s, i);
    var c := Base64.Encode(Base64.Standard, s)[i];
    if c != EQUALS {
      Base64.ValueIsPrintable(Base64.Standard, c);
    }
  }

  lemma PrintableIsPlain(t: seq<Byte>)
    requires forall i :: 0 <= i < |t| ==> Printable(t[i])
    ensures CR !in t && LF !in t && IsAscii(t)
  {
  }

  lemma {:induction false} LineEndsVanish(line: seq<Byte>, rest: seq<Byte>)
    requires CR !in line && LF !in line
    ensures WithoutLineEnds(line + CRLF + rest) == line + WithoutLineEnds(rest)
  {
    var s := line + CRLF + rest;
    if line == [] {
      assert s[1..] == [LF] + rest && s[1..][1..] == rest;
    } else {
      assert s[1..] == line[1..] + CRLF + rest;
      LineEndsVanish(line[1..], rest);
    }
  }

  lemma {:induction false} Base64TextIsWhole(s: seq<Byte>)
    ensures WithoutLineEnds(Join(Base64Lines(s), CRLF)) == Base64.Encode(Base64.Standard, s)
  {
    if s != [] {
      var first, rest := if |s| <= 57 then s else s[..57], if |s| <= 57 then [] else s[57..];
      assert s == first + rest;
      Base64LineIsPlain(first);
      var lines := Base64Lines(s);
      assert lines[0] == Base64.Encode(Base64.Standard, first) && lines[1..] == Base64Lines(rest);
      LineEndsVanish(lines[0], Join(Base64Lines(rest), CRLF));
      if rest != [] {
        Base64TextIsWhole(rest);
        Base64.EncodeConcat(Base64.Standard, first, rest);
      }
    }
  }

  lemma QpLinesExist(body: seq<Byte>)
    requires IsNormal(body)
    ensures Qp.Encode(body).lines != []
  {
    Qp.RoundTrip(body);
    assert Qp.Decode([]) == Qp.Body([]);
  }

  /** Whatever the encoding, a normal body comes back, and the wire carries framed lines. */
  lemma TransferRoundTrip(cte: Cte, body: seq<Byte>)
    requires IsNormal(body)
    ensures Decoded(cte, Encoded(cte, body)) == Body(body)
    ensures Encoded(cte, body) == Join(WireLines(cte, body), CRLF)
    ensures WireLines(cte, body) != []
  {
    match cte
    case Base64Encoding =>
      Base64TextIsWhole(body);
      Base64.RoundTrip(Base64.Standard, body);
    case QuotedPrintable =>
      Qp.RoundTrip(body);
      QpLinesExist(body);
    case _ =>
      SplitIsTheBody(body);
      SplitLinesArePlain(body);
      var lines := Split(body).lines;
      assert body == Join(lines, [LF]);
      ReplaceLfOfJoin(lines);
      UnixLinesOfJoin(lines);
  }

  /** The chosen encoding keeps every line within 78 octets, and only 8bit carries octets above 127. */
  lemma ChosenLinesAreShort(body: seq<Byte>)
    requires IsNormal(body)
    ensures forall i :: 0 <= i < |WireLines(Choice(body), body)| ==>
              PlainLine(WireLines(Choice(body), body)[i], 78)
    ensures Choice(body) != EightBit ==> forall i :: 0 <= i < |WireLines(Choice(body), body)| ==>
              IsAscii(WireLines(Choice(body), body)[i])
  {
    match Choice(body)
    case Base64Encoding =>
      Base64LinesArePlain(body);
    case QuotedPrintable =>
      Qp.RoundTrip(body);
    case _ =>
      SplitLinesArePlain(body);
      LongestLineBounds(Split(body).lines, 78);
      if Choice(body) == SevenBit {
        AsciiLines(body);
      }
  }

  lemma {:induction false} AsciiLines(s: seq<Byte>)
    requires IsAscii(s)
    ensures IsAscii(Split(s).line)
    ensures forall i :: 0 <= i < |Split(s).lines| ==> IsAscii(Split(s).lines[i])
  {
    if s != [] {
      AsciiLines(s[..|s| - 1]);
    }
  }
}
