/** Newline normalization of a mail body: app/mime_preparation.py, normalize. */
module Newlines {
  import opened Bytes

  /** CRLF and lone CR become LF; every other byte stays. */
  function UnixLines(s: seq<Byte>): seq<Byte> {
    if s == [] then []
    else if s[0] == CR then
      [LF] + UnixLines(if |s| > 1 && s[1] == LF then s[2..] else s[1..])
    else [s[0]] + UnixLines(s[1..])
  }

  predicate EndsInLf(s: seq<Byte>) {
    s != [] && s[|s| - 1] == LF
  }

  /** The normal form promised for a body: LF line ends only, and a final one. */
  function Normalized(s: seq<Byte>): seq<Byte> {
    var lines := UnixLines(s);
    if EndsInLf(lines) then lines else lines + [LF]
  }

  /** A body as the encoders receive it. */
  ghost predicate IsNormal(s: seq<Byte>) {
    CR !in s && EndsInLf(s)
  }

  /** What the loop has written and remembers after some bytes. */
  datatype Progress = Progress(output: seq<Byte>, pendingCr: bool, lastLf: bool)

  function Step(p: Progress, byte: Byte): Progress {
    var p' := if p.pendingCr then Progress(p.output + [LF], false, true) else p;
    if p.pendingCr && byte == LF then p'
    else if byte == CR then p'.(pendingCr := true)
    else Progress(p'.output + [byte], false, byte == LF)
  }

  function Run(s: seq<Byte>): Progress {
    if s == [] then Progress([], false, false) else Step(Run(s[..|s| - 1]), s[|s| - 1])
  }

  lemma RunSnoc(s: seq<Byte>, byte: Byte)
    ensures Run(s + [byte]) == Step(Run(s), byte)
  {
    assert (s + [byte])[..|s|] == s;
  }

  method Normalize(chunks: seq<seq<Byte>>) returns (sink: seq<Byte>)
    ensures sink == Normalized(Flatten(chunks))
  {
    var pendingCr, lastLf, written := false, false, false;
    sink := [];
    for i := 0 to |chunks|
      invariant Progress(sink, pendingCr, lastLf) == Run(Flatten(chunks[..i]))
      invariant lastLf ==> written
    {
      var chunk := chunks[i];
      var output: seq<Byte> := [];
      DoneChunk(chunks, i);
      for j := 0 to |chunk|
        invariant Progress(sink + output, pendingCr, lastLf) == Run(Done(chunks, i, j))
        invariant lastLf ==> written
      {
        var byte := chunk[j];
        DoneStep(chunks, i, j);
        RunSnoc(Done(chunks, i, j), byte);
        if pendingCr {
          Associative(sink, output, [LF]);
          output := output + [LF];
          written, lastLf := true, true;
          pendingCr := false;
          if byte == LF {
            continue;
          }
        }
        if byte == CR {
          pendingCr := true;
        } else {
          Associative(sink, output, [byte]);
          output := output + [byte];
          written := true;
          lastLf := byte == LF;
        }
      }
      sink := sink + output;
    }
    assert chunks[..|chunks|] == chunks;
    RunIsUnixLines(Flatten(chunks), []);
    RunSeesLastLf(Flatten(chunks));
    ghost var whole := UnixLines(Flatten(chunks));
    if pendingCr {
      sink := sink + [LF];
      written, lastLf := true, true;
    }
    assert sink == whole && lastLf == EndsInLf(whole);
    if !written || !lastLf {
      sink := sink + [LF];
    }
  }

  function Held(pendingCr: bool): seq<Byte> {
    if pendingCr then [CR] else []
  }

  /** The bytes written so far, continued by the bytes still held back or unread, are the answer. */
  lemma {:induction false} RunIsUnixLines(s: seq<Byte>, rest: seq<Byte>)
    ensures UnixLines(s + rest) == Run(s).output + UnixLines(Held(Run(s).pendingCr) + rest)
    ensures rest == [] ==> UnixLines(s) == Run(s).output + (if Run(s).pendingCr then [LF] else [])
  {
    if s == [] {
      assert s + rest == rest == Held(false) + rest;
    } else {
      var front, byte := s[..|s| - 1], s[|s| - 1];
      assert s + rest == front + ([byte] + rest);
      RunIsUnixLines(front, [byte] + rest);
      OneByte(Run(front), byte, rest);
    }
    assert s + [] == s && Held(Run(s).pendingCr) + [] == Held(Run(s).pendingCr);
  }

  lemma OneByte(p: Progress, byte: Byte, rest: seq<Byte>)
    ensures p.output + UnixLines(Held(p.pendingCr) + ([byte] + rest))
         == Step(p, byte).output + UnixLines(Held(Step(p, byte).pendingCr) + rest)
  {
    assert Held(false) + rest == rest && Held(false) + ([byte] + rest) == [byte] + rest;
    if p.pendingCr {
      HeldCrIsLf([byte] + rest);
      assert ([byte] + rest)[1..] == rest;
      var after := if byte == LF then rest else [byte] + rest;
      Associative(p.output, [LF], UnixLines(after));
      if byte != LF {
        FreshByte(p.output + [LF], byte, rest);
      }
    } else {
      FreshByte(p.output, byte, rest);
    }
  }

  lemma HeldCrIsLf(rest: seq<Byte>)
    ensures UnixLines(Held(true) + rest) == [LF] + UnixLines(if rest != [] && rest[0] == LF then rest[1..] else rest)
  {
    var s := Held(true) + rest;
    assert s[1..] == rest;
    assert rest != [] ==> s[2..] == rest[1..];
  }

  lemma FreshByte(output: seq<Byte>, byte: Byte, rest: seq<Byte>)
    ensures output + UnixLines([byte] + rest)
         == if byte == CR then output + UnixLines(Held(true) + rest) else output + [byte] + UnixLines(rest)
  {
    assert ([byte] + rest)[1..] == rest;
    Associative(output, [byte], UnixLines(rest));
  }

  lemma {:induction false} RunSeesLastLf(s: seq<Byte>)
    ensures !Run(s).pendingCr ==> Run(s).lastLf == EndsInLf(Run(s).output)
    ensures Run(s).pendingCr ==> s != []
  {
    if s != [] {
      RunSeesLastLf(s[..|s| - 1]);
    }
  }

  lemma {:induction false} UnixLinesHasNoCr(s: seq<Byte>)
    ensures CR !in UnixLines(s)
  {
    if s != [] {
      UnixLinesHasNoCr(if s[0] == CR && |s| > 1 && s[1] == LF then s[2..] else s[1..]);
    }
  }

  lemma {:induction false} UnixLinesIsIdentityWithoutCr(s: seq<Byte>)
    requires CR !in s
    ensures UnixLines(s) == s
  {
    if s != [] {
      UnixLinesIsIdentityWithoutCr(s[1..]);
    }
  }

  /** Normalization reaches the normal form, and changes nothing that is already in it. */
  lemma NormalizedIsNormal(s: seq<Byte>)
    ensures IsNormal(Normalized(s))
    ensures Normalized(Normalized(s)) == Normalized(s)
    ensures IsNormal(s) ==> Normalized(s) == s
  {
    UnixLinesHasNoCr(s);
    UnixLinesIsIdentityWithoutCr(Normalized(s));
    if IsNormal(s) {
      UnixLinesIsIdentityWithoutCr(s);
    }
  }

  /** Reading CRLF-separated plain lines back as LF lines. */
  lemma {:induction false} UnixLinesOfJoin(lines: seq<seq<Byte>>)
    requires forall i :: 0 <= i < |lines| ==> CR !in lines[i]
    ensures UnixLines(Join(lines, CRLF)) == Join(lines, [LF])
  {
    if lines != [] {
      UnixLinesOfJoin(lines[1..]);
      UnixLinesOfLine(lines[0], Join(lines[1..], CRLF));
    }
  }

  predicate IsLineEnd(separator: seq<Byte>) {
    separator == [LF] || separator == [CR] || separator == CRLF
  }

  /** Whichever way its lines are ended, a body keeps its lines, and they are ended by LF. */
  lemma {:induction false} LinesAreKept(lines: seq<seq<Byte>>, separator: seq<Byte>)
    requires forall i :: 0 <= i < |lines| ==> CR !in lines[i] && LF !in lines[i]
    requires IsLineEnd(separator)
    ensures UnixLines(Join(lines, separator)) == Join(lines, [LF])
    ensures Normalized(Join(lines, separator)) == if lines == [] then [LF] else Join(lines, [LF])
  {
    if lines != [] {
      var rest := Join(lines[1..], separator);
      LinesAreKept(lines[1..], separator);
      assert rest != [] ==> rest[0] != LF || separator == [LF];
      LineIsKept(lines[0], separator, rest);
      JoinEndsInLf(lines);
    }
  }

  lemma JoinEndsInLf(lines: seq<seq<Byte>>)
    requires lines != []
    ensures EndsInLf(Join(lines, [LF]))
  {
    var n := |lines| - 1;
    assert lines == lines[..n] + [lines[n]];
    JoinSnoc(lines[..n], lines[n], [LF]);
  }

  lemma {:induction false} LineIsKept(line: seq<Byte>, separator: seq<Byte>, rest: seq<Byte>)
    requires CR !in line && LF !in line && IsLineEnd(separator)
    requires separator == [CR] && rest != [] ==> rest[0] != LF
    ensures UnixLines(line + separator + rest) == line + [LF] + UnixLines(rest)
  {
    var s := line + separator + rest;
    if line == [] {
      assert s[|separator|..] == rest;
    } else {
      assert s[1..] == line[1..] + separator + rest;
      LineIsKept(line[1..], separator, rest);
      assert line + [LF] + UnixLines(rest) == [line[0]] + (line[1..] + [LF] + UnixLines(rest));
    }
  }

  lemma {:induction false} UnixLinesOfLine(line: seq<Byte>, rest: seq<Byte>)
    requires CR !in line
    ensures UnixLines(line + CRLF + rest) == line + [LF] + UnixLines(rest)
  {
    var s := line + CRLF + rest;
    if line == [] {
      assert s[2..] == rest;
    } else {
      assert s[1..] == line[1..] + CRLF + rest;
      UnixLinesOfLine(line[1..], rest);
      assert line + [LF] + UnixLines(rest) == [line[0]] + (line[1..] + [LF] + UnixLines(rest));
    }
  }
}
