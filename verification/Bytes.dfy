/** Octets, chunked streams and line framing shared by the streaming codecs. */
module Bytes {

  type Byte = b: int | 0 <= b < 256

  const TAB: Byte := 9
  const LF: Byte := 10
  const CR: Byte := 13
  const SPACE: Byte := 32
  const DOT: Byte := 46
  const EQUALS: Byte := 61

  const CRLF: seq<Byte> := [13, 10]

  /** The stream that a sequence of chunks carries. */
  function Flatten<T>(chunks: seq<seq<T>>): seq<T> {
    if chunks == [] then [] else chunks[0] + Flatten(chunks[1..])
  }

  lemma Associative<T>(a: seq<T>, b: seq<T>, c: seq<T>)
    ensures a + b + c == a + (b + c)
  {
  }

  lemma {:induction false} FlattenConcat<T>(a: seq<seq<T>>, b: seq<seq<T>>)
    ensures Flatten(a + b) == Flatten(a) + Flatten(b)
  {
    if a == [] {
      assert a + b == b;
    } else {
      assert (a + b)[1..] == a[1..] + b;
      FlattenConcat(a[1..], b);
    }
  }

  lemma {:induction false} FlattenSnoc<T>(a: seq<seq<T>>, c: seq<T>)
    ensures Flatten(a + [c]) == Flatten(a) + c
  {
    FlattenConcat(a, [c]);
    assert Flatten([c]) == c + Flatten<T>([]);
  }

  /** What is still to be read when chunk i has been read up to offset j. */
  function Rest<T>(chunks: seq<seq<T>>, i: nat, j: nat): seq<T>
    requires i < |chunks| && j <= |chunks[i]|
  {
    chunks[i][j..] + Flatten(chunks[i + 1..])
  }

  lemma RestStart<T>(chunks: seq<seq<T>>, i: nat)
    requires i < |chunks|
    ensures Rest(chunks, i, 0) == Flatten(chunks[i..])
    ensures Rest(chunks, i, |chunks[i]|) == Flatten(chunks[i + 1..])
  {
    assert chunks[i..][1..] == chunks[i + 1..];
  }

  /** What has been read when chunk i has been read up to offset j. */
  function Done<T>(chunks: seq<seq<T>>, i: nat, j: nat): seq<T>
    requires i < |chunks| && j <= |chunks[i]|
  {
    Flatten(chunks[..i]) + chunks[i][..j]
  }

  lemma DoneStep<T>(chunks: seq<seq<T>>, i: nat, j: nat)
    requires i < |chunks| && j < |chunks[i]|
    ensures Done(chunks, i, j + 1) == Done(chunks, i, j) + [chunks[i][j]]
  {
    assert chunks[i][..j + 1] == chunks[i][..j] + [chunks[i][j]];
  }

  lemma DoneChunk<T>(chunks: seq<seq<T>>, i: nat)
    requires i < |chunks|
    ensures Done(chunks, i, 0) == Flatten(chunks[..i])
    ensures Done(chunks, i, |chunks[i]|) == Flatten(chunks[..i + 1])
  {
    assert chunks[..i + 1] == chunks[..i] + [chunks[i]];
    FlattenSnoc(chunks[..i], chunks[i]);
    assert chunks[i][..|chunks[i]|] == chunks[i];
  }

  lemma DoneWithinAll<T>(chunks: seq<seq<T>>, i: nat, j: nat)
    requires i < |chunks| && j <= |chunks[i]|
    ensures Flatten(chunks) == Done(chunks, i, j) + Rest(chunks, i, j)
  {
    assert chunks == chunks[..i] + chunks[i..];
    FlattenConcat(chunks[..i], chunks[i..]);
    RestStart(chunks, i);
    assert chunks[i] == chunks[i][..j] + chunks[i][j..];
  }

  /** Every line followed by the separator. */
  function Join(lines: seq<seq<Byte>>, separator: seq<Byte>): seq<Byte> {
    if lines == [] then [] else lines[0] + separator + Join(lines[1..], separator)
  }

  lemma {:induction false} JoinConcat(a: seq<seq<Byte>>, b: seq<seq<Byte>>, separator: seq<Byte>)
    ensures Join(a + b, separator) == Join(a, separator) + Join(b, separator)
  {
    if a == [] {
      assert a + b == b;
    } else {
      assert (a + b)[1..] == a[1..] + b;
      JoinConcat(a[1..], b, separator);
    }
  }

  lemma JoinOne(line: seq<Byte>, separator: seq<Byte>)
    ensures Join([line], separator) == line + separator
  {
    assert [line][1..] == [];
    assert line + separator + [] == line + separator;
  }

  lemma JoinSnoc(a: seq<seq<Byte>>, line: seq<Byte>, separator: seq<Byte>)
    ensures Join(a + [line], separator) == Join(a, separator) + line + separator
  {
    JoinConcat(a, [line], separator);
    JoinOne(line, separator);
  }

  /** A line free of CR and LF and no longer than the bound. */
  ghost predicate PlainLine(line: seq<Byte>, bound: nat) {
    |line| <= bound && CR !in line && LF !in line
  }

  /** No LF stands without the CR that RFC 5321 puts before it. */
  ghost predicate Framed(s: seq<Byte>) {
    forall i :: 0 <= i < |s| && s[i] == LF ==> i > 0 && s[i - 1] == CR
  }

  lemma {:induction false} JoinIsFramed(lines: seq<seq<Byte>>, bound: nat)
    requires forall i :: 0 <= i < |lines| ==> PlainLine(lines[i], bound)
    ensures Framed(Join(lines, CRLF))
    ensures lines != [] ==> |Join(lines, CRLF)| >= 2 && Join(lines, CRLF)[|Join(lines, CRLF)| - 2..] == CRLF
  {
    if lines != [] {
      JoinIsFramed(lines[1..], bound);
      var rest := Join(lines[1..], CRLF);
      var s := Join(lines, CRLF);
      assert s == lines[0] + CRLF + rest;
      forall i | 0 <= i < |s| && s[i] == LF
        ensures i > 0 && s[i - 1] == CR
      {
        if i >= |lines[0]| + 2 {
          assert rest[i - |lines[0]| - 2] == LF;
          assert s[i - 1] == rest[i - |lines[0]| - 3];
        }
      }
      if lines[1..] == [] {
        assert rest == [];
        assert s == lines[0] + CRLF;
      } else {
        assert s[|s| - 2..] == rest[|rest| - 2..];
      }
    }
  }

  // -------- four octets --------

  const TWO_32 := 0x1_0000_0000

  /** struct '!I' of the number modulo 2 to the 32. */
  function Pack32(n: nat): (r: seq<Byte>)
    ensures |r| == 4
  {
    [n / 0x100_0000 % 0x100, n / 0x1_0000 % 0x100, n / 0x100 % 0x100, n % 0x100]
  }

  function Unpack32(h: seq<Byte>): (n: nat)
    requires |h| == 4
    ensures n < TWO_32
  {
    (h[0] as int) * 0x100_0000 + (h[1] as int) * 0x1_0000 + (h[2] as int) * 0x100 + h[3] as int
  }

  lemma UnpackUndoesPack(n: nat)
    requires n < TWO_32
    ensures Unpack32(Pack32(n)) == n
  {
    var a := n / 0x100;
    var b := a / 0x100;
    assert n == 0x100 * a + n % 0x100 && a == 0x100 * b + a % 0x100;
    assert n / 0x1_0000 == b && b / 0x100 == n / 0x100_0000;
    assert b == 0x100 * (b / 0x100) + b % 0x100;
  }

  lemma PackUndoesUnpack(h: seq<Byte>)
    requires |h| == 4
    ensures Pack32(Unpack32(h)) == h
  {
    var n := Unpack32(h);
    var a, b, c, d := h[0] as int, h[1] as int, h[2] as int, h[3] as int;
    assert n == 0x100 * (0x1_0000 * a + 0x100 * b + c) + d;
    assert n / 0x100 == 0x1_0000 * a + 0x100 * b + c;
    assert n / 0x1_0000 == 0x100 * a + b;
    assert n / 0x100_0000 == a;
  }
}
