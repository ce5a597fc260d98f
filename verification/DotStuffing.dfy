/** SMTP transparency: app/mime_preparation.py, dot_chunks, against RFC 5321 section 4.5.2. */
module DotStuffing {
  import opened Bytes

  const TERMINATOR: seq<Byte> := [46, 13, 10]

  // -------- the sender --------

  datatype Stuffing = Stuffing(output: seq<Byte>, beginning: bool)

  function StuffByte(p: Stuffing, c: Byte): Stuffing {
    var output := if p.beginning && c == DOT then p.output + [DOT] else p.output;
    Stuffing(output + [c], c == LF)
  }

  function Stuff(m: seq<Byte>): Stuffing {
    if m == [] then Stuffing([], true) else StuffByte(Stuff(m[..|m| - 1]), m[|m| - 1])
  }

  lemma StuffSnoc(m: seq<Byte>, c: Byte)
    ensures Stuff(m + [c]) == StuffByte(Stuff(m), c)
  {
    assert (m + [c])[..|m|] == m;
  }

  predicate EndsInCrlf(m: seq<Byte>) {
    |m| >= 2 && m[|m| - 2..] == CRLF
  }

  /** What follows the stuffed message on the wire. */
  function Ending(m: seq<Byte>): seq<Byte> {
    if EndsInCrlf(m) then TERMINATOR else CRLF + TERMINATOR
  }

  function Wire(m: seq<Byte>): seq<Byte> {
    Stuff(m).output + Ending(m)
  }

  /** bytes slicing [-2:]. */
  function LastTwo(s: seq<Byte>): seq<Byte> {
    if |s| <= 2 then s else s[|s| - 2..]
  }

  /** The loop over one chunk. */
  method DotChunk(chunk: seq<Byte>, start: bool, ghost before: seq<Byte>, ghost done: seq<Byte>)
    returns (output: seq<Byte>, beginning: bool)
    requires Stuffing(before, start) == Stuff(done)
    ensures Stuffing(before + output, beginning) == Stuff(done + chunk)
  {
    hide Stuff;
    output, beginning := [], start;
    assert before + output == before && done + chunk[..0] == done;
    for j := 0 to |chunk|
      invariant Stuffing(before + output, beginning) == Stuff(done + chunk[..j])
    {
      var byte := chunk[j];
      StuffSnoc(done + chunk[..j], byte);
      assert done + chunk[..j + 1] == done + chunk[..j] + [byte];
      if beginning && byte == DOT {
        Associative(before, output, [DOT]);
        output := output + [DOT];
      }
      Associative(before, output, [byte]);
      output := output + [byte];
      beginning := byte == LF;
    }
    assert chunk[..|chunk|] == chunk;
  }

  method DotChunks(chunks: seq<seq<Byte>>) returns (sent: seq<seq<Byte>>)
    ensures Flatten(sent) == Wire(Flatten(chunks))
  {
    sent := [];
    var beginning := true;
    var tail: seq<Byte> := [];
    for i := 0 to |chunks|
      invariant Stuffing(Flatten(sent), beginning) == Stuff(Flatten(chunks[..i]))
      invariant tail == LastTwo(Flatten(chunks[..i]))
    {
      DoneChunk(chunks, i);
      assert Done(chunks, i, |chunks[i]|) == Flatten(chunks[..i]) + chunks[i];
      var output;
      output, beginning := DotChunk(chunks[i], beginning, Flatten(sent), Flatten(chunks[..i]));
      LastTwoOfChunk(chunks, i);
      tail := LastTwo(tail + chunks[i]);
      FlattenSnoc(sent, output);
      sent := sent + [output];
    }
    assert chunks[..|chunks|] == chunks;
    EndingSent(sent, Flatten(chunks));
    if tail != CRLF {
      sent := sent + [CRLF];
    }
    sent := sent + [TERMINATOR];
  }

  lemma EndingSent(sent: seq<seq<Byte>>, m: seq<Byte>)
    ensures LastTwo(m) == CRLF <==> EndsInCrlf(m)
    ensures Flatten((if EndsInCrlf(m) then sent else sent + [CRLF]) + [TERMINATOR]) == Flatten(sent) + Ending(m)
  {
    FlattenSnoc(sent, CRLF);
    FlattenSnoc(sent, TERMINATOR);
    FlattenSnoc(sent + [CRLF], TERMINATOR);
    Associative(Flatten(sent), CRLF, TERMINATOR);
  }

  lemma LastTwoOfChunk(chunks: seq<seq<Byte>>, i: nat)
    requires i < |chunks|
    ensures LastTwo(LastTwo(Flatten(chunks[..i])) + chunks[i]) == LastTwo(Flatten(chunks[..i + 1]))
  {
    DoneChunk(chunks, i);
    var a, b := Flatten(chunks[..i]), chunks[i];
    assert Flatten(chunks[..i + 1]) == a + b;
    assert LastTwo(LastTwo(a) + b) == LastTwo(a + b);
  }

  // -------- the receiver of RFC 5321 --------

  datatype Delivery = Delivered(data: seq<Byte>, unread: seq<Byte>) | Unterminated

  function Prepend(front: seq<Byte>, d: Delivery): Delivery {
    match d
    case Delivered(data, unread) => Delivered(front + data, unread)
    case Unterminated => Unterminated
  }

  /** Lines end in CRLF; a line of one dot ends the data; any other line loses a leading dot. */
  function Receive(s: seq<Byte>, lineStart: bool): Delivery {
    if s == [] then Unterminated
    else if lineStart && TERMINATOR <= s then Delivered([], s[3..])
    else if lineStart && s[0] == DOT then Receive(s[1..], false)
    else if CRLF <= s then Prepend(CRLF, Receive(s[2..], true))
    else Prepend([s[0]], Receive(s[1..], false))
  }

  // -------- what arrives --------

  /** A dot at the start of a line by the sender's rule but not by the receiver's: behind a bare LF. */
  predicate BareDotAt(m: seq<Byte>, i: nat) {
    0 < i < |m| && m[i] == DOT && m[i - 1] == LF && !(i >= 2 && m[i - 2] == CR)
  }

  /** The message from k on, with every dot behind a bare LF doubled. */
  function Arriving(m: seq<Byte>, k: nat): seq<Byte>
    requires k <= |m|
    decreases |m| - k
  {
    if k == |m| then [] else (if BareDotAt(m, k) then [DOT, DOT] else [m[k]]) + Arriving(m, k + 1)
  }

  /** The stuffed octets that the message contributes from k on. */
  function StuffedFrom(m: seq<Byte>, k: nat): seq<Byte>
    requires k <= |m|
    decreases |m| - k
  {
    if k == |m| then []
    else (if IsStuffed(m, k) then [DOT, DOT] else [m[k]]) + StuffedFrom(m, k + 1)
  }

  lemma {:induction false} StuffIsStuffedFrom(m: seq<Byte>, k: nat)
    requires k <= |m|
    ensures Stuff(m).output == Stuff(m[..k]).output + StuffedFrom(m, k)
    ensures Stuff(m[..k]).beginning == (k == 0 || m[k - 1] == LF)
    decreases |m| - k
  {
    if k == |m| {
      assert m[..k] == m;
    } else {
      StuffIsStuffedFrom(m, k + 1);
      assert m[..k + 1][..k] == m[..k];
      Associative(Stuff(m[..k]).output, [m[k]], StuffedFrom(m, k + 1));
      Associative(Stuff(m[..k]).output, [DOT, DOT], StuffedFrom(m, k + 1));
      assert Stuff(m[..k]).output + [DOT] + [DOT] == Stuff(m[..k]).output + [DOT, DOT];
    }
  }

  predicate AtLineStart(m: seq<Byte>, k: nat)
    requires k <= |m|
  {
    k == 0 || (k >= 2 && m[k - 2] == CR && m[k - 1] == LF)
  }

  /** What the receiver adds when the sender had to close the last line. */
  function Closing(m: seq<Byte>): seq<Byte> {
    if EndsInCrlf(m) then [] else CRLF
  }

  lemma {:induction false} ReceiveFrom(m: seq<Byte>, k: nat)
    requires k <= |m|
    requires !(0 < k < |m| && m[k - 1] == CR && m[k] == LF)
    ensures Receive(StuffedFrom(m, k) + Ending(m), AtLineStart(m, k))
         == Delivered(Arriving(m, k) + Closing(m), [])
    decreases |m| - k
  {
    var s := StuffedFrom(m, k) + Ending(m);
    if k == |m| {
      ReceiveEnding(m);
      assert [] + Ending(m) == Ending(m) && [] + Closing(m) == Closing(m);
    } else if m[k] == CR && k + 1 < |m| && m[k + 1] == LF {
      ReceiveFrom(m, k + 2);
      CrlfPair(m, k);
      ReceiveCrlf(StuffedFrom(m, k + 2) + Ending(m), AtLineStart(m, k));
      Associative(CRLF, StuffedFrom(m, k + 2), Ending(m));
      Associative(CRLF, Arriving(m, k + 2), Closing(m));
    } else {
      ReceiveFrom(m, k + 1);
      ReceiveOctet(m, k, StuffedFrom(m, k + 1) + Ending(m));
      var sent := if IsStuffed(m, k) then [DOT, DOT] else [m[k]];
      Associative(sent, StuffedFrom(m, k + 1), Ending(m));
      var seen := if BareDotAt(m, k) then [DOT, DOT] else [m[k]];
      Associative(seen, Arriving(m, k + 1), Closing(m));
    }
  }

  lemma CrlfPair(m: seq<Byte>, k: nat)
    requires k + 1 < |m| && m[k] == CR && m[k + 1] == LF
    ensures StuffedFrom(m, k) == CRLF + StuffedFrom(m, k + 2)
    ensures Arriving(m, k) == CRLF + Arriving(m, k + 2)
  {
    assert StuffedFrom(m, k + 1) == [LF] + StuffedFrom(m, k + 2);
    assert Arriving(m, k + 1) == [LF] + Arriving(m, k + 2);
    Associative([CR], [LF], StuffedFrom(m, k + 2));
    Associative([CR], [LF], Arriving(m, k + 2));
    assert [CR] + [LF] == CRLF;
  }

  lemma ReceiveEnding(m: seq<Byte>)
    ensures Receive(Ending(m), AtLineStart(m, |m|)) == Delivered(Closing(m), [])
  {
    if EndsInCrlf(m) {
      LineStartsBehindCrlf(m);
      ReceiveTerminator(Ending(m));
    } else {
      ReceiveClosing(Ending(m), AtLineStart(m, |m|));
    }
  }

  lemma LineStartsBehindCrlf(m: seq<Byte>)
    requires EndsInCrlf(m)
    ensures AtLineStart(m, |m|)
  {
    var tail := m[|m| - 2..];
    assert tail[0] == CR && tail[1] == LF;
  }

  lemma ReceiveClosing(s: seq<Byte>, lineStart: bool)
    requires s == CRLF + TERMINATOR
    ensures Receive(s, lineStart) == Delivered(CRLF, [])
  {
    var rest := s[2..];
    assert rest == TERMINATOR && s == CRLF + rest;
    ReceiveCrlf(rest, lineStart);
    ReceiveTerminator(rest);
    assert CRLF + [] == CRLF;
  }

  lemma ReceiveTerminator(s: seq<Byte>)
    requires s == TERMINATOR
    ensures Receive(s, true) == Delivered([], [])
  {
    assert s[3..] == [];
  }

  lemma ReceiveCrlf(rest: seq<Byte>, lineStart: bool)
    ensures Receive(CRLF + rest, lineStart) == Prepend(CRLF, Receive(rest, true))
  {
    assert (CRLF + rest)[2..] == rest;
  }

  predicate IsStuffed(m: seq<Byte>, k: nat)
    requires k < |m|
  {
    m[k] == DOT && (k == 0 || m[k - 1] == LF)
  }

  /** One octet of the message, dot or not, that does not open a CRLF. */
  lemma ReceiveOctet(m: seq<Byte>, k: nat, rest: seq<Byte>)
    requires k < |m|
    requires !(m[k] == CR && k + 1 < |m| && m[k + 1] == LF)
    requires !(0 < k && m[k - 1] == CR && m[k] == LF)
    requires rest == StuffedFrom(m, k + 1) + Ending(m)
    ensures var sent := if IsStuffed(m, k) then [DOT, DOT] else [m[k]];
            var seen := if BareDotAt(m, k) then [DOT, DOT] else [m[k]];
            Receive(sent + rest, AtLineStart(m, k)) == Prepend(seen, Receive(rest, false))
  {
    if IsStuffed(m, k) {
      TwoDots(rest, AtLineStart(m, k));
    } else {
      if m[k] == CR {
        NoLfNext(m, k + 1);
      }
      OrdinaryOctet(m[k], rest, AtLineStart(m, k));
    }
  }

  lemma TwoDots(rest: seq<Byte>, lineStart: bool)
    requires rest != []
    ensures Receive([DOT, DOT] + rest, lineStart)
         == Prepend(if lineStart then [DOT] else [DOT, DOT], Receive(rest, false))
  {
    assert ([DOT, DOT] + rest)[1..] == [DOT] + rest;
    OrdinaryOctet(DOT, rest, false);
    if !lineStart {
      assert [DOT, DOT] + rest == [DOT] + ([DOT] + rest);
      OrdinaryOctet(DOT, [DOT] + rest, false);
      if Receive(rest, false).Delivered? {
        Associative([DOT], [DOT], Receive(rest, false).data);
        assert [DOT] + [DOT] == [DOT, DOT];
      }
    }
  }

  lemma NotPrefix(p: seq<Byte>, s: seq<Byte>, i: nat)
    requires i < |p| && i < |s| && p[i] != s[i]
    ensures !(p <= s)
  {
  }

  lemma OrdinaryOctet(c: Byte, rest: seq<Byte>, lineStart: bool)
    requires rest != [] && !(c == CR && rest[0] == LF) && !(lineStart && c == DOT)
    ensures Receive([c] + rest, lineStart) == Prepend([c], Receive(rest, false))
  {
    var s := [c] + rest;
    assert s[1..] == rest && s[1] == rest[0];
    NotPrefix(CRLF, s, if c == CR then 1 else 0);
    if c != DOT {
      NotPrefix(TERMINATOR, s, 0);
    }
  }

  lemma NoLfNext(m: seq<Byte>, k: nat)
    requires k <= |m| && !(k < |m| && m[k] == LF)
    ensures (StuffedFrom(m, k) + Ending(m))[0] != LF
  {
  }

  lemma {:induction false} ArrivingIsTheMessage(m: seq<Byte>, k: nat)
    requires k <= |m|
    ensures |Arriving(m, k)| >= |m| - k
    ensures |Arriving(m, k)| == |m| - k <==> forall i :: k <= i < |m| ==> !BareDotAt(m, i)
    ensures (forall i :: k <= i < |m| ==> !BareDotAt(m, i)) ==> Arriving(m, k) == m[k..]
    decreases |m| - k
  {
    if k < |m| {
      ArrivingIsTheMessage(m, k + 1);
    }
  }

  /** Every message arrives whole up to the terminator, except that a dot behind a bare LF arrives doubled. */
  lemma WireDelivers(m: seq<Byte>)
    ensures Receive(Wire(m), true) == Delivered(Arriving(m, 0) + Closing(m), [])
  {
    StuffIsStuffedFrom(m, 0);
    assert m[..0] == [];
    assert Stuff(m).output == StuffedFrom(m, 0);
    ReceiveFrom(m, 0);
  }

  /** The message arrives as it was exactly when no dot stands behind a bare LF. */
  lemma TransparentExactlyWithoutBareDots(m: seq<Byte>)
    ensures Receive(Wire(m), true) == Delivered(m + Closing(m), [])
       <==> forall i :: 0 <= i < |m| ==> !BareDotAt(m, i)
  {
    WireDelivers(m);
    ArrivingIsTheMessage(m, 0);
    assert m[0..] == m;
    if Arriving(m, 0) + Closing(m) == m + Closing(m) {
      assert |Arriving(m, 0)| == |m|;
    }
  }

  /** A body that breaks the rule: LF, dot. */
  lemma BareDotIsDoubled()
    ensures Receive(Wire([LF, DOT]), true) == Delivered([LF, DOT, DOT] + CRLF, [])
  {
    var m: seq<Byte> := [LF, DOT];
    WireDelivers(m);
    assert Arriving(m, 2) == [] && Arriving(m, 1) == [DOT, DOT] && Arriving(m, 0) == [LF, DOT, DOT];
  }

  lemma FramedHasNoBareDots(m: seq<Byte>)
    requires Framed(m)
    ensures forall i :: 0 <= i < |m| ==> !BareDotAt(m, i)
  {
    forall i: nat | 0 < i < |m| && m[i - 1] == LF
      ensures !BareDotAt(m, i)
    {
      assert m[i - 1] == LF ==> i - 1 > 0 && m[i - 2] == CR;
    }
  }
}
