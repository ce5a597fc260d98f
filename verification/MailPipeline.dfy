/** From the bytes of a mail body to the bytes an SMTP receiver accepts, and back. */
module MailPipeline {
  import opened Bytes
  import opened Newlines
  import opened TransferEncoding
  import DotStuffing

  /** Header octets as the generator renders them with CRLF line ends, up to and including the blank line. */
  ghost predicate RenderedHeader(header: seq<Byte>) {
    Framed(header)
  }

  /** The stages of prepare_text_mail and send_spool behind the rendered header. */
  method Deliver(body: seq<seq<Byte>>, header: seq<Byte>) returns (wire: seq<seq<Byte>>, cte: Cte)
    requires RenderedHeader(header)
    ensures var text := Normalized(Flatten(body));
            && cte == Choice(text)
            && Flatten(wire) == DotStuffing.Wire(header + Encoded(cte, text))
  {
    var normalized := Normalize(body);
    NormalizedIsNormal(Flatten(body));
    var chosen, mime := WriteMime(normalized, header);
    cte := chosen.value;
    var spool := FileChunks(mime);
    wire := DotStuffing.DotChunks(spool);
  }

  lemma FramedConcat(a: seq<Byte>, b: seq<Byte>)
    requires Framed(a) && Framed(b)
    ensures Framed(a + b)
  {
    forall i | 0 <= i < |a + b| && (a + b)[i] == LF
      ensures i > 0 && (a + b)[i - 1] == CR
    {
      if i >= |a| {
        assert b[i - |a|] == LF;
      }
    }
  }

  /**
   * Whatever the input bytes and however they are chunked: the receiver reads the whole wire as one
   * message up to its only lone-dot line, which is the last; the message is the header and the encoded
   * text unchanged; and decoding gives the input with LF line ends and a final LF.
   */
  lemma EndToEnd(input: seq<Byte>, header: seq<Byte>)
    requires RenderedHeader(header)
    ensures var text := Normalized(input);
            var encoded := Encoded(Choice(text), text);
            && DotStuffing.Receive(DotStuffing.Wire(header + encoded), true)
                 == DotStuffing.Delivered(header + encoded, [])
            && Decoded(Choice(text), encoded) == Body(text)
  {
    hide Encoded, Decoded, WireLines, Choice, Normalized, DotStuffing.Wire, DotStuffing.Receive, Join;
    var text := Normalized(input);
    var cte := Choice(text);
    NormalizedIsNormal(input);
    TransferRoundTrip(cte, text);
    ChosenLinesAreShort(text);
    var encoded := Encoded(cte, text);
    JoinIsFramed(WireLines(cte, text), 78);
    FramedConcat(header, encoded);
    var mime := header + encoded;
    assert mime[|mime| - 2..] == encoded[|encoded| - 2..];
    DotStuffing.FramedHasNoBareDots(mime);
    DotStuffing.TransparentExactlyWithoutBareDots(mime);
    assert mime + [] == mime;
  }

  /** Every encoded line fits in 78 octets, and unless the encoding is 8bit all of them are ASCII. */
  lemma LinesFitTheEnvelope(input: seq<Byte>)
    ensures var text := Normalized(input);
            var lines := WireLines(Choice(text), text);
            && Encoded(Choice(text), text) == Join(lines, CRLF)
            && (forall i :: 0 <= i < |lines| ==> PlainLine(lines[i], 78))
            && (Choice(text) != EightBit ==> forall i :: 0 <= i < |lines| ==> IsAscii(lines[i]))
  {
    NormalizedIsNormal(input);
    TransferRoundTrip(Choice(Normalized(input)), Normalized(input));
    ChosenLinesAreShort(Normalized(input));
  }
}
