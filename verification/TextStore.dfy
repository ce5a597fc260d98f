/** The stored texts of an export: app/export_filters.py, TextStore. */
module TextStore {
  import opened Common
  import opened Bytes
  import opened Utf8Codec
  import opened SearchPattern

  const FRAME_BYTES := 65520
  const READ_BYTES := 16384

  datatype Error =
    | InvalidFrame | ShortSpool | BadText
    | DataError | EncodeError | InvalidRecord | IncompleteRecord | IncompleteArtifact | InvalidArtifact

  datatype Result<+T> = Ok(value: T) | Err(error: Error)

  predicate Fits(raw: seq<Byte>) {
    0 < |raw| <= FRAME_BYTES
  }

  ghost predicate AllFit(records: seq<seq<Byte>>) {
    forall i :: 0 <= i < |records| ==> Fits(records[i])
  }

  // -------- what a reference reads --------

  function Min(a: nat, b: nat): nat {
    if a <= b then a else b
  }

  /** The part of the spool between two positions, as much of it as there is. */
  function Slice(spool: seq<Byte>, from: nat, to: nat): (r: seq<Byte>)
    requires from <= to
    ensures |r| <= to - from
  {
    spool[Min(from, |spool|)..Min(to, |spool|)]
  }

  /** The text of a reference without an encoding. */
  function ReadText(spool: seq<Byte>, ref: Range): Result<Text> {
    var raw := Slice(spool, ref.offset, ref.offset + ref.size);
    match Decode(raw)
    case Malformed => Err(BadText)
    case Decoded(t, rest) => if |raw| < ref.size then Err(ShortSpool) else if rest != [] then Err(BadText) else Ok(t)
  }

  /** One read of the spool: it may be shorter than asked for only at the end. */
  lemma ReadOn(spool: seq<Byte>, from: nat, at: nat, next: nat, end: nat)
    requires from <= at < next <= end && |Slice(spool, from, at)| == at - from
    ensures var seen, raw := Slice(spool, from, at), Slice(spool, at, next);
            && Slice(spool, from, at + |raw|) == seen + raw
            && Slice(spool, from, end) == seen + raw + Slice(spool, next, end)
            && (raw == [] ==> Slice(spool, from, end) == seen)
  {
  }

  /** A stored text is read back from its own reference. */
  lemma StoredTextIsRead(before: seq<Byte>, t: Text, after: seq<Byte>)
    ensures ReadText(before + Utf8(t) + after, Range(|before|, |Utf8(t)|)) == Ok(t)
  {
    var spool := before + Utf8(t) + after;
    assert Slice(spool, |before|, |before| + |Utf8(t)|) == Utf8(t);
    DecodeUndoesEncode(t, []);
    assert Utf8(t) + [] == Utf8(t) && t + [] == t;
  }

  /** And a reference that reads a text reads nothing but its octets. */
  lemma ReadTextIsStored(spool: seq<Byte>, ref: Range)
    requires ReadText(spool, ref).Ok?
    ensures ref.size > 0 ==> ref.offset + ref.size <= |spool|
    ensures Slice(spool, ref.offset, ref.offset + ref.size) == Utf8(ReadText(spool, ref).value)
  {
    EncodeUndoesDecode(Slice(spool, ref.offset, ref.offset + ref.size));
  }

  /** What the trimmed range of a reference reads is its text, stripped. */
  lemma TrimmedRangeIsRead(spool: seq<Byte>, ref: Range)
    requires ReadText(spool, ref).Ok?
    ensures ReadText(spool, TrimmedRange(ref.offset, ReadText(spool, ref).value)) == Ok(Strip(ReadText(spool, ref).value))
  {
    hide IsSpace, LStrip, RStrip, Strip, Lead, Utf8, Decode;
    var t := ReadText(spool, ref).value;
    ReadTextIsStored(spool, ref);
    if Strip(t) == [] {
      NothingIsRead(spool, t);
    } else {
      var rest := AfterStrip(t);
      Utf8Concat(Lead(t) + Strip(t), rest);
      Utf8Concat(Lead(t), Strip(t));
      LengthOf(Strip(t));
      var before, after := spool[..ref.offset] + Utf8(Lead(t)), Utf8(rest) + spool[ref.offset + ref.size..];
      assert spool == spool[..ref.offset] + Utf8(t) + spool[ref.offset + ref.size..];
      assert spool == before + Utf8(Strip(t)) + after;
      StoredTextIsRead(before, Strip(t), after);
    }
  }

  lemma NothingIsRead(spool: seq<Byte>, t: Text)
    requires Strip(t) == []
    ensures ReadText(spool, TrimmedRange(0, t)) == Ok([])
  {
    hide IsSpace, LStrip, RStrip, Strip, Lead;
    assert Slice(spool, 0, 0) == [];
  }

  lemma LengthOf(t: Text)
    ensures |Utf8(t)| > 0 <==> t != []
  {
  }

  // -------- the store --------

  /** Frames that carry a text of that size, and nothing else. */
  ghost predicate Carries(frames: seq<seq<Byte>>, size: nat) {
    AllFit(frames) && |Flatten(frames)| == size && Decode(Flatten(frames)).Decoded? && Decode(Flatten(frames)).rest == []
  }

  ghost predicate NoneCarries(frames: seq<seq<Byte>>, size: nat) {
    forall k: nat :: k <= |frames| ==> !Carries(frames[..k], size)
  }

  lemma FirstFrames(frames: seq<seq<Byte>>, i: nat, k: nat)
    requires i <= k <= |frames|
    ensures Flatten(frames[..k]) == Flatten(frames[..i]) + Flatten(frames[i..k])
  {
    assert frames[..k] == frames[..i] + frames[i..k];
    FlattenConcat(frames[..i], frames[i..k]);
  }

  lemma FramesRunOut(frames: seq<seq<Byte>>, size: nat)
    requires |Flatten(frames[..|frames|])| < size
    ensures NoneCarries(frames, size)
  {
    forall k: nat | k <= |frames|
      ensures !Carries(frames[..k], size)
    {
      FirstFrames(frames, k, |frames|);
    }
  }

  lemma RefusedFrame(frames: seq<seq<Byte>>, i: nat, size: nat)
    requires i < |frames| && |Flatten(frames[..i])| < size
    requires !Fits(frames[i]) || |Flatten(frames[..i + 1])| > size
    ensures NoneCarries(frames, size)
  {
    hide Fits, Decode;
    forall k: nat | k <= |frames|
      ensures !Carries(frames[..k], size)
    {
      if k <= i {
        FirstFrames(frames, k, i);
      } else {
        FirstFrames(frames, i + 1, k);
        assert frames[..k][i] == frames[i];
      }
    }
  }

  lemma RefusedText(frames: seq<seq<Byte>>, i: nat, size: nat)
    requires i < |frames| && |Flatten(frames[..i])| < size && Decode(Flatten(frames[..i + 1])).Malformed?
    ensures NoneCarries(frames, size)
  {
    hide Decode;
    forall k: nat | k <= |frames|
      ensures !Carries(frames[..k], size)
    {
      if k <= i {
        FirstFrames(frames, k, i);
      } else {
        FirstFrames(frames, i + 1, k);
        DecodeInPieces(Flatten(frames[..i + 1]), Flatten(frames[i + 1..k]));
      }
    }
  }

  lemma UnfinishedText(frames: seq<seq<Byte>>, i: nat, size: nat)
    requires i <= |frames| && |Flatten(frames[..i])| == size
    requires Decode(Flatten(frames[..i])).Decoded? && Decode(Flatten(frames[..i])).rest != []
    ensures NoneCarries(frames, size)
  {
    hide Decode;
    forall k: nat | k <= |frames|
      ensures !Carries(frames[..k], size)
    {
      if k <= i {
        FirstFrames(frames, k, i);
      } else {
        FirstFrames(frames, i, k);
      }
      assert |Flatten(frames[..k])| == size ==> Flatten(frames[..k]) == Flatten(frames[..i]);
    }
  }

  /** The octets that a decoder keeps decode to nothing yet. */
  lemma RestIsUndecided(s: seq<Byte>)
    requires Decode(s).Decoded?
    ensures Decode(Decode(s).rest + []) == Decoded([], Decode(s).rest)
  {
    DecodeInPieces(s, []);
    assert s + [] == s;
    var d := Decode(Decode(s).rest + []);
    assert Decode(s).text + d.text == Decode(s).text;
  }

  class TextStore {
    var output: seq<Byte>

    constructor ()
      ensures output == []
    {
      output := [];
    }

    /** receive, for a key without an encoding: it takes frames until the size is reached. */
    method Receive(size: nat, frames: seq<seq<Byte>>) returns (r: Result<Range>)
      modifies this
      ensures r.Ok? <==> exists k: nat :: k <= |frames| && Carries(frames[..k], size)
      ensures r.Ok? ==> r.value == Range(|old(output)|, size)
      ensures r.Ok? ==> exists t :: |Utf8(t)| == size && output == old(output) + Utf8(t)
      ensures old(output) <= output
    {
      hide Decode, Utf8, Fits, Carries;
      var decoder := new IncrementalDecoder();
      var offset: nat, left: nat, i: nat := |output|, size, 0;
      assert frames[..0] == [] && output == old(output) + [];
      NothingDecoded();
      while left > 0
        invariant i <= |frames| && left + |Flatten(frames[..i])| == size && AllFit(frames[..i])
        invariant fresh(decoder) && Decode(Flatten(frames[..i])).Decoded?
        invariant Decode(Flatten(frames[..i])).rest == decoder.buffer
        invariant output == old(output) + Flatten(frames[..i])
      {
        if i == |frames| {
          FramesRunOut(frames, size);
          return Err(InvalidFrame);
        }
        var value := frames[i];
        assert frames[..i + 1] == frames[..i] + [value];
        FlattenSnoc(frames[..i], value);
        DecodeInPieces(Flatten(frames[..i]), value);
        if !Fits(value) || |value| > left {
          RefusedFrame(frames, i, size);
          return Err(InvalidFrame);
        }
        assert value != [] by { FitsSomething(value); }
        var decoded := decoder.Feed(value, false);
        if decoded.Malformed? {
          RefusedText(frames, i, size);
          return Err(BadText);
        }
        assert AllFit(frames[..i + 1]);
        output := output + value;
        left := left - |value|;
        i := i + 1;
      }
      RestIsUndecided(Flatten(frames[..i]));
      var last := decoder.Feed([], true);
      if last.Malformed? {
        UnfinishedText(frames, i, size);
        return Err(BadText);
      }
      FullyDecoded(frames[..i], size);
      return Ok(Range(offset, size));
    }

    /** chunks: the stored text in pieces, whatever characters the reads cut. */
    method Chunks(ref: Range) returns (r: Result<seq<Text>>)
      ensures match ReadText(output, ref)
              case Err(e) => r == Err(e)
              case Ok(t) => r.Ok? && Flatten(r.value) == t && forall i :: 0 <= i < |r.value| ==> r.value[i] != []
    {
      hide Decode, Slice;
      var decoder := new IncrementalDecoder();
      var at, left, end, chunks: seq<Text> := ref.offset, ref.size, ref.offset + ref.size, [];
      NothingSliced(output, at);
      NothingDecoded();
      while left > 0
        invariant ref.offset <= at <= end && left == end - at
        invariant |Slice(output, ref.offset, at)| == at - ref.offset
        invariant Decode(Slice(output, ref.offset, at)) == Decoded(Flatten(chunks), decoder.buffer)
        invariant fresh(decoder) && forall i :: 0 <= i < |chunks| ==> chunks[i] != []
      {
        ghost var seen := Slice(output, ref.offset, at);
        var next := at + Min(left, READ_BYTES);
        var raw := Slice(output, at, next);
        ReadOn(output, ref.offset, at, next, end);
        if raw == [] {
          return Err(ShortSpool);
        }
        DecodeInPieces(seen, raw);
        DecodeInPieces(seen + raw, Slice(output, next, end));
        left := left - |raw|;
        at := at + |raw|;
        var value := decoder.Feed(raw, false);
        if value.Malformed? {
          return Err(BadText);
        }
        FlattenSnoc(chunks, value.text);
        assert value.text == [] ==> Flatten(chunks) + value.text == Flatten(chunks);
        if value.text != [] {
          chunks := chunks + [value.text];
        }
      }
      RestIsUndecided(Slice(output, ref.offset, at));
      var final := decoder.Feed([], true);
      if final.Malformed? {
        return Err(BadText);
      }
      assert final.text == [];  // what the code would yield last, a strict decoder never has
      return Ok(chunks);
    }
  }

  lemma NothingSliced(spool: seq<Byte>, at: nat)
    ensures Slice(spool, at, at) == []
  {
  }

  lemma NothingDecoded()
    ensures Decode([]) == Decoded([], [])
  {
  }

  lemma FitsSomething(raw: seq<Byte>)
    requires Fits(raw)
    ensures raw != []
  {
  }

  lemma FullyDecoded(frames: seq<seq<Byte>>, size: nat)
    requires AllFit(frames) && |Flatten(frames)| == size && Decode(Flatten(frames)).Decoded? && Decode(Flatten(frames)).rest == []
    ensures Carries(frames, size) && Flatten(frames) == Utf8(Decode(Flatten(frames)).text)
  {
    EncodeUndoesDecode(Flatten(frames));
    assert Utf8(Decode(Flatten(frames)).text) + [] == Utf8(Decode(Flatten(frames)).text);
  }
}
