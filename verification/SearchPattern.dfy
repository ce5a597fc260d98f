/** The streamed export search: app/export_filters.py (trimmed, pattern) and app/export_preparation.py
    (assemble_search_pattern). */
module SearchPattern {
  import opened Common
  import opened Bytes
  import opened Utf8Codec

  // -------- white space --------

  /** What str.strip removes. */
  predicate IsSpace(c: Char) {
    || 9 <= c <= 13 || 28 <= c <= 32 || c == 0x85 || c == 0xA0 || c == 0x1680 || 0x2000 <= c <= 0x200A
    || c == 0x2028 || c == 0x2029 || c == 0x202F || c == 0x205F || c == 0x3000
  }

  /** The code points for which str.isspace holds: those of the Unicode property White_Space and four separators. */
  const SPACES: set<int> := {
    0x9, 0xA, 0xB, 0xC, 0xD, 0x1C, 0x1D, 0x1E, 0x1F, 0x20, 0x85, 0xA0, 0x1680, 0x2000, 0x2001, 0x2002, 0x2003, 0x2004,
    0x2005, 0x2006, 0x2007, 0x2008, 0x2009, 0x200A, 0x2028, 0x2029, 0x202F, 0x205F, 0x3000}

  lemma SpacesAreThese(c: Char)
    ensures IsSpace(c) <==> c in SPACES
  {
  }

  function LStrip(t: Text): (r: Text)
    ensures |r| <= |t|
  {
    if t == [] || !IsSpace(t[0]) then t else LStrip(t[1..])
  }

  function RStrip(t: Text): (r: Text)
    ensures |r| <= |t|
  {
    if t == [] || !IsSpace(t[|t| - 1]) then t else RStrip(t[..|t| - 1])
  }

  /** The leading white space. */
  function Lead(t: Text): Text {
    t[..|t| - |LStrip(t)|]
  }

  function Strip(t: Text): Text {
    RStrip(LStrip(t))
  }

  lemma {:induction false} LStripConcat(a: Text, b: Text)
    ensures LStrip(a + b) == if LStrip(a) == [] then LStrip(b) else LStrip(a) + b
  {
    if a == [] {
      assert a + b == b;
    } else {
      assert (a + b)[1..] == a[1..] + b;
      if IsSpace(a[0]) {
        LStripConcat(a[1..], b);
      }
    }
  }

  lemma {:induction false} RStripConcat(a: Text, b: Text)
    ensures RStrip(a + b) == if RStrip(b) == [] then RStrip(a) else a + RStrip(b)
  {
    if b == [] {
      assert a + b == a;
    } else {
      var n := |b| - 1;
      assert (a + b)[..|a + b| - 1] == a + b[..n];
      if IsSpace(b[n]) {
        RStripConcat(a, b[..n]);
      }
    }
  }

  // -------- the streaming trim --------

  /** Where the trimmed text of a stored reference lies: offset and size in bytes. */
  datatype Range = Range(offset: nat, size: nat)

  /** The range of the stripped text, for a text stored at that offset. */
  function TrimmedRange(offset: nat, t: Text): Range {
    if Strip(t) == [] then Range(0, 0) else Range(offset + |Utf8(Lead(t))|, |Utf8(Strip(t))|)
  }

  /** Where the loop stands after the text so far. */
  ghost predicate Trimming(t: Text, start: Option<nat>, end: Option<nat>, position: nat) {
    && position == |Utf8(t)|
    && start == (if LStrip(t) == [] then None else Some(|Utf8(Lead(t))|))
    && end == (if RStrip(t) == [] then None else Some(|Utf8(RStrip(t))|))
  }

  ghost predicate AllSpaces(t: Text) {
    forall i :: 0 <= i < |t| ==> IsSpace(t[i])
  }

  /** LStrip takes off white space only, and all of it. */
  lemma {:induction false} LStripMeans(t: Text)
    ensures LStrip(t) == t[|t| - |LStrip(t)|..] && AllSpaces(Lead(t))
    ensures LStrip(t) != [] ==> !IsSpace(LStrip(t)[0])
    ensures LStrip(t) == [] <==> AllSpaces(t)
  {
    hide IsSpace;
    if t != [] && IsSpace(t[0]) {
      LStripMeans(t[1..]);
      assert t == [t[0]] + t[1..];
      assert Lead(t) == [t[0]] + Lead(t[1..]);
    }
  }

  lemma {:induction false} RStripMeans(t: Text)
    ensures RStrip(t) == t[..|RStrip(t)|] && AllSpaces(t[|RStrip(t)|..])
    ensures RStrip(t) != [] ==> !IsSpace(RStrip(t)[|RStrip(t)| - 1])
    ensures RStrip(t) == [] <==> AllSpaces(t)
  {
    hide IsSpace;
    if t != [] && IsSpace(t[|t| - 1]) {
      var n := |t| - 1;
      RStripMeans(t[..n]);
      assert t == t[..n] + [t[n]];
      assert t[|RStrip(t)|..] == t[..n][|RStrip(t)|..] + [t[n]];
    }
  }

  /** Stripping from both sides leaves something exactly when stripping from one does. */
  lemma SameEmptiness(t: Text)
    ensures LStrip(t) == [] <==> RStrip(t) == []
    ensures LStrip(t) == [] <==> Strip(t) == []
  {
    hide IsSpace, LStrip, RStrip;
    LStripMeans(t);
    RStripMeans(t);
    RStripMeans(LStrip(t));
  }

  lemma LeadThenRest(t: Text)
    ensures t == Lead(t) + LStrip(t)
  {
    hide IsSpace, LStrip;
    LStripMeans(t);
    var n := |t| - |LStrip(t)|;
    assert t == t[..n] + t[n..];
  }

  lemma LeadAndStrip(t: Text)
    ensures RStrip(t) == if Strip(t) == [] then [] else Lead(t) + Strip(t)
  {
    hide IsSpace, LStrip, RStrip, Lead;
    SameEmptiness(t);
    LeadThenRest(t);
    RStripConcat(Lead(t), LStrip(t));
  }

  /** The stripped text is what is left between white space at both ends. */
  lemma StripMeans(t: Text)
    ensures exists front, back :: AllSpaces(front) && AllSpaces(back) && t == front + Strip(t) + back
    ensures Strip(t) != [] ==> !IsSpace(Strip(t)[0]) && !IsSpace(Strip(t)[|Strip(t)| - 1])
  {
    hide IsSpace, LStrip, RStrip;
    LStripMeans(t);
    RStripMeans(LStrip(t));
    var back := LStrip(t)[|Strip(t)|..];
    assert t == Lead(t) + Strip(t) + back;
  }

  lemma LeadConcat(t: Text, chunk: Text)
    ensures LStrip(t) != [] ==> Lead(t + chunk) == Lead(t)
    ensures LStrip(t) == [] && LStrip(chunk) != [] ==> Lead(t + chunk) == t + Lead(chunk)
  {
    hide IsSpace, LStrip;
    LStripConcat(t, chunk);
  }

  lemma TrimStep(t: Text, chunk: Text, start: Option<nat>, end: Option<nat>, position: nat)
    requires Trimming(t, start, end, position)
    ensures var start' := if start.None? && LStrip(chunk) != [] then Some(position + |Utf8(Lead(chunk))|) else start;
            var end' := if RStrip(chunk) != [] then Some(position + |Utf8(RStrip(chunk))|) else end;
            Trimming(t + chunk, start', end', position + |Utf8(chunk)|)
  {
    hide IsSpace, LStrip, RStrip, Lead, Utf8;
    LStripConcat(t, chunk);
    RStripConcat(t, chunk);
    LeadConcat(t, chunk);
    Utf8Concat(t, chunk);
    Utf8Concat(t, RStrip(chunk));
    Utf8Concat(t, Lead(chunk));
  }

  lemma TrimmingMeans(t: Text, start: Option<nat>, end: Option<nat>, position: nat)
    requires Trimming(t, start, end, position)
    ensures start.None? <==> Strip(t) == []
    ensures start.Some? ==> end.Some? && start.value == |Utf8(Lead(t))| && end.value == start.value + |Utf8(Strip(t))|
  {
    hide IsSpace, LStrip, RStrip, Utf8;
    SameEmptiness(t);
    LeadAndStrip(t);
    Utf8Concat(Lead(t), Strip(t));
  }

  /** trimmed: whatever the chunks, the range of the stripped text, measured in UTF-8. */
  method Trimmed(offset: nat, chunks: seq<Text>) returns (r: Range)
    ensures r == TrimmedRange(offset, Flatten(chunks))
  {
    hide Trimming, IsSpace, LStrip, RStrip, Utf8, Strip;
    var start: Option<nat>, end: Option<nat> := None, None;
    var position: nat, i := 0, 0;
    NothingRead();
    assert chunks[..0] == [];
    while i < |chunks|
      invariant i <= |chunks| && Trimming(Flatten(chunks[..i]), start, end, position)
    {
      var chunk := chunks[i];
      TrimStep(Flatten(chunks[..i]), chunk, start, end, position);
      FlattenSnoc(chunks[..i], chunk);
      assert chunks[..i + 1] == chunks[..i] + [chunk];
      if start.None? {
        var stripped := LStrip(chunk);
        if stripped != [] {
          start := Some(position + |Utf8(chunk[..|chunk| - |stripped|])|);
        }
      }
      var stripped := RStrip(chunk);
      if stripped != [] {
        end := Some(position + |Utf8(stripped)|);
      }
      position := position + |Utf8(chunk)|;
      i := i + 1;
    }
    assert chunks[..i] == chunks;
    TrimmingMeans(Flatten(chunks), start, end, position);
    if start.None? {
      return Range(0, 0);
    }
    return Range(offset + start.value, end.value - start.value);
  }

  lemma NothingRead()
    ensures Trimming([], None, None, 0)
  {
  }

  lemma AfterStrip(t: Text) returns (rest: Text)
    ensures t == Lead(t) + Strip(t) + rest
  {
    LStripMeans(t);
    RStripMeans(LStrip(t));
    rest := LStrip(t)[|Strip(t)|..];
  }

  // -------- other codecs --------

  /** A codec without state: every character by itself, and none at all for a character it does not have. */
  type Codec = Char -> seq<Byte>

  function Encode(enc: Codec, t: Text): seq<Byte> {
    if t == [] then [] else enc(t[0]) + Encode(enc, t[1..])
  }

  lemma {:induction false} EncodeConcat(enc: Codec, a: Text, b: Text)
    ensures Encode(enc, a + b) == Encode(enc, a) + Encode(enc, b)
  {
    if a == [] {
      assert a + b == b;
    } else {
      assert (a + b)[1..] == a[1..] + b;
      EncodeConcat(enc, a[1..], b);
    }
  }

  /** Every character has as many octets as in UTF-8. */
  ghost predicate IsUtf8Sized(enc: Codec) {
    forall c: Char :: |enc(c)| == Width(c)
  }

  lemma {:induction false} Utf8Sizes(enc: Codec, t: Text)
    requires IsUtf8Sized(enc)
    ensures |Encode(enc, t)| == |Utf8(t)|
  {
    if t != [] {
      Utf8Sizes(enc, t[1..]);
    }
  }

  /** The trimmed range of the text, stored in the codec behind other octets, holds the stripped text. */
  ghost predicate RangeHoldsStripped(enc: Codec, before: seq<Byte>, t: Text, after: seq<Byte>) {
    var spool, r := before + Encode(enc, t) + after, TrimmedRange(|before|, t);
    r.offset + r.size <= |spool| && spool[r.offset..r.offset + r.size] == Encode(enc, Strip(t))
  }

  lemma Utf8SizedIsRead(enc: Codec, before: seq<Byte>, t: Text, after: seq<Byte>)
    requires IsUtf8Sized(enc)
    ensures RangeHoldsStripped(enc, before, t, after)
  {
    hide IsUtf8Sized, IsSpace, LStrip, RStrip, Strip, Lead, Encode, Utf8;
    if Strip(t) == [] {
      assert Encode(enc, Strip(t)) == [] by { NothingEncoded(enc); }
    } else {
      var body := Strip(t);
      var rest := AfterStrip(t);
      Utf8Sizes(enc, Lead(t));
      Utf8Sizes(enc, body);
      EncodedParts(enc, Lead(t), body, rest);
      Between(before + Encode(enc, Lead(t)), Encode(enc, body), Encode(enc, rest) + after);
      Regroup(before, Encode(enc, Lead(t)), Encode(enc, body), Encode(enc, rest), after);
    }
  }

  lemma NothingEncoded(enc: Codec)
    ensures Encode(enc, []) == []
  {
  }

  lemma EncodedParts(enc: Codec, a: Text, b: Text, c: Text)
    ensures Encode(enc, a + b + c) == Encode(enc, a) + Encode(enc, b) + Encode(enc, c)
  {
    EncodeConcat(enc, a + b, c);
    EncodeConcat(enc, a, b);
  }

  lemma Regroup(before: seq<Byte>, a: seq<Byte>, b: seq<Byte>, c: seq<Byte>, after: seq<Byte>)
    ensures before + (a + b + c) + after == (before + a) + b + (c + after)
  {
  }

  lemma Between(a: seq<Byte>, b: seq<Byte>, c: seq<Byte>)
    ensures (a + b + c)[|a|..|a| + |b|] == b
  {
  }

  const LETTER: Char := 97

  lemma LetterOnly(c: Char)
    requires !IsSpace(c)
    ensures LStrip([c]) == [c] && RStrip([c]) == [c] && Strip([c]) == [c]
    ensures [c][1..] == []
  {
  }

  /** Between two letters every character stays. */
  lemma InsideStays(c: Char)
    ensures Strip([LETTER, c, LETTER]) == [LETTER, c, LETTER] && Lead([LETTER, c, LETTER]) == []
  {
    var t := [LETTER, c, LETTER];
    assert LStrip(t) == t;
    assert RStrip(t) == t;
  }

  lemma EncodeInside(enc: Codec, c: Char)
    ensures |Encode(enc, [LETTER, c, LETTER])| == |enc(LETTER)| + |enc(c)| + |enc(LETTER)|
    ensures |Utf8([LETTER, c, LETTER])| == 2 + Width(c)
    ensures |Encode(enc, [LETTER])| == |enc(LETTER)| && |Utf8([LETTER])| == 1
  {
    var t := [LETTER, c, LETTER];
    assert t[1..] == [c, LETTER] && t[1..][1..] == [LETTER] && [LETTER][1..] == [];
    assert Encode(enc, [LETTER]) == enc(LETTER) + Encode(enc, []);
    assert Encode(enc, t) == enc(LETTER) + (enc(c) + Encode(enc, [LETTER]));
    assert Utf8([LETTER]) == EncodeChar(LETTER) + Utf8([]);
    assert Utf8(t) == EncodeChar(LETTER) + (EncodeChar(c) + Utf8([LETTER]));
  }

  /** trimmed drops the encoding of its reference and measures in UTF-8. Its range holds the stripped text, for every
      text, exactly when the codec of the reference gives every character the size it has in UTF-8. */
  lemma RangeHoldsExactlyInUtf8Sizes(enc: Codec)
    ensures IsUtf8Sized(enc) <==> forall before, t, after :: RangeHoldsStripped(enc, before, t, after)
  {
    if IsUtf8Sized(enc) {
      forall before, t, after
        ensures RangeHoldsStripped(enc, before, t, after)
      {
        Utf8SizedIsRead(enc, before, t, after);
      }
    }
    if forall before, t, after :: RangeHoldsStripped(enc, before, t, after) {
      hide IsSpace, LStrip, RStrip, Strip, Lead, Encode, Utf8;
      forall c: Char
        ensures |enc(c)| == Width(c)
      {
        assert RangeHoldsStripped(enc, [], [LETTER, LETTER, LETTER], []);
        assert RangeHoldsStripped(enc, [], [LETTER, c, LETTER], []);
        InsideStays(LETTER);
        InsideStays(c);
        EncodeInside(enc, LETTER);
        EncodeInside(enc, c);
      }
    }
  }

  /** So an é that was received as ISO 8859-1 ends before its trimmed range does. */
  lemma OneOctetIsTooShort(enc: Codec, before: seq<Byte>)
    requires enc(0xE9) == [0xE9]
    ensures !RangeHoldsStripped(enc, before, [0xE9], [])
  {
    var t: Text := [0xE9];
    LetterOnly(0xE9);
    assert Lead(t) == [] && Encode(enc, t) == [0xE9] + Encode(enc, []);
    assert Utf8(t) == EncodeChar(0xE9) + Utf8([]);
  }

  // -------- escaping --------

  const BACKSLASH: Char := 92
  const PERCENT: Char := 37
  const UNDERSCORE: Char := 95
  const NUL: Char := 0

  /** str.replace of one character by the same character behind a backslash. */
  function Replace(t: Text, c: Char): Text {
    if t == [] then [] else (if t[0] == c then [BACKSLASH, c] else [t[0]]) + Replace(t[1..], c)
  }

  function Replaced(t: Text): Text {
    Replace(Replace(Replace(t, BACKSLASH), PERCENT), UNDERSCORE)
  }

  predicate IsSpecial(c: Char) {
    c == BACKSLASH || c == PERCENT || c == UNDERSCORE
  }

  /** The meaning of the three replacements: a backslash before every special character. */
  function Escape(t: Text): Text {
    if t == [] then [] else (if IsSpecial(t[0]) then [BACKSLASH, t[0]] else [t[0]]) + Escape(t[1..])
  }

  lemma {:induction false} ReplaceConcat(a: Text, b: Text, c: Char)
    ensures Replace(a + b, c) == Replace(a, c) + Replace(b, c)
  {
    if a == [] {
      assert a + b == b;
    } else {
      assert (a + b)[1..] == a[1..] + b;
      ReplaceConcat(a[1..], b, c);
    }
  }

  lemma {:induction false} EscapeConcat(a: Text, b: Text)
    ensures Escape(a + b) == Escape(a) + Escape(b)
  {
    if a == [] {
      assert a + b == b;
    } else {
      assert (a + b)[1..] == a[1..] + b;
      EscapeConcat(a[1..], b);
    }
  }

  lemma ReplaceShort(t: Text, c: Char)
    requires |t| <= 2
    ensures |t| == 0 ==> Replace(t, c) == []
    ensures |t| == 1 ==> Replace(t, c) == if t[0] == c then [BACKSLASH, c] else t
    ensures |t| == 2 ==> Replace(t, c) == (if t[0] == c then [BACKSLASH, c] else [t[0]])
                                        + (if t[1] == c then [BACKSLASH, c] else [t[1]])
  {
    if |t| == 1 {
      assert t[1..] == [];
    }
    if |t| == 2 {
      assert t[1..] == [t[1]] && t[1..][1..] == [];
    }
  }

  lemma ReplacedOne(c: Char)
    ensures Replaced([c]) == if IsSpecial(c) then [BACKSLASH, c] else [c]
  {
    hide Replace;
    ReplaceShort([c], BACKSLASH);
    var first := Replace([c], BACKSLASH);
    ReplaceShort(first, PERCENT);
    var second := Replace(first, PERCENT);
    if c == PERCENT {
      assert second == [BACKSLASH, PERCENT];
    } else {
      assert second == first;
    }
    ReplaceShort(second, UNDERSCORE);
  }

  lemma ReplacedConcat(a: Text, b: Text)
    ensures Replaced(a + b) == Replaced(a) + Replaced(b)
  {
    ReplaceConcat(a, b, BACKSLASH);
    ReplaceConcat(Replace(a, BACKSLASH), Replace(b, BACKSLASH), PERCENT);
    ReplaceConcat(Replace(Replace(a, BACKSLASH), PERCENT), Replace(Replace(b, BACKSLASH), PERCENT), UNDERSCORE);
  }

  /** The replacements in their order escape every special character once. */
  lemma {:induction false} ReplacedIsEscaped(t: Text)
    ensures Replaced(t) == Escape(t)
  {
    if t != [] {
      assert t == [t[0]] + t[1..];
      ReplacedConcat([t[0]], t[1..]);
      ReplacedOne(t[0]);
      ReplacedIsEscaped(t[1..]);
    }
  }

  // -------- LIKE --------

  /** LIKE with ESCAPE '\\', comparing characters after folding. */
  predicate Like(fold: Char -> Char, p: Text, s: Text)
    decreases |p|, |s|
  {
    if p == [] then s == []
    else if p[0] == PERCENT then Like(fold, p[1..], s) || (s != [] && Like(fold, p, s[1..]))
    else if p[0] == UNDERSCORE then s != [] && Like(fold, p[1..], s[1..])
    else if p[0] == BACKSLASH then |p| >= 2 && s != [] && fold(p[1]) == fold(s[0]) && Like(fold, p[2..], s[1..])
    else s != [] && fold(p[0]) == fold(s[0]) && Like(fold, p[1..], s[1..])
  }

  /** q stands at position i of s. */
  ghost predicate StandsAt(fold: Char -> Char, q: Text, s: Text, i: nat) {
    i + |q| <= |s| && forall k :: 0 <= k < |q| ==> fold(q[k]) == fold(s[i + k])
  }

  ghost predicate Contains(fold: Char -> Char, q: Text, s: Text) {
    exists i: nat :: StandsAt(fold, q, s, i)
  }

  lemma {:induction false} PercentMatchesAll(fold: Char -> Char, p: Text, s: Text)
    requires p == [PERCENT]
    ensures Like(fold, p, s)
  {
    assert p[1..] == [];
    if s != [] {
      PercentMatchesAll(fold, p, s[1..]);
    }
  }

  /** Escaped characters match themselves and nothing else. */
  lemma {:induction false} EscapedMatchesItself(fold: Char -> Char, q: Text, rest: Text, s: Text)
    ensures Like(fold, Escape(q) + rest, s) <==> StandsAt(fold, q, s, 0) && Like(fold, rest, s[|q|..])
    decreases |q|
  {
    var p := Escape(q) + rest;
    if q == [] {
      assert p == rest && s[0..] == s;
    } else {
      var tail := Escape(q[1..]) + rest;
      if IsSpecial(q[0]) {
        assert p == [BACKSLASH, q[0]] + tail;
        assert p[2..] == tail;
      } else {
        assert p == [q[0]] + tail;
        assert p[1..] == tail;
      }
      if s != [] {
        EscapedMatchesItself(fold, q[1..], rest, s[1..]);
        StandsAtTail(fold, q, s);
        assert |q| <= |s| ==> s[1..][|q[1..]|..] == s[|q|..];
      }
    }
  }

  lemma StandsAtTail(fold: Char -> Char, q: Text, s: Text)
    requires q != [] && s != []
    ensures StandsAt(fold, q, s, 0) <==> fold(q[0]) == fold(s[0]) && StandsAt(fold, q[1..], s[1..], 0)
  {
    if StandsAt(fold, q, s, 0) {
      assert forall k :: 0 <= k < |q[1..]| ==> q[1..][k] == q[k + 1] && s[1..][k] == s[k + 1];
    }
    if fold(q[0]) == fold(s[0]) && StandsAt(fold, q[1..], s[1..], 0) {
      forall k | 0 <= k < |q|
        ensures fold(q[k]) == fold(s[k])
      {
        assert k > 0 ==> q[k] == q[1..][k - 1] && s[k] == s[1..][k - 1];
      }
    }
  }

  lemma {:induction false} PercentThenEscaped(fold: Char -> Char, q: Text, p: Text, s: Text)
    requires p == [PERCENT] + Escape(q) + [PERCENT]
    ensures Like(fold, p, s) <==> Contains(fold, q, s)
    decreases |s|
  {
    var tail := Escape(q) + [PERCENT];
    assert p == [PERCENT] + tail && p[1..] == tail;
    EscapedMatchesItself(fold, q, [PERCENT], s);
    if StandsAt(fold, q, s, 0) {
      PercentMatchesAll(fold, [PERCENT], s[|q|..]);
    }
    if s != [] {
      PercentThenEscaped(fold, q, p, s[1..]);
      ContainsSplits(fold, q, s);
    }
  }

  lemma ContainsSplits(fold: Char -> Char, q: Text, s: Text)
    requires s != []
    ensures Contains(fold, q, s) <==> StandsAt(fold, q, s, 0) || Contains(fold, q, s[1..])
  {
    if i: nat :| StandsAt(fold, q, s, i) && i > 0 {
      assert StandsAt(fold, q, s[1..], i - 1);
    }
    if i: nat :| StandsAt(fold, q, s[1..], i) {
      forall k | 0 <= k < |q|
        ensures fold(q[k]) == fold(s[i + 1 + k])
      {
        assert s[1..][i + k] == s[i + 1 + k];
      }
      assert StandsAt(fold, q, s, i + 1);
    }
  }

  /** The pattern finds exactly the strings that contain the search text, special characters included. */
  lemma PatternMatchesExactly(fold: Char -> Char, q: Text, s: Text)
    ensures Like(fold, [PERCENT] + Replaced(q) + [PERCENT], s) <==> Contains(fold, q, s)
  {
    ReplacedIsEscaped(q);
    PercentThenEscaped(fold, q, [PERCENT] + Escape(q) + [PERCENT], s);
  }
}
