/** `consume_stream_chunk` of core/streaming.py against the batch parse of core/emotion.py.
    Chunks carry no escape sequences, so removing them is the identity. */
module Streaming {
  import opened Common
  import opened Emotion

  datatype State = State(pending: string, parsed: bool)

  datatype ChunkResult = ChunkResult(display: string, speech: string, emotion: Option<string>, wait: bool)

  predicate Contains(s: string, sub: string) {
    sub <= s || (s != [] && Contains(s[1..], sub))
  }

  /** The buffer is a tag with nothing after it. */
  predicate Waits(buffer: string) {
    Clean(buffer) == "" && Contains(buffer, HEAD)
  }

  function Consume(s: State, chunk: Option<string>): (State, ChunkResult) {
    var text := if chunk.Some? then chunk.value else "";
    var buffer := s.pending + text;
    if s.parsed then (s, ChunkResult(text, text, None, false))
    else if Waits(buffer) then (State(buffer, false), ChunkResult("", "", None, true))
    else (State("", true), ChunkResult(Clean(buffer), Clean(buffer), Some(Parse(buffer).emotion), false))
  }

  class StreamingState {
    var pendingPrefix: string
    var emotionParsed: bool

    constructor ()
      ensures Value() == State("", false)
    {
      pendingPrefix, emotionParsed := "", false;
    }

    ghost function Value(): State
      reads this
    {
      State(pendingPrefix, emotionParsed)
    }

    method ConsumeStreamChunk(raw: Option<string>) returns (r: ChunkResult)
      modifies this
      ensures (Value(), r) == Consume(old(Value()), raw)
    {
      var text := if raw.Some? then raw.value else "";
      if emotionParsed {
        return ChunkResult(text, text, None, false);
      }
      pendingPrefix := pendingPrefix + text;
      var parsed := Parse(pendingPrefix);
      if parsed.clean == "" && Contains(pendingPrefix, HEAD) {
        return ChunkResult("", "", None, true);
      }
      emotionParsed := true;
      pendingPrefix := "";
      r := ChunkResult(parsed.clean, parsed.clean, Some(parsed.emotion), false);
    }
  }

  // ------------------------------------------------------------ a whole stream

  function Text(chunk: Option<string>): string {
    if chunk.Some? then chunk.value else ""
  }

  function Join(chunks: seq<Option<string>>): string {
    if chunks == [] then "" else Text(chunks[0]) + Join(chunks[1..])
  }

  datatype Shown = Shown(state: State, display: string, emotion: Option<string>)

  /** Feeding chunk after chunk: all that was displayed and the emotion that was reported. */
  function Feed(s: State, chunks: seq<Option<string>>): Shown
    decreases |chunks|
  {
    if chunks == [] then Shown(s, "", None)
    else
      var (s1, r) := Consume(s, chunks[0]);
      var rest := Feed(s1, chunks[1..]);
      Shown(rest.state, r.display + rest.display, if r.emotion.Some? then r.emotion else rest.emotion)
  }

  /** Where the stream is cut: the buffer that is released, and what follows it; None when
      the buffer is still waiting at the end. */
  function Cut(buffer: string, chunks: seq<Option<string>>): (string, Option<string>)
    decreases |chunks|
  {
    if chunks == [] then (buffer, None)
    else
      var more := buffer + Text(chunks[0]);
      if Waits(more) then Cut(more, chunks[1..]) else (more, Some(Join(chunks[1..])))
  }

  lemma {:induction false} AfterRelease(chunks: seq<Option<string>>)
    ensures Feed(State("", true), chunks) == Shown(State("", true), Join(chunks), None)
  {
    if chunks != [] {
      AfterRelease(chunks[1..]);
    }
  }

  /** What a stream shows is the cleaned buffer followed by the rest untouched. */
  lemma {:induction false} StreamShows(buffer: string, chunks: seq<Option<string>>)
    ensures var (p, rest) := Cut(buffer, chunks);
            var shown := Feed(State(buffer, false), chunks);
            if rest.None? then
              && p == buffer + Join(chunks) && shown == Shown(State(p, false), "", None)
              && (chunks != [] ==> Waits(p))
            else
              && p + rest.value == buffer + Join(chunks)
              && shown == Shown(State("", true), Clean(p) + rest.value, Some(Parse(p).emotion))
    decreases |chunks|
  {
    hide Waits, Clean;
    if chunks == [] {
      assert buffer + "" == buffer;
    } else {
      var more := buffer + Text(chunks[0]);
      ConcatAssoc(buffer, Text(chunks[0]), Join(chunks[1..]));
      if Waits(more) {
        StreamShows(more, chunks[1..]);
        assert more + "" == more;
      } else {
        AfterRelease(chunks[1..]);
      }
    }
  }

  // ---------------------------------------------------- streamed against batch

  predicate TagIn(text: string) { Tagged(LStrip(text)) }

  /** When what is shown is the batch text. With something visible still to come: the buffer
      has not cut a tag, and the cut is not at whitespace the batch would keep or drop. */
  predicate Agrees(p: string, r: string) {
    || Blank(r)
    || ((TagIn(p) || !TagIn(p + r))
        && (if Clean(p) == "" then r != "" && !IsSpace(r[0]) else p != "" && !IsSpace(p[|p| - 1])))
  }

  lemma RStripShorter(x: string, y: string)
    ensures |RStrip(y)| <= |RStrip(x + y)|
  {
    RStripConcat(x, y);
  }

  lemma StripShorter(y: string)
    ensures |Strip(y)| <= |RStrip(y)|
  {
    hide RStrip, LStrip;
    LStripSuffix(y);
    var w := y[..|y| - |LStrip(y)|];
    assert y == w + LStrip(y);
    RStripShorter(w, LStrip(y));
  }

  lemma {:induction false} LStripSuffix(s: string)
    ensures |LStrip(s)| <= |s| && s[|s| - |LStrip(s)|..] == LStrip(s)
  {
    if s != [] && IsSpace(s[0]) { LStripSuffix(s[1..]); }
  }

  /** Text put together at a point where trailing whitespace was dropped. */
  lemma GlueIff(x: string, r: string)
    requires x != "" && !Blank(r)
    ensures RStrip(RStrip(x) + r) == RStrip(x + r) <==> !IsSpace(x[|x| - 1])
  {
    RStripConcat(RStrip(x), r);
    RStripConcat(x, r);
    if !IsSpace(x[|x| - 1]) {
      assert RStrip(x) == x;
    } else {
      assert |RStrip(x)| < |x|;
      assert |RStrip(x) + RStrip(r)| < |x + RStrip(r)|;
    }
  }

  /** Text put at the front, where the batch drops leading whitespace. */
  lemma FrontIff(r: string)
    requires !Blank(r)
    ensures RStrip(r) == Strip(r) <==> !IsSpace(r[0])
  {
    LStripSuffix(r);
    LStripHead(r);
    VisibleAfterLStrip(r);
    hide RStrip, LStrip, Blank;
    var w := r[..|r| - |LStrip(r)|];
    assert r == w + LStrip(r);
    RStripConcat(w, LStrip(r));
  }

  lemma LStripHead(r: string)
    requires r != ""
    ensures if IsSpace(r[0]) then |LStrip(r)| < |r| else LStrip(r) == r
  {
    LStripSuffix(r[1..]);
  }

  lemma VisibleAfterLStrip(r: string)
    requires !Blank(r)
    ensures !Blank(LStrip(r))
  {
    LStripConcat(r, "");
    assert r + "" == r;
    assert LStrip(r)[0] in LStrip(r);
  }

  /** Trailing whitespace says nothing to the batch parse, nor does leading whitespace. */
  lemma ParseIgnoresBlank(p: string, r: string)
    ensures Blank(r) ==> Parse(p + r) == Parse(p) && TagIn(p + r) == TagIn(p)
    ensures Blank(p) ==> Parse(p + r) == Parse(r) && TagIn(p + r) == TagIn(r)
    ensures RStrip(Clean(p)) == Clean(p)
  {
    hide Tagged, TagEnd, RStrip, LStrip;
    LStripConcat(p, r);
    StripIsTrimmed(p, r);
  }

  lemma StripIsTrimmed(p: string, r: string)
    ensures RStrip(Clean(p)) == Clean(p)
    ensures Blank(r) ==> Strip(p + r) == Strip(p)
    ensures TagIn(p) <==> Tagged(Strip(p))
    ensures TagIn(p + r) <==> Tagged(Strip(p + r))
  {
    hide Tagged, TagEnd, HasHead;
    TaggedRStrip(LStrip(p));
    TaggedRStrip(LStrip(p + r));
    LStripConcat(p, r);
    if Blank(r) {
      RStripConcat(LStrip(p), r);
      StripBlank(p + r);
      BlankConcat(p, r);
      StripBlank(p);
    }
    RStripTwice(LStrip(p));
    CleanIsStripped(p);
  }

  lemma RStripTwice(s: string)
    ensures RStrip(RStrip(s)) == RStrip(s)
  {
  }

  lemma CleanIsStripped(p: string)
    ensures RStrip(Clean(p)) == Clean(p)
  {
    hide Tagged, TagEnd;
    var t := Strip(p);
    RStripTwice(LStrip(p));
    if Tagged(t) { RStripTwice(LStrip(LStrip(t[TagEnd(t)..]))); }
  }

  /** A visible buffer keeps its left-stripped text in front of what follows. */
  lemma FrontOf(p: string, r: string)
    requires !Blank(p)
    ensures LStrip(p) != "" && LStrip(p + r) == LStrip(p) + r
    ensures LStrip(p)[|LStrip(p)| - 1] == p[|p| - 1]
  {
    LStripConcat(p, r);
    LStripSuffix(p);
  }

  lemma BlankRest(rest: string, r: string)
    requires Blank(rest) && !Blank(r)
    ensures Strip(rest) == "" && "" + r == r && r != ""
    ensures RStrip(r) == Strip(rest + r) <==> !IsSpace(r[0])
  {
    hide RStrip, LStrip;
    StripBlank(rest);
    StripFront(rest, r);
    FrontIff(r);
  }

  lemma VisibleRest(rest: string, r: string)
    requires !Blank(rest) && !Blank(r)
    ensures Strip(rest) != ""
    ensures RStrip(Strip(rest) + r) == Strip(rest + r) <==> !IsSpace(rest[|rest| - 1])
  {
    hide RStrip, LStrip;
    StripBlank(rest);
    FrontOf(rest, r);
    GlueIff(LStrip(rest), r);
  }

  /** The buffer holds a whole tag. */
  lemma TaggedBuffer(p: string, r: string)
    requires TagIn(p) && !Blank(r)
    ensures RStrip(Clean(p) + r) == Clean(p + r) <==> Agrees(p, r)
    ensures Parse(p + r).emotion == Parse(p).emotion
  {
    hide Tagged, TagEnd, RStrip, LStrip, Strip, Parse, NormalizeEmotion, Blank;
    TagIsVisible(p);
    FrontOf(p, r);
    var l := LStrip(p);
    TagGrows(l, r);
    CleanOf(p);
    CleanOf(p + r);
    var rest := l[TagEnd(l)..];
    if Blank(rest) {
      BlankRest(rest, r);
    } else {
      VisibleRest(rest, r);
      SuffixEnds(l, TagEnd(l));
    }
  }

  lemma SuffixEnds(l: string, e: nat)
    requires e <= |l| && !Blank(l[e..])
    ensures e < |l| && l[e..][|l[e..]| - 1] == l[|l| - 1]
  {
  }

  lemma StripFront(w: string, r: string)
    ensures Blank(w) ==> Strip(w + r) == Strip(r)
  {
    LStripConcat(w, r);
  }

  lemma TagIsVisible(p: string)
    requires TagIn(p)
    ensures !Blank(p) && p != ""
  {
    LStripConcat(p, "");
    assert p + "" == p;
  }

  /** The buffer is blank: the rest is a stream of its own, but never stripped or parsed. */
  lemma BlankBuffer(p: string, r: string)
    requires Blank(p) && !Blank(r)
    ensures RStrip(Clean(p) + r) == Clean(p + r) <==> Agrees(p, r)
  {
    hide Tagged, TagEnd, RStrip, LStrip, Parse, NormalizeEmotion;
    ParseIgnoresBlank(p, r);
    BlankIsEmpty(p);
    assert "" + r == r;
    CleanOf(r);
    FrontIff(r);
    if TagIn(r) { TagIsLost(LStrip(r)); StripNeverLonger(r); }
  }

  lemma BlankIsEmpty(p: string)
    requires Blank(p)
    ensures Clean(p) == "" && !TagIn(p)
  {
    StripBlank(p);
    LStripConcat(p, "");
    assert p + "" == p;
  }

  lemma StripNeverLonger(r: string)
    ensures |RStrip(LStrip(r))| <= |RStrip(r)|
  {
    StripShorter(r);
  }

  /** What is left of a tagged text is strictly shorter than the text. */
  lemma TagIsLost(l: string)
    requires Tagged(l)
    ensures |Strip(l[TagEnd(l)..])| < |RStrip(l)|
  {
    TagParts(l);
    StripShorter(l[TagEnd(l)..]);
  }

  /** The buffer is visible and holds no whole tag. */
  lemma PlainBuffer(p: string, r: string)
    requires !Blank(p) && !TagIn(p) && !Blank(r)
    ensures RStrip(Clean(p) + r) == Clean(p + r) <==> Agrees(p, r)
  {
    hide Tagged, TagEnd, RStrip, LStrip, Parse, NormalizeEmotion;
    FrontOf(p, r);
    CleanOf(p);
    CleanOf(p + r);
    StripBlank(p);
    var l := LStrip(p);
    RStripBlank(l, r);
    if TagIn(p + r) {
      LateTag(l, r);
    } else {
      GlueIff(l, r);
    }
  }

  lemma RStripBlank(l: string, r: string)
    requires l != "" && !IsSpace(l[0]) && !Blank(r)
    ensures RStrip(l) != "" && RStrip(RStrip(l) + r) == RStrip(l) + RStrip(r)
  {
    RStripConcat(RStrip(l), r);
    RStripConcat("", l);
    assert "" + l == l;
    assert l[0] in l;
  }

  lemma EarlyTag(l: string, r: string)
    requires Tagged(l + r) && TagEnd(l + r) <= |l|
    ensures Tagged(l)
  {
    var e := TagEnd(l + r);
    assert (l + r)[e - 1] == l[|HEAD|..][e - 1 - |HEAD|];
    assert forall i :: 0 <= i < |HEAD| ==> l[i] == (l + r)[i];
  }

  /** A tag that the cut hides from the stream makes the batch text shorter than `r` alone. */
  lemma LateTag(l: string, r: string)
    requires !Tagged(l) && Tagged(l + r)
    ensures |Strip((l + r)[TagEnd(l + r)..])| <= |RStrip(r)|
  {
    hide Tagged, TagEnd, LStrip, RStrip;
    var e := TagEnd(l + r);
    if e <= |l| { EarlyTag(l, r); }
    var k := e - |l|;
    assert (l + r)[e..] == r[k..];
    assert r == r[..k] + r[k..];
    StripShorter(r[k..]);
    RStripShorter(r[..k], r[k..]);
  }

  /** The exact condition, for any buffer and any rest. */
  lemma BatchIff(p: string, r: string)
    ensures RStrip(Clean(p) + r) == Clean(p + r) <==> Agrees(p, r)
  {
    hide Parse, LStrip, RStrip, Tagged, Agrees;
    if Blank(r) {
      ParseIgnoresBlank(p, r);
      RStripConcat(Clean(p), r);
      assert RStrip(Clean(p) + r) == Clean(p + r);
      assert Agrees(p, r) by { BlankAgrees(p, r); }
    } else if TagIn(p) {
      TaggedBuffer(p, r);
    } else if Blank(p) {
      BlankBuffer(p, r);
    } else {
      PlainBuffer(p, r);
    }
  }

  lemma BlankAgrees(p: string, r: string)
    requires Blank(r)
    ensures Agrees(p, r)
  {
  }

  /** Chunking invariance, exactly: for every way a response is cut into chunks, what is
      displayed equals the batch parse up to trailing whitespace if and only if the released
      buffer and the rest agree; a stream that never releases shows nothing, and rightly so. */
  lemma StreamedEqualsBatchIff(chunks: seq<Option<string>>)
    ensures var (p, rest) := Cut("", chunks);
            var shown := Feed(State("", false), chunks);
            if rest.None? then
              shown.display == "" == Clean(Join(chunks)) && shown.emotion.None?
            else
              && (RStrip(shown.display) == Clean(Join(chunks)) <==> Agrees(p, rest.value))
              && (TagIn(p) ==> shown.emotion == Some(Parse(Join(chunks)).emotion))
              && (!TagIn(p) ==> shown.emotion == Some("neutral"))
  {
    hide Agrees, Parse, LStrip, RStrip, Tagged, Feed, Cut, Contains;
    StreamShows("", chunks);
    var (p, rest) := Cut("", chunks);
    assert "" + Join(chunks) == Join(chunks);
    CleanOf(p);
    BlankIsEmpty("");
    if rest.Some? {
      BatchIff(p, rest.value);
      if TagIn(p) {
        if Blank(rest.value) { ParseIgnoresBlank(p, rest.value); } else { TaggedBuffer(p, rest.value); }
      }
    }
  }

  // ------------------------------------------- what is held back, and what is not

  /** A whole tag and nothing visible around it. */
  ghost predicate IsBareTag(buffer: string, lead: string, head: string, emotion: string, tail: string) {
    && buffer == lead + (head + emotion + "]" + tail)
    && Blank(lead) && Blank(tail) && |head| == |HEAD| && HasHead(head) && ']' !in emotion
  }

  ghost predicate BareTag(buffer: string) {
    exists lead, head, emotion, tail :: IsBareTag(buffer, lead, head, emotion, tail)
  }

  /** The head stands somewhere, in small letters. */
  ghost predicate HeadStands(buffer: string) {
    exists i :: 0 <= i <= |buffer| && HEAD <= buffer[i..]
  }

  lemma {:induction false} ContainsIff(s: string)
    ensures Contains(s, HEAD) <==> HeadStands(s)
  {
    if HEAD <= s {
      assert HEAD <= s[0..];
    } else if s != "" {
      ContainsIff(s[1..]);
      if HeadStands(s[1..]) {
        var i :| 0 <= i <= |s[1..]| && HEAD <= s[1..][i..];
        assert s[1..][i..] == s[i + 1..];
      }
      if HeadStands(s) {
        var i :| 0 <= i <= |s| && HEAD <= s[i..];
        assert s[0..] == s;
        assert s[1..][i - 1..] == s[i..];
      }
    }
  }

  lemma HeadIsVisible(s: string)
    requires HeadStands(s)
    ensures !Blank(s)
  {
    var i :| 0 <= i <= |s| && HEAD <= s[i..];
    assert s[i..][0] == '[' && s[i..][0] in s;
  }

  /** A bare tag is read as one, with no text. */
  lemma BareTagIsClean(buffer: string, lead: string, head: string, emotion: string, tail: string)
    requires IsBareTag(buffer, lead, head, emotion, tail)
    ensures TagIn(buffer) && Clean(buffer) == "" && Parse(buffer).emotion == NormalizeEmotion(emotion)
  {
    hide Parse, Strip, Tagged, TagEnd, NormalizeEmotion, HasHead, LStrip;
    var tag := head + emotion + "]";
    ParseIgnoresBlank(lead, tag + tail);
    TagIsReadBack(head, emotion, tail);
    StripBlank(tail);
    WholeTag(head, emotion);
    TagGrows(tag, tail);
    StartsVisible(tag + tail);
  }

  /** What reads as a tag without text is a bare tag. */
  lemma CleanTagIsBare(buffer: string)
    requires TagIn(buffer) && Clean(buffer) == ""
    ensures BareTag(buffer)
  {
    hide Parse, RStrip, NormalizeEmotion, LStrip;
    var l := LStrip(buffer);
    CleanOf(buffer);
    var lead := LStripRest(buffer);
    var e := TagEnd(l);
    StripBlank(l[e..]);
    var head, emotion, tail := l[..|HEAD|], l[|HEAD|..e - 1], l[e..];
    assert l[|HEAD|..][..e - 1 - |HEAD|] == emotion;
    assert l == head + emotion + "]" + tail;
    assert forall i :: 0 <= i < |HEAD| ==> head[i] == l[i];
    assert IsBareTag(buffer, lead, head, emotion, tail);
  }

  /** Exactly what is held back: before the release, a chunk waits if and only if the text so
      far is a whole tag with nothing visible around it, and the head stands in it in small
      letters. */
  lemma HeldBackIff(pending: string, chunk: Option<string>)
    ensures Consume(State(pending, false), chunk).1.wait
            <==> BareTag(pending + Text(chunk)) && HeadStands(pending + Text(chunk))
  {
    hide Parse, Contains, BareTag, HeadStands, TagIn, IsBareTag;
    var buffer := pending + Text(chunk);
    ContainsIff(buffer);
    if BareTag(buffer) {
      var lead, head, emotion, tail := BareParts(buffer);
      BareTagIsClean(buffer, lead, head, emotion, tail);
    }
    if Clean(buffer) == "" && HeadStands(buffer) {
      HeadIsVisible(buffer);
      if !TagIn(buffer) { UntaggedIsVisible(buffer); }
      CleanTagIsBare(buffer);
    }
  }

  lemma BareParts(buffer: string) returns (lead: string, head: string, emotion: string, tail: string)
    requires BareTag(buffer)
    ensures IsBareTag(buffer, lead, head, emotion, tail)
  {
    lead, head, emotion, tail :| IsBareTag(buffer, lead, head, emotion, tail);
  }

  lemma UntaggedIsVisible(buffer: string)
    requires !TagIn(buffer) && !Blank(buffer)
    ensures Clean(buffer) != ""
  {
    hide Parse, Tagged, LStrip, RStrip;
    CleanOf(buffer);
    StripBlank(buffer);
  }

  /** The shape of every result: speech is the display, a wait shows nothing and keeps the
      text, a release shows the cleaned text and reports the emotion once, and after it every
      chunk passes as it is. */
  lemma ChunkShape(s: State, chunk: Option<string>)
    ensures var (s', r) := Consume(s, chunk);
            && r.speech == r.display && (r.wait ==> !s.parsed && r.display == "")
            && (s'.parsed <==> s.parsed || !r.wait)
            && (r.emotion.Some? <==> s'.parsed && !s.parsed)
            && (r.wait ==> s'.pending == s.pending + Text(chunk))
            && (r.emotion.Some? ==>
                  && s'.pending == "" && r.display == Clean(s.pending + Text(chunk))
                  && r.emotion == Some(Parse(s.pending + Text(chunk)).emotion))
            && (s.parsed ==> s' == s && r.display == Text(chunk))
  {
    hide Parse, Contains;
  }

  lemma MoreBlanks(buffer: string, lead: string, head: string, emotion: string, tail: string, more: string)
    requires IsBareTag(buffer, lead, head, emotion, tail) && HeadStands(buffer) && Blank(more)
    ensures IsBareTag(buffer + more, lead, head, emotion, tail + more) && HeadStands(buffer + more)
  {
    hide HasHead;
    BlankConcat(tail, more);
    assert buffer + more == lead + (head + emotion + "]" + (tail + more));
    var i :| 0 <= i <= |buffer| && HEAD <= buffer[i..];
    assert (buffer + more)[i..] == buffer[i..] + more;
  }

  /** Blank chunks after a bare tag are waited for. */
  lemma {:induction false} BlanksWait(buffer: string, lead: string, head: string, emotion: string, tail: string,
                                      chunks: seq<Option<string>>)
    requires IsBareTag(buffer, lead, head, emotion, tail) && HeadStands(buffer)
    requires forall j :: 0 <= j < |chunks| ==> Blank(Text(chunks[j]))
    ensures Feed(State(buffer, false), chunks) == Shown(State(buffer + Join(chunks), false), "", None)
    ensures Blank(Join(chunks))
    decreases |chunks|
  {
    hide Consume, HeadStands, HasHead, IsBareTag;
    if chunks == [] {
      assert buffer + "" == buffer;
    } else {
      var more := Text(chunks[0]);
      MoreBlanks(buffer, lead, head, emotion, tail, more);
      HeldBackIff(buffer, chunks[0]);
      ChunkShape(State(buffer, false), chunks[0]);
      BlanksWait(buffer + more, lead, head, emotion, tail + more, chunks[1..]);
      ConcatAssoc(buffer, more, Join(chunks[1..]));
      BlankConcat(more, Join(chunks[1..]));
      assert "" + "" == "";
    }
  }

  /** The first visible chunk after a bare tag is released. */
  lemma VisibleReleases(buffer: string, lead: string, head: string, emotion: string, tail: string,
                        chunks: seq<Option<string>>)
    requires IsBareTag(buffer, lead, head, emotion, tail) && chunks != [] && !Blank(Text(chunks[0]))
    ensures Feed(State(buffer, false), chunks)
            == Shown(State("", true), Strip(Text(chunks[0])) + Join(chunks[1..]), Some(NormalizeEmotion(emotion)))
  {
    hide HasHead, Parse, Strip, NormalizeEmotion, Contains, Tagged, TagEnd;
    var more := Text(chunks[0]);
    var tag := head + emotion + "]";
    assert buffer + more == lead + (tag + (tail + more));
    ParseIgnoresBlank(lead, tag + (tail + more));
    TagIsReadBack(head, emotion, tail + more);
    StripFront(tail, more);
    StripBlank(more);
    AfterRelease(chunks[1..]);
  }

  lemma {:induction false} FeedSplits(s: State, a: seq<Option<string>>, b: seq<Option<string>>)
    ensures var first := Feed(s, a);
            var second := Feed(first.state, b);
            Feed(s, a + b) == Shown(second.state, first.display + second.display,
                                    if first.emotion.Some? then first.emotion else second.emotion)
    decreases |a|
  {
    hide Consume;
    if a == [] {
      assert a + b == b && "" + Feed(s, b).display == Feed(s, b).display;
    } else {
      var (s1, r) := Consume(s, a[0]);
      assert (a + b)[0] == a[0] && (a + b)[1..] == a[1..] + b;
      FeedSplits(s1, a[1..], b);
      ConcatAssoc(r.display, Feed(s1, a[1..]).display, Feed(Feed(s1, a[1..]).state, b).display);
    }
  }

  /** Chunk `k` is the first with anything to show after the tag in chunk 0. */
  ghost predicate TagThenVisible(chunks: seq<Option<string>>, k: nat,
                                 lead: string, head: string, emotion: string, tail: string)
  {
    && 0 < k <= |chunks|
    && IsBareTag(Text(chunks[0]), lead, head, emotion, tail) && HeadStands(Text(chunks[0]))
    && (forall j :: 0 < j < k ==> Blank(Text(chunks[j])))
    && (k < |chunks| ==> !Blank(Text(chunks[k])))
  }

  lemma TagWaits(chunks: seq<Option<string>>, k: nat, j: nat,
                 lead: string, head: string, emotion: string, tail: string) returns (blanks: string)
    requires TagThenVisible(chunks, k, lead, head, emotion, tail) && 0 < j <= k
    ensures Feed(State("", false), chunks[..j]) == Shown(State(Text(chunks[0]) + blanks, false), "", None)
    ensures IsBareTag(Text(chunks[0]) + blanks, lead, head, emotion, tail + blanks)
    ensures Join(chunks[..j]) == Text(chunks[0]) + blanks
  {
    hide IsBareTag, HeadStands, Consume;
    var first, rest := Text(chunks[0]), chunks[..j][1..];
    blanks := Join(rest);
    assert rest == chunks[1..j];
    assert "" + first == first;
    HeldBackIff("", chunks[0]);
    ChunkShape(State("", false), chunks[0]);
    BlanksWait(first, lead, head, emotion, tail, rest);
    MoreBlanks(first, lead, head, emotion, tail, blanks);
  }

  lemma {:induction false} JoinSplits(a: seq<Option<string>>, b: seq<Option<string>>)
    ensures Join(a + b) == Join(a) + Join(b)
  {
    if a == [] {
      assert a + b == b && "" + Join(b) == Join(b);
    } else {
      assert (a + b)[0] == a[0] && (a + b)[1..] == a[1..] + b;
      JoinSplits(a[1..], b);
      ConcatAssoc(Text(a[0]), Join(a[1..]), Join(b));
    }
  }

  lemma TagShowsNothing(chunks: seq<Option<string>>, k: nat, j: nat,
                        lead: string, head: string, emotion: string, tail: string)
    requires TagThenVisible(chunks, k, lead, head, emotion, tail) && j <= k
    ensures Feed(State("", false), chunks[..j]).display == "" && Feed(State("", false), chunks[..j]).emotion.None?
  {
    hide IsBareTag, HeadStands, Consume;
    if j > 0 { var _ := TagWaits(chunks, k, j, lead, head, emotion, tail); }
  }

  lemma TagThenShows(chunks: seq<Option<string>>, k: nat,
                     lead: string, head: string, emotion: string, tail: string)
    requires TagThenVisible(chunks, k, lead, head, emotion, tail) && k < |chunks|
    ensures Feed(State("", false), chunks)
            == Shown(State("", true), Strip(Text(chunks[k])) + Join(chunks[k + 1..]), Some(NormalizeEmotion(emotion)))
    ensures Parse(Join(chunks)) == EmotionResult(NormalizeEmotion(emotion), Strip(Join(chunks[k..])))
  {
    hide IsBareTag, HeadStands, Strip, NormalizeEmotion, Parse, Consume, Feed, Join;
    var blanks := TagWaits(chunks, k, k, lead, head, emotion, tail);
    var first := Text(chunks[0]) + blanks;
    assert chunks == chunks[..k] + chunks[k..] && chunks[k..][1..] == chunks[k + 1..];
    FeedSplits(State("", false), chunks[..k], chunks[k..]);
    VisibleReleases(first, lead, head, emotion, tail + blanks, chunks[k..]);
    JoinSplits(chunks[..k], chunks[k..]);
    BatchOfTagged(first, lead, head, emotion, tail + blanks, Join(chunks[k..]));
    var display := Strip(Text(chunks[k])) + Join(chunks[k + 1..]);
    assert "" + display == display;
  }

  /** A response that starts with the tag in one chunk, cut in any way after the bracket:
      nothing is shown and no emotion reported before the first chunk with a visible
      character; then that chunk is shown stripped and all after it as it is, with the
      emotion of the batch parse. */
  lemma TaggedStream(chunks: seq<Option<string>>, k: nat,
                     lead: string, head: string, emotion: string, tail: string)
    requires TagThenVisible(chunks, k, lead, head, emotion, tail)
    ensures forall j :: 0 <= j <= k ==>
              Feed(State("", false), chunks[..j]).display == "" && Feed(State("", false), chunks[..j]).emotion.None?
    ensures var shown := Feed(State("", false), chunks);
            if k == |chunks| then shown.display == "" == Clean(Join(chunks)) && shown.emotion.None?
            else
              && shown.display == Strip(Text(chunks[k])) + Join(chunks[k + 1..])
              && shown.emotion == Some(NormalizeEmotion(emotion)) == Some(Parse(Join(chunks)).emotion)
  {
    hide IsBareTag, HeadStands, Strip, NormalizeEmotion, Parse, Consume, Feed, Join;
    forall j | 0 <= j <= k
      ensures Feed(State("", false), chunks[..j]).display == ""
      ensures Feed(State("", false), chunks[..j]).emotion.None?
    {
      TagShowsNothing(chunks, k, j, lead, head, emotion, tail);
    }
    if k < |chunks| {
      TagThenShows(chunks, k, lead, head, emotion, tail);
    } else {
      assert chunks[..k] == chunks;
      AllTag(chunks, lead, head, emotion, tail);
    }
  }

  lemma AllTag(chunks: seq<Option<string>>, lead: string, head: string, emotion: string, tail: string)
    requires TagThenVisible(chunks, |chunks|, lead, head, emotion, tail)
    ensures Clean(Join(chunks)) == ""
  {
    hide IsBareTag, HeadStands, Consume, Feed, Join, Parse;
    var k := |chunks|;
    assert chunks[..k] == chunks;
    var blanks := TagWaits(chunks, k, k, lead, head, emotion, tail);
    BareTagIsClean(Text(chunks[0]) + blanks, lead, head, emotion, tail + blanks);
  }

  /** Such a stream shows the batch text up to trailing whitespace exactly if nothing visible
      follows the first visible chunk or that chunk does not end in whitespace. */
  lemma TaggedStreamIff(chunks: seq<Option<string>>, k: nat,
                        lead: string, head: string, emotion: string, tail: string)
    requires TagThenVisible(chunks, k, lead, head, emotion, tail) && k < |chunks|
    ensures RStrip(Feed(State("", false), chunks).display) == Clean(Join(chunks))
            <==> Blank(Join(chunks[k + 1..])) || !IsSpace(Text(chunks[k])[|Text(chunks[k])| - 1])
  {
    hide IsBareTag, HeadStands, Strip, NormalizeEmotion, Parse, Consume, Feed, RStrip;
    TagThenShows(chunks, k, lead, head, emotion, tail);
    assert chunks[k..][1..] == chunks[k + 1..];
    StripGlueIff(Text(chunks[k]), Join(chunks[k + 1..]));
  }

  lemma BatchOfTagged(buffer: string, lead: string, head: string, emotion: string, tail: string, text: string)
    requires IsBareTag(buffer, lead, head, emotion, tail)
    ensures Parse(buffer + text) == EmotionResult(NormalizeEmotion(emotion), Strip(text))
  {
    hide HasHead, Parse, Strip, NormalizeEmotion, Tagged, TagEnd;
    var tag := head + emotion + "]";
    assert buffer + text == lead + (tag + (tail + text));
    ParseIgnoresBlank(lead, tag + (tail + text));
    TagIsReadBack(head, emotion, tail + text);
    StripFront(tail, text);
  }

  lemma StripGlueIff(text: string, rest: string)
    requires !Blank(text)
    ensures RStrip(Strip(text) + rest) == Strip(text + rest) <==> Blank(rest) || !IsSpace(text[|text| - 1])
  {
    hide RStrip, LStrip;
    if Blank(rest) {
      StripIsTrimmed(text, rest);
      RStripConcat(Strip(text), rest);
      RStripTwice(LStrip(text));
    } else {
      VisibleRest(text, rest);
    }
  }

  // --------------------------------------------------- each condition is needed

  lemma PlainIsClean(s: string)
    requires s != "" && !IsSpace(s[0]) && ']' !in s
    ensures Clean(s) == RStrip(s) && Parse(s).emotion == "neutral"
  {
    CleanOf(s);
  }

  /** Two chunks, the first of them released at once. */
  lemma TwoChunks(a: string, b: string)
    requires !Waits(a)
    ensures Feed(State("", false), [Some(a), Some(b)])
            == Shown(State("", true), Clean(a) + b, Some(Parse(a).emotion))
    ensures Join([Some(a), Some(b)]) == a + b
  {
    hide Waits, Parse;
    var chunks := [Some(a), Some(b)];
    assert chunks[1..] == [Some(b)] && chunks[1..][1..] == [];
    assert "" + a == a && b + "" == b;
    assert Join(chunks[1..]) == b;
    AfterRelease(chunks[1..]);
  }

  /** A cut inside the tag shows the tag, and loses the emotion. */
  lemma CutTagLeaks()
    ensures Feed(State("", false), [Some("[emotion:ha"), Some("ppy]Hi")]).display == "[emotion:happy]Hi"
    ensures Feed(State("", false), [Some("[emotion:ha"), Some("ppy]Hi")]).emotion == Some("neutral")
    ensures Parse("[emotion:happy]Hi") == EmotionResult("happy", "Hi")
  {
    hide Parse, Tagged, TagEnd, Feed, NormalizeEmotion, Join, Strip, LStrip;
    PlainIsClean("[emotion:ha");
    TwoChunks("[emotion:ha", "ppy]Hi");
    HeadFoldsToItself();
    TagIsReadBack(HEAD, "happy", "Hi");
    HappyIsStandard();
    SpelledOut();
  }

  lemma HeadFoldsToItself()
    ensures HasHead(HEAD)
  {
  }

  lemma SpelledOut()
    ensures "[emotion:ha" + "ppy]Hi" == HEAD + "happy" + "]" + "Hi" == "[emotion:happy]Hi"
  {
  }

  lemma HappyIsStandard()
    ensures NormalizeEmotion("happy") == "happy" && Strip("Hi") == "Hi"
  {
    hide Lower;
    LowerSame("happy");
  }

  lemma {:induction false} LowerSame(s: string)
    requires forall i :: 0 <= i < |s| ==> !('A' <= s[i] <= 'Z')
    ensures Lower(s) == s
  {
    if s != [] {
      assert s == [s[0]] + s[1..];
      LowerSame(s[1..]);
    }
  }

  /** A cut after a space loses the space. */
  lemma CutSpaceIsLost()
    ensures Feed(State("", false), [Some("Hello "), Some("world")]).display == "Helloworld"
    ensures Clean("Hello world") == "Hello world"
  {
    hide Parse, Tagged, Feed, RStrip, Contains;
    PlainIsClean("Hello ");
    HelloStripped();
    TwoChunks("Hello ", "world");
    PlainIsClean("Hello world");
  }

  lemma HelloStripped()
    ensures RStrip("Hello ") == "Hello" && RStrip("Hello world") == "Hello world"
  {
    RStripConcat("Hello", " ");
    assert "Hello" + " " == "Hello ";
  }

  /** An empty first chunk ends the waiting, and a whole tag in the second is shown as text. */
  lemma EmptyChunkEndsTheWait()
    ensures Feed(State("", false), [Some(""), Some("[emotion:happy]Hi")]).display == "[emotion:happy]Hi"
    ensures Feed(State("", false), [None, Some("[emotion:happy]Hi")]).display == "[emotion:happy]Hi"
  {
    hide Parse, Feed, Tagged;
    BlankIsEmpty("");
    TwoChunks("", "[emotion:happy]Hi");
    assert "" + "[emotion:happy]Hi" == "[emotion:happy]Hi";
    NoneIsEmpty(Some("[emotion:happy]Hi"));
  }

  lemma NoneIsEmpty(next: Option<string>)
    ensures Feed(State("", false), [None, next]) == Feed(State("", false), [Some(""), next])
  {
    hide Waits, Parse;
    assert [None, next][1..] == [next] && [Some(""), next][1..] == [next];
  }
}
