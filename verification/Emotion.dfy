/** The emotion tag of core/emotion.py: what `parse_emotion_response` computes, and how the
    result for a text relates to the results for a text cut in two. */
module Emotion {
  import opened Common

  // ------------------------------------------------------------- whitespace

  /** The characters `str.isspace` and the pattern `\s` accept. */
  predicate IsSpace(c: char) {
    || '\U{0009}' <= c <= '\U{000D}' || '\U{001C}' <= c <= '\U{0020}'
    || c == '\U{0085}' || c == '\U{00A0}' || c == '\U{1680}' || '\U{2000}' <= c <= '\U{200A}'
    || c == '\U{2028}' || c == '\U{2029}' || c == '\U{202F}' || c == '\U{205F}' || c == '\U{3000}'
  }

  predicate Blank(s: string) {
    forall c :: c in s ==> IsSpace(c)
  }

  function LStrip(s: string): (r: string)
    ensures r == [] || !IsSpace(r[0])
  {
    if s != [] && IsSpace(s[0]) then LStrip(s[1..]) else s
  }

  function RStrip(s: string): (r: string)
    ensures r <= s && (r == [] || !IsSpace(r[|r| - 1]))
  {
    if s != [] && IsSpace(s[|s| - 1]) then RStrip(s[..|s| - 1]) else s
  }

  function Strip(s: string): string { RStrip(LStrip(s)) }

  lemma {:induction false} LStripConcat(a: string, x: string)
    ensures LStrip(a + x) == if Blank(a) then LStrip(x) else LStrip(a) + x
    ensures Blank(a) <==> LStrip(a) == []
  {
    if a == [] {
      assert a + x == x;
    } else {
      assert (a + x)[1..] == a[1..] + x && a == [a[0]] + a[1..];
      if IsSpace(a[0]) { LStripConcat(a[1..], x); }
    }
  }

  lemma {:induction false} RStripConcat(a: string, x: string)
    ensures RStrip(a + x) == if Blank(x) then RStrip(a) else a + RStrip(x)
    ensures Blank(x) <==> RStrip(x) == []
    decreases |x|
  {
    if x == [] {
      assert a + x == a;
    } else {
      var init, last := x[..|x| - 1], x[|x| - 1];
      assert x == init + [last];
      assert (a + x)[..|a + x| - 1] == a + init;
      if IsSpace(last) { RStripConcat(a, init); }
    }
  }

  lemma BlankConcat(a: string, b: string)
    ensures Blank(a + b) <==> Blank(a) && Blank(b)
  {
  }

  /** Stripping keeps what is between the first and the last visible character. */
  lemma StripBlank(s: string)
    ensures Strip(s) == [] <==> Blank(s)
  {
    LStripConcat(s, []);
    assert s + [] == s;
    var l := LStrip(s);
    if l != [] {
      assert l[0] in l;
      RStripConcat([], l);
      assert [] + l == l;
    }
  }

  // -------------------------------------------------------------------- tag

  const HEAD := "[emotion:"

  /** Case folding as far as the letters of HEAD are concerned: the pattern ignores case, and
      both dotted capital I and dotless small i fold to i. */
  function Fold(c: char): char {
    if 'A' <= c <= 'Z' then ((c as int) + 32) as char
    else if c == '\U{0130}' || c == '\U{0131}' then 'i'
    else c
  }

  predicate HasHead(t: string) {
    |t| >= |HEAD| && forall i :: 0 <= i < |HEAD| ==> Fold(t[i]) == HEAD[i]
  }

  predicate Tagged(t: string) {
    HasHead(t) && ']' in t[|HEAD|..]
  }

  /** The position after the closing bracket. */
  function TagEnd(t: string): (e: nat)
    requires Tagged(t)
    ensures |HEAD| < e <= |t| && t[e - 1] == ']'
  {
    |HEAD| + IndexOf(t[|HEAD|..], ']') + 1
  }

  const STANDARD_EMOTIONS := {"neutral", "happy", "sad", "angry", "surprised", "confused"}

  function Lower(s: string): (r: string)
    ensures |r| == |s|
  {
    if s == [] then []
    else [if 'A' <= s[0] <= 'Z' then ((s[0] as int) + 32) as char else s[0]] + Lower(s[1..])
  }

  function NormalizeEmotion(emotion: string): (r: string)
    ensures r in STANDARD_EMOTIONS
  {
    if Lower(Strip(emotion)) in STANDARD_EMOTIONS then Lower(Strip(emotion)) else "neutral"
  }

  datatype EmotionResult = EmotionResult(emotion: string, clean: string)

  function Parse(raw: string): EmotionResult {
    var t := Strip(raw);
    if !Tagged(t) then EmotionResult("neutral", t)
    else
      EmotionResult(NormalizeEmotion(t[|HEAD|..TagEnd(t) - 1]),
                    Strip(LStrip(t[TagEnd(t)..])))
  }

  /** A tag is only about the text up to its closing bracket. */
  lemma TagGrows(t: string, x: string)
    requires Tagged(t)
    ensures Tagged(t + x) && TagEnd(t + x) == TagEnd(t)
    ensures (t + x)[TagEnd(t)..] == t[TagEnd(t)..] + x
    ensures (t + x)[|HEAD|..TagEnd(t) - 1] == t[|HEAD|..TagEnd(t) - 1]
  {
    var body := t[|HEAD|..];
    assert (t + x)[|HEAD|..] == body + x;
    IndexGrows(body, x, ']');
  }

  lemma {:induction false} IndexGrows(s: string, x: string, c: char)
    requires c in s
    ensures IndexOf(s + x, c) == IndexOf(s, c)
  {
    assert (s + x)[0] == s[0];
    if s[0] != c {
      assert (s + x)[1..] == s[1..] + x;
      IndexGrows(s[1..], x, c);
    }
  }

  /** Trailing whitespace never makes or breaks a tag. */
  lemma {:induction false} TaggedRStrip(t: string)
    ensures Tagged(RStrip(t)) <==> Tagged(t)
    ensures Tagged(t) ==> TagEnd(RStrip(t)) == TagEnd(t)
    decreases |t|
  {
    if t != [] && IsSpace(t[|t| - 1]) {
      var init := t[..|t| - 1];
      assert t == init + [t[|t| - 1]];
      TaggedRStrip(init);
      if Tagged(init) { TagGrows(init, [t[|t| - 1]]); }
    }
  }

  /** The visible text, seen from the left-stripped input. */
  function Clean(raw: string): string { Parse(raw).clean }

  lemma CleanOf(raw: string)
    ensures var l := LStrip(raw);
            if Tagged(l) then
              Clean(raw) == Strip(l[TagEnd(l)..])
              && Parse(raw).emotion == NormalizeEmotion(l[|HEAD|..TagEnd(l) - 1])
            else Clean(raw) == RStrip(l) && Parse(raw).emotion == "neutral"
  {
    hide Tagged, TagEnd, RStrip, LStrip, NormalizeEmotion;
    var l := LStrip(raw);
    TaggedRStrip(l);
    if Tagged(l) {
      TagParts(l);
      LStripTwice(RStrip(l[TagEnd(l)..]));
      StripOfRStrip(l[TagEnd(l)..]);
    }
  }

  lemma TagParts(l: string)
    requires Tagged(l)
    ensures Tagged(RStrip(l)) && TagEnd(RStrip(l)) == TagEnd(l)
    ensures RStrip(l)[TagEnd(l)..] == RStrip(l[TagEnd(l)..])
    ensures RStrip(l)[|HEAD|..TagEnd(l) - 1] == l[|HEAD|..TagEnd(l) - 1]
  {
    hide Tagged, TagEnd, RStrip;
    TaggedRStrip(l);
    var e := TagEnd(l);
    var head, rest := l[..e], l[e..];
    assert l == head + rest;
    RStripConcat(head, rest);
    RStripToBracket(head);
    assert RStrip(l) == head + RStrip(rest);
    FrontSlices(head, rest, |HEAD|, e - 1);
    FrontSlices(head, RStrip(rest), |HEAD|, e - 1);
  }

  lemma FrontSlices(head: string, rest: string, i: nat, j: nat)
    requires i <= j <= |head|
    ensures (head + rest)[|head|..] == rest && (head + rest)[i..j] == head[i..j]
  {
  }

  lemma RStripToBracket(head: string)
    requires head != [] && head[|head| - 1] == ']'
    ensures RStrip(head) == head
  {
  }

  lemma LStripTwice(s: string)
    ensures LStrip(LStrip(s)) == LStrip(s)
  {
  }

  lemma StripOfRStrip(s: string)
    ensures Strip(RStrip(s)) == Strip(s)
  {
    var r := RStrip(s);
    assert s == r + s[|r|..];
    RStripRest(s);
    LStripConcat(r, s[|r|..]);
    if !Blank(r) {
      RStripConcat(LStrip(r), s[|r|..]);
    } else {
      StripBlank(s);
      StripBlank(r);
      BlankConcat(r, s[|r|..]);
    }
  }

  lemma {:induction false} RStripRest(s: string)
    ensures Blank(s[|RStrip(s)|..])
    decreases |s|
  {
    if s != [] && IsSpace(s[|s| - 1]) {
      var init := s[..|s| - 1];
      RStripRest(init);
      assert s[|RStrip(s)|..] == init[|RStrip(init)|..] + [s[|s| - 1]];
    }
  }

  /** The documented format, read back: any emotion name without a closing bracket, in a head
      of any case, with any text after it. */
  lemma TagIsReadBack(head: string, emotion: string, text: string)
    requires |head| == |HEAD| && HasHead(head) && ']' !in emotion
    ensures Parse(head + emotion + "]" + text) == EmotionResult(NormalizeEmotion(emotion), Strip(text))
  {
    hide Tagged, TagEnd, Parse, NormalizeEmotion, Strip, HasHead;
    WholeTag(head, emotion);
    ReadBack(head + emotion + "]", emotion, text);
  }

  lemma ReadBack(tag: string, emotion: string, text: string)
    requires Tagged(tag) && TagEnd(tag) == |tag| && tag[|HEAD|..|tag| - 1] == emotion
    ensures Parse(tag + text) == EmotionResult(NormalizeEmotion(emotion), Strip(text))
  {
    hide Tagged, TagEnd, Parse, NormalizeEmotion, Strip, LStrip, HasHead;
    TagGrows(tag, text);
    StartsVisible(tag + text);
    CleanOf(tag + text);
    assert tag[|tag|..] + text == text;
  }

  lemma WholeTag(head: string, emotion: string)
    requires |head| == |HEAD| && HasHead(head) && ']' !in emotion
    ensures var tag := head + emotion + "]";
            Tagged(tag) && TagEnd(tag) == |tag| && tag[|HEAD|..|tag| - 1] == emotion && tag[|tag|..] == ""
  {
    var tag := head + emotion + "]";
    assert tag[|HEAD|..] == emotion + "]";
    assert forall i :: 0 <= i < |HEAD| ==> tag[i] == head[i];
    AfterAll(emotion, ']');
    assert tag[|HEAD|..|tag| - 1] == emotion;
  }

  lemma StartsVisible(s: string)
    requires Tagged(s)
    ensures LStrip(s) == s
  {
    assert Fold(s[0]) == '[';
  }

  lemma {:induction false} AfterAll(s: string, c: char)
    requires c !in s
    ensures IndexOf(s + [c], c) == |s|
  {
    if s != [] {
      assert (s + [c])[1..] == s[1..] + [c];
      AfterAll(s[1..], c);
    }
  }

  // ------------------------------------------- what the helpers mean, spelled out

  /** Stripping, exactly: what is taken off at both ends is whitespace, and what is left
      neither begins nor ends with any. */
  lemma StripIsBetween(s: string) returns (front: string, back: string)
    ensures s == front + Strip(s) + back && Blank(front) && Blank(back)
    ensures Strip(s) == "" || (!IsSpace(Strip(s)[0]) && !IsSpace(Strip(s)[|Strip(s)| - 1]))
  {
    front := LStripRest(s);
    var l := LStrip(s);
    back := l[|RStrip(l)|..];
    RStripRest(l);
    assert l == RStrip(l) + back;
    ConcatAssoc(front, RStrip(l), back);
    if Strip(s) != "" { assert Strip(s)[0] == l[0]; }
  }

  lemma {:induction false} LStripRest(s: string) returns (front: string)
    ensures s == front + LStrip(s) && Blank(front)
  {
    if s != [] && IsSpace(s[0]) {
      var more := LStripRest(s[1..]);
      front := [s[0]] + more;
      assert s == [s[0]] + s[1..];
    } else {
      front := "";
    }
  }

  /** No other text is between blanks and visible at both ends. */
  lemma OnlyStripIsBetween(front: string, core: string, back: string)
    requires Blank(front) && Blank(back)
    requires core == "" || (!IsSpace(core[0]) && !IsSpace(core[|core| - 1]))
    ensures Strip(front + core + back) == core
  {
    LStripConcat(front, core + back);
    ConcatAssoc(front, core, back);
    assert core == "" ==> core + back == back;
    LStripConcat(back, "");
    assert back + "" == back;
    if core != "" {
      assert LStrip(core + back) == core + back;
      RStripConcat(core, back);
    }
  }

  /** The head of a tag, letter by letter: `i` also matches dotted capital and dotless small
      I, as the pattern's flag for case says. */
  lemma HeadIff(t: string)
    ensures HasHead(t)
            <==> && |t| >= 9 && t[0] == '[' && t[1] in {'e', 'E'} && t[2] in {'m', 'M'} && t[3] in {'o', 'O'}
                 && t[4] in {'t', 'T'} && t[5] in {'i', 'I', '\U{0130}', '\U{0131}'} && t[6] in {'o', 'O'}
                 && t[7] in {'n', 'N'} && t[8] == ':'
  {
    if |t| >= 9 {
      assert HasHead(t) ==> forall i :: 0 <= i < 9 ==> Fold(t[i]) == HEAD[i];
      assert HasHead(t) <==> Fold(t[0]) == HEAD[0] && Fold(t[1]) == HEAD[1] && Fold(t[2]) == HEAD[2]
                             && Fold(t[3]) == HEAD[3] && Fold(t[4]) == HEAD[4] && Fold(t[5]) == HEAD[5]
                             && Fold(t[6]) == HEAD[6] && Fold(t[7]) == HEAD[7] && Fold(t[8]) == HEAD[8];
    }
  }

  /** `word` is `name` in capitals, small letters or a mix. */
  predicate Spells(word: string, name: string) {
    && |word| == |name|
    && forall i :: 0 <= i < |name| ==>
         word[i] == name[i] || ('A' <= word[i] <= 'Z' && (word[i] as int) + 32 == name[i] as int)
  }

  /** A name has no capital letters. */
  predicate Small(name: string) { forall i :: 0 <= i < |name| ==> !('A' <= name[i] <= 'Z') }

  lemma {:induction false} LowerIff(word: string, name: string)
    requires Small(name)
    ensures Lower(word) == name <==> Spells(word, name)
  {
    if word != "" && name != "" {
      LowerIff(word[1..], name[1..]);
      assert name == [name[0]] + name[1..];
      assert Lower(word)[1..] == Lower(word[1..]);
      assert Spells(word, name) ==> Spells(word[1..], name[1..]);
      assert forall i :: 1 <= i < |name| ==> name[i] == name[1..][i - 1];
      assert forall i :: 1 <= i < |word| ==> word[i] == word[1..][i - 1];
    }
  }

  /** Which emotion a tag names, exactly: one of these five if, padding aside, it spells that
      name in any case, and "neutral" for everything else. */
  lemma EmotionIff(emotion: string, name: string)
    requires name in {"happy", "sad", "angry", "surprised", "confused"}
    ensures NormalizeEmotion(emotion) == name <==> Spells(Strip(emotion), name)
    ensures (forall other :: other in {"happy", "sad", "angry", "surprised", "confused"} ==>
               !Spells(Strip(emotion), other)) ==> NormalizeEmotion(emotion) == "neutral"
  {
    hide Lower, Strip, Spells;
    var word := Strip(emotion);
    forall other | other in {"happy", "sad", "angry", "surprised", "confused"}
      ensures Lower(word) == other <==> Spells(word, other)
    {
      LowerIff(word, other);
    }
    if Lower(word) in STANDARD_EMOTIONS && Lower(word) != "neutral" {
      assert Lower(word) in {"happy", "sad", "angry", "surprised", "confused"};
      assert Spells(word, Lower(word));
    }
  }
}
