/**
 * The lexical rewriting rules of the remix engine: connector prefixes, the
 * scene prefix, the reflection sentence, the pull-quote line and the
 * three-slider language skin.
 */
module Rewriter {
  import opened Text
  import opened Segmenter

  // ---- structure: connectors ----

  /** The sentence already opens with one of the eight connector words. */
  predicate HasConnector(s: string) {
    StartsWith(s, "首先") || StartsWith(s, "接着") || StartsWith(s, "随后") || StartsWith(s, "同时")
    || StartsWith(s, "另外") || StartsWith(s, "最后") || StartsWith(s, "最终") || StartsWith(s, "因此")
  }

  /** `addConnector`: the trimmed sentence, behind `connector，` unless it
      already opens with a connector word. */
  function AddConnector(sentence: string, connector: string): (r: string)
    ensures EndsWith(r, Trim(sentence))
    ensures HasConnector(Trim(sentence)) ==> r == Trim(sentence)
    ensures !HasConnector(Trim(sentence)) ==> StartsWith(r, connector + "，")
    ensures !HasConnector(Trim(sentence)) ==> |r| == |connector| + 1 + |Trim(sentence)|
    ensures HasConnector(connector) ==> HasConnector(r)
  {
    var t := Trim(sentence);
    if HasConnector(t) then t
    else
      var r := connector + "，" + t;
      assert r[|r| - |t|..] == t;
      assert StartsWith(r, connector + "，") by { assert r[..|connector| + 1] == connector + "，"; }
      ConnectorPrefix(connector, "，" + t);
      assert r == connector + ("，" + t);
      r
  }

  lemma ConnectorPrefix(c: string, rest: string)
    ensures HasConnector(c) ==> HasConnector(c + rest)
  {
    forall w | StartsWith(c, w) ensures StartsWith(c + rest, w) {
      StartsWithAppend(c, rest, w);
    }
  }

  /** A sentence that opens with a connector word opens with a non-space. */
  lemma ConnectorStartsSolid(s: string)
    requires HasConnector(s)
    ensures s != [] && !IsWs(s[0])
  {
    assert s[..2][0] == s[0];
  }

  /** Adding a connector word gives a trimmed sentence that opens with one:
      adding any connector to it again changes nothing. */
  lemma AddConnectorIdempotent(s: string, c: string, d: string)
    requires HasConnector(c)
    ensures AddConnector(AddConnector(s, c), d) == AddConnector(s, c)
  {
    var r := AddConnector(s, c);
    ConnectorStartsSolid(r);
    var t := Trim(s);
    if !HasConnector(t) {
      assert r == c + "，" + t;
      if t == [] {
        assert r[|r| - 1] == '，';
      } else {
        assert r[|r| - 1] == t[|t| - 1];
      }
    }
    TrimOfTrimmed(r);
  }

  /** The positions `applyStructure` rewrites. */
  predicate Connected(n: nat, i: nat) {
    i == 0 || (n > 2 && (i == 1 || i == n - 1))
  }

  /** The connector of a rewritten position among `n`: the first always, the
      second and the last only when there are more than two. */
  function ConnectorAt(n: nat, i: nat): (c: string)
    requires Connected(n, i)
    ensures HasConnector(c)
  {
    if i == 0 then "首先" else if i == 1 then "接着" else "最后"
  }

  function StructureAt(sentences: seq<string>, i: nat): string
    requires i < |sentences|
  {
    if Connected(|sentences|, i) then AddConnector(sentences[i], ConnectorAt(|sentences|, i))
    else sentences[i]
  }

  /** `applyStructure`: same number of sentences; the rewritten ones open with
      a connector and keep their trimmed text; the others are untouched. */
  function ApplyStructure(sentences: seq<string>): (r: seq<string>)
    ensures |r| == |sentences|
    ensures forall i | 0 <= i < |r| && Connected(|r|, i) ::
              HasConnector(r[i]) && EndsWith(r[i], Trim(sentences[i]))
    ensures forall i | 0 <= i < |r| && !Connected(|r|, i) :: r[i] == sentences[i]
    ensures |r| > 0 ==> r[0] == AddConnector(sentences[0], "首先")
    ensures |r| > 2 ==> r[1] == AddConnector(sentences[1], "接着")
    ensures |r| > 2 ==> r[|r| - 1] == AddConnector(sentences[|r| - 1], "最后")
  {
    seq(|sentences|, i requires 0 <= i < |sentences| => StructureAt(sentences, i))
  }

  /** Applying the structure rule twice is applying it once. */
  lemma ApplyStructureIdempotent(sentences: seq<string>)
    ensures ApplyStructure(ApplyStructure(sentences)) == ApplyStructure(sentences)
  {
    var r := ApplyStructure(sentences);
    var rr := ApplyStructure(r);
    forall i | 0 <= i < |r| ensures rr[i] == r[i] {
      StructureStable(sentences, i);
    }
  }

  lemma StructureStable(sentences: seq<string>, i: nat)
    requires i < |sentences|
    ensures StructureAt(ApplyStructure(sentences), i) == StructureAt(sentences, i)
  {
    var r := ApplyStructure(sentences);
    assert r[i] == StructureAt(sentences, i);
    if Connected(|sentences|, i) {
      var c := ConnectorAt(|sentences|, i);
      AddConnectorIdempotent(sentences[i], c, c);
    }
  }

  // ---- perception: the scene prefix ----

  const ScenePrefix: string := "在画面上，"

  /** `/^在(画面|场景|细节)/`. */
  predicate HasScene(s: string) {
    StartsWith(s, "在画面") || StartsWith(s, "在场景") || StartsWith(s, "在细节")
  }

  /** The sentences after `applyPerception`. */
  function Perceived(sentences: seq<string>): (r: seq<string>)
    ensures |r| == |sentences|
    ensures |r| > 0 ==> HasScene(r[0]) && EndsWith(r[0], sentences[0]) && r[1..] == sentences[1..]
    ensures |r| > 0 && HasScene(sentences[0]) ==> r == sentences
    ensures |r| > 0 && !HasScene(sentences[0]) ==> r[0] == ScenePrefix + sentences[0]
  {
    if |sentences| == 0 || HasScene(sentences[0]) then sentences
    else
      var first := ScenePrefix + sentences[0];
      assert first[..3] == "在画面";
      assert first[|first| - |sentences[0]|..] == sentences[0];
      sentences[0 := first]
  }

  /** The scene prefix is never added twice. */
  lemma PerceivedIdempotent(sentences: seq<string>)
    ensures Perceived(Perceived(sentences)) == Perceived(sentences)
  {
  }

  /** `applyPerception`: rewrites the first slot of the array in place. */
  method ApplyPerception(a: array<string>)
    modifies a
    ensures a[..] == Perceived(old(a[..]))
  {
    if a.Length == 0 {
      return;
    }
    if HasScene(a[0]) {
      return;
    }
    a[0] := ScenePrefix + a[0];
  }

  // ---- meaning: the reflection sentence ----

  const Reflection: string := "这也提示了其中的意义走向。"

  /** `applyMeaning`: the sentences, then the reflection. */
  function ApplyMeaning(sentences: seq<string>): (r: seq<string>)
    ensures |r| == |sentences| + 1 && r[..|sentences|] == sentences && r[|sentences|] == Reflection
  {
    sentences + [Reflection]
  }

  /** Joined without a separator, the result is the joined sentences followed
      by the reflection. */
  lemma {:induction false} MeaningJoin(sentences: seq<string>)
    ensures Join(ApplyMeaning(sentences), "") == Join(sentences, "") + Reflection
    decreases |sentences|
  {
    var r := ApplyMeaning(sentences);
    if |sentences| >= 2 {
      MeaningJoin(sentences[1..]);
      assert r[1..] == ApplyMeaning(sentences[1..]);
    } else if |sentences| == 1 {
      assert r[1..] == [Reflection];
    }
  }

  // ---- distribution: the pull-quote line ----

  /** `s.replace(/[。！？!?]/g, "")`. */
  function StripMarks(s: string): (r: string)
    ensures |r| <= |s|
    ensures forall c :: c in r <==> c in s && !IsTerminal(c)
    ensures (forall c | c in s :: !IsTerminal(c)) ==> r == s
  {
    if s == [] then []
    else (if IsTerminal(s[0]) then [] else [s[0]]) + StripMarks(s[1..])
  }

  /** Stripping works piece by piece and keeps the order of what remains: a
      single character is dropped exactly when it is a terminal mark, and
      the stripped text of `a + b` is that of `a` followed by that of `b`. */
  lemma {:induction false} StripMarksAppend(a: string, b: string)
    ensures StripMarks(a + b) == StripMarks(a) + StripMarks(b)
    ensures |a| == 1 ==> StripMarks(a) == (if IsTerminal(a[0]) then [] else a)
  {
    if a == [] {
      assert a + b == b;
    } else {
      TailOfAppend(a, b);
      StripMarksAppend(a[1..], b);
      var h: string := if IsTerminal(a[0]) then [] else [a[0]];
      AppendAssoc(h, StripMarks(a[1..]), StripMarks(b));
      if |a| == 1 {
        assert a[1..] == [];
        AppendEmpty(h);
      }
    }
  }

  const PullQuoteLabel: string := "\n一句话："
  const PullQuoteMax: nat := 24

  /** The text of the pull quote: the paragraph without terminal marks, trimmed,
      cut to its first 24 characters. */
  function PullQuote(paragraph: string): (q: string)
    ensures q != [] <==> Trim(StripMarks(paragraph)) != []
    ensures |q| <= PullQuoteMax
    ensures |q| == if |Trim(StripMarks(paragraph))| <= PullQuoteMax then |Trim(StripMarks(paragraph))| else PullQuoteMax
    ensures q != [] ==> !IsWs(q[0])
    ensures forall c | c in q :: !IsTerminal(c)
    ensures StartsWith(Trim(StripMarks(paragraph)), q)
  {
    var cleaned := Trim(StripMarks(paragraph));
    var q := if |cleaned| <= PullQuoteMax then cleaned else cleaned[..PullQuoteMax];
    NoMarksInTrim(StripMarks(paragraph));
    assert forall c | c in q :: c in cleaned;
    q
  }

  lemma NoMarksInTrim(s: string)
    requires forall c | c in s :: !IsTerminal(c)
    ensures forall c | c in Trim(s) :: !IsTerminal(c)
  {
    var a := TrimSlice(s);
    forall c | c in Trim(s) ensures c in s {
      var j :| 0 <= j < |Trim(s)| && Trim(s)[j] == c;
      assert s[a + j] == c;
    }
  }

  /** `applyDistribution`: the paragraph, unchanged as a prefix, then the
      pull-quote line; nothing is added when the cleaned text is empty. */
  function ApplyDistribution(paragraph: string): (r: string)
    ensures StartsWith(r, paragraph)
    ensures r == paragraph <==> PullQuote(paragraph) == []
    ensures r != paragraph ==> r == paragraph + PullQuoteLabel + PullQuote(paragraph) + "。"
  {
    var q := PullQuote(paragraph);
    if q == [] then paragraph
    else
      var r := paragraph + PullQuoteLabel + q + "。";
      assert r[..|paragraph|] == paragraph;
      r
  }

  // ---- the language skin ----

  /** The three sliders of the language skin. */
  datatype Skin = Skin(sentenceLength: real, abstraction: real, emotion: real)

  predicate InBand(v: real) { 40.0 <= v <= 70.0 }

  /** The character at `j` after swapping `d` in for the first `n` matches of `c`:
      position `j` changes exactly when it holds `c` and fewer than `n`
      occurrences of `c` come before it. */
  function SwapAt(s: string, c: char, d: char, n: nat, j: nat): char
    requires j < |s|
  {
    if s[j] == c && Count(s[..j], c) < n then d else s[j]
  }

  /** `s.replace(/c/g, cb)` where the callback swaps in `d` for the first `n`
      matches only. */
  function ReplaceFirstN(s: string, c: char, d: char, n: nat): (r: string)
    ensures |r| == |s|
  {
    seq(|s|, j requires 0 <= j < |s| => SwapAt(s, c, d, n, j))
  }

  /** `s.replace(/c$/, d)`: only a final `c` changes. */
  function ReplaceLast(s: string, c: char, d: char): (r: string)
    ensures |r| == |s| && (s != [] ==> r[..|s| - 1] == s[..|s| - 1])
    ensures s != [] && s[|s| - 1] == c ==> r[|s| - 1] == d
    ensures s == [] || s[|s| - 1] != c ==> r == s
  {
    if s != [] && s[|s| - 1] == c then s[..|s| - 1] + [d] else s
  }

  /** The prefix for concrete writing (abstraction below 40). */
  const ConcretePrefix: string := "具体来说，"
  /** The prefix for abstract writing (abstraction above 70). */
  const AbstractPrefix: string := "从更抽象的层面看，"

  /** `applyLanguageSkin` as a function of the paragraph and the sliders. */
  function SkinText(text: string, skin: Skin): string {
    var t1 := if skin.abstraction < 40.0 && !StartsWith(text, "具体来说") then ConcretePrefix + text else text;
    var t2 := if skin.abstraction > 70.0 && !StartsWith(t1, "从更抽象的层面看") then AbstractPrefix + t1 else t1;
    var t3 := if skin.sentenceLength < 40.0 then ReplaceFirstN(t2, '，', '。', 2) else t2;
    var t4 := if skin.sentenceLength > 70.0 then ReplaceFirstN(t3, '。', '，', 2) else t3;
    var t5 := if skin.emotion < 40.0 then ReplaceChar(t4, '！', "。") else t4;
    if skin.emotion > 70.0 then ReplaceLast(t5, '。', '！') else t5
  }

  /** `text.replace(/c/g, cb)` with the `replaced` counter of the callback. */
  method ReplaceCounted(text: string, c: char, d: char, limit: nat) returns (out: string)
    ensures out == ReplaceFirstN(text, c, d, limit)
  {
    var replaced := 0;
    out := [];
    var i := 0;
    while i < |text|
      invariant 0 <= i <= |text|
      invariant |out| == i
      invariant replaced == if Count(text[..i], c) < limit then Count(text[..i], c) else limit
      invariant forall j | 0 <= j < i :: out[j] == SwapAt(text, c, d, limit, j)
    {
      CountSnoc(text, c, i);
      var x := text[i];
      if text[i] == c && replaced < limit {
        replaced := replaced + 1;
        x := d;
      }
      assert x == SwapAt(text, c, d, limit, i);
      out := out + [x];
      i := i + 1;
    }
  }

  /** `text.replace(/c/g, d)` for a one-character replacement. */
  method ReplaceAllChars(text: string, c: char, d: char) returns (out: string)
    ensures out == ReplaceChar(text, c, [d])
  {
    out := [];
    var i := 0;
    while i < |text|
      invariant 0 <= i <= |text|
      invariant out == ReplaceChar(text[..i], c, [d])
    {
      ReplaceCharAppend(text[..i], [text[i]], c, [d]);
      assert text[..i + 1] == text[..i] + [text[i]];
      out := out + (if text[i] == c then [d] else [text[i]]);
      i := i + 1;
    }
    assert text[..i] == text;
  }

  /** `applyLanguageSkin`: the paragraph reassigned step by step. */
  method ApplyLanguageSkin(paragraph: string, skin: Skin) returns (text: string)
    ensures text == SkinText(paragraph, skin)
  {
    text := paragraph;
    if skin.abstraction < 40.0 && !StartsWith(text, "具体来说") {
      text := ConcretePrefix + text;
    }
    if skin.abstraction > 70.0 && !StartsWith(text, "从更抽象的层面看") {
      text := AbstractPrefix + text;
    }
    if skin.sentenceLength < 40.0 {
      text := ReplaceCounted(text, '，', '。', 2);
    }
    if skin.sentenceLength > 70.0 {
      text := ReplaceCounted(text, '。', '，', 2);
    }
    if skin.emotion < 40.0 {
      text := ReplaceAllChars(text, '！', '。');
    }
    if skin.emotion > 70.0 {
      text := ReplaceLast(text, '。', '！');
    }
  }

  // ---- what the skin promises ----

  function Min(a: nat, b: nat): nat { if a <= b then a else b }

  /** With all three sliders between 40 and 70 the skin changes nothing. */
  lemma SkinIdentityInBand(text: string, skin: Skin)
    requires InBand(skin.sentenceLength) && InBand(skin.abstraction) && InBand(skin.emotion)
    ensures SkinText(text, skin) == text
  {
  }

  lemma ReplaceFirstNPrefix(s: string, c: char, d: char, n: nat, k: nat)
    requires k <= |s|
    ensures ReplaceFirstN(s, c, d, n)[..k] == ReplaceFirstN(s[..k], c, d, n)
  {
    forall j | 0 <= j < k ensures SwapAt(s, c, d, n, j) == SwapAt(s[..k], c, d, n, j) {
      assert s[..k][..j] == s[..j];
    }
  }

  /** Exactly the first `min(n, count)` occurrences of `c` become `d`:
      the count of `c` drops by that much and the count of `d` grows by it. */
  lemma {:induction false} ReplacedCount(s: string, c: char, d: char, n: nat, k: nat)
    requires c != d && k <= |s|
    ensures var r := ReplaceFirstN(s, c, d, n);
            var m := Min(n, Count(s[..k], c));
            Count(r[..k], c) == Count(s[..k], c) - m && Count(r[..k], d) == Count(s[..k], d) + m
    decreases k
  {
    var r := ReplaceFirstN(s, c, d, n);
    if k == 0 {
      assert r[..0] == [] && s[..0] == [];
    } else {
      ReplacedCount(s, c, d, n, k - 1);
      CountSnoc(s, c, k - 1);
      CountSnoc(s, d, k - 1);
      CountSnoc(r, c, k - 1);
      CountSnoc(r, d, k - 1);
      assert r[k - 1] == SwapAt(s, c, d, n, k - 1);
    }
  }

  /** Exactly the occurrences of `c` with fewer than `n` before them change. */
  lemma ReplaceFirstNChanges(s: string, c: char, d: char, n: nat)
    requires c != d
    ensures forall j | 0 <= j < |s| :: ReplaceFirstN(s, c, d, n)[j] != s[j] <==> s[j] == c && Count(s[..j], c) < n
  {
  }

  /** Only occurrences of `c` can change, and only into `d`. */
  lemma ReplaceFirstNOnlySwaps(s: string, c: char, d: char, n: nat)
    ensures forall j | 0 <= j < |s| && ReplaceFirstN(s, c, d, n)[j] != s[j] ::
              s[j] == c && ReplaceFirstN(s, c, d, n)[j] == d
  {
  }

  lemma ReplaceCharSingle(s: string, c: char, e: char)
    ensures |ReplaceChar(s, c, [e])| == |s|
    ensures forall j | 0 <= j < |s| :: ReplaceChar(s, c, [e])[j] == if s[j] == c then e else s[j]
  {
    if s != [] {
      ReplaceCharSingle(s[1..], c, e);
      var r := ReplaceChar(s, c, [e]);
      assert r == [if s[0] == c then e else s[0]] + ReplaceChar(s[1..], c, [e]);
      forall j | 0 <= j < |s| ensures r[j] == if s[j] == c then e else s[j] {
        if j > 0 { assert s[j] == s[1..][j - 1]; }
      }
    }
  }

  /** Short sentences (below 40): at most the first two `，` become `。` and
      nothing else changes. */
  lemma ShortSentences(text: string, skin: Skin)
    requires skin.sentenceLength < 40.0 && InBand(skin.abstraction) && InBand(skin.emotion)
    ensures var r := SkinText(text, skin);
            |r| == |text|
            && Count(r, '，') == Count(text, '，') - Min(2, Count(text, '，'))
            && Count(r, '。') == Count(text, '。') + Min(2, Count(text, '，'))
            && forall j | 0 <= j < |text| && r[j] != text[j] :: text[j] == '，' && r[j] == '。'
    ensures var r := SkinText(text, skin);
            forall j | 0 <= j < |text| :: r[j] != text[j] <==> text[j] == '，' && Count(text[..j], '，') < 2
  {
    var r := ReplaceFirstN(text, '，', '。', 2);
    ReplacedCount(text, '，', '。', 2, |text|);
    assert r[..|text|] == r && text[..|text|] == text;
    ReplaceFirstNOnlySwaps(text, '，', '。', 2);
    ReplaceFirstNChanges(text, '，', '。', 2);
  }

  /** Long sentences (above 70): at most the first two `。` become `，`; when the
      text holds at most two of them and ends with one, the final one changes too. */
  lemma LongSentences(text: string, skin: Skin)
    requires skin.sentenceLength > 70.0 && InBand(skin.abstraction) && InBand(skin.emotion)
    ensures var r := SkinText(text, skin);
            |r| == |text|
            && Count(r, '。') == Count(text, '。') - Min(2, Count(text, '。'))
            && forall j | 0 <= j < |text| && r[j] != text[j] :: text[j] == '。' && r[j] == '，'
    ensures var r := SkinText(text, skin);
            forall j | 0 <= j < |text| :: r[j] != text[j] <==> text[j] == '。' && Count(text[..j], '。') < 2
    ensures text != [] && text[|text| - 1] == '。' && Count(text, '。') <= 2 ==>
              SkinText(text, skin)[|text| - 1] == '，'
  {
    var r := ReplaceFirstN(text, '。', '，', 2);
    ReplacedCount(text, '。', '，', 2, |text|);
    assert r[..|text|] == r && text[..|text|] == text;
    ReplaceFirstNOnlySwaps(text, '。', '，', 2);
    ReplaceFirstNChanges(text, '。', '，', 2);
    if text != [] && text[|text| - 1] == '。' && Count(text, '。') <= 2 {
      var k := |text| - 1;
      CountSnoc(text, '。', k);
      assert text[..k + 1] == text;
    }
  }

  /** Restrained emotion (below 40): every fullwidth `！` becomes `。`; the
      ASCII `!` and every other character are kept. */
  lemma RestrainedEmotion(text: string, skin: Skin)
    requires skin.emotion < 40.0 && InBand(skin.sentenceLength) && InBand(skin.abstraction)
    ensures var r := SkinText(text, skin);
            |r| == |text| && '！' !in r
            && forall j | 0 <= j < |text| :: r[j] == if text[j] == '！' then '。' else text[j]
  {
    ReplaceCharSingle(text, '！', '。');
  }

  /** Expressive emotion (above 70): only a final `。` changes, into `！`. */
  lemma ExpressiveEmotion(text: string, skin: Skin)
    requires skin.emotion > 70.0 && InBand(skin.sentenceLength) && InBand(skin.abstraction)
    ensures var r := SkinText(text, skin);
            |r| == |text| && (text != [] ==> r[..|text| - 1] == text[..|text| - 1])
            && (text != [] && text[|text| - 1] == '。' ==> r[|text| - 1] == '！')
            && (text == [] || text[|text| - 1] != '。' ==> r == text)
  {
  }

  /** With only the abstraction slider out of band, the skin adds its prefix
      at most once: applying it twice is applying it once. */
  lemma AbstractionPrefixOnce(text: string, skin: Skin)
    requires InBand(skin.sentenceLength) && InBand(skin.emotion)
    ensures SkinText(SkinText(text, skin), skin) == SkinText(text, skin)
  {
    var r := SkinText(text, skin);
    if skin.abstraction < 40.0 && !StartsWith(text, "具体来说") {
      assert r[..4] == "具体来说";
    }
    if skin.abstraction > 70.0 && !StartsWith(text, "从更抽象的层面看") {
      assert r[..8] == "从更抽象的层面看";
    }
  }

  /** The skin never shortens the text. */
  lemma SkinKeepsLength(text: string, skin: Skin)
    ensures |SkinText(text, skin)| >= |text|
  {
    var t1 := if skin.abstraction < 40.0 && !StartsWith(text, "具体来说") then ConcretePrefix + text else text;
    var t2 := if skin.abstraction > 70.0 && !StartsWith(t1, "从更抽象的层面看") then AbstractPrefix + t1 else t1;
    var t3 := if skin.sentenceLength < 40.0 then ReplaceFirstN(t2, '，', '。', 2) else t2;
    var t4 := if skin.sentenceLength > 70.0 then ReplaceFirstN(t3, '。', '，', 2) else t3;
    ReplaceCharSingle(t4, '！', '。');
  }
}
