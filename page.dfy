/**
 * The page's `runRemixEngine` and the helpers around it: the facts list, the
 * canonical view, the structure plan, the Fact Lock section and the
 * language-skin hint line.
 */
module PageEngine {
  import opened Text
  import opened Segmenter
  import opened Allocation
  import opened Rewriter
  import opened Remix
  import opened PageAllocations

  // ---- facts ----

  lemma {:induction false} SplitOnAllWs(s: string, c: char)
    ensures AllWs(s) ==> AllBlank(SplitOn(s, c))
    decreases |s|
  {
    if c in s && AllWs(s) {
      var i := IndexOfChar(s, c);
      AllWsSplit(s, i);
      AllWsSplit(s, i + 1);
      SplitOnAllWs(s[i + 1..], c);
      AllBlankCons(SplitOn(s, c));
    }
  }

  lemma LinesBlank(s: string)
    ensures AllBlank(SplitOn(s, '\n')) <==> AllWs(s)
  {
    SplitOnAllWs(s, '\n');
    JoinAllWs(SplitOn(s, '\n'), "\n");
  }

  /** `facts`: the lines of the facts text, trimmed, blank lines dropped. */
  function Facts(factsText: string): (r: seq<string>)
    ensures forall k | 0 <= k < |r| :: r[k] != [] && Trimmed(r[k]) && '\n' !in r[k]
    ensures r == [] <==> AllWs(factsText)
    ensures r == CleanPieces(SplitOn(factsText, '\n'))
  {
    var lines := SplitOn(factsText, '\n');
    CleanPiecesKeepNoChar(lines, '\n');
    CleanPiecesTrimmed(lines);
    LinesBlank(factsText);
    CleanPieces(lines)
  }

  // ---- runRemixEngine ----

  /** Each item prefixed with `- `. */
  function Bullets(items: seq<string>): seq<string> {
    seq(|items|, k requires 0 <= k < |items| => "- " + items[k])
  }

  lemma {:induction false} JoinBullets(items: seq<string>)
    requires items != []
    ensures "- " + Join(items, "\n- ") == Join(Bullets(items), "\n")
    decreases |items|
  {
    if |items| > 1 {
      var rest := items[1..];
      var b := Bullets(items);
      JoinBullets(rest);
      assert b == [b[0]] + Bullets(rest);
      JoinCons(b[0], Bullets(rest), "\n");
      var j := Join(rest, "\n- ");
      calc {
        "- " + Join(items, "\n- ");
        "- " + (items[0] + "\n- " + j);
        ("- " + items[0]) + "\n" + ("- " + j);
        b[0] + "\n" + Join(Bullets(rest), "\n");
      }
    }
  }

  const FactLockTitle := "事实锁定（Fact Lock）："

  /** The Fact Lock section: nothing without facts, otherwise a blank line,
      the title, and one `- ` line per fact. */
  function FactLock(facts: seq<string>): (r: string)
    ensures r == [] <==> facts == []
  {
    if facts == [] then "" else "\n\n" + FactLockTitle + "\n- " + Join(facts, "\n- ")
  }

  /** The lines of the Fact Lock section: two empty lines, the title, then
      exactly one bullet per fact. */
  lemma FactLockLines(facts: seq<string>)
    requires facts != [] && forall k | 0 <= k < |facts| :: '\n' !in facts[k]
    ensures SplitOn(FactLock(facts), '\n') == ["", "", FactLockTitle] + Bullets(facts)
  {
    var b := Bullets(facts);
    var lines := ["", "", FactLockTitle] + b;
    FactLockAsJoin(facts);
    BulletsOneLine(facts);
    assert '\n' !in FactLockTitle;
    forall k | 0 <= k < |lines| ensures '\n' !in lines[k] {
      if k >= 3 {
        assert lines[k] == b[k - 3];
      }
    }
    SplitOnJoin(lines, '\n');
  }

  lemma FactLockAsJoin(facts: seq<string>)
    requires facts != []
    ensures FactLock(facts) == Join(["", "", FactLockTitle] + Bullets(facts), "\n")
  {
    var b := Bullets(facts);
    JoinBullets(facts);
    var lines := ["", "", FactLockTitle] + b;
    JoinCons(FactLockTitle, b, "\n");
    assert lines[2..] == [FactLockTitle] + b;
    JoinCons("", lines[2..], "\n");
    assert lines[1..] == [""] + lines[2..];
    JoinCons("", lines[1..], "\n");
    assert lines == [""] + lines[1..];
  }

  lemma BulletsOneLine(items: seq<string>)
    requires forall k | 0 <= k < |items| :: '\n' !in items[k]
    ensures forall k | 0 <= k < |items| :: '\n' !in Bullets(items)[k]
  {
  }

  function RoleLabel(r: Role): string {
    match r
    case Opening => "开场（Opening）"
    case Development => "展开（Development）"
    case Turn => "转折（Turn）"
    case Closing => "结尾（Closing）"
  }

  function PlanTag(i: nat): string {
    "P" + NatToString(i + 1) + ": "
  }

  /** `P{i+1}: role -> primary + secondary`. */
  function PlanLine(i: nat, a: Allocation): string {
    PlanTag(i) + (RoleLabel(a.role) + " -> " + StyleLabel(a.primary) + " + " + StyleLabel(a.secondary))
  }

  function PlanLines(allocations: seq<PageAllocation>): seq<string> {
    seq(|allocations|, i requires 0 <= i < |allocations| => PlanLine(i, allocations[i].allocation))
  }

  lemma RoleLabelOneLine(r: Role)
    ensures '\n' !in RoleLabel(r)
  {
    match r
    case Opening =>
    case Development =>
    case Turn =>
    case Closing =>
  }

  lemma StyleLabelOneLine(k: StyleKey)
    ensures '\n' !in StyleLabel(k)
  {
    match k
    case Structure =>
    case Perception =>
    case Meaning =>
    case Distribution =>
  }

  lemma PlanLineOneLine(i: nat, a: Allocation)
    ensures '\n' !in PlanLine(i, a)
  {
    var n := NatToString(i + 1);
    assert '\n' !in n;
    RoleLabelOneLine(a.role);
    StyleLabelOneLine(a.primary);
    StyleLabelOneLine(a.secondary);
    var tail := RoleLabel(a.role) + " -> " + StyleLabel(a.primary) + " + " + StyleLabel(a.secondary);
    assert '\n' !in tail;
    assert '\n' !in PlanTag(i);
  }

  /** A plan joined by newlines splits back into its lines, line `i` tagged
      `P{i+1}: `. */
  lemma PlanLinesSplit(allocations: seq<PageAllocation>)
    requires allocations != []
    ensures var lines := PlanLines(allocations);
            SplitOn(Join(lines, "\n"), '\n') == lines
            && forall i | 0 <= i < |lines| :: StartsWith(lines[i], PlanTag(i))
  {
    var lines := PlanLines(allocations);
    forall i | 0 <= i < |lines| ensures '\n' !in lines[i] {
      PlanLineOneLine(i, allocations[i].allocation);
    }
    SplitOnJoin(lines, '\n');
  }

  datatype EngineResult = EngineResult(canonical: string, structurePlan: string, final: string, allocations: seq<PageAllocation>)

  /** `runRemixEngine`: at least one allocation (`paragraphs.length || 1`), a
      canonical list that is empty only for a blank text, and the library's
      remix followed by the hint line and, when there are facts, the Fact
      Lock section. */
  function RunRemixEngine(rawText: string, facts: seq<string>, mix: Scores, skin: Skin, contentType: string): (r: EngineResult)
    ensures |r.allocations| >= 1
    ensures SplitParagraphs(rawText) != [] ==> |r.allocations| == |SplitParagraphs(rawText)|
    ensures r.canonical == [] <==> AllWs(rawText)
  {
    var paragraphs := SplitParagraphs(rawText);
    var allocations := EngineAllocations(|paragraphs|, mix, contentType);
    EngineResult(
      Canonical(paragraphs),
      Join(PlanLines(allocations), "\n"),
      FinalText(RemixText(rawText, mix, skin, contentType), skin, facts),
      allocations)
  }

  /** `final`: the remix, a blank line, the hint line, then the Fact Lock
      section when there are facts. */
  function FinalText(remix: string, skin: Skin, facts: seq<string>): (r: string)
    ensures StartsWith(r, remix + "\n\n" + LanguageHints(skin))
    ensures facts == [] ==> r == remix + "\n\n" + LanguageHints(skin)
    ensures EndsWith(r, FactLock(facts))
    ensures |r| == |remix| + 2 + |LanguageHints(skin)| + |FactLock(facts)|
  {
    var head := remix + "\n\n" + LanguageHints(skin);
    assert (head + FactLock(facts))[..|head|] == head;
    assert (head + FactLock(facts))[|head|..] == FactLock(facts);
    head + FactLock(facts)
  }

  /** `computeAllocations` with `count: paragraphs.length || 1`. */
  function EngineAllocations(paragraphCount: nat, mix: Scores, contentType: string): (r: seq<PageAllocation>)
    ensures |r| >= 1 && (paragraphCount > 0 ==> |r| == paragraphCount)
  {
    ComputePageAllocations(mix, if paragraphCount == 0 then 1 else paragraphCount, contentType)
  }

  /** `canonical`: every paragraph behind `- `, one per line; empty exactly
      when there is no paragraph. */
  function Canonical(paragraphs: seq<string>): (c: string)
    ensures c == [] <==> paragraphs == []
  {
    var b := Bullets(paragraphs);
    if paragraphs != [] then
      JoinLength(b, "\n");
      assert |b[0]| >= 2;
      Join(b, "\n")
    else Join(b, "\n")
  }

  /** The structure plan has exactly one line per allocation, line `i`
      tagged `P{i+1}: `. */
  lemma PlanOneLinePerAllocation(rawText: string, facts: seq<string>, mix: Scores, skin: Skin, contentType: string)
    ensures var r := RunRemixEngine(rawText, facts, mix, skin, contentType);
            var lines := SplitOn(r.structurePlan, '\n');
            |lines| == |r.allocations| >= 1
            && forall i | 0 <= i < |lines| :: StartsWith(lines[i], PlanTag(i))
  {
    var r := RunRemixEngine(rawText, facts, mix, skin, contentType);
    PlanLinesSplit(r.allocations);
  }

  /** Without a blank line in the text, the canonical view has one line per
      paragraph, each the paragraph behind `- `. */
  lemma CanonicalLines(rawText: string, facts: seq<string>, mix: Scores, skin: Skin, contentType: string)
    requires !AllWs(rawText) && !HasBlankLine(Trim(rawText))
    ensures SplitOn(RunRemixEngine(rawText, facts, mix, skin, contentType).canonical, '\n')
            == Bullets(SplitParagraphs(rawText))
  {
    var ps := SplitParagraphs(rawText);
    BulletsOneLine(ps);
    SplitOnJoin(Bullets(ps), '\n');
  }

  /** Without facts the final text is the remix, a blank line and the hint
      line, and nothing more. */
  lemma FinalWithoutFacts(rawText: string, mix: Scores, skin: Skin, contentType: string)
    ensures RunRemixEngine(rawText, [], mix, skin, contentType).final
            == RemixText(rawText, mix, skin, contentType) + "\n\n" + LanguageHints(skin)
  {
  }

  /** With facts taken from a facts text that is not blank, the final text
      ends with the Fact Lock section, whose lines are the title and one
      bullet per fact. */
  lemma FinalLocksFacts(rawText: string, factsText: string, mix: Scores, skin: Skin, contentType: string)
    requires !AllWs(factsText)
    ensures var facts := Facts(factsText);
            var r := RunRemixEngine(rawText, facts, mix, skin, contentType);
            StartsWith(r.final, RemixText(rawText, mix, skin, contentType) + "\n\n" + LanguageHints(skin))
            && EndsWith(r.final, FactLock(facts))
            && SplitOn(FactLock(facts), '\n') == ["", "", FactLockTitle] + Bullets(facts)
  {
    FactLockLines(Facts(factsText));
  }


  // ---- language hints ----

  datatype Band = Low | Middle | High

  /** Below 40 is low, above 70 is high, the rest is the middle. */
  function BandOf(v: real): (b: Band)
    ensures b == Middle <==> InBand(v)
    ensures b == Low <==> v < 40.0
    ensures b == High <==> v > 70.0
  {
    if v < 40.0 then Low else if v > 70.0 then High else Middle
  }

  function SentenceWord(b: Band): string {
    match b
    case Low => "短（Short）"
    case High => "长（Long）"
    case Middle => "混合（Mixed）"
  }

  function AbstractionWord(b: Band): string {
    match b
    case Low => "更具体（Concrete）"
    case High => "更抽象（Abstract）"
    case Middle => "适中（Balanced）"
  }

  function EmotionWord(b: Band): string {
    match b
    case Low => "更克制（Restrained）"
    case High => "更外放（Expressive）"
    case Middle => "中性（Neutral）"
  }

  const HintsPrefix := "语言皮肤（Skin）："

  /** `getLanguageHints`: one label per slider, each chosen by that slider's
      band alone. */
  function LanguageHints(skin: Skin): string {
    HintsPrefix + (SentenceWord(BandOf(skin.sentenceLength))
      + AfterSentence(BandOf(skin.abstraction), BandOf(skin.emotion)))
  }

  function AfterSentence(a: Band, e: Band): string {
    "句为主，" + (AbstractionWord(a) + AfterAbstraction(e))
  }

  function AfterAbstraction(e: Band): string {
    "细节，" + (EmotionWord(e) + "情绪。")
  }

  /** Two strings that start with different two-character heads differ
      whatever follows; with equal heads, what follows must agree. */
  lemma Cancel(x: string, y: string, r1: string, r2: string)
    requires |x| >= 2 && |y| >= 2 && (x == y || x[0] != y[0] || x[1] != y[1])
    ensures x + r1 == y + r2 ==> x == y && r1 == r2
  {
    if x + r1 == y + r2 {
      assert (x + r1)[0] == x[0] && (y + r2)[0] == y[0];
      assert (x + r1)[1] == x[1] && (y + r2)[1] == y[1];
      assert (x + r1)[|x|..] == r1 && (y + r2)[|y|..] == r2;
    }
  }

  predicate HeadsDiffer(x: string, y: string)
    requires |x| >= 2 && |y| >= 2
  {
    x[0] != y[0] || x[1] != y[1]
  }

  lemma WordHeads(b1: Band, b2: Band)
    ensures b1 == b2 || HeadsDiffer(SentenceWord(b1), SentenceWord(b2))
    ensures b1 == b2 || HeadsDiffer(AbstractionWord(b1), AbstractionWord(b2))
    ensures b1 == b2 || HeadsDiffer(EmotionWord(b1), EmotionWord(b2))
  {
  }

  lemma AfterAbstractionInjective(e1: Band, e2: Band)
    ensures AfterAbstraction(e1) == AfterAbstraction(e2) ==> e1 == e2
  {
    WordHeads(e1, e2);
    Cancel("细节，", "细节，", EmotionWord(e1) + "情绪。", EmotionWord(e2) + "情绪。");
    Cancel(EmotionWord(e1), EmotionWord(e2), "情绪。", "情绪。");
  }

  lemma AfterSentenceInjective(a1: Band, e1: Band, a2: Band, e2: Band)
    ensures AfterSentence(a1, e1) == AfterSentence(a2, e2) ==> a1 == a2 && e1 == e2
  {
    WordHeads(a1, a2);
    Cancel("句为主，", "句为主，", AbstractionWord(a1) + AfterAbstraction(e1), AbstractionWord(a2) + AfterAbstraction(e2));
    Cancel(AbstractionWord(a1), AbstractionWord(a2), AfterAbstraction(e1), AfterAbstraction(e2));
    AfterAbstractionInjective(e1, e2);
  }

  /** The hint line names the band of every slider: two skins give the same
      line exactly when each slider falls in the same band. */
  lemma HintsDetermineBands(x: Skin, y: Skin)
    ensures LanguageHints(x) == LanguageHints(y) <==>
              BandOf(x.sentenceLength) == BandOf(y.sentenceLength)
              && BandOf(x.abstraction) == BandOf(y.abstraction)
              && BandOf(x.emotion) == BandOf(y.emotion)
  {
    var s1, s2 := BandOf(x.sentenceLength), BandOf(y.sentenceLength);
    var u1 := AfterSentence(BandOf(x.abstraction), BandOf(x.emotion));
    var u2 := AfterSentence(BandOf(y.abstraction), BandOf(y.emotion));
    WordHeads(s1, s2);
    Cancel(HintsPrefix, HintsPrefix, SentenceWord(s1) + u1, SentenceWord(s2) + u2);
    Cancel(SentenceWord(s1), SentenceWord(s2), u1, u2);
    AfterSentenceInjective(BandOf(x.abstraction), BandOf(x.emotion), BandOf(y.abstraction), BandOf(y.emotion));
  }
}
