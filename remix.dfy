/**
 * `applyStyles` and `remixText`: every paragraph rewritten by the two style
 * keys of its allocation, then passed through the language skin, and the
 * blocks joined by a blank line.
 */
module Remix {
  import opened Text
  import opened Segmenter
  import opened Allocation
  import opened RoleAssigner
  import opened Allocations
  import opened Rewriter

  /** The paragraph after `applyStyles` with the given two active keys. The
      rules run in a fixed order: structure, perception, meaning, the join,
      distribution, then the skin. */
  function Styled(paragraph: string, primary: StyleKey, secondary: StyleKey, skin: Skin): string {
    var active := {primary, secondary};
    var merged := Join(StyledSentences(SplitSentences(paragraph), active), "");
    var m := if Distribution in active then ApplyDistribution(merged) else merged;
    SkinText(m, skin)
  }

  /** The sentence rules of `applyStyles`, in their order. */
  function StyledSentences(s0: seq<string>, active: set<StyleKey>): seq<string> {
    var s1 := if Structure in active then ApplyStructure(s0) else s0;
    var s2 := if Perception in active then Perceived(s1) else s1;
    if Meaning in active then ApplyMeaning(s2) else s2
  }

  /** When a sentence rule is active and there is a sentence, some sentence
      holds text afterwards. */
  lemma StyledSentencesWrite(s0: seq<string>, active: set<StyleKey>)
    requires s0 != [] || Meaning in active
    requires Structure in active || Perception in active || Meaning in active
    ensures Join(StyledSentences(s0, active), "") != []
  {
    var s1 := if Structure in active then ApplyStructure(s0) else s0;
    var s2 := if Perception in active then Perceived(s1) else s1;
    var s3 := StyledSentences(s0, active);
    if Meaning in active {
      assert s3 == ApplyMeaning(s2) && s3[|s2|] == Reflection;
      PartJoins(s3, |s2|);
    } else if Perception in active {
      assert s3 == Perceived(s1) && |s1| == |s0|;
      PerceivedWrites(s1);
      PartJoins(s3, 0);
    } else {
      assert s3 == ApplyStructure(s0);
      StructureWrites(s0);
      PartJoins(s3, 0);
    }
  }

  /** A sentence that holds text makes the joined text non-empty. */
  lemma PartJoins(parts: seq<string>, k: nat)
    requires k < |parts| && parts[k] != []
    ensures Join(parts, "") != []
  {
    JoinLength(parts, "");
  }

  lemma PerceivedWrites(s: seq<string>)
    requires s != []
    ensures Perceived(s)[0] != []
  {
    assert HasScene(Perceived(s)[0]);
  }

  lemma StructureWrites(s: seq<string>)
    requires s != []
    ensures ApplyStructure(s)[0] != []
  {
    assert Connected(|s|, 0);
    ConnectorStartsSolid(ApplyStructure(s)[0]);
  }

  /** `applyStyles`: `sentences` and `merged` reassigned rule by rule, the
      perception rule writing into the sentence array in place. */
  method ApplyStyles(paragraph: string, allocation: Allocation, skin: Skin) returns (out: string)
    ensures out == Styled(paragraph, allocation.primary, allocation.secondary, skin)
  {
    var sentences := SplitSentences(paragraph);
    var active := {allocation.primary, allocation.secondary};
    if Structure in active {
      sentences := ApplyStructure(sentences);
    }
    if Perception in active {
      var a := new string[|sentences|](i requires 0 <= i < |sentences| => sentences[i]);
      assert a[..] == sentences;
      ApplyPerception(a);
      sentences := a[..];
    }
    if Meaning in active {
      sentences := ApplyMeaning(sentences);
    }
    var merged := Join(sentences, "");
    if Distribution in active {
      merged := ApplyDistribution(merged);
    }
    out := ApplyLanguageSkin(merged, skin);
  }

  /** A paragraph whose last character is not whitespace never styles to the
      empty string: any two distinct keys include a rule that writes text. */
  lemma StyledNonEmpty(paragraph: string, primary: StyleKey, secondary: StyleKey, skin: Skin)
    requires paragraph != [] && !IsWs(paragraph[|paragraph| - 1])
    requires primary != secondary
    ensures Styled(paragraph, primary, secondary, skin) != []
  {
    var active := {primary, secondary};
    SentencesNonEmpty(paragraph);
    assert Structure in active || Perception in active || Meaning in active;
    StyledSentencesWrite(SplitSentences(paragraph), active);
    var merged := Join(StyledSentences(SplitSentences(paragraph), active), "");
    var m := if Distribution in active then ApplyDistribution(merged) else merged;
    SkinKeepsLength(m, skin);
  }

  /** The blocks of `remixText`: paragraph `i` styled by allocation
      `i % allocations.length`. */
  function Blocks(paragraphs: seq<string>, allocations: seq<Allocation>, skin: Skin): (b: seq<string>)
    requires |allocations| > 0
    ensures |b| == |paragraphs|
  {
    seq(|paragraphs|, i requires 0 <= i < |paragraphs| =>
      var a := allocations[i % |allocations|];
      Styled(paragraphs[i], a.primary, a.secondary, skin))
  }

  /** `remixText`: nothing for a text without paragraphs; otherwise the styled
      paragraphs joined by a blank line. The role written into each allocation
      is not read by `applyStyles`. */
  function RemixText(text: string, mix: Scores, skin: Skin, contentType: string): string {
    var paragraphs := SplitParagraphs(text);
    if paragraphs == [] then ""
    else
      var allocations := ComputeAllocations(mix, |paragraphs|, contentType, LibraryBias);
      Join(Blocks(paragraphs, allocations, skin), "\n\n")
  }

  /** With as many allocations as paragraphs, the modulo is the identity. */
  lemma BlocksUseOwnAllocation(paragraphs: seq<string>, allocations: seq<Allocation>, skin: Skin)
    requires |allocations| == |paragraphs| > 0
    ensures forall i | 0 <= i < |paragraphs| ::
              Blocks(paragraphs, allocations, skin)[i]
              == Styled(paragraphs[i], allocations[i].primary, allocations[i].secondary, skin)
  {
    forall i | 0 <= i < |paragraphs| ensures i % |allocations| == i {
    }
  }

  /** Paragraph `i` is styled by allocation `i`, whose role is the role of
      position `i`. */
  lemma RemixUsesOwnAllocation(text: string, mix: Scores, skin: Skin, contentType: string)
    requires !AllWs(text)
    ensures var paragraphs := SplitParagraphs(text);
            var allocations := ComputeAllocations(mix, |paragraphs|, contentType, LibraryBias);
            |allocations| == |paragraphs|
            && RemixText(text, mix, skin, contentType) == Join(Blocks(paragraphs, allocations, skin), "\n\n")
            && forall i | 0 <= i < |paragraphs| ::
                 Blocks(paragraphs, allocations, skin)[i]
                 == Styled(paragraphs[i], allocations[i].primary, allocations[i].secondary, skin)
                 && allocations[i].role == Roles(|paragraphs|)[i]
  {
    var paragraphs := SplitParagraphs(text);
    var allocations := ComputeAllocations(mix, |paragraphs|, contentType, LibraryBias);
    BlocksUseOwnAllocation(paragraphs, allocations, skin);
  }

  /** The remix is empty exactly when the text is blank. */
  lemma RemixEmptyIffBlank(text: string, mix: Scores, skin: Skin, contentType: string)
    ensures RemixText(text, mix, skin, contentType) == [] <==> AllWs(text)
  {
    var paragraphs := SplitParagraphs(text);
    if paragraphs != [] {
      var allocations := ComputeAllocations(mix, |paragraphs|, contentType, LibraryBias);
      var blocks := Blocks(paragraphs, allocations, skin);
      var a := allocations[0 % |allocations|];
      TopTwo(a.scores);
      StyledNonEmpty(paragraphs[0], a.primary, a.secondary, skin);
      JoinLength(blocks, "\n\n");
    }
  }
}
