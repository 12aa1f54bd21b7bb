/**
 * The page's copy of the allocation engine and the views it feeds: the same
 * engine as the library's under other bias constants, with a "third style
 * competing" warning; the page's own sentence split; the heatmap
 * allocations, the warnings and the top styles.
 *
 * The page's `clamp`, `normalizeMix`, `splitParagraphs` and `assignRoles` are
 * the same code as the library's and are modelled once, by `Allocation.Clamp`,
 * `Allocation.NormalizeMix`, `Segmenter.SplitParagraphs` and
 * `RoleAssigner.Roles`.
 */
module PageAllocations {
  import opened Text
  import opened Segmenter
  import opened Allocation
  import opened RoleAssigner
  import opened Allocations


  /** The constants of the page's copy of the engine. */
  const PageBias := BiasTable(0.07, -0.05, 0.07, -0.03, 0.08, 0.06, 0.03, 0.05, 0.08, 0.05, 0.02)

  const CompetingThreshold: real := 0.28
  const CompetingWarning := "出现第三种风格竞争（Third style competing）"

  // ---- the third style competing ----

  /** The third key of the ranking differs from the top two and scores at
      least as much as every key other than the top two. */
  lemma ThirdRanked(s: Scores)
    ensures var r := Rank(s);
            r[2] != r[0] && r[2] != r[1]
            && forall k | k != r[0] && k != r[1] :: Score(s, k) <= Score(s, r[2])
  {
    RankIsStableDescending(s);
    SortedThird(s, Rank(s));
  }

  lemma SortedThird(s: Scores, r: seq<StyleKey>)
    requires |r| == 4 && (forall k :: k in r) && SortedBy(s, r)
    ensures r[2] != r[0] && r[2] != r[1]
    ensures forall k | k != r[0] && k != r[1] :: Score(s, k) <= Score(s, r[2])
  {
    assert Before(s, r[0], r[2]) && Before(s, r[1], r[2]) && Before(s, r[2], r[3]);
    forall k | k != r[0] && k != r[1] ensures Score(s, k) <= Score(s, r[2]) {
      assert k in r;
      var m :| 0 <= m < 4 && r[m] == k;
    }
  }

  /** `sorted[2][1] > 0.28 ? warning : null`: there is a warning exactly when
      some key other than the top two scores above the threshold. */
  function Competing(s: Scores): (w: Option<string>)
    ensures w == None || w == Some(CompetingWarning)
    ensures w.Some? <==> exists k | k != Rank(s)[0] && k != Rank(s)[1] :: Score(s, k) > CompetingThreshold
  {
    ThirdRanked(s);
    if Score(s, Rank(s)[2]) > CompetingThreshold then Some(CompetingWarning) else None
  }

  /** One allocation of the page's engine, with its optional warning. */
  datatype PageAllocation = PageAllocation(allocation: Allocation, warning: Option<string>)

  /** One allocation of the page's engine: the shared engine's allocation
      under the page's constants, with the warning read off the same ranking. */
  function PageAllocationFor(base: Scores, contentType: string, role: Role): (p: PageAllocation)
    ensures p.allocation == AllocationFor(base, contentType, role, PageBias)
    ensures p.warning.Some? <==>
              exists k | k != p.allocation.primary && k != p.allocation.secondary ::
                Score(p.allocation.scores, k) > CompetingThreshold
  {
    var a := AllocationFor(base, contentType, role, PageBias);
    PageAllocation(a, Competing(a.scores))
  }

  function PageAllocationsFor(base: Scores, roles: seq<Role>, contentType: string): (r: seq<PageAllocation>)
    ensures |r| == |roles|
    ensures forall i | 0 <= i < |r| :: r[i] == PageAllocationFor(base, contentType, roles[i])
  {
    seq(|roles|, i requires 0 <= i < |roles| => PageAllocationFor(base, contentType, roles[i]))
  }

  /** The page's `computeAllocations`: the shared engine under the page's
      constants, each allocation with its warning. */
  function ComputePageAllocations(mix: Scores, count: int, contentType: string): (r: seq<PageAllocation>)
    ensures |r| == RoleCount(count)
    ensures forall i | 0 <= i < |r| :: r[i].allocation == ComputeAllocations(mix, count, contentType, PageBias)[i]
    ensures forall i | 0 <= i < |r| ::
              (r[i].warning.Some? <==>
                 exists k | k != r[i].allocation.primary && k != r[i].allocation.secondary ::
                   Score(r[i].allocation.scores, k) > CompetingThreshold)
  {
    PageAllocationsFor(NormalizeMix(mix), Roles(count), contentType)
  }

  lemma SumOfFour(s: Scores, a: StyleKey, b: StyleKey, c: StyleKey, d: StyleKey)
    requires a != b && a != c && a != d && b != c && b != d && c != d
    ensures Sum(s) == Score(s, a) + Score(s, b) + Score(s, c) + Score(s, d)
  {
  }

  /** For a non-negative mix, a warning means three keys score above the
      threshold, so whichever key does not is left with less than 0.16. */
  lemma WarningMeansThreeStrong(mix: Scores, count: int, contentType: string, i: int)
    requires NonNegative(mix) && 0 <= i < RoleCount(count)
    ensures var p := ComputePageAllocations(mix, count, contentType)[i];
            var s := p.allocation.scores;
            p.warning.Some? ==>
              Score(s, p.allocation.primary) > CompetingThreshold
              && Score(s, p.allocation.secondary) > CompetingThreshold
              && forall k | Score(s, k) <= CompetingThreshold :: Score(s, k) < 0.16
  {
    var p := ComputePageAllocations(mix, count, contentType)[i];
    var a := p.allocation;
    var s := a.scores;
    assert a == AllocationFor(NormalizeMix(mix), contentType, Roles(count)[i], PageBias);
    AllocationsAreDistributions(mix, count, contentType, PageBias, i);
    if p.warning.Some? {
      var j :| j != a.primary && j != a.secondary && Score(s, j) > CompetingThreshold;
      assert Before(s, a.primary, j) && Before(s, a.secondary, j);
      forall k | Score(s, k) <= CompetingThreshold ensures Score(s, k) < 0.16 {
        SumOfFour(s, a.primary, a.secondary, j, k);
      }
    }
  }

  // ---- the page's sentence split ----

  lemma {:induction false} DropStrayKeeps(s: string, afterTerminal: bool)
    ensures forall j | 0 <= j < |s| && !IsTerminal(s[j]) :: s[j] in DropStray(s, afterTerminal)
    decreases |s|
  {
    if s != [] {
      DropStrayKeeps(s[1..], IsTerminal(s[0]));
      DropStrayKeeps(s[1..], true);
      forall j | 0 <= j < |s| && !IsTerminal(s[j]) ensures s[j] in DropStray(s, afterTerminal) {
        if j > 0 {
          assert s[j] == s[1..][j - 1];
        }
      }
    }
  }

  lemma {:induction false} ConcatAllWs(parts: seq<string>)
    ensures AllBlank(parts) ==> AllWs(Concat(parts))
    decreases |parts|
  {
    if parts != [] && AllBlank(parts) {
      AllBlankCons(parts);
      ConcatAllWs(parts[1..]);
      var c := Concat(parts);
      assert c[..|parts[0]|] == parts[0] && c[|parts[0]|..] == Concat(parts[1..]);
      AllWsSplit(c, |parts[0]|);
    }
  }

  /** When every match trims to nothing, every character of the text is
      whitespace or a sentence terminal. */
  lemma BlankMatches(text: string)
    ensures AllBlank(SentenceMatches(text)) ==>
              forall j | 0 <= j < |text| :: IsWs(text[j]) || IsTerminal(text[j])
  {
    var m := SentenceMatches(text);
    if AllBlank(m) {
      SentenceMatchesCover(text);
      ConcatAllWs(m);
      DropStrayKeeps(text, true);
      var d := DropStray(text, true);
      forall j | 0 <= j < |text| && !IsTerminal(text[j]) ensures IsWs(text[j]) {
        var x :| 0 <= x < |d| && d[x] == text[j];
      }
    }
  }

  /** The page's `splitSentences`: the trimmed non-empty matches, and nothing
      at all when the pattern finds no match. */
  function PageSplitSentences(text: string): (r: seq<string>)
    ensures forall k | 0 <= k < |r| :: r[k] != [] && Trimmed(r[k])
    ensures (forall j | 0 <= j < |text| :: IsTerminal(text[j])) ==> r == []
    ensures r == [] ==> forall j | 0 <= j < |text| :: IsWs(text[j]) || IsTerminal(text[j])
  {
    var m := SentenceMatches(text);
    CleanPiecesTrimmed(m);
    BlankMatches(text);
    CleanPieces(m)
  }

  /** The page's split and the library's differ only when nothing matches:
      then the library keeps the whole text and the page has no sentence. */
  lemma SentenceSplitsAgree(text: string)
    ensures (exists j | 0 <= j < |text| :: !IsTerminal(text[j])) ==> PageSplitSentences(text) == SplitSentences(text)
    ensures (forall j | 0 <= j < |text| :: IsTerminal(text[j])) ==>
              SplitSentences(text) == [text] && PageSplitSentences(text) == []
  {
  }

  /** `heatmapAllocations`: no column when the text has no sentence, otherwise
      one allocation per sentence. */
  function HeatmapAllocations(rawText: string, mix: Scores, contentType: string): (r: seq<PageAllocation>)
    ensures |r| == |PageSplitSentences(rawText)|
    ensures forall i | 0 <= i < |r| :: r[i].allocation.role == Roles(|r|)[i]
    ensures forall i | 0 <= i < |r| :: r[i].allocation == ComputeAllocations(mix, |r|, contentType, PageBias)[i]
  {
    var sentences := PageSplitSentences(rawText);
    if sentences == [] then []
    else
      HeatmapColumns(mix, |sentences|, contentType);
      ComputePageAllocations(mix, |sentences|, contentType)
  }

  lemma HeatmapColumns(mix: Scores, n: nat, contentType: string)
    requires n >= 1
    ensures var r := ComputePageAllocations(mix, n, contentType);
            |r| == n &&
            forall i | 0 <= i < n ::
              r[i].allocation == ComputeAllocations(mix, n, contentType, PageBias)[i] && r[i].allocation.role == Roles(n)[i]
  {
  }

  // ---- warnings ----

  function WarningLine(i: nat, w: string): string {
    "S" + NatToString(i + 1) + ": " + w
  }

  /** `warnings` from position `from` on: one line `S{i+1}: …` per allocation
      that carries a warning, in order of position. */
  function WarningsFrom(allocations: seq<PageAllocation>, from: nat): (r: seq<string>)
    requires from <= |allocations|
    ensures |r| <= |allocations| - from
    ensures r == [] <==> forall i | from <= i < |allocations| :: allocations[i].warning.None?
    decreases |allocations| - from
  {
    if from == |allocations| then []
    else
      var rest := WarningsFrom(allocations, from + 1);
      match allocations[from].warning
      case None => rest
      case Some(w) =>
        var r := [WarningLine(from, w)] + rest;
        assert forall k | 1 <= k < |r| :: r[k] == rest[k - 1];
        r
  }

  /** A warned allocation at `from` gives the first line. */
  lemma WarningsFromHead(allocations: seq<PageAllocation>, from: nat)
    requires from < |allocations| && allocations[from].warning.Some?
    ensures WarningsFrom(allocations, from) != []
    ensures WarningsFrom(allocations, from)[0] == WarningLine(from, allocations[from].warning.value)
  {
  }

  /** The lines after a warned `from` follow its line. */
  lemma WarningsFromShiftWarned(allocations: seq<PageAllocation>, from: nat, k: nat)
    requires from < |allocations| && allocations[from].warning.Some?
    requires k < |WarningsFrom(allocations, from + 1)|
    ensures k + 1 < |WarningsFrom(allocations, from)|
    ensures WarningsFrom(allocations, from)[k + 1] == WarningsFrom(allocations, from + 1)[k]
  {
    var rest := WarningsFrom(allocations, from + 1);
    var r := [WarningLine(from, allocations[from].warning.value)] + rest;
    assert WarningsFrom(allocations, from) == r;
    assert r[k + 1] == rest[k];
  }

  /** An unwarned `from` adds no line. */
  lemma WarningsFromSkip(allocations: seq<PageAllocation>, from: nat)
    requires from < |allocations| && allocations[from].warning.None?
    ensures WarningsFrom(allocations, from) == WarningsFrom(allocations, from + 1)
  {
  }

  /** Every line from `from` on is the line of a warned allocation there. */
  lemma {:induction false} WarningsFromSound(allocations: seq<PageAllocation>, from: nat, k: nat)
    returns (i: nat)
    requires from <= |allocations| && k < |WarningsFrom(allocations, from)|
    ensures from <= i < |allocations| && allocations[i].warning.Some?
    ensures WarningsFrom(allocations, from)[k] == WarningLine(i, allocations[i].warning.value)
    decreases |allocations| - from
  {
    if allocations[from].warning.None? {
      WarningsFromSkip(allocations, from);
      i := WarningsFromSound(allocations, from + 1, k);
    } else if k == 0 {
      WarningsFromHead(allocations, from);
      i := from;
    } else {
      WarningsFromShiftWarned(allocations, from, k - 1);
      i := WarningsFromSound(allocations, from + 1, k - 1);
    }
  }

  /** Every warned allocation from `from` on has its line. */
  lemma {:induction false} WarningsFromComplete(allocations: seq<PageAllocation>, from: nat, i: nat)
    returns (k: nat)
    requires from <= i < |allocations| && allocations[i].warning.Some?
    ensures k < |WarningsFrom(allocations, from)|
    ensures WarningsFrom(allocations, from)[k] == WarningLine(i, allocations[i].warning.value)
    decreases i - from
  {
    if from == i {
      WarningsFromHead(allocations, from);
      k := 0;
    } else {
      var k' := WarningsFromComplete(allocations, from + 1, i);
      if allocations[from].warning.Some? {
        WarningsFromShiftWarned(allocations, from, k');
        k := k' + 1;
      } else {
        WarningsFromSkip(allocations, from);
        k := k';
      }
    }
  }

  /** Lines come in the order of their allocations: of two warned
      allocations, the earlier one's line is listed first. */
  lemma {:induction false} WarningsFromOrdered(allocations: seq<PageAllocation>, from: nat, i: nat, j: nat)
    returns (k: nat, l: nat)
    requires from <= i < j < |allocations|
    requires allocations[i].warning.Some? && allocations[j].warning.Some?
    ensures k < l < |WarningsFrom(allocations, from)|
    ensures WarningsFrom(allocations, from)[k] == WarningLine(i, allocations[i].warning.value)
    ensures WarningsFrom(allocations, from)[l] == WarningLine(j, allocations[j].warning.value)
    decreases i - from
  {
    if from == i {
      var l' := WarningsFromComplete(allocations, from + 1, j);
      WarningsFromHead(allocations, from);
      WarningsFromShiftWarned(allocations, from, l');
      k, l := 0, l' + 1;
    } else {
      var k', l' := WarningsFromOrdered(allocations, from + 1, i, j);
      if allocations[from].warning.Some? {
        WarningsFromShiftWarned(allocations, from, k');
        WarningsFromShiftWarned(allocations, from, l');
        k, l := k' + 1, l' + 1;
      } else {
        WarningsFromSkip(allocations, from);
        k, l := k', l';
      }
    }
  }

  /** `cols` names, for each line of `r`, the allocation from `from` on it
      belongs to: the line is that allocation's, the allocations strictly
      increase (so no allocation has two lines), and every warned allocation
      from `from` on is named. */
  ghost predicate LineColumns(allocations: seq<PageAllocation>, from: nat, r: seq<string>, cols: seq<nat>) {
    |cols| == |r|
    && (forall k | 0 <= k < |cols| ::
          from <= cols[k] < |allocations| && allocations[cols[k]].warning.Some?
          && r[k] == WarningLine(cols[k], allocations[cols[k]].warning.value))
    && (forall k, l | 0 <= k < l < |cols| :: cols[k] < cols[l])
    && (forall i | from <= i < |allocations| && allocations[i].warning.Some? :: i in cols)
  }

  /** `warnings` is a filter: its lines are the lines of the warned
      allocations, each exactly once, in allocation order. */
  lemma {:induction false} WarningsFromColumns(allocations: seq<PageAllocation>, from: nat)
    returns (cols: seq<nat>)
    requires from <= |allocations|
    ensures LineColumns(allocations, from, WarningsFrom(allocations, from), cols)
    decreases |allocations| - from
  {
    if from == |allocations| {
      cols := [];
    } else {
      var rest := WarningsFromColumns(allocations, from + 1);
      if allocations[from].warning.None? {
        WarningsFromSkip(allocations, from);
        ColumnsSkip(allocations, from, WarningsFrom(allocations, from + 1), rest);
        cols := rest;
      } else {
        WarningsFromCons(allocations, from);
        ColumnsWarned(allocations, from, WarningsFrom(allocations, from + 1), rest);
        cols := [from] + rest;
      }
    }
  }

  /** A warned allocation at `from` puts its line in front of the rest. */
  lemma WarningsFromCons(allocations: seq<PageAllocation>, from: nat)
    requires from < |allocations| && allocations[from].warning.Some?
    ensures WarningsFrom(allocations, from)
            == [WarningLine(from, allocations[from].warning.value)] + WarningsFrom(allocations, from + 1)
  {
  }

  lemma ColumnsSkip(allocations: seq<PageAllocation>, from: nat, r: seq<string>, cols: seq<nat>)
    requires from < |allocations| && allocations[from].warning.None?
    requires LineColumns(allocations, from + 1, r, cols)
    ensures LineColumns(allocations, from, r, cols)
  {
  }

  lemma ColumnsWarned(allocations: seq<PageAllocation>, from: nat, r: seq<string>, rest: seq<nat>)
    requires from < |allocations| && allocations[from].warning.Some?
    requires LineColumns(allocations, from + 1, r, rest)
    ensures LineColumns(allocations, from, [WarningLine(from, allocations[from].warning.value)] + r, [from] + rest)
  {
    var cols := [from] + rest;
    var line := [WarningLine(from, allocations[from].warning.value)] + r;
    forall k | 0 <= k < |cols|
      ensures from <= cols[k] < |allocations| && allocations[cols[k]].warning.Some?
              && line[k] == WarningLine(cols[k], allocations[cols[k]].warning.value)
    {
      if k > 0 {
        assert cols[k] == rest[k - 1] && line[k] == r[k - 1];
      }
    }
    forall k, l | 0 <= k < l < |cols| ensures cols[k] < cols[l] {
      assert cols[l] == rest[l - 1];
      if k > 0 { assert cols[k] == rest[k - 1]; }
    }
    forall i | from <= i < |allocations| && allocations[i].warning.Some? ensures i in cols {
      if i > from { assert i in rest; }
    }
  }

  /** The page's `warnings`: the warning lines of the heatmap columns, which
      `WarningsExact` characterises. */
  function Warnings(rawText: string, mix: Scores, contentType: string): (r: seq<string>)
    ensures var h := HeatmapAllocations(rawText, mix, contentType);
            |r| <= |h| && (r == [] <==> forall i | 0 <= i < |h| :: h[i].warning.None?)
            && r == WarningsFrom(h, 0)
  {
    WarningsFrom(HeatmapAllocations(rawText, mix, contentType), 0)
  }

  /** The warnings are exactly the lines of the warned heatmap columns, in
      column order: each line belongs to a warned column, each warned column
      has its line, and of two warned columns the earlier is listed first. */
  lemma WarningsExact(allocations: seq<PageAllocation>, i: nat, j: nat)
    ensures var r := WarningsFrom(allocations, 0);
            forall k | 0 <= k < |r| :: exists c | 0 <= c < |allocations| ::
              allocations[c].warning.Some? && r[k] == WarningLine(c, allocations[c].warning.value)
    ensures i < |allocations| && allocations[i].warning.Some? ==>
              WarningLine(i, allocations[i].warning.value) in WarningsFrom(allocations, 0)
    ensures var r := WarningsFrom(allocations, 0);
            i < j < |allocations| && allocations[i].warning.Some? && allocations[j].warning.Some? ==>
              exists k, l | 0 <= k < l < |r| ::
                r[k] == WarningLine(i, allocations[i].warning.value)
                && r[l] == WarningLine(j, allocations[j].warning.value)
  {
    var r := WarningsFrom(allocations, 0);
    forall k | 0 <= k < |r|
      ensures exists c | 0 <= c < |allocations| ::
                allocations[c].warning.Some? && r[k] == WarningLine(c, allocations[c].warning.value)
    {
      var c := WarningsFromSound(allocations, 0, k);
    }
    if i < |allocations| && allocations[i].warning.Some? {
      var k := WarningsFromComplete(allocations, 0, i);
    }
    if i < j < |allocations| && allocations[i].warning.Some? && allocations[j].warning.Some? {
      var k, l := WarningsFromOrdered(allocations, 0, i, j);
    }
  }

  function StyleLabel(k: StyleKey): string {
    match k
    case Structure => "结构（Structure）"
    case Perception => "感知（Perception）"
    case Meaning => "意义（Meaning）"
    case Distribution => "传播（Distribution）"
  }

  // ---- top styles ----

  lemma StyleLabelInjective(a: StyleKey, b: StyleKey)
    ensures StyleLabel(a) == StyleLabel(b) ==> a == b
  {
    assert |StyleLabel(Structure)| == 13 && |StyleLabel(Perception)| == 14;
    assert |StyleLabel(Meaning)| == 11 && |StyleLabel(Distribution)| == 16;
  }

  /** `topStyles`: the labels of the two best keys of the normalised mix. */
  function TopStyles(mix: Scores): (r: seq<string>)
    ensures |r| == 2 && r[0] != r[1]
  {
    var ranked := Rank(NormalizeMix(mix));
    TopTwo(NormalizeMix(mix));
    StyleLabelInjective(ranked[0], ranked[1]);
    [StyleLabel(ranked[0]), StyleLabel(ranked[1])]
  }

  /** Two records rank the keys alike. */
  predicate SameOrder(s: Scores, t: Scores) {
    forall a, b :: Score(s, a) >= Score(s, b) <==> Score(t, a) >= Score(t, b)
  }

  lemma {:induction false} InsertSameOrder(s: Scores, t: Scores, k: StyleKey, sorted: seq<StyleKey>)
    requires SameOrder(s, t)
    ensures Insert(s, k, sorted) == Insert(t, k, sorted)
    decreases |sorted|
  {
    if sorted != [] {
      InsertSameOrder(s, t, k, sorted[1..]);
    }
  }

  lemma {:induction false} SortDescSameOrder(s: Scores, t: Scores, ks: seq<StyleKey>)
    requires SameOrder(s, t)
    ensures SortDesc(s, ks) == SortDesc(t, ks)
    decreases |ks|
  {
    if ks != [] {
      SortDescSameOrder(s, t, ks[..|ks| - 1]);
      InsertSameOrder(s, t, ks[|ks| - 1], SortDesc(s, ks[..|ks| - 1]));
    }
  }

  lemma DivOrder(a: real, b: real, d: real)
    requires d > 0.0
    ensures a / d >= b / d <==> a >= b
  {
    if a >= b {
      DivMonotone(a, b, d);
    } else {
      DivMonotone(b, a, d);
      assert a / d != b / d by {
        assert a / d * d == a && b / d * d == b;
      }
    }
  }

  /** The top styles are those of the mix as entered: normalising a mix
      with a non-negative total does not change the ranking. */
  lemma TopStylesFollowMix(mix: Scores)
    requires Sum(mix) >= 0.0
    ensures TopStyles(mix) == [StyleLabel(Rank(mix)[0]), StyleLabel(Rank(mix)[1])]
    ensures forall k | k != Rank(mix)[0] :: Before(mix, Rank(mix)[0], k)
    ensures forall k | k != Rank(mix)[0] && k != Rank(mix)[1] :: Before(mix, Rank(mix)[1], k)
  {
    var n := NormalizeMix(mix);
    if Sum(mix) > 0.0 {
      forall a, b ensures Score(mix, a) >= Score(mix, b) <==> Score(n, a) >= Score(n, b) {
        assert Score(n, a) == Score(mix, a) / Sum(mix) && Score(n, b) == Score(mix, b) / Sum(mix);
        DivOrder(Score(mix, a), Score(mix, b), Sum(mix));
      }
    }
    SortDescSameOrder(mix, n, Keys);
    TopTwo(mix);
  }
}
