/**
 * The allocation engine of the style-remix core: style keys, scores, roles, the
 * biased re-normalised score per role and the stable ranking of the four keys.
 *
 * Both copies of the engine (the library one and the page one) are this single
 * definition, parameterised by a `BiasTable` holding their constants.
 */
module Allocation {

  /** The four style dimensions, in the key order of the source's records. */
  datatype StyleKey = Structure | Perception | Meaning | Distribution

  const Keys: seq<StyleKey> := [Structure, Perception, Meaning, Distribution]

  function KeyIndex(k: StyleKey): nat {
    match k
    case Structure => 0
    case Perception => 1
    case Meaning => 2
    case Distribution => 3
  }

  /** One number per style dimension: a style mix, or the scores of one role. */
  datatype Scores = Scores(structure: real, perception: real, meaning: real, distribution: real)

  function Score(s: Scores, k: StyleKey): real {
    match k
    case Structure => s.structure
    case Perception => s.perception
    case Meaning => s.meaning
    case Distribution => s.distribution
  }

  function Sum(s: Scores): real {
    s.structure + s.perception + s.meaning + s.distribution
  }

  predicate NonNegative(s: Scores) {
    s.structure >= 0.0 && s.perception >= 0.0 && s.meaning >= 0.0 && s.distribution >= 0.0
  }

  predicate InUnit(s: Scores) {
    forall k :: 0.0 <= Score(s, k) <= 1.0
  }

  /** Every score divided by `d`. */
  function Scale(s: Scores, d: real): Scores
    requires d != 0.0
  {
    Scores(s.structure / d, s.perception / d, s.meaning / d, s.distribution / d)
  }

  lemma DivSum(a: real, b: real, c: real, e: real, d: real)
    requires d != 0.0
    ensures a / d + b / d + c / d + e / d == (a + b + c + e) / d
  {
  }

  lemma DivUnit(a: real, t: real)
    requires 0.0 <= a <= t && t > 0.0
    ensures 0.0 <= a / t <= 1.0
  {
  }

  lemma ScaleSumOne(s: Scores)
    requires Sum(s) != 0.0
    ensures Sum(Scale(s, Sum(s))) == 1.0
  {
    var total := Sum(s);
    DivSum(s.structure, s.perception, s.meaning, s.distribution, total);
  }

  lemma ScaleUnit(s: Scores)
    requires Sum(s) != 0.0 && NonNegative(s)
    ensures NonNegative(Scale(s, Sum(s))) && InUnit(Scale(s, Sum(s)))
  {
    var total := Sum(s);
    var r := Scale(s, total);
    DivUnit(s.structure, total);
    DivUnit(s.perception, total);
    DivUnit(s.meaning, total);
    DivUnit(s.distribution, total);
    forall k ensures 0.0 <= Score(r, k) <= 1.0 {
      assert Score(r, k) == Score(s, k) / total;
    }
  }

  lemma ScaleBySum(s: Scores)
    requires Sum(s) != 0.0
    ensures Sum(Scale(s, Sum(s))) == 1.0
    ensures NonNegative(s) ==> NonNegative(Scale(s, Sum(s))) && InUnit(Scale(s, Sum(s)))
  {
    ScaleSumOne(s);
    if NonNegative(s) {
      ScaleUnit(s);
    }
  }

  /** The four scores divided by their sum; a zero sum is replaced by 1
      (the source's `sum || 1`), so an all-zero record stays all zeros. */
  function Normalize(s: Scores): (r: Scores)
    ensures Sum(s) != 0.0 ==> Sum(r) == 1.0
    ensures Sum(s) == 0.0 ==> r == s
    ensures NonNegative(s) ==> NonNegative(r) && InUnit(r)
  {
    var total := Sum(s);
    if total == 0.0 then
      assert Scale(s, 1.0) == s;
      s
    else
      var r := Scale(s, total);
      ScaleBySum(s);
      r
  }

  /** `normalizeMix`: the mix divided by its total, or by 1 when the total is 0. */
  function NormalizeMix(mix: Scores): (r: Scores)
    ensures Sum(mix) != 0.0 ==> Sum(r) == 1.0
    ensures Sum(mix) == 0.0 ==> r == mix
    ensures NonNegative(mix) ==> InUnit(r)
  {
    Normalize(mix)
  }

  /** Normalising divides every score by the sum: the result is proportional
      to the input. */
  lemma NormalizeProportional(s: Scores)
    ensures Sum(s) != 0.0 ==> forall k :: Score(Normalize(s), k) * Sum(s) == Score(s, k)
  {
    if Sum(s) != 0.0 {
      var r := Normalize(s);
      var d := Sum(s);
      assert r == Scale(s, d);
      forall k ensures Score(r, k) * d == Score(s, k) {
        assert Score(r, k) == Score(s, k) / d;
      }
    }
  }

  /** The normalised mix is the mix divided by its total. */
  lemma NormalizeMixProportional(mix: Scores)
    ensures Sum(mix) != 0.0 ==> forall k :: Score(NormalizeMix(mix), k) * Sum(mix) == Score(mix, k)
  {
    NormalizeProportional(mix);
  }

  function Clamp(v: real, lo: real, hi: real): real {
    var m := if v > lo then v else lo;
    if m < hi then m else hi
  }

  /** `bump(key, value)`: add to one score and clamp that score into [0,1]. */
  function Bump(s: Scores, k: StyleKey, v: real): (r: Scores)
    ensures 0.0 <= Score(r, k) <= 1.0
    ensures 0.0 <= Score(s, k) + v <= 1.0 ==> Score(r, k) == Score(s, k) + v
    ensures Score(s, k) + v > 1.0 ==> Score(r, k) == 1.0
    ensures Score(s, k) + v < 0.0 ==> Score(r, k) == 0.0
    ensures forall j | j != k :: Score(r, j) == Score(s, j)
  {
    var x := Clamp(Score(s, k) + v, 0.0, 1.0);
    match k
    case Structure => s.(structure := x)
    case Perception => s.(perception := x)
    case Meaning => s.(meaning := x)
    case Distribution => s.(distribution := x)
  }

  /** The positional role of a segment. */
  datatype Role = Opening | Development | Turn | Closing

  /** The constants of one copy of the engine: content-type bumps, then role bumps. */
  datatype BiasTable = BiasTable(
    newsStructure: real, newsDistribution: real,
    novelPerception: real, novelStructure: real,
    audioDistribution: real,
    openingStructure: real, openingDistribution: real,
    developmentPerception: real,
    turnMeaning: real,
    closingMeaning: real, closingDistribution: real)
  {
    /** Every role raises at least one dimension. */
    predicate RoleBumpsPositive() {
      openingStructure > 0.0 && developmentPerception > 0.0 && turnMeaning > 0.0 && closingMeaning > 0.0
    }
  }

  /** The constants of components/style-generator/src/lib/remix.ts. */
  const LibraryBias := BiasTable(0.06, -0.04, 0.06, -0.03, 0.06, 0.05, 0.03, 0.04, 0.07, 0.05, 0.02)

  /** Content-type bias; an unknown or missing content type adds nothing. */
  function ContentBias(w: Scores, contentType: string, t: BiasTable): Scores {
    if contentType == "news" then Bump(Bump(w, Structure, t.newsStructure), Distribution, t.newsDistribution)
    else if contentType == "novel" then Bump(Bump(w, Perception, t.novelPerception), Structure, t.novelStructure)
    else if contentType == "audio" then Bump(w, Distribution, t.audioDistribution)
    else w
  }

  /** Role bias, applied on top of the content-type bias. */
  function RoleBias(w: Scores, role: Role, t: BiasTable): Scores {
    match role
    case Opening => Bump(Bump(w, Structure, t.openingStructure), Distribution, t.openingDistribution)
    case Development => Bump(w, Perception, t.developmentPerception)
    case Turn => Bump(w, Meaning, t.turnMeaning)
    case Closing => Bump(Bump(w, Meaning, t.closingMeaning), Distribution, t.closingDistribution)
  }

  /** `roleBias(role)`: content bias, then role bias, then divide by the sum (or by 1). */
  function RoleScores(base: Scores, contentType: string, role: Role, t: BiasTable): Scores {
    Normalize(RoleBias(ContentBias(base, contentType, t), role, t))
  }

  /** The scores of a non-negative mix, for any role, are a distribution:
      each in [0,1] and summing to 1, because the role bump always leaves a positive weight. */
  lemma {:induction false} RoleScoresDistribution(mix: Scores, contentType: string, role: Role, t: BiasTable)
    requires NonNegative(mix)
    requires t.RoleBumpsPositive()
    ensures var s := RoleScores(NormalizeMix(mix), contentType, role, t);
            InUnit(s) && Sum(s) == 1.0
  {
    var base := NormalizeMix(mix);
    var c := ContentBias(base, contentType, t);
    assert InUnit(c) by {
      forall k ensures 0.0 <= Score(c, k) <= 1.0 {
        assert 0.0 <= Score(base, k) <= 1.0;
      }
    }
    var w := RoleBias(c, role, t);
    assert NonNegative(w) by {
      forall k ensures 0.0 <= Score(w, k) {
        assert 0.0 <= Score(c, k);
      }
      assert 0.0 <= Score(w, Structure) && 0.0 <= Score(w, Perception)
        && 0.0 <= Score(w, Meaning) && 0.0 <= Score(w, Distribution);
    }
    var bumped := match role
      case Opening => Structure
      case Development => Perception
      case Turn => Meaning
      case Closing => Meaning;
    assert Score(w, bumped) > 0.0;
    assert Sum(w) > 0.0;
  }

  // ---- ranking: `Object.entries(scores).sort((a, b) => b[1] - a[1])`, a stable sort ----

  /** `a` is ranked before `b`: a higher score, or an equal score and an earlier key. */
  predicate Before(s: Scores, a: StyleKey, b: StyleKey) {
    Score(s, a) > Score(s, b) || (Score(s, a) == Score(s, b) && KeyIndex(a) < KeyIndex(b))
  }

  predicate SortedBy(s: Scores, ks: seq<StyleKey>) {
    forall i, j | 0 <= i < j < |ks| :: Before(s, ks[i], ks[j])
  }

  /** Insert `k` after every element whose score is at least its own (stability). */
  function Insert(s: Scores, k: StyleKey, sorted: seq<StyleKey>): (r: seq<StyleKey>)
    ensures multiset(r) == multiset(sorted) + multiset{k}
  {
    if sorted == [] then [k]
    else if Score(s, sorted[0]) >= Score(s, k) then
      assert sorted == [sorted[0]] + sorted[1..];
      [sorted[0]] + Insert(s, k, sorted[1..])
    else [k] + sorted
  }

  /** Insertion sort over `ks`, taking the keys in order. */
  function SortDesc(s: Scores, ks: seq<StyleKey>): (r: seq<StyleKey>)
    ensures multiset(r) == multiset(ks)
  {
    if ks == [] then []
    else
      assert ks == ks[..|ks| - 1] + [ks[|ks| - 1]];
      Insert(s, ks[|ks| - 1], SortDesc(s, ks[..|ks| - 1]))
  }

  /** The four keys ranked by descending score, ties in key order. */
  function Rank(s: Scores): seq<StyleKey> {
    SortDesc(s, Keys)
  }

  lemma SortedTail(s: Scores, ks: seq<StyleKey>)
    requires SortedBy(s, ks) && ks != []
    ensures SortedBy(s, ks[1..])
  {
    var tail := ks[1..];
    forall i, j | 0 <= i < j < |tail| ensures Before(s, tail[i], tail[j]) {
      assert tail[i] == ks[i + 1] && tail[j] == ks[j + 1];
    }
  }

  lemma SortedCons(s: Scores, k: StyleKey, ks: seq<StyleKey>)
    requires SortedBy(s, ks)
    requires forall e | e in ks :: Before(s, k, e)
    ensures SortedBy(s, [k] + ks)
  {
    var r := [k] + ks;
    forall i, j | 0 <= i < j < |r| ensures Before(s, r[i], r[j]) {
      if i == 0 {
        assert r[j] == ks[j - 1] && r[j] in ks;
      } else {
        assert r[i] == ks[i - 1] && r[j] == ks[j - 1];
      }
    }
  }

  lemma {:induction false} InsertSorted(s: Scores, k: StyleKey, sorted: seq<StyleKey>)
    requires SortedBy(s, sorted)
    requires forall e | e in sorted :: KeyIndex(e) < KeyIndex(k)
    ensures SortedBy(s, Insert(s, k, sorted))
  {
    if sorted != [] && Score(s, sorted[0]) >= Score(s, k) {
      var tail := sorted[1..];
      SortedTail(s, sorted);
      assert forall e | e in tail :: e in sorted;
      InsertSorted(s, k, tail);
      var ins := Insert(s, k, tail);
      forall e | e in ins ensures Before(s, sorted[0], e) {
        assert e in multiset(ins);
        if e != k {
          assert e in multiset(tail);
          var m :| 0 <= m < |tail| && tail[m] == e;
          assert Before(s, sorted[0], sorted[m + 1]);
        }
      }
      SortedCons(s, sorted[0], ins);
    } else if sorted != [] {
      forall e | e in sorted ensures Before(s, k, e) {
        var m :| 0 <= m < |sorted| && sorted[m] == e;
        if m > 0 {
          assert Before(s, sorted[0], sorted[m]);
        }
      }
      SortedCons(s, k, sorted);
    }
  }

  lemma {:induction false} SortDescSorted(s: Scores, ks: seq<StyleKey>)
    requires forall i, j | 0 <= i < j < |ks| :: KeyIndex(ks[i]) < KeyIndex(ks[j])
    ensures SortedBy(s, SortDesc(s, ks))
  {
    if ks != [] {
      var init := ks[..|ks| - 1];
      SortDescSorted(s, init);
      var prev := SortDesc(s, init);
      forall e | e in prev ensures KeyIndex(e) < KeyIndex(ks[|ks| - 1]) {
        assert e in multiset(init);
        var m :| 0 <= m < |init| && init[m] == e;
      }
      InsertSorted(s, ks[|ks| - 1], prev);
    }
  }

  /** The ranking is a permutation of the four keys in which every key is
      ranked before each later one: the unique stable descending order. */
  lemma RankIsStableDescending(s: Scores)
    ensures |Rank(s)| == 4
    ensures multiset(Rank(s)) == multiset(Keys)
    ensures forall k :: k in Rank(s)
    ensures SortedBy(s, Rank(s))
  {
    KeysInOrder();
    SortDescSorted(s, Keys);
    PermutationOfKeys(Rank(s));
  }

  lemma KeysInOrder()
    ensures forall i, j | 0 <= i < j < |Keys| :: KeyIndex(Keys[i]) < KeyIndex(Keys[j])
  {
  }

  lemma PermutationOfKeys(r: seq<StyleKey>)
    requires multiset(r) == multiset(Keys)
    ensures |r| == 4 && forall k :: k in r
  {
    assert |multiset(r)| == |r|;
    forall k ensures k in r {
      assert k in Keys by {
        match k
        case Structure => assert Keys[0] == k;
        case Perception => assert Keys[1] == k;
        case Meaning => assert Keys[2] == k;
        case Distribution => assert Keys[3] == k;
      }
      assert k in multiset(Keys);
    }
  }

  /** The first key of the ranking beats every other key; the second beats
      every key but the first. */
  lemma TopTwo(s: Scores)
    ensures Rank(s)[0] != Rank(s)[1]
    ensures forall k | k != Rank(s)[0] :: Before(s, Rank(s)[0], k)
    ensures forall k | k != Rank(s)[0] && k != Rank(s)[1] :: Before(s, Rank(s)[1], k)
  {
    RankIsStableDescending(s);
    SortedTopTwo(s, Rank(s));
  }

  lemma SortedTopTwo(s: Scores, r: seq<StyleKey>)
    requires |r| == 4 && (forall k :: k in r) && SortedBy(s, r)
    ensures r[0] != r[1]
    ensures forall k | k != r[0] :: Before(s, r[0], k)
    ensures forall k | k != r[0] && k != r[1] :: Before(s, r[1], k)
  {
    forall k | k != r[0] ensures Before(s, r[0], k) {
      assert k in r;
      var m :| 0 <= m < 4 && r[m] == k;
    }
    forall k | k != r[0] && k != r[1] ensures Before(s, r[1], k) {
      assert k in r;
      var m :| 0 <= m < 4 && r[m] == k;
    }
  }

  /** The engine's per-role result. */
  datatype Allocation = Allocation(role: Role, primary: StyleKey, secondary: StyleKey, scores: Scores)

  /** `roles.map(...)`: one allocation per role, with the top two keys of the ranking. */
  function AllocationFor(base: Scores, contentType: string, role: Role, t: BiasTable): (a: Allocation)
    ensures a.role == role && a.scores == RoleScores(base, contentType, role, t)
    ensures a.primary == Rank(a.scores)[0] && a.secondary == Rank(a.scores)[1]
    ensures a.primary != a.secondary
    ensures forall k | k != a.primary :: Before(a.scores, a.primary, k)
    ensures forall k | k != a.primary && k != a.secondary :: Before(a.scores, a.secondary, k)
  {
    var scores := RoleScores(base, contentType, role, t);
    var r := Rank(scores);
    TopTwo(scores);
    Allocation(role, r[0], r[1], scores)
  }
}

module RoleAssigner {
  import opened Allocation

  /** Number of roles produced for `count` segments: at least one. */
  function RoleCount(count: int): nat {
    if count <= 1 then 1 else count
  }

  /** Reference definition of the role of position `i` among `count`
      segments. For four or more, the midpoint `count / 2` is the turn; it
      was written last in the source, so it takes priority. */
  function RoleAt(count: int, i: int): Role {
    if count <= 1 then Opening
    else if count == 2 then (if i == 0 then Opening else Closing)
    else if count == 3 then (if i == 0 then Opening else if i == 1 then Turn else Closing)
    else if i == count / 2 then Turn
    else if i == 0 then Opening
    else if i == count - 1 then Closing
    else Development
  }

  /** `assignRoles(count)` as a sequence. */
  function Roles(count: int): (r: seq<Role>)
    ensures |r| == RoleCount(count) && r[0] == Opening
    ensures count >= 2 ==> r[count - 1] == Closing
    ensures count >= 3 ==> 0 < count / 2 < count - 1 && r[count / 2] == Turn
    ensures forall i | 0 <= i < |r| :: r[i] == Turn <==> (count >= 3 && i == count / 2)
    ensures forall i | 0 < i < |r| - 1 && i != count / 2 :: r[i] == Development
  {
    seq(RoleCount(count), i => RoleAt(count, i))
  }

  /** `assignRoles`: fill an array with `development`, then write the opening,
      the closing and finally the turn slot. */
  method AssignRoles(count: int) returns (roles: seq<Role>)
    ensures roles == Roles(count)
  {
    if count <= 1 { return [Opening]; }
    if count == 2 { return [Opening, Closing]; }
    if count == 3 { return [Opening, Turn, Closing]; }
    var a := new Role[count];
    for i := 0 to count
      invariant forall j | 0 <= j < i :: a[j] == Development
    {
      a[i] := Development;
    }
    a[0] := Opening;
    a[count - 1] := Closing;
    a[count / 2] := Turn;
    roles := a[..];
    assert forall i | 0 <= i < count :: roles[i] == RoleAt(count, i);
  }
}

module Allocations {
  import opened Allocation
  import opened RoleAssigner

  /** `computeAllocations(mix, count, task)`: one allocation per role of `count` segments. */
  function ComputeAllocations(mix: Scores, count: int, contentType: string, t: BiasTable): (r: seq<Allocation>)
    ensures |r| == RoleCount(count)
    ensures forall i | 0 <= i < |r| ::
      r[i].role == Roles(count)[i] && r[i].scores == RoleScores(NormalizeMix(mix), contentType, r[i].role, t)
  {
    AllocationsFor(NormalizeMix(mix), Roles(count), contentType, t)
  }

  function AllocationsFor(base: Scores, roles: seq<Role>, contentType: string, t: BiasTable): (r: seq<Allocation>)
    ensures |r| == |roles|
    ensures forall i | 0 <= i < |r| :: r[i] == AllocationFor(base, contentType, roles[i], t)
  {
    seq(|roles|, i requires 0 <= i < |roles| => AllocationFor(base, contentType, roles[i], t))
  }

  /** `roleBias(role)`: the weights record updated in place by successive bumps,
      then divided by its sum (or by 1). */
  method BiasWeights(base: Scores, contentType: string, role: Role, t: BiasTable) returns (scores: Scores)
    ensures scores == RoleScores(base, contentType, role, t)
  {
    var weights := base;
    if contentType == "news" {
      weights := Bump(weights, Structure, t.newsStructure);
      weights := Bump(weights, Distribution, t.newsDistribution);
    } else if contentType == "novel" {
      weights := Bump(weights, Perception, t.novelPerception);
      weights := Bump(weights, Structure, t.novelStructure);
    } else if contentType == "audio" {
      weights := Bump(weights, Distribution, t.audioDistribution);
    }
    match role {
      case Opening =>
        weights := Bump(weights, Structure, t.openingStructure);
        weights := Bump(weights, Distribution, t.openingDistribution);
      case Development =>
        weights := Bump(weights, Perception, t.developmentPerception);
      case Turn =>
        weights := Bump(weights, Meaning, t.turnMeaning);
      case Closing =>
        weights := Bump(weights, Meaning, t.closingMeaning);
        weights := Bump(weights, Distribution, t.closingDistribution);
    }
    var sum := Sum(weights);
    if sum == 0.0 {
      sum := 1.0;
    }
    scores := Scale(weights, sum);
  }

  /** For a non-negative mix every allocation's scores lie in [0,1] and sum to 1;
      its primary and secondary differ and are the top two of the ranking. */
  lemma {:induction false} AllocationsAreDistributions(mix: Scores, count: int, contentType: string, t: BiasTable, i: int)
    requires NonNegative(mix) && t.RoleBumpsPositive()
    requires 0 <= i < RoleCount(count)
    ensures var a := ComputeAllocations(mix, count, contentType, t)[i];
            InUnit(a.scores) && Sum(a.scores) == 1.0 && a.primary != a.secondary
  {
    var a := ComputeAllocations(mix, count, contentType, t)[i];
    RoleScoresDistribution(mix, contentType, a.role, t);
  }

  lemma DivMonotone(a: real, b: real, d: real)
    requires d > 0.0 && a >= b
    ensures a / d >= b / d
  {
  }

  /** The primary key is the one key ranked before all three others. */
  lemma PrimaryIsUnique(a: Allocation, k: StyleKey)
    requires forall j | j != a.primary :: Before(a.scores, a.primary, j)
    requires forall j | j != k :: Before(a.scores, k, j)
    ensures a.primary == k
  {
    BeforeAsymmetric(a.scores, a.primary, k);
  }

  lemma BeforeAsymmetric(s: Scores, x: StyleKey, y: StyleKey)
    ensures !(Before(s, x, y) && Before(s, y, x))
  {
  }

  /** Under news content and the opening role, structure keeps the largest weight. */
  lemma NewsOpeningWeights(base: Scores, t: BiasTable)
    requires InUnit(base)
    requires base.structure >= base.perception && base.structure >= base.meaning && base.structure >= base.distribution
    requires t.newsStructure >= 0.0 && t.openingStructure >= 0.0 && t.newsDistribution <= 0.0
    requires t.newsStructure + t.openingStructure >= t.openingDistribution
    ensures var w := RoleBias(ContentBias(base, "news", t), Opening, t);
            NonNegative(w) && w.structure >= w.perception && w.structure >= w.meaning && w.structure >= w.distribution
  {
    assert 0.0 <= Score(base, Perception) && 0.0 <= Score(base, Meaning);
    var c := ContentBias(base, "news", t);
    assert c.perception == base.perception && c.meaning == base.meaning;
    assert c.distribution <= base.distribution;
    assert c.structure == Clamp(base.structure + t.newsStructure, 0.0, 1.0);
    var w := RoleBias(c, Opening, t);
    assert w.perception == base.perception && w.meaning == base.meaning;
    assert w.structure == Clamp(c.structure + t.openingStructure, 0.0, 1.0);
    assert w.distribution == Clamp(c.distribution + t.openingDistribution, 0.0, 1.0);
  }

  lemma NormalizeKeepsStructureFirst(mix: Scores)
    requires NonNegative(mix)
    requires mix.structure >= mix.perception && mix.structure >= mix.meaning && mix.structure >= mix.distribution
    ensures var b := NormalizeMix(mix);
            InUnit(b) && b.structure >= b.perception && b.structure >= b.meaning && b.structure >= b.distribution
  {
    if Sum(mix) != 0.0 {
      var total := Sum(mix);
      DivMonotone(mix.structure, mix.perception, total);
      DivMonotone(mix.structure, mix.meaning, total);
      DivMonotone(mix.structure, mix.distribution, total);
    }
  }

  /** Normalising a non-negative record keeps its largest entry largest. */
  lemma NormalizeKeepsMax(w: Scores, k: StyleKey)
    requires NonNegative(w)
    requires forall j :: Score(w, k) >= Score(w, j)
    ensures forall j :: Score(Normalize(w), k) >= Score(Normalize(w), j)
  {
    if Sum(w) != 0.0 {
      forall j ensures Score(Normalize(w), k) >= Score(Normalize(w), j) {
        DivMonotone(Score(w, k), Score(w, j), Sum(w));
      }
    }
  }

  /** For news content, the opening segment of a mix that weighs structure at
      least as much as every other dimension has structure as its primary style
      (holds for both copies' constants). */
  lemma {:induction false} NewsOpeningFavoursStructure(mix: Scores, t: BiasTable)
    requires NonNegative(mix)
    requires mix.structure >= mix.perception && mix.structure >= mix.meaning && mix.structure >= mix.distribution
    requires t.newsStructure >= 0.0 && t.openingStructure >= 0.0 && t.newsDistribution <= 0.0
    requires t.newsStructure + t.openingStructure >= t.openingDistribution
    ensures AllocationFor(NormalizeMix(mix), "news", Opening, t).primary == Structure
  {
    var base := NormalizeMix(mix);
    NormalizeKeepsStructureFirst(mix);
    NewsOpeningWeights(base, t);
    var w := RoleBias(ContentBias(base, "news", t), Opening, t);
    assert forall j :: Score(w, Structure) >= Score(w, j);
    NormalizeKeepsMax(w, Structure);
    var a := AllocationFor(base, "news", Opening, t);
    assert a.scores == Normalize(w);
    PrimaryIsUnique(a, Structure);
  }
}
