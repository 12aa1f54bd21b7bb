/**
 * String helpers shared by every component of the model.
 *
 * Strings are `seq<char>`. JavaScript counts UTF-16 code units and Python counts
 * code points; for text inside the Basic Multilingual Plane the two agree with the
 * length of the sequence used here.
 */
module Text {

  /** A value that may be absent (`None`, `null`, `undefined`). */
  datatype Option<T> = None | Some(value: T)

  /** The one whitespace class that stands for JavaScript `\s` / `trim()` and
      Python `\s` / `strip()`: the ASCII controls TAB..CR, the space, and the
      Unicode space separators and line/paragraph separators of ECMAScript. */
  predicate IsWs(c: char) {
    c == ' ' || ('\t' <= c <= '\r') || c == '\U{00A0}' || c == '\U{1680}'
    || ('\U{2000}' <= c <= '\U{200A}') || c == '\U{2028}' || c == '\U{2029}'
    || c == '\U{202F}' || c == '\U{205F}' || c == '\U{3000}' || c == '\U{FEFF}'
  }

  predicate AllWs(s: string) {
    forall i | 0 <= i < |s| :: IsWs(s[i])
  }

  /** No whitespace at either end (the empty string qualifies). */
  predicate Trimmed(s: string) {
    s == [] || (!IsWs(s[0]) && !IsWs(s[|s| - 1]))
  }

  /** JavaScript `String.prototype.trim` / Python `str.strip()`: drop the
      whitespace at both ends. */
  function Trim(s: string): (r: string)
    ensures Trimmed(r)
    ensures |r| <= |s|
    ensures r == [] <==> AllWs(s)
    decreases |s|
  {
    if s == [] then s
    else if IsWs(s[0]) then
      assert AllWs(s) <==> AllWs(s[1..]) by { AllWsSplit(s, 1); }
      Trim(s[1..])
    else if IsWs(s[|s| - 1]) then
      assert AllWs(s) <==> AllWs(s[..|s| - 1]) by { AllWsSplit(s, |s| - 1); }
      Trim(s[..|s| - 1])
    else s
  }

  lemma AllWsSplit(s: string, i: nat)
    requires i <= |s|
    ensures AllWs(s) <==> AllWs(s[..i]) && AllWs(s[i..])
  {
    assert forall j | 0 <= j < i :: s[..i][j] == s[j];
    assert forall j | i <= j < |s| :: s[i..][j - i] == s[j];
  }

  lemma SliceOfSuffix(s: string, x: nat, a: nat, b: nat)
    requires x <= |s| && a <= b <= |s| - x
    ensures s[x..][a..b] == s[x + a..x + b]
  {
  }

  lemma SliceOfPrefix(s: string, n: nat, a: nat, b: nat)
    requires a <= b <= n <= |s|
    ensures s[..n][a..b] == s[a..b]
  {
  }

  /** The trimmed text is a slice of the original. */
  lemma {:induction false} TrimSlice(s: string) returns (a: nat)
    ensures a + |Trim(s)| <= |s| && Trim(s) == s[a..a + |Trim(s)|]
    ensures AllWs(s[..a]) && AllWs(s[a + |Trim(s)|..])
    decreases |s|, 1
  {
    if s == [] {
      a := 0;
    } else if IsWs(s[0]) {
      a := TrimSliceFront(s);
    } else if IsWs(s[|s| - 1]) {
      a := TrimSliceBack(s);
    } else {
      a := 0;
    }
  }

  lemma {:induction false} TrimSliceFront(s: string) returns (a: nat)
    requires s != [] && IsWs(s[0])
    ensures a + |Trim(s)| <= |s| && Trim(s) == s[a..a + |Trim(s)|]
    ensures AllWs(s[..a]) && AllWs(s[a + |Trim(s)|..])
    decreases |s|, 0
  {
    var b := TrimSlice(s[1..]);
    a := b + 1;
    WsBefore(s, Trim(s), b);
  }

  lemma {:induction false} TrimSliceBack(s: string) returns (a: nat)
    requires s != [] && !IsWs(s[0]) && IsWs(s[|s| - 1])
    ensures a + |Trim(s)| <= |s| && Trim(s) == s[a..a + |Trim(s)|]
    ensures AllWs(s[..a]) && AllWs(s[a + |Trim(s)|..])
    decreases |s|, 0
  {
    a := TrimSlice(s[..|s| - 1]);
    WsAfter(s, Trim(s), a);
  }

  /** A slice of the tail, between whitespace, stays so when a whitespace
      character is put in front. */
  lemma WsBefore(s: string, x: string, b: nat)
    requires s != [] && IsWs(s[0])
    requires b + |x| <= |s| - 1 && x == s[1..][b..b + |x|]
    requires AllWs(s[1..][..b]) && AllWs(s[1..][b + |x|..])
    ensures b + 1 + |x| <= |s| && x == s[b + 1..b + 1 + |x|]
    ensures AllWs(s[..b + 1]) && AllWs(s[b + 1 + |x|..])
  {
    SliceOfSuffix(s, 1, b, b + |x|);
    assert s[..b + 1] == [s[0]] + s[1..][..b];
    assert s[b + 1 + |x|..] == s[1..][b + |x|..];
  }

  /** The same for a whitespace character put at the end. */
  lemma WsAfter(s: string, x: string, a: nat)
    requires s != [] && IsWs(s[|s| - 1])
    requires a + |x| <= |s| - 1 && x == s[..|s| - 1][a..a + |x|]
    requires AllWs(s[..|s| - 1][..a]) && AllWs(s[..|s| - 1][a + |x|..])
    ensures a + |x| <= |s| && x == s[a..a + |x|]
    ensures AllWs(s[..a]) && AllWs(s[a + |x|..])
  {
    var init := s[..|s| - 1];
    SliceOfPrefix(s, |s| - 1, a, a + |x|);
    assert s[..a] == init[..a];
    assert s[a + |x|..] == init[a + |x|..] + [s[|s| - 1]];
  }

  lemma TrimOfTrimmed(s: string)
    requires Trimmed(s)
    ensures Trim(s) == s
  {
    if s != [] {
      assert !IsWs(s[0]) && !IsWs(s[|s| - 1]);
    }
  }

  lemma TrimIdempotent(s: string)
    ensures Trim(Trim(s)) == Trim(s)
  {
    TrimOfTrimmed(Trim(s));
  }

  predicate StartsWith(s: string, p: string) {
    |p| <= |s| && s[..|p|] == p
  }

  predicate EndsWith(s: string, p: string) {
    |p| <= |s| && s[|s| - |p|..] == p
  }

  lemma StartsWithAppend(a: string, b: string, p: string)
    requires StartsWith(a, p)
    ensures StartsWith(a + b, p)
  {
    assert (a + b)[..|p|] == a[..|p|];
  }

  predicate OccursAt(s: string, t: string, i: int) {
    0 <= i && i + |t| <= |s| && s[i..i + |t|] == t
  }

  /** Python `t in s` / JavaScript `s.includes(t)`. */
  predicate Contains(s: string, t: string) {
    exists i | 0 <= i <= |s| - |t| :: OccursAt(s, t, i)
  }

  /** Index of the first occurrence of `t` in `s` at or after `from`, or -1. */
  function FindFrom(s: string, t: string, from: nat): (r: int)
    ensures r == -1 || (from <= r && OccursAt(s, t, r))
    ensures forall j | from <= j && (r == -1 || j < r) :: !OccursAt(s, t, j)
    decreases |s| - from
  {
    if from + |t| > |s| then -1
    else if s[from..from + |t|] == t then from
    else FindFrom(s, t, from + 1)
  }

  /** Python `str.find`: index of the first occurrence, or -1. */
  function Find(s: string, t: string): (r: int)
    ensures r == -1 <==> !Contains(s, t)
    ensures r != -1 ==> OccursAt(s, t, r) && forall j | 0 <= j < r :: !OccursAt(s, t, j)
  {
    FindFrom(s, t, 0)
  }

  /** `parts.join(sep)`. */
  function Join(parts: seq<string>, sep: string): string {
    if |parts| == 0 then ""
    else if |parts| == 1 then parts[0]
    else parts[0] + sep + Join(parts[1..], sep)
  }

  lemma JoinCons(p: string, rest: seq<string>, sep: string)
    requires rest != []
    ensures Join([p] + rest, sep) == p + sep + Join(rest, sep)
  {
    assert ([p] + rest)[1..] == rest;
  }

  /** Every part survives in the joined text, so the join is at least as long. */
  lemma {:induction false} JoinLength(parts: seq<string>, sep: string)
    ensures forall k | 0 <= k < |parts| :: |parts[k]| <= |Join(parts, sep)|
    decreases |parts|
  {
    if |parts| > 1 {
      JoinLength(parts[1..], sep);
      forall k | 0 <= k < |parts| ensures |parts[k]| <= |Join(parts, sep)| {
        if k > 0 { assert parts[k] == parts[1..][k - 1]; }
      }
    }
  }

  function IndexOfChar(s: string, c: char): (i: nat)
    requires c in s
    ensures i < |s| && s[i] == c && c !in s[..i]
  {
    if s[0] == c then 0 else IndexOfChar(s[1..], c) + 1
  }

  /** `s.split(c)` for a one-character separator: the pieces between the
      separators; joining them back with the separator gives `s` again. */
  function SplitOn(s: string, c: char): (r: seq<string>)
    ensures |r| >= 1
    ensures forall k | 0 <= k < |r| :: c !in r[k]
    ensures Join(r, [c]) == s
    decreases |s|
  {
    if c !in s then [s]
    else
      var i := IndexOfChar(s, c);
      var rest := SplitOn(s[i + 1..], c);
      JoinCons(s[..i], rest, [c]);
      assert s == s[..i] + [c] + s[i + 1..];
      [s[..i]] + rest
  }

  /** Splitting a join of separator-free pieces gives the pieces back. */
  lemma {:induction false} SplitOnJoin(parts: seq<string>, c: char)
    requires parts != []
    requires forall k | 0 <= k < |parts| :: c !in parts[k]
    ensures SplitOn(Join(parts, [c]), c) == parts
    decreases |parts|
  {
    if |parts| > 1 {
      var p := parts[0];
      var rest := parts[1..];
      var s := Join(parts, [c]);
      JoinCons(p, rest, [c]);
      assert [p] + rest == parts;
      assert s == p + [c] + Join(rest, [c]);
      assert s[|p|] == c;
      assert forall j | 0 <= j < |p| :: s[j] == p[j];
      var i := IndexOfChar(s, c);
      assert i <= |p| ==> s[..i] == p[..i];
      assert i == |p|;
      assert s[..i] == p;
      assert s[i + 1..] == Join(rest, [c]);
      SplitOnJoin(rest, c);
    }
  }

  /** `.map((item) => item.trim()).filter(Boolean)`: trim every piece and drop
      the ones left empty. */
  function CleanPieces(parts: seq<string>): (r: seq<string>)
    ensures |r| <= |parts|
    ensures forall k | 0 <= k < |r| :: r[k] != []
    ensures r == [] <==> AllBlank(parts)
  {
    if parts == [] then []
    else
      var t := Trim(parts[0]);
      var rest := CleanPieces(parts[1..]);
      AllBlankCons(parts);
      if t == [] then rest else [t] + rest
  }

  /** Every kept piece is trimmed. */
  lemma {:induction false} CleanPiecesTrimmed(parts: seq<string>)
    ensures forall k | 0 <= k < |CleanPieces(parts)| :: Trimmed(CleanPieces(parts)[k])
  {
    if parts != [] {
      CleanPiecesTrimmed(parts[1..]);
      var t := Trim(parts[0]);
      var rest := CleanPieces(parts[1..]);
      var r := CleanPieces(parts);
      if t != [] {
        assert r == [t] + rest;
        forall k | 0 <= k < |r| ensures Trimmed(r[k]) {
          if k > 0 { assert r[k] == rest[k - 1]; }
        }
      }
    }
  }

  /** Every piece is whitespace only. */
  predicate AllBlank(parts: seq<string>) {
    forall k | 0 <= k < |parts| :: AllWs(parts[k])
  }

  lemma AllBlankCons(parts: seq<string>)
    requires parts != []
    ensures AllBlank(parts) <==> AllWs(parts[0]) && AllBlank(parts[1..])
  {
    assert forall k | 1 <= k < |parts| :: parts[k] == parts[1..][k - 1];
  }

  /** Cleaning works piece by piece: the pieces of a concatenation are
      cleaned on their own, and one piece becomes its trimmed text unless it
      is blank. */
  lemma CleanPiecesAppend(a: seq<string>, b: seq<string>)
    ensures CleanPieces(a + b) == CleanPieces(a) + CleanPieces(b)
    ensures |a| == 1 ==> CleanPieces(a) == (if AllWs(a[0]) then [] else [Trim(a[0])])
  {
    if a == [] {
      assert a + b == b;
    } else {
      var t := Trim(a[0]);
      var head := if t == [] then [] else [t];
      assert (a + b)[0] == a[0];
      assert (a + b)[1..] == a[1..] + b;
      assert CleanPieces(a + b) == head + CleanPieces(a[1..] + b);
      CleanPiecesAppend(a[1..], b);
    }
  }

  /** `s.replace(/c/g, rep)`: every occurrence of one character replaced. */
  function ReplaceChar(s: string, c: char, rep: string): (r: string)
    ensures c !in rep ==> c !in r
    ensures c !in s ==> r == s
  {
    if s == [] then []
    else (if s[0] == c then rep else [s[0]]) + ReplaceChar(s[1..], c, rep)
  }

  /** Any other character that the replacement does not hold is in the
      result exactly when it is in the input. */
  lemma {:induction false} ReplaceCharKeeps(s: string, c: char, rep: string, d: char)
    requires d != c && d !in rep
    ensures d in ReplaceChar(s, c, rep) <==> d in s
  {
    if s != [] {
      ReplaceCharKeeps(s[1..], c, rep, d);
      assert s == [s[0]] + s[1..];
    }
  }

  lemma ReplaceCharAppend(a: string, b: string, c: char, rep: string)
    ensures ReplaceChar(a + b, c, rep) == ReplaceChar(a, c, rep) + ReplaceChar(b, c, rep)
  {
    if a != [] {
      var h := if a[0] == c then rep else [a[0]];
      TailOfAppend(a, b);
      ReplaceCharAppend(a[1..], b, c, rep);
      calc {
        ReplaceChar(a + b, c, rep);
        h + ReplaceChar(a[1..] + b, c, rep);
        h + (ReplaceChar(a[1..], c, rep) + ReplaceChar(b, c, rep));
        { AppendAssoc(h, ReplaceChar(a[1..], c, rep), ReplaceChar(b, c, rep)); }
        (h + ReplaceChar(a[1..], c, rep)) + ReplaceChar(b, c, rep);
      }
    } else {
      assert a + b == b;
    }
  }

  lemma TailOfAppend<T>(a: seq<T>, b: seq<T>)
    requires a != []
    ensures (a + b)[0] == a[0] && (a + b)[1..] == a[1..] + b
  {
  }

  lemma AppendAssoc<T>(a: seq<T>, b: seq<T>, c: seq<T>)
    ensures a + (b + c) == (a + b) + c
  {
  }

  lemma AppendEmpty<T>(s: seq<T>)
    ensures s + [] == s
  {
  }

  /** Number of occurrences of `x` in `s`. */
  function Count<T(==)>(s: seq<T>, x: T): (n: nat)
    ensures n <= |s|
    ensures n == 0 <==> x !in s
  {
    if s == [] then 0
    else Count(s[..|s| - 1], x) + (if s[|s| - 1] == x then 1 else 0)
  }

  lemma CountSnoc<T>(s: seq<T>, x: T, i: nat)
    requires i < |s|
    ensures Count(s[..i + 1], x) == Count(s[..i], x) + (if s[i] == x then 1 else 0)
  {
    assert s[..i + 1][..i] == s[..i];
  }

  /** Counting splits over concatenation. */
  lemma {:induction false} CountAppend<T>(a: seq<T>, b: seq<T>, x: T)
    ensures Count(a + b, x) == Count(a, x) + Count(b, x)
    decreases |b|
  {
    if b == [] {
      AppendEmpty(a);
    } else {
      var b' := b[..|b| - 1];
      assert (a + b)[..|a + b| - 1] == a + b';
      CountAppend(a, b', x);
    }
  }

  /** Counting from the front: the first element, then the rest. */
  lemma CountCons<T>(s: seq<T>, x: T)
    requires s != []
    ensures Count(s, x) == (if s[0] == x then 1 else 0) + Count(s[1..], x)
  {
    CountAppend([s[0]], s[1..], x);
    assert [s[0]] + s[1..] == s;
  }

  /** 1 for true and 0 for false. */
  function Indicator(b: bool): nat {
    if b then 1 else 0
  }

  predicate IsDigit(c: char) { '0' <= c <= '9' }

  /** Decimal rendering of a natural number, as `${n}` gives it. */
  function NatToString(n: nat): (r: string)
    ensures r != [] && forall i | 0 <= i < |r| :: IsDigit(r[i])
    ensures (r[0] == '0') <==> n == 0
  {
    var d := [(n % 10) as char + '0'];
    if n < 10 then d else NatToString(n / 10) + d
  }
  /** Decimal rendering of an integer, with a leading `-` when negative. */
  function IntToString(n: int): (r: string)
    ensures r != []
    ensures (r[0] == '-') <==> n < 0
  {
    if n < 0 then "-" + NatToString(-n) else NatToString(n)
  }

  /** Python `str.rstrip()`: drop the whitespace at the end. */
  function TrimEnd(s: string): (r: string)
    ensures |r| <= |s| && r == s[..|r|]
    ensures AllWs(s[|r|..])
    ensures r == [] || !IsWs(r[|r| - 1])
  {
    if s == [] || !IsWs(s[|s| - 1]) then s
    else
      var r := TrimEnd(s[..|s| - 1]);
      assert s[|r|..] == s[..|s| - 1][|r|..] + [s[|s| - 1]];
      r
  }

  /** Python `s[:n]`: a negative bound counts from the end. */
  function PyPrefix(s: string, n: int): (r: string)
    ensures |r| == if n >= |s| then |s| else if n >= 0 then n else if |s| + n <= 0 then 0 else |s| + n
    ensures r == s[..|r|]
  {
    if n >= |s| then s else if n >= 0 then s[..n] else if |s| + n <= 0 then [] else s[..|s| + n]
  }

  /** Python `s.replace(p, "")`: the occurrences of `p` found left to right,
      without overlap, are removed. */
  function RemoveAll(s: string, p: string): (r: string)
    requires p != []
    ensures |r| <= |s|
    decreases |s|
  {
    if |s| < |p| then s
    else if s[..|p|] == p then RemoveAll(s[|p|..], p)
    else [s[0]] + RemoveAll(s[1..], p)
  }

  /** A string without the pattern is left as it is. */
  lemma {:induction false} RemoveAllAbsent(s: string, p: string)
    requires p != [] && !Contains(s, p)
    ensures RemoveAll(s, p) == s
    decreases |s|
  {
    if |s| >= |p| {
      assert !OccursAt(s, p, 0);
      assert !Contains(s[1..], p) by {
        forall i | 0 <= i <= |s[1..]| - |p|
          ensures !OccursAt(s[1..], p, i)
        {
          assert !OccursAt(s, p, i + 1);
          assert s[1..][i..i + |p|] == s[i + 1..i + 1 + |p|];
        }
      }
      RemoveAllAbsent(s[1..], p);
    }
  }

  /** Removing in front of a string: a leading occurrence goes. */
  lemma RemoveAllLeading(p: string, s: string)
    requires p != []
    ensures RemoveAll(p + s, p) == RemoveAll(s, p)
  {
    assert (p + s)[..|p|] == p;
    assert (p + s)[|p|..] == s;
  }

  /** Text before the first occurrence is kept, and removal goes on after
      that occurrence, provided no occurrence starts inside the text before
      it. */
  lemma {:induction false} RemoveAllAfter(a: string, p: string, b: string)
    requires p != []
    requires forall i | 0 <= i < |a| :: !OccursAt(a + p, p, i)
    ensures RemoveAll(a + p + b, p) == a + RemoveAll(b, p)
    decreases |a|
  {
    if a == [] {
      assert a + p + b == p + b;
      RemoveAllLeading(p, b);
    } else {
      assert RemoveAll(a + p + b, p) == a + RemoveAll(b, p) by {
        RemoveAllSkip(a, p, b);
        NoOccurrenceShift(a, p);
        RemoveAllAfter(a[1..], p, b);
        AppendAssoc([a[0]], a[1..], RemoveAll(b, p));
        assert [a[0]] + a[1..] == a;
      }
    }
  }

  /** A first character that starts no occurrence is kept. */
  lemma RemoveAllSkip(a: string, p: string, b: string)
    requires p != [] && a != [] && !OccursAt(a + p, p, 0)
    ensures RemoveAll(a + p + b, p) == [a[0]] + RemoveAll(a[1..] + p + b, p)
  {
    var s := a + p + b;
    assert s[..|p|] == (a + p)[..|p|];
    assert s[1..] == a[1..] + p + b;
  }

  /** No occurrence starting inside `a` means none starting inside its tail. */
  lemma NoOccurrenceShift(a: string, p: string)
    requires a != []
    requires forall i | 0 <= i < |a| :: !OccursAt(a + p, p, i)
    ensures forall i | 0 <= i < |a[1..]| :: !OccursAt(a[1..] + p, p, i)
  {
    forall i | 0 <= i < |a[1..]|
      ensures !OccursAt(a[1..] + p, p, i)
    {
      assert !OccursAt(a + p, p, i + 1);
      assert (a + p)[i + 1..i + 1 + |p|] == (a[1..] + p)[i..i + |p|];
    }
  }
}
