/**
 * Segmentation of the remix engine: text into paragraphs, paragraphs into sentences.
 * The regular expressions of the source are modelled by explicit scanners.
 */
module Segmenter {
  import opened Text

  // ---- `/\n\s*\n/`: a blank line ----

  /** `s[i..k+1]` is a match of `\n\s*\n`. */
  predicate BlankAt(s: string, i: int, k: int) {
    0 <= i < k < |s| && s[i] == '\n' && s[k] == '\n' && AllWs(s[i + 1..k])
  }

  /** `/\n\s*\n/.test(s)`. */
  predicate HasBlankLine(s: string) {
    exists i, k | 0 <= i < k < |s| :: BlankAt(s, i, k)
  }

  /** A character inside a whitespace-only slice is whitespace. */
  lemma WsInSlice(s: string, a: int, b: int, j: int)
    ensures 0 <= a <= j < b <= |s| && AllWs(s[a..b]) ==> IsWs(s[j])
  {
    if 0 <= a <= j < b <= |s| && AllWs(s[a..b]) {
      assert s[a..b][j - a] == s[j];
    }
  }

  /** Scanning the whitespace run after the newline at `i`: the last newline seen
      so far (or -1). The greedy `\s*` ends the match at the last newline of the run. */
  function LastNlInRun(s: string, i: int, j: int, best: int): (r: int)
    requires 0 <= i < j <= |s| && s[i] == '\n' && AllWs(s[i + 1..j])
    requires best == -1 || BlankAt(s, i, best)
    requires forall k | i < k < j && k > best :: s[k] != '\n'
    ensures r == -1 || BlankAt(s, i, r)
    ensures forall k | BlankAt(s, i, k) :: k <= r
    decreases |s| - j
  {
    if j == |s| || !IsWs(s[j]) then
      assert forall k | BlankAt(s, i, k) :: k < j by {
        forall k | BlankAt(s, i, k) ensures k < j {
          WsInSlice(s, i + 1, k, j);
        }
      }
      best
    else
      assert s[i + 1..j + 1] == s[i + 1..j] + [s[j]];
      LastNlInRun(s, i, j + 1, if s[j] == '\n' then j else best)
  }

  /** End of the leftmost-greedy match starting at `i`, or -1 when none starts there. */
  function MatchEnd(s: string, i: int): (r: int)
    requires 0 <= i < |s|
    ensures r == -1 || (i + 2 <= r <= |s| && BlankAt(s, i, r - 1))
  {
    if s[i] != '\n' then -1
    else
      var k := LastNlInRun(s, i, i + 1, -1);
      if k == -1 then -1 else k + 1
  }

  /** No match is missed, and the match found is the longest one (`\s*` is greedy). */
  lemma MatchEndExact(s: string, i: int)
    requires 0 <= i < |s|
    ensures MatchEnd(s, i) == -1 <==> forall k :: !BlankAt(s, i, k)
    ensures forall k | BlankAt(s, i, k) :: k <= MatchEnd(s, i) - 1
  {
    if s[i] == '\n' {
      var k := LastNlInRun(s, i, i + 1, -1);
    }
  }

  /** Start of the leftmost match at or after `from`, or -1. */
  function FirstBlank(s: string, from: nat): (r: int)
    ensures r == -1 || (from <= r < |s| && MatchEnd(s, r) != -1)
    decreases |s| - from
  {
    if from >= |s| then -1
    else if MatchEnd(s, from) != -1 then from
    else FirstBlank(s, from + 1)
  }

  /** No match starts before the one found. */
  lemma {:induction false} FirstBlankLeftmost(s: string, from: nat)
    ensures var r := FirstBlank(s, from);
            forall i, k | from <= i && (r == -1 || i < r) :: !BlankAt(s, i, k)
    decreases |s| - from
  {
    if from < |s| && MatchEnd(s, from) == -1 {
      FirstBlankLeftmost(s, from + 1);
      MatchEndExact(s, from);
    }
  }

  /** A separator matched by `\n\s*\n`. */
  predicate IsBlankSep(sep: string) {
    |sep| >= 2 && sep[0] == '\n' && sep[|sep| - 1] == '\n' && AllWs(sep)
  }

  /** Pieces interleaved with separators. */
  function Interleave(pieces: seq<string>, seps: seq<string>): string
    requires |pieces| == |seps| + 1
  {
    if seps == [] then pieces[0]
    else pieces[0] + seps[0] + Interleave(pieces[1..], seps[1..])
  }

  datatype Split = Split(pieces: seq<string>, seps: seq<string>)

  lemma BlankInSlice(s: string, a: int, b: int, i: int, k: int)
    requires 0 <= a <= b <= |s| && BlankAt(s[a..b], i, k)
    ensures BlankAt(s, a + i, a + k)
  {
    var t := s[a..b];
    forall j | a + i + 1 <= j < a + k ensures IsWs(s[j]) {
      WsInSlice(t, i + 1, k, j - a);
    }
  }

  /** `s.split(/\n\s*\n/)` together with the separators it consumed. */
  function BlankSplit(s: string): (r: Split)
    ensures |r.pieces| == |r.seps| + 1
    decreases |s|
  {
    var st := FirstBlank(s, 0);
    if st == -1 then Split([s], [])
    else
      var en := MatchEnd(s, st);
      var rest := BlankSplit(s[en..]);
      Split([s[..st]] + rest.pieces, [s[st..en]] + rest.seps)
  }

  /** The text before the first blank line contains none. */
  lemma {:induction false} HeadHasNoBlank(s: string)
    ensures FirstBlank(s, 0) != -1 ==> !HasBlankLine(s[..FirstBlank(s, 0)])
  {
    var st := FirstBlank(s, 0);
    FirstBlankLeftmost(s, 0);
    if st != -1 {
      var piece := s[..st];
      forall i, k | 0 <= i < k < |piece| ensures !BlankAt(piece, i, k) {
        if BlankAt(piece, i, k) { BlankInSlice(s, 0, st, i, k); }
      }
    }
  }

  /** The first separator is a blank line. */
  lemma FirstSepIsBlank(s: string)
    requires FirstBlank(s, 0) != -1
    ensures IsBlankSep(s[FirstBlank(s, 0)..MatchEnd(s, FirstBlank(s, 0))])
  {
    var st := FirstBlank(s, 0);
    var en := MatchEnd(s, st);
    var sep := s[st..en];
    assert BlankAt(s, st, en - 1);
    forall j | 0 <= j < |sep| ensures IsWs(sep[j]) {
      WsInSlice(s, st + 1, en - 1, st + j);
    }
  }

  lemma InterleaveCons(p: string, sep: string, pieces: seq<string>, seps: seq<string>)
    requires |pieces| == |seps| + 1
    ensures Interleave([p] + pieces, [sep] + seps) == p + sep + Interleave(pieces, seps)
  {
    assert ([p] + pieces)[1..] == pieces && ([sep] + seps)[1..] == seps;
  }

  lemma ThreeSlices(s: string, a: nat, b: nat)
    requires a <= b <= |s|
    ensures s[..a] + s[a..b] + s[b..] == s
  {
  }

  /** One step of the split: the text before the first match, the match, and
      the split of the rest. */
  lemma SplitStep(s: string) returns (st: nat, en: nat)
    requires FirstBlank(s, 0) != -1
    ensures st == FirstBlank(s, 0) && en == MatchEnd(s, st) && st < en <= |s|
    ensures BlankSplit(s).pieces == [s[..st]] + BlankSplit(s[en..]).pieces
    ensures BlankSplit(s).seps == [s[st..en]] + BlankSplit(s[en..]).seps
  {
    st := FirstBlank(s, 0);
    en := MatchEnd(s, st);
  }

  /** Splitting loses nothing: pieces and separators interleave back to the text. */
  lemma {:induction false} BlankSplitRebuilds(s: string)
    ensures Interleave(BlankSplit(s).pieces, BlankSplit(s).seps) == s
    decreases |s|
  {
    if FirstBlank(s, 0) != -1 {
      var st, en := SplitStep(s);
      var rest := BlankSplit(s[en..]);
      var tail := s[en..];
      BlankSplitRebuilds(tail);
      var head, sep := s[..st], s[st..en];
      InterleaveCons(head, sep, rest.pieces, rest.seps);
      ThreeSlices(s, st, en);
    }
  }

  /** Every separator is a blank line. */
  lemma {:induction false} BlankSplitSeps(s: string)
    ensures forall k | 0 <= k < |BlankSplit(s).seps| :: IsBlankSep(BlankSplit(s).seps[k])
    decreases |s|
  {
    if FirstBlank(s, 0) != -1 {
      var st, en := SplitStep(s);
      BlankSplitSeps(s[en..]);
      FirstSepIsBlank(s);
      var r := BlankSplit(s);
      var rest := BlankSplit(s[en..]);
      forall k | 0 <= k < |r.seps| ensures IsBlankSep(r.seps[k]) {
        if k > 0 { assert r.seps[k] == rest.seps[k - 1]; }
      }
    }
  }

  /** No piece still holds a blank line. */
  lemma {:induction false} BlankSplitPieces(s: string)
    ensures forall k | 0 <= k < |BlankSplit(s).pieces| :: !HasBlankLine(BlankSplit(s).pieces[k])
    decreases |s|
  {
    if FirstBlank(s, 0) != -1 {
      var st, en := SplitStep(s);
      BlankSplitPieces(s[en..]);
      HeadHasNoBlank(s);
      var r := BlankSplit(s);
      var rest := BlankSplit(s[en..]);
      forall k | 0 <= k < |r.pieces| ensures !HasBlankLine(r.pieces[k]) {
        if k > 0 { assert r.pieces[k] == rest.pieces[k - 1]; }
      }
    } else {
      FirstBlankLeftmost(s, 0);
    }
  }

  lemma InterleaveAllWs(pieces: seq<string>, seps: seq<string>)
    requires |pieces| == |seps| + 1
    requires forall k | 0 <= k < |seps| :: AllWs(seps[k])
    ensures AllBlank(pieces) ==> AllWs(Interleave(pieces, seps))
  {
    if seps != [] {
      InterleaveAllWs(pieces[1..], seps[1..]);
    }
  }

  lemma JoinAllWs(pieces: seq<string>, sep: string)
    requires AllWs(sep)
    ensures AllBlank(pieces) ==> AllWs(Join(pieces, sep))
  {
    if |pieces| > 1 {
      JoinAllWs(pieces[1..], sep);
    }
  }

  lemma NoBlankInTrim(s: string)
    requires !HasBlankLine(s)
    ensures !HasBlankLine(Trim(s))
  {
    var a := TrimSlice(s);
    var t := Trim(s);
    assert t == s[a..a + |t|];
    forall i, k | 0 <= i < k < |t| ensures !BlankAt(t, i, k) {
      if BlankAt(t, i, k) { BlankInSlice(s, a, a + |t|, i, k); }
    }
  }

  lemma NoCharInTrim(s: string, c: char)
    requires c !in s
    ensures c !in Trim(s)
  {
    var a := TrimSlice(s);
    assert Trim(s) == s[a..a + |Trim(s)|];
  }

  lemma CleanPiecesKeepNoBlank(parts: seq<string>)
    requires forall k | 0 <= k < |parts| :: !HasBlankLine(parts[k])
    ensures forall k | 0 <= k < |CleanPieces(parts)| :: !HasBlankLine(CleanPieces(parts)[k])
  {
    if parts != [] {
      NoBlankInTrim(parts[0]);
      CleanPiecesKeepNoBlank(parts[1..]);
    }
  }

  lemma CleanPiecesKeepNoChar(parts: seq<string>, c: char)
    requires forall k | 0 <= k < |parts| :: c !in parts[k]
    ensures forall k | 0 <= k < |CleanPieces(parts)| :: c !in CleanPieces(parts)[k]
  {
    if parts != [] {
      NoCharInTrim(parts[0], c);
      CleanPiecesKeepNoChar(parts[1..], c);
    }
  }

  lemma OneLine(text: string)
    ensures '\n' !in text && !AllWs(text) ==> CleanPieces(SplitOn(Trim(text), '\n')) == [Trim(text)]
  {
    if '\n' !in text && !AllWs(text) {
      var t := Trim(text);
      NoCharInTrim(text, '\n');
      var lines := SplitOn(t, '\n');
      assert lines == [t];
      TrimOfTrimmed(t);
    }
  }

  /** Splitting a trimmed, non-blank text on blank lines keeps at least one
      piece; every kept piece is trimmed and free of blank lines. */
  lemma BlankBranch(t: string)
    requires t != [] && Trimmed(t) && HasBlankLine(t)
    ensures '\n' in t
    ensures var r := CleanPieces(BlankSplit(t).pieces);
            r != []
            && forall k | 0 <= k < |r| :: Trimmed(r[k]) && !HasBlankLine(r[k])
  {
    var sp := BlankSplit(t);
    BlankSplitRebuilds(t);
    BlankSplitSeps(t);
    BlankSplitPieces(t);
    CleanPiecesTrimmed(sp.pieces);
    CleanPiecesKeepNoBlank(sp.pieces);
    InterleaveAllWs(sp.pieces, sp.seps);
    assert !IsWs(t[0]);
    var i, k :| 0 <= i < k < |t| && BlankAt(t, i, k);
    assert t[i] == '\n';
  }

  /** Splitting on single newlines: the same, and no kept piece holds a newline. */
  lemma LineBranch(t: string)
    requires t != [] && Trimmed(t) && !HasBlankLine(t)
    ensures var r := CleanPieces(SplitOn(t, '\n'));
            r != []
            && forall k | 0 <= k < |r| :: Trimmed(r[k]) && !HasBlankLine(r[k]) && '\n' !in r[k]
  {
    var lines := SplitOn(t, '\n');
    assert forall k | 0 <= k < |lines| :: !HasBlankLine(lines[k]);
    CleanPiecesKeepNoBlank(lines);
    CleanPiecesKeepNoChar(lines, '\n');
    JoinAllWs(lines, "\n");
    CleanPiecesTrimmed(lines);
    assert !IsWs(t[0]);
  }

  /** `splitParagraphs`: trim; nothing for blank input; split on blank lines when
      there is one, else on every newline; trim the pieces and drop empty ones. */
  function SplitParagraphs(text: string): (r: seq<string>)
    ensures r == [] <==> AllWs(text)
    ensures forall k | 0 <= k < |r| :: r[k] != [] && Trimmed(r[k]) && !HasBlankLine(r[k])
    ensures !HasBlankLine(Trim(text)) ==> forall k | 0 <= k < |r| :: '\n' !in r[k]
    ensures '\n' !in text && !AllWs(text) ==> r == [Trim(text)]
    ensures HasBlankLine(Trim(text)) ==> r == CleanPieces(BlankSplit(Trim(text)).pieces)
    ensures !AllWs(text) && !HasBlankLine(Trim(text)) ==> r == CleanPieces(SplitOn(Trim(text), '\n'))
  {
    var t := Trim(text);
    if t == [] then []
    else if HasBlankLine(t) then
      BlankBranch(t);
      assert '\n' in text by {
        if '\n' !in text { NoCharInTrim(text, '\n'); }
      }
      CleanPieces(BlankSplit(t).pieces)
    else
      LineBranch(t);
      OneLine(text);
      CleanPieces(SplitOn(t, '\n'))
  }

  // ---- `/[^。！？!?]+[。！？!?]?/g`: sentences ----

  /** The sentence-terminal marks of the source's character classes. */
  predicate IsTerminal(c: char) {
    c == '。' || c == '！' || c == '？' || c == '!' || c == '?'
  }

  /** End of the run of non-terminal characters starting at `i`. */
  function RunEnd(s: string, i: nat): (e: nat)
    requires i <= |s|
    ensures i <= e <= |s| && (e == |s| || IsTerminal(s[e]))
    ensures forall j | i <= j < e :: !IsTerminal(s[j])
    decreases |s| - i
  {
    if i == |s| || IsTerminal(s[i]) then i else RunEnd(s, i + 1)
  }

  /** A match of the sentence pattern: one or more non-terminals, then at most
      one terminal, which can only be the last character. */
  predicate IsSentenceMatch(m: string) {
    m != [] && !IsTerminal(m[0]) && forall j | 0 <= j < |m| - 1 :: !IsTerminal(m[j])
  }

  /** `text.match(/[^。！？!?]+[。！？!?]?/g)`, with `null` as the empty sequence. */
  function SentenceMatches(s: string): (r: seq<string>)
    ensures forall k | 0 <= k < |r| :: IsSentenceMatch(r[k])
    ensures r == [] <==> forall j | 0 <= j < |s| :: IsTerminal(s[j])
    ensures forall k | 0 <= k < |r| - 1 :: |r[k]| > 0 && IsTerminal(r[k][|r[k]| - 1])
    decreases |s|
  {
    if s == [] then []
    else if IsTerminal(s[0]) then
      var r := SentenceMatches(s[1..]);
      assert forall j | 1 <= j < |s| :: s[j] == s[1..][j - 1];
      r
    else
      var k := RunEnd(s, 0);
      var e := if k < |s| then k + 1 else k;
      [s[..e]] + SentenceMatches(s[e..])
  }

  /** Drop every terminal that starts the text or follows another terminal:
      the characters no sentence match covers. */
  function DropStray(s: string, afterTerminal: bool): string {
    if s == [] then []
    else if IsTerminal(s[0]) && afterTerminal then DropStray(s[1..], true)
    else [s[0]] + DropStray(s[1..], IsTerminal(s[0]))
  }

  function Concat(parts: seq<string>): string {
    if parts == [] then [] else parts[0] + Concat(parts[1..])
  }

  lemma {:induction false} DropStrayRun(s: string, i: nat, k: nat)
    requires i <= k <= |s|
    requires forall j | i <= j < k :: !IsTerminal(s[j])
    requires i < k
    ensures DropStray(s[i..], false) == s[i..k] + DropStray(s[k..], false)
    decreases k - i
  {
    assert s[i..][1..] == s[i + 1..];
    if i + 1 < k {
      DropStrayRun(s, i + 1, k);
    }
  }

  /** A run of non-terminals at the start is kept whole by `DropStray`. */
  lemma DropStrayRunHead(s: string, k: nat)
    requires 0 < k <= |s|
    requires forall j | 0 <= j < k :: !IsTerminal(s[j])
    ensures DropStray(s, true) == s[..k] + DropStray(s[k..], false)
  {
    assert s[0..] == s;
    DropStrayRun(s, 0, k);
  }

  /** The terminal that closes a run is kept too. */
  lemma DropStrayClose(s: string, k: nat)
    requires 0 < k < |s| && IsTerminal(s[k])
    ensures s[..k] + DropStray(s[k..], false) == s[..k + 1] + DropStray(s[k + 1..], true)
  {
    assert s[k..][1..] == s[k + 1..];
    assert DropStray(s[k..], false) == [s[k]] + DropStray(s[k + 1..], true);
    assert s[..k + 1] == s[..k] + [s[k]];
  }

  /** The matches, concatenated, are the text without its stray terminals:
      a run of terminals contributes only its first mark. */
  lemma {:induction false} SentenceMatchesCover(s: string)
    ensures Concat(SentenceMatches(s)) == DropStray(s, true)
    decreases |s|
  {
    if s == [] {
    } else if IsTerminal(s[0]) {
      SentenceMatchesCover(s[1..]);
    } else {
      var k := RunEnd(s, 0);
      var e := if k < |s| then k + 1 else k;
      var ms := SentenceMatches(s);
      assert ms == [s[..e]] + SentenceMatches(s[e..]);
      assert ms[1..] == SentenceMatches(s[e..]);
      SentenceMatchesCover(s[e..]);
      DropStrayRunHead(s, k);
      if k < |s| {
        DropStrayClose(s, k);
      }
    }
  }

  /** `splitSentences` of the library: trimmed non-empty matches, or the whole
      text as one sentence when nothing matches. */
  function SplitSentences(text: string): (r: seq<string>)
    ensures (forall j | 0 <= j < |text| :: IsTerminal(text[j])) ==> r == [text]
    ensures (exists j | 0 <= j < |text| :: !IsTerminal(text[j])) ==>
              forall k | 0 <= k < |r| :: r[k] != [] && Trimmed(r[k])
    ensures (exists j | 0 <= j < |text| :: !IsTerminal(text[j])) ==> r == CleanPieces(SentenceMatches(text))
  {
    var m := SentenceMatches(text);
    CleanPiecesTrimmed(m);
    if m == [] then [text] else CleanPieces(m)
  }

  /** The sentence split of a paragraph whose last character is not whitespace
      is never empty. */
  lemma {:induction false} SentencesNonEmpty(text: string)
    requires text != [] && !IsWs(text[|text| - 1])
    ensures SplitSentences(text) != []
  {
    var m := SentenceMatches(text);
    if m != [] {
      LastMatchNotAllWs(text);
      var k :| 0 <= k < |m| && !AllWs(m[k]);
    }
  }

  lemma {:induction false} LastMatchNotAllWs(s: string)
    requires s != [] && !IsWs(s[|s| - 1]) && SentenceMatches(s) != []
    ensures exists k | 0 <= k < |SentenceMatches(s)| :: !AllWs(SentenceMatches(s)[k])
    decreases |s|
  {
    var m := SentenceMatches(s);
    if IsTerminal(s[0]) {
      assert s[1..][|s[1..]| - 1] == s[|s| - 1];
      LastMatchNotAllWs(s[1..]);
    } else {
      var k := RunEnd(s, 0);
      var e := if k < |s| then k + 1 else k;
      assert m[0] == s[..e];
      if k < |s| {
        assert !IsWs(m[0][k]);
      } else {
        assert !IsWs(m[0][|s| - 1]);
      }
    }
  }
}
