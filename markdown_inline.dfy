/**
 * The inline layer of the Markdown preview: HTML escaping and the three
 * regular-expression passes that add `<code>`, `<strong>` and `<em>`.
 *
 * The safety property of the preview is stated here: in a safe string every
 * `<` begins one of the renderer's own tags, so no markup typed by the user
 * reaches the page.
 */
module MarkdownInline {
  import opened Text

  /** The tags the renderer writes, each named once. */
  const CodeOpen: string := "<code>"
  const CodeClose: string := "</code>"
  const StrongOpen: string := "<strong>"
  const StrongClose: string := "</strong>"
  const EmOpen: string := "<em>"
  const EmClose: string := "</em>"
  const UlOpen: string := "<ul>"
  const UlClose: string := "</ul>"
  const LiOpen: string := "<li>"
  const LiClose: string := "</li>"
  const PreOpen: string := "<pre>"
  const PreClose: string := "</pre>"
  const H1Open: string := "<h1>"
  const H1Close: string := "</h1>"
  const H2Open: string := "<h2>"
  const H2Close: string := "</h2>"
  const H3Open: string := "<h3>"
  const H3Close: string := "</h3>"
  const QuoteOpen: string := "<blockquote>"
  const QuoteClose: string := "</blockquote>"
  const POpen: string := "<p>"
  const PClose: string := "</p>"
  const Br: string := "<br />"

  /** The entities `escapeHtml` writes. */
  const AmpEntity: string := "&amp;"
  const LtEntity: string := "&lt;"
  const GtEntity: string := "&gt;"

  /** The tags in four groups. */
  const InlineTags: seq<string> := [CodeOpen, CodeClose, StrongOpen, StrongClose, EmOpen, EmClose]
  const ListTags: seq<string> := [UlOpen, UlClose, LiOpen, LiClose, PreOpen, PreClose]
  const HeadingTags: seq<string> := [H1Open, H1Close, H2Open, H2Close, H3Open, H3Close]
  const TextTags: seq<string> := [QuoteOpen, QuoteClose, POpen, PClose, Br]

  predicate IsTagGroup(list: seq<string>) {
    list == InlineTags || list == ListTags || list == HeadingTags || list == TextTags
  }

  /** The shape every tag has: it opens with `<`, has no other `<`, and
      holds neither markup delimiter. */
  predicate TagShape(t: string) {
    |t| >= 3 && t[0] == '<' && '<' !in t[1..] && '`' !in t && '*' !in t
  }

  predicate AllShaped(list: seq<string>) {
    forall k | 0 <= k < |list| :: TagShape(list[k])
  }

  lemma InlineTagsShaped()
    ensures AllShaped(InlineTags)
  {
    StrongShaped();
    assert TagShape(CodeOpen) && TagShape(CodeClose);
    assert TagShape(EmOpen) && TagShape(EmClose);
  }

  lemma StrongShaped()
    ensures TagShape(StrongOpen) && TagShape(StrongClose)
  {
  }

  lemma ListTagsShaped()
    ensures AllShaped(ListTags)
  {
    assert TagShape(UlOpen) && TagShape(UlClose) && TagShape(LiOpen);
    assert TagShape(LiClose) && TagShape(PreOpen) && TagShape(PreClose);
  }

  lemma HeadingTagsShaped()
    ensures AllShaped(HeadingTags)
  {
    assert TagShape(H1Open) && TagShape(H1Close) && TagShape(H2Open);
    assert TagShape(H2Close) && TagShape(H3Open) && TagShape(H3Close);
  }

  lemma TextTagsShaped()
    ensures AllShaped(TextTags)
  {
    QuoteShaped();
    assert TagShape(POpen) && TagShape(PClose) && TagShape(Br);
  }

  lemma QuoteShaped()
    ensures TagShape(QuoteOpen) && TagShape(QuoteClose)
  {
  }

  lemma TagsShaped()
    ensures AllShaped(InlineTags) && AllShaped(ListTags) && AllShaped(HeadingTags) && AllShaped(TextTags)
  {
    InlineTagsShaped();
    ListTagsShaped();
    HeadingTagsShaped();
    TextTagsShaped();
  }

  /** One of the strings of `list` occurs at `i`. */
  predicate StartsTag(s: string, i: int, list: seq<string>) {
    list != [] && (OccursAt(s, list[0], i) || StartsTag(s, i, list[1..]))
  }

  /** One of the renderer's tags occurs at `i`. */
  predicate AtTag(s: string, i: int) {
    StartsTag(s, i, InlineTags) || StartsTag(s, i, ListTags)
    || StartsTag(s, i, HeadingTags) || StartsTag(s, i, TextTags)
  }

  /** Every `<` of `s` is the first character of one of the renderer's tags. */
  ghost predicate Safe(s: string) {
    forall i | 0 <= i < |s| && s[i] == '<' :: AtTag(s, i)
  }

  lemma {:induction false} StartsListed(s: string, i: int, list: seq<string>, k: nat)
    requires k < |list| && OccursAt(s, list[k], i)
    ensures StartsTag(s, i, list)
  {
    if k > 0 {
      assert list[1..][k - 1] == list[k];
      StartsListed(s, i, list[1..], k - 1);
    }
  }

  /** A tag of the renderer, written on its own, is safe. */
  lemma TagSafe(list: seq<string>, k: nat)
    requires IsTagGroup(list) && k < |list| && TagShape(list[k])
    ensures Safe(list[k])
  {
    var t := list[k];
    forall i | 0 <= i < |t| && t[i] == '<' ensures AtTag(t, i) {
      StartsListed(t, 0, list, k);
    }
  }

  lemma NoAngleSafe(s: string)
    requires '<' !in s
    ensures Safe(s)
  {
  }

  lemma {:induction false} StartsTagLeft(a: string, b: string, i: int, list: seq<string>)
    ensures StartsTag(a, i, list) ==> StartsTag(a + b, i, list)
  {
    if list != [] {
      if OccursAt(a, list[0], i) {
        assert (a + b)[i..i + |list[0]|] == a[i..i + |list[0]|];
      }
      StartsTagLeft(a, b, i, list[1..]);
    }
  }

  lemma {:induction false} StartsTagRight(a: string, b: string, j: int, list: seq<string>)
    ensures StartsTag(b, j, list) ==> StartsTag(a + b, j + |a|, list)
  {
    if list != [] {
      if OccursAt(b, list[0], j) {
        assert (a + b)[j + |a|..j + |a| + |list[0]|] == b[j..j + |list[0]|];
      }
      StartsTagRight(a, b, j, list[1..]);
    }
  }

  lemma AtTagLeft(a: string, b: string, i: int)
    requires AtTag(a, i)
    ensures AtTag(a + b, i)
  {
    StartsTagLeft(a, b, i, InlineTags);
    StartsTagLeft(a, b, i, ListTags);
    StartsTagLeft(a, b, i, HeadingTags);
    StartsTagLeft(a, b, i, TextTags);
  }

  lemma AtTagRight(a: string, b: string, j: int)
    requires AtTag(b, j)
    ensures AtTag(a + b, j + |a|)
  {
    StartsTagRight(a, b, j, InlineTags);
    StartsTagRight(a, b, j, ListTags);
    StartsTagRight(a, b, j, HeadingTags);
    StartsTagRight(a, b, j, TextTags);
  }

  lemma SafeAppend(a: string, b: string)
    requires Safe(a) && Safe(b)
    ensures Safe(a + b)
  {
    forall i | 0 <= i < |a + b| && (a + b)[i] == '<' ensures AtTag(a + b, i) {
      if i < |a| {
        AtTagLeft(a, b, i);
      } else {
        assert b[i - |a|] == '<';
        AtTagRight(a, b, i - |a|);
      }
    }
  }

  lemma SafeConcat(a: string, b: string, c: string, d: string)
    requires Safe(a) && Safe(b) && Safe(c) && Safe(d)
    ensures Safe(a + b + c + d)
  {
    SafeAppend(a, b);
    SafeAppend(a + b, c);
    SafeAppend(a + b + c, d);
  }

  /** A character in front of a safe string keeps it safe when it is not `<`
      or when it begins a tag. */
  lemma SafeCons(c: char, rest: string)
    requires Safe(rest) && (c == '<' ==> AtTag([c] + rest, 0))
    ensures Safe([c] + rest)
  {
    forall i | 0 <= i < |[c] + rest| && ([c] + rest)[i] == '<' ensures AtTag([c] + rest, i) {
      if i > 0 {
        assert rest[i - 1] == '<';
        AtTagRight([c], rest, i - 1);
      }
    }
  }

  lemma SliceOfSlice(s: string, a: nat, b: nat, x: nat, y: nat)
    requires a <= b <= |s| && x <= y <= b - a
    ensures s[a..b][x..y] == s[a + x..a + y]
  {
    assert forall k | 0 <= k < y - x :: s[a..b][x..y][k] == s[a + x + k];
  }

  /** A tag that starts inside a slice ending at a delimiter (or at the end)
      lies wholly inside it, since no tag holds a delimiter. */
  lemma {:induction false} StartsTagSlice(s: string, a: nat, b: nat, j: nat, d: char, list: seq<string>)
    requires a <= b <= |s| && j < b - a && (b < |s| ==> s[b] == d) && (d == '`' || d == '*')
    requires AllShaped(list)
    ensures StartsTag(s, a + j, list) ==> StartsTag(s[a..b], j, list)
  {
    if list != [] {
      var t := list[0];
      if OccursAt(s, t, a + j) {
        assert TagShape(t);
        SliceOfSlice(s, a, b, j, j + |t|);
      }
      assert forall k | 0 <= k < |list| - 1 :: list[1..][k] == list[k + 1];
      StartsTagSlice(s, a, b, j, d, list[1..]);
    }
  }

  lemma SliceSafe(s: string, a: nat, b: nat, d: char)
    requires Safe(s) && a <= b <= |s| && (b < |s| ==> s[b] == d) && (d == '`' || d == '*')
    ensures Safe(s[a..b])
  {
    TagsShaped();
    forall j | 0 <= j < b - a && s[a..b][j] == '<' ensures AtTag(s[a..b], j) {
      assert s[a + j] == '<';
      StartsTagSlice(s, a, b, j, d, InlineTags);
      StartsTagSlice(s, a, b, j, d, ListTags);
      StartsTagSlice(s, a, b, j, d, HeadingTags);
      StartsTagSlice(s, a, b, j, d, TextTags);
    }
  }

  // ---------------------------------------------------------------- escaping

  /** `escapeHtml`: `&` first, then `<` and `>`. */
  function EscapeHtml(s: string): string {
    ReplaceChar(ReplaceChar(ReplaceChar(s, '&', AmpEntity), '<', LtEntity), '>', GtEntity)
  }

  /** Escaped text holds no angle bracket. */
  lemma EscapeHtmlAngles(s: string)
    ensures '<' !in EscapeHtml(s) && '>' !in EscapeHtml(s)
  {
    var lt := ReplaceChar(ReplaceChar(s, '&', AmpEntity), '<', LtEntity);
    ReplaceCharKeeps(lt, '>', GtEntity, '<');
  }

  /** Escaping neither adds nor removes any character that is not part of
      an entity. */
  lemma EscapeHtmlKeeps(s: string, d: char)
    requires d !in "&<>;amplgt"
    ensures d in EscapeHtml(s) <==> d in s
  {
    var amp := ReplaceChar(s, '&', AmpEntity);
    var lt := ReplaceChar(amp, '<', LtEntity);
    ReplaceCharKeeps(s, '&', AmpEntity, d);
    ReplaceCharKeeps(amp, '<', LtEntity, d);
    ReplaceCharKeeps(lt, '>', GtEntity, d);
  }

  function EscapeChar(c: char): string {
    if c == '&' then AmpEntity else if c == '<' then LtEntity else if c == '>' then GtEntity else [c]
  }

  /** Escaping character by character. */
  function EscapeEach(s: string): string {
    if s == [] then [] else EscapeChar(s[0]) + EscapeEach(s[1..])
  }

  /** Because `&` goes first, the entities written for `<` and `>` are not
      escaped again: the three passes escape each character once. */
  lemma {:induction false} EscapeHtmlEach(s: string)
    ensures EscapeHtml(s) == EscapeEach(s)
  {
    if s != [] {
      EscapeHtmlEach(s[1..]);
      var c := s[0];
      assert s == [c] + s[1..];
      ReplaceCharAppend([c], s[1..], '&', AmpEntity);
      var a1 := ReplaceChar([c], '&', AmpEntity);
      var b1 := ReplaceChar(s[1..], '&', AmpEntity);
      ReplaceCharAppend(a1, b1, '<', LtEntity);
      var a2 := ReplaceChar(a1, '<', LtEntity);
      var b2 := ReplaceChar(b1, '<', LtEntity);
      ReplaceCharAppend(a2, b2, '>', GtEntity);
      assert ReplaceChar(a2, '>', GtEntity) == EscapeChar(c) by { EscapeOneChar(c); }
    }
  }

  lemma EscapeOneChar(c: char)
    ensures ReplaceChar(ReplaceChar(ReplaceChar([c], '&', AmpEntity), '<', LtEntity), '>', GtEntity) == EscapeChar(c)
  {
    ReplaceOne(c, '&', AmpEntity);
    var r1 := ReplaceChar([c], '&', AmpEntity);
    if c == '&' {
      assert '<' !in AmpEntity && '>' !in AmpEntity;
    } else {
      ReplaceOne(c, '<', LtEntity);
      if c == '<' {
        assert '>' !in LtEntity;
      } else {
        ReplaceOne(c, '>', GtEntity);
      }
    }
  }

  lemma ReplaceOne(c: char, x: char, rep: string)
    ensures ReplaceChar([c], x, rep) == if c == x then rep else [c]
  {
    assert [c][1..] == [];
    AppendEmpty(if c == x then rep else [c]);
  }

  /** Reading the entities back. */
  function Unescape(t: string): string
    decreases |t|
  {
    if t == [] then []
    else if t[0] != '&' then [t[0]] + Unescape(t[1..])
    else if StartsWith(t, AmpEntity) then ['&'] + Unescape(t[5..])
    else if StartsWith(t, LtEntity) then ['<'] + Unescape(t[4..])
    else if StartsWith(t, GtEntity) then ['>'] + Unescape(t[4..])
    else ['&'] + Unescape(t[1..])
  }

  lemma {:induction false} UnescapeEach(s: string)
    ensures Unescape(EscapeEach(s)) == s
  {
    if s != [] {
      UnescapeEach(s[1..]);
      UnescapeHead(s[0], EscapeEach(s[1..]));
      assert s == [s[0]] + s[1..];
    }
  }

  /** The entity of one character is read back first. */
  lemma UnescapeHead(c: char, rest: string)
    ensures Unescape(EscapeChar(c) + rest) == [c] + Unescape(rest)
  {
    if c == '&' {
      UnescapeEntity(AmpEntity, rest);
    } else if c == '<' {
      UnescapeEntity(LtEntity, rest);
    } else if c == '>' {
      UnescapeEntity(GtEntity, rest);
    } else {
      assert ([c] + rest)[1..] == rest;
    }
  }

  lemma UnescapeEntity(e: string, rest: string)
    requires e == AmpEntity || e == LtEntity || e == GtEntity
    ensures Unescape(e + rest) == (if e == AmpEntity then "&" else if e == LtEntity then "<" else ">") + Unescape(rest)
  {
    var t := e + rest;
    assert t[..|e|] == e && t[|e|..] == rest;
    assert t[0] == '&' && t[1] == e[1];
  }

  /** Escaping loses nothing: the entities read back give the text again. */
  lemma EscapeRoundTrip(s: string)
    ensures Unescape(EscapeHtml(s)) == s
  {
    EscapeHtmlEach(s);
    UnescapeEach(s);
  }

  // ------------------------------------------------------------ inline passes

  /** The length of the run of characters other than `d` that starts `s`
      (`[^d]+` matched greedily). */
  function PlainRun(s: string, d: char): (r: nat)
    ensures r <= |s| && (forall i | 0 <= i < r :: s[i] != d) && (r < |s| ==> s[r] == d)
  {
    if s == [] || s[0] == d then 0 else 1 + PlainRun(s[1..], d)
  }

  /** `w` copies of `d` at position `i`. */
  predicate DelimAt(s: string, i: nat, d: char, w: nat) {
    i + w <= |s| && forall k | i <= k < i + w :: s[k] == d
  }

  /** The length of the match of `D([^d]+)D` at the start of `s`, where `D`
      is `w` copies of `d`, or 0 when there is none. */
  function MatchLength(s: string, d: char, w: nat): (m: nat)
    requires w >= 1
    ensures m == 0 || (2 * w < m <= |s| && DelimAt(s, 0, d, w) && DelimAt(s, m - w, d, w)
                        && forall i | w <= i < m - w :: s[i] != d)
    ensures |s| > 0 && s[0] != d ==> m == 0
  {
    if !DelimAt(s, 0, d, w) then 0
    else
      var k := PlainRun(s[w..], d);
      if k >= 1 && DelimAt(s, w + k, d, w) then 2 * w + k else 0
  }

  /** `s.replace(/D([^d]+)D/g, open + "$1" + close)`: every match, left to
      right and without overlap, has its delimiters replaced by the tags. */
  function Pass(s: string, d: char, w: nat, open: string, close: string): string
    requires w >= 1
    decreases |s|
  {
    if s == [] then []
    else
      var m := MatchLength(s, d, w);
      if m > 0 then open + s[w..m - w] + close + Pass(s[m..], d, w, open, close)
      else [s[0]] + Pass(s[1..], d, w, open, close)
  }

  /** Text without the delimiter passes through unchanged. */
  lemma {:induction false} PassPlain(s: string, d: char, w: nat, open: string, close: string)
    requires w >= 1 && d !in s
    ensures Pass(s, d, w, open, close) == s
    decreases |s|
  {
    if s != [] {
      PassPlain(s[1..], d, w, open, close);
    }
  }

  /** A beginning without the delimiter is copied as it is. */
  lemma {:induction false} PassKeepsPlainPrefix(s: string, y: string, d: char, w: nat, open: string, close: string)
    requires w >= 1 && StartsWith(s, y) && d !in y
    ensures StartsWith(Pass(s, d, w, open, close), y)
    decreases |y|
  {
    if y != [] {
      assert s[0] == y[0];
      assert s[1..][..|y| - 1] == y[1..];
      PassKeepsPlainPrefix(s[1..], y[1..], d, w, open, close);
    }
  }

  /** A pass whose tags are safe keeps a safe string safe. */
  lemma {:induction false} PassSafe(s: string, d: char, w: nat, open: string, close: string)
    requires w >= 1 && (d == '`' || d == '*') && Safe(open) && Safe(close) && Safe(s)
    ensures Safe(Pass(s, d, w, open, close))
    decreases |s|
  {
    if s != [] {
      var m := MatchLength(s, d, w);
      var next := if m > 0 then m else 1;
      SliceSafe(s, next, |s|, d);
      assert s[next..|s|] == s[next..];
      PassSafe(s[next..], d, w, open, close);
      if m > 0 {
        MatchStep(s, d, w, open, close);
      } else {
        CopyStep(s, d, w, open, close);
      }
    }
  }

  lemma MatchStep(s: string, d: char, w: nat, open: string, close: string)
    requires w >= 1 && (d == '`' || d == '*') && Safe(open) && Safe(close) && Safe(s)
    requires s != [] && MatchLength(s, d, w) > 0
    requires Safe(Pass(s[MatchLength(s, d, w)..], d, w, open, close))
    ensures Safe(Pass(s, d, w, open, close))
  {
    MatchSafe(s, d, w, open, close, Pass(s[MatchLength(s, d, w)..], d, w, open, close));
  }

  lemma CopyStep(s: string, d: char, w: nat, open: string, close: string)
    requires w >= 1 && (d == '`' || d == '*') && Safe(s)
    requires s != [] && MatchLength(s, d, w) == 0
    requires Safe(Pass(s[1..], d, w, open, close))
    ensures Safe(Pass(s, d, w, open, close))
  {
    HeadSafe(s, Pass(s[1..], d, w, open, close), d, w, open, close);
  }

  /** A replaced match is safe: its body is a slice that ends at a
      delimiter, between two safe tags. */
  lemma MatchSafe(s: string, d: char, w: nat, open: string, close: string, rest: string)
    requires w >= 1 && (d == '`' || d == '*') && Safe(open) && Safe(close) && Safe(s) && Safe(rest)
    requires MatchLength(s, d, w) > 0
    ensures Safe(open + s[w..MatchLength(s, d, w) - w] + close + rest)
  {
    var m := MatchLength(s, d, w);
    assert s[m - w] == d;
    SliceSafe(s, w, m - w, d);
    SafeConcat(open, s[w..m - w], close, rest);
  }

  lemma HeadSafe(s: string, rest: string, d: char, w: nat, open: string, close: string)
    requires s != [] && w >= 1 && (d == '`' || d == '*') && Safe(s) && Safe(rest)
    requires rest == Pass(s[1..], d, w, open, close)
    ensures Safe([s[0]] + rest)
  {
    if s[0] == '<' {
      TagsShaped();
      HeadTag(s, rest, d, w, open, close, InlineTags);
      HeadTag(s, rest, d, w, open, close, ListTags);
      HeadTag(s, rest, d, w, open, close, HeadingTags);
      HeadTag(s, rest, d, w, open, close, TextTags);
    }
    SafeCons(s[0], rest);
  }

  /** A tag at the front of the input is at the front of the output: its
      first character is copied and the pass copies the rest, which holds
      no delimiter. */
  lemma {:induction false} HeadTag(s: string, rest: string, d: char, w: nat, open: string, close: string, list: seq<string>)
    requires s != [] && w >= 1 && (d == '`' || d == '*') && AllShaped(list)
    requires rest == Pass(s[1..], d, w, open, close)
    ensures StartsTag(s, 0, list) ==> StartsTag([s[0]] + rest, 0, list)
  {
    if list != [] {
      var t := list[0];
      if OccursAt(s, t, 0) {
        assert TagShape(t);
        assert s[1..][..|t| - 1] == t[1..];
        PassKeepsPlainPrefix(s[1..], t[1..], d, w, open, close);
        assert rest[..|t| - 1] == t[1..];
        assert ([s[0]] + rest)[..|t|] == [s[0]] + rest[..|t| - 1];
      }
      assert forall k | 0 <= k < |list| - 1 :: list[1..][k] == list[k + 1];
      HeadTag(s, rest, d, w, open, close, list[1..]);
    }
  }

  /** `formatInline`: escape, then code spans, then strong, then emphasis. */
  function FormatInline(text: string): string {
    var escaped := EscapeHtml(text);
    var coded := Pass(escaped, '`', 1, CodeOpen, CodeClose);
    var strong := Pass(coded, '*', 2, StrongOpen, StrongClose);
    Pass(strong, '*', 1, EmOpen, EmClose)
  }

  /** Whatever the user typed, the only markup in the formatted text is the
      formatter's own tags: the text is escaped before any tag is added. */
  lemma FormatInlineSafe(text: string)
    ensures Safe(FormatInline(text))
  {
    var escaped := EscapeHtml(text);
    EscapeHtmlAngles(text);
    NoAngleSafe(escaped);
    var coded := Pass(escaped, '`', 1, CodeOpen, CodeClose);
    InlineTagsSafe();
    PassSafe(escaped, '`', 1, CodeOpen, CodeClose);
    var strong := Pass(coded, '*', 2, StrongOpen, StrongClose);
    PassSafe(coded, '*', 2, StrongOpen, StrongClose);
    PassSafe(strong, '*', 1, EmOpen, EmClose);
  }

  lemma InlineTagsSafe()
    ensures Safe(CodeOpen) && Safe(CodeClose) && Safe(StrongOpen)
    ensures Safe(StrongClose) && Safe(EmOpen) && Safe(EmClose)
  {
    InlineTagsShaped();
    TagSafe(InlineTags, 0);
    TagSafe(InlineTags, 1);
    TagSafe(InlineTags, 2);
    TagSafe(InlineTags, 3);
    TagSafe(InlineTags, 4);
    TagSafe(InlineTags, 5);
  }

  /** Text with no backtick and no asterisk is only escaped. */
  lemma FormatPlainText(text: string)
    requires '`' !in text && '*' !in text
    ensures FormatInline(text) == EscapeHtml(text)
  {
    var escaped := EscapeHtml(text);
    EscapeHtmlKeeps(text, '`');
    EscapeHtmlKeeps(text, '*');
    PassPlain(escaped, '`', 1, CodeOpen, CodeClose);
    PassPlain(escaped, '*', 2, StrongOpen, StrongClose);
    PassPlain(escaped, '*', 1, EmOpen, EmClose);
  }
}
