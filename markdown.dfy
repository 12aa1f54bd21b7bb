/**
 * The block layer of the Markdown preview: the line-by-line renderer with its
 * list and code-fence state.
 *
 * The renderer is specified by the blocks it emits (`RenderBlocks`), and
 * its HTML is the concatenation of the blocks' HTML. The lemmas show that
 * list tags pair up, that a fence turns the lines it encloses into one code
 * block (also when the fence is never closed), and that the whole page is
 * safe in the sense of `MarkdownInline.Safe`.
 */
module MarkdownRender {
  import opened Text
  import opened MarkdownInline


  /** The length of the whitespace run that starts `s` (`\s*` matched
      greedily). */
  function WsRun(s: string): (r: nat)
    ensures r <= |s|
  {
    if s == [] || !IsWs(s[0]) then 0 else 1 + WsRun(s[1..])
  }

  /** The run is all whitespace and stops at the first other character. */
  lemma {:induction false} WsRunSpan(s: string)
    ensures AllWs(s[..WsRun(s)]) && (WsRun(s) < |s| ==> !IsWs(s[WsRun(s)]))
  {
    if s != [] && IsWs(s[0]) {
      WsRunSpan(s[1..]);
      assert s[..WsRun(s)] == [s[0]] + s[1..][..WsRun(s[1..])];
    }
  }

  /** A `-` at `i` followed by a whitespace character. */
  predicate DashAt(line: string, i: nat) {
    i + 1 < |line| && line[i] == '-' && IsWs(line[i + 1])
  }

  /** The length of the match of `-\s+` at `lead` counted from the start
      of the line, or 0. */
  function DashMarker(line: string, lead: nat): (k: nat)
    requires lead <= |line|
    ensures k <= |line|
  {
    if DashAt(line, lead) then lead + 1 + WsRun(line[lead + 1..]) else 0
  }

  lemma DashMarkerShape(line: string, lead: nat)
    requires lead <= |line| && DashMarker(line, lead) > 0
    ensures DashAt(line, lead) && DashMarker(line, lead) == lead + 1 + WsRun(line[lead + 1..])
  {
  }

  /** The length of the match of `^\s*-\s+`, or 0 when the line is not a
      list item. */
  function ItemMarker(line: string): (k: nat)
    ensures k <= |line|
  {
    DashMarker(line, WsRun(line))
  }

  lemma DashMarkerIff(line: string, lead: nat)
    requires lead <= |line|
    ensures DashMarker(line, lead) > 0 <==>
      lead < |line| && line[lead] == '-' && WsRun(line[lead + 1..]) >= 1
  {
    if lead + 1 < |line| {
      assert line[lead + 1..][0] == line[lead + 1];
    }
  }

  /** A line is a list item exactly when its first non-blank character is
      a `-` followed by a non-empty run of whitespace. */
  lemma ItemMarkerIff(line: string)
    ensures ItemMarker(line) > 0 <==>
      WsRun(line) < |line| && line[WsRun(line)] == '-' && WsRun(line[WsRun(line) + 1..]) >= 1
  {
    DashMarkerIff(line, WsRun(line));
  }

  /** The marker spans the leading whitespace, the `-` and all the
      whitespace after it, so the item text does not start blank. */
  lemma ItemMarkerSpan(line: string)
    requires ItemMarker(line) > 0
    ensures AllWs(line[..WsRun(line)]) && line[WsRun(line)] == '-'
    ensures forall i | WsRun(line) < i < ItemMarker(line) :: IsWs(line[i])
    ensures ItemMarker(line) < |line| ==> !IsWs(line[ItemMarker(line)])
  {
    ItemMarkerLead(line);
    ItemMarkerRest(line);
  }

  /** The first half of `ItemMarkerSpan`: the leading run and the dash. */
  lemma ItemMarkerLead(line: string)
    requires ItemMarker(line) > 0
    ensures AllWs(line[..WsRun(line)]) && line[WsRun(line)] == '-'
  {
    DashMarkerShape(line, WsRun(line));
    WsRunSpan(line);
  }

  /** The second half of `ItemMarkerSpan`: the run after the dash. */
  lemma ItemMarkerRest(line: string)
    requires ItemMarker(line) > 0
    ensures forall i | WsRun(line) < i < ItemMarker(line) :: IsWs(line[i])
    ensures ItemMarker(line) < |line| ==> !IsWs(line[ItemMarker(line)])
  {
    var lead := WsRun(line);
    DashMarkerShape(line, lead);
    ItemMarkerGap(line, lead);
    ItemMarkerEnd(line, lead);
  }

  lemma ItemMarkerGap(line: string, lead: nat)
    requires lead < |line| && DashMarker(line, lead) > 0
    requires DashMarker(line, lead) == lead + 1 + WsRun(line[lead + 1..])
    ensures forall i | lead < i < DashMarker(line, lead) :: IsWs(line[i])
  {
    WsRunFrom(line, lead + 1);
  }

  lemma ItemMarkerEnd(line: string, lead: nat)
    requires lead < |line| && DashMarker(line, lead) > 0
    requires DashMarker(line, lead) == lead + 1 + WsRun(line[lead + 1..])
    ensures DashMarker(line, lead) < |line| ==> !IsWs(line[DashMarker(line, lead)])
  {
    WsRunFrom(line, lead + 1);
  }

  /** The whitespace run that starts at position `a` of a line. */
  lemma WsRunFrom(line: string, a: nat)
    requires a <= |line|
    ensures a + WsRun(line[a..]) <= |line|
    ensures forall i | a <= i < a + WsRun(line[a..]) :: IsWs(line[i])
    ensures a + WsRun(line[a..]) < |line| ==> !IsWs(line[a + WsRun(line[a..])])
  {
    var rest := line[a..];
    WsRunSpan(rest);
    forall i | a <= i < a + WsRun(rest)
      ensures IsWs(line[i])
    {
      assert line[i] == rest[..WsRun(rest)][i - a];
    }
  }

  /** The length of the match of `^P\s+` for the marker `P`, or 0. */
  function Marker(line: string, p: string): (k: nat)
    ensures k <= |line|
  {
    if StartsWith(line, p) && WsRun(line[|p|..]) >= 1 then
      |p| + WsRun(line[|p|..])
    else 0
  }

  /** A positive marker length is the marker followed by all the whitespace
      after it; zero means the line does not begin with the marker and a
      whitespace character. */
  lemma MarkerMatch(line: string, p: string)
    ensures Marker(line, p) > 0 ==>
      |p| < Marker(line, p) && StartsWith(line, p) && AllWs(line[|p|..Marker(line, p)])
      && (Marker(line, p) < |line| ==> !IsWs(line[Marker(line, p)]))
    ensures Marker(line, p) == 0 && StartsWith(line, p) ==> |line| == |p| || !IsWs(line[|p|])
  {
    if StartsWith(line, p) {
      var rest := line[|p|..];
      WsRunSpan(rest);
      assert line[|p|..|p| + WsRun(rest)] == rest[..WsRun(rest)];
      if |line| > |p| { assert line[|p|] == rest[0]; }
    }
  }

  /** What a line of the page becomes. */
  datatype Block =
    | ListOpen
    | ListClose
    | Item(text: string)
    | Code(lines: seq<string>)
    | Heading(level: nat, text: string)
    | Quote(text: string)
    | Break
    | Para(text: string)

  /** The prefixes a line outside lists and code is tried against, in
      order: three heading levels, then a quotation. */
  const H1Mark: string := "#"
  const H2Mark: string := "##"
  const H3Mark: string := "###"
  const QuoteMark: string := ">"
  const Prefixes: seq<string> := [H1Mark, H2Mark, H3Mark, QuoteMark]

  /** The block for a line, trying the prefixes from the `k`-th on: the
      first whose `^P\s+` matches gives a heading or a quotation of the rest
      of the line; after the last, a blank line is a break and any other a
      paragraph. */
  function Prefixed(line: string, k: nat): Block
    requires k <= |Prefixes|
    decreases |Prefixes| - k
  {
    if k == |Prefixes| then (if AllWs(line) then Break else Para(line))
    else
      var n := Marker(line, Prefixes[k]);
      if n == 0 then Prefixed(line, k + 1)
      else if k < 3 then Heading(k + 1, line[n..])
      else Quote(line[n..])
  }

  lemma {:induction false} PrefixedPlain(line: string, k: nat)
    requires k <= |Prefixes|
    ensures !Prefixed(line, k).ListOpen? && !Prefixed(line, k).ListClose?
    decreases |Prefixes| - k
  {
    if k < |Prefixes| && Marker(line, Prefixes[k]) == 0 {
      PrefixedPlain(line, k + 1);
    }
  }

  /** A line outside lists and code. */
  function LineBlock(line: string): Block {
    Prefixed(line, 0)
  }

  /** Whether `^P\s+` matches a line that begins with `P` turns on the
      character after `P`. */
  lemma MarkerAt(line: string, p: string)
    requires StartsWith(line, p) && |line| > |p|
    ensures Marker(line, p) > 0 <==> IsWs(line[|p|])
  {
    assert line[|p|..][0] == line[|p|];
  }

  /** `# ` opens a level-one heading. */
  lemma HeadingOne(c: char, t: string)
    requires IsWs(c)
    ensures LineBlock("#" + [c] + t).Heading? && LineBlock("#" + [c] + t).level == 1
  {
    var l := "#" + [c] + t;
    assert l[..1] == "#";
    MarkerAt(l, "#");
  }

  /** `## ` opens a level-two heading: the second `#` is not whitespace, so
      `^#\s+` does not take the line. */
  lemma HeadingTwo(c: char, t: string)
    requires IsWs(c)
    ensures LineBlock("##" + [c] + t).Heading? && LineBlock("##" + [c] + t).level == 2
  {
    var l := "##" + [c] + t;
    assert l[..1] == "#" && l[..2] == "##";
    MarkerAt(l, "#");
    MarkerAt(l, "##");
    assert Prefixed(l, 0) == Prefixed(l, 1);
  }

  /** `### ` opens a level-three heading. */
  lemma HeadingThree(c: char, t: string)
    requires IsWs(c)
    ensures LineBlock("###" + [c] + t).Heading? && LineBlock("###" + [c] + t).level == 3
  {
    var l := "###" + [c] + t;
    assert l[..1] == "#" && l[..2] == "##" && l[..3] == "###";
    MarkerAt(l, "#");
    MarkerAt(l, "##");
    MarkerAt(l, "###");
    assert Prefixed(l, 0) == Prefixed(l, 1) == Prefixed(l, 2);
  }

  function BlockHtml(b: Block): string {
    match b
    case ListOpen => UlOpen
    case ListClose => UlClose
    case Item(t) => LiOpen + FormatInline(t) + LiClose
    case Code(lines) => PreOpen + CodeOpen + EscapeHtml(Join(lines, "\n")) + CodeClose + PreClose
    case Heading(level, t) =>
      if level == 1 then H1Open + FormatInline(t) + H1Close
      else if level == 2 then H2Open + FormatInline(t) + H2Close
      else H3Open + FormatInline(t) + H3Close
    case Quote(t) => QuoteOpen + FormatInline(t) + QuoteClose
    case Break => Br
    case Para(t) => POpen + FormatInline(t) + PClose
  }

  /** The HTML of a sequence of blocks, in order. */
  function Html(bs: seq<Block>): string {
    if bs == [] then "" else Html(bs[..|bs| - 1]) + BlockHtml(bs[|bs| - 1])
  }

  lemma HtmlSnoc(bs: seq<Block>, b: Block)
    ensures Html(bs + [b]) == Html(bs) + BlockHtml(b)
  {
    assert (bs + [b])[..|bs|] == bs;
  }

  /** A line as the renderer classifies it: a fence, or any other line with
      the text of its list item (when `^\s*-\s+` matches) and the block it
      is outside lists and code. */
  datatype Line = Fence | Text(raw: string, item: Option<string>, block: Block)

  const FenceMark: string := "```"

  predicate IsFence(line: string) {
    StartsWith(line, FenceMark)
  }

  function Kind(line: string): Line {
    if IsFence(line) then Fence
    else Text(line, if ItemMarker(line) > 0 then Some(line[ItemMarker(line)..]) else None, LineBlock(line))
  }

  /** Every line classified on its own. */
  function Kinds(lines: seq<string>): (ks: seq<Line>)
    ensures |ks| == |lines|
    ensures forall k | 0 <= k < |lines| :: ks[k] == Kind(lines[k])
  {
    seq(|lines|, k requires 0 <= k < |lines| => Kind(lines[k]))
  }

  lemma KindsAppend(a: seq<string>, b: seq<string>)
    ensures Kinds(a + b) == Kinds(a) + Kinds(b)
  {
    var ks := Kinds(a + b);
    forall k | 0 <= k < |a + b|
      ensures ks[k] == (Kinds(a) + Kinds(b))[k]
    {
      if k < |a| {
        assert (a + b)[k] == a[k];
      } else {
        assert (a + b)[k] == b[k - |a|];
      }
    }
  }

  /** Outside lists and code a line never opens or closes a list itself. */
  predicate Plain(l: Line) {
    l.Text? ==> !l.block.ListOpen? && !l.block.ListClose?
  }

  lemma KindsPlain(lines: seq<string>)
    ensures forall k | 0 <= k < |lines| :: Plain(Kinds(lines)[k])
  {
    forall k | 0 <= k < |lines|
      ensures Plain(Kinds(lines)[k])
    {
      PrefixedPlain(lines[k], 0);
    }
  }

  /** The renderer's state between lines: inside a list, inside a code
      fence, and the code lines buffered so far. */
  datatype Mode = Mode(inList: bool, inCode: bool, buffer: seq<string>)

  const Start := Mode(false, false, [])

  /** A mode and the blocks emitted so far. */
  datatype State = State(mode: Mode, blocks: seq<Block>)

  /** One line: its new mode and the blocks it emits. A fence opens or
      closes a code block; inside one every other line is buffered as it is;
      a list item opens a list when none is open; any other line closes an
      open list before its own block. */
  function Step(m: Mode, l: Line): State {
    match l
    case Fence =>
      if m.inCode then State(Mode(m.inList, false, []), [Code(m.buffer)])
      else State(Mode(m.inList, true, m.buffer), [])
    case Text(raw, item, block) =>
      if m.inCode then State(Mode(m.inList, true, m.buffer + [raw]), [])
      else if item.Some? then State(Mode(true, false, m.buffer), (if m.inList then [] else [ListOpen]) + [Item(item.value)])
      else State(Mode(false, false, m.buffer), (if m.inList then [ListClose] else []) + [block])
  }

  /** The lines, one after another, from mode `m`. */
  function RunFrom(m: Mode, ls: seq<Line>): State {
    if ls == [] then State(m, [])
    else
      var st := RunFrom(m, ls[..|ls| - 1]);
      var step := Step(st.mode, ls[|ls| - 1]);
      State(step.mode, st.blocks + step.blocks)
  }

  lemma RunFromSnoc(m: Mode, ls: seq<Line>, l: Line)
    ensures RunFrom(m, ls + [l]) == State(Step(RunFrom(m, ls).mode, l).mode,
                                          RunFrom(m, ls).blocks + Step(RunFrom(m, ls).mode, l).blocks)
  {
    assert (ls + [l])[..|ls|] == ls;
  }

  function Run(lines: seq<string>): State {
    RunFrom(Start, Kinds(lines))
  }

  /** At the end of the input an open list is closed and an open fence is
      flushed. */
  function Finish(m: Mode): seq<Block> {
    (if m.inList then [ListClose] else []) + (if m.inCode then [Code(m.buffer)] else [])
  }

  function RenderBlocks(lines: seq<string>): seq<Block> {
    Run(lines).blocks + Finish(Run(lines).mode)
  }

  /** `renderMarkdown`: the page for a Markdown text. */
  function Render(markdown: string): string {
    Html(RenderBlocks(SplitOn(markdown, '\n')))
  }

  lemma HtmlOne(b: Block)
    ensures Html([b]) == BlockHtml(b)
  {
    assert [b][..0] == [];
  }

  lemma {:induction false} HtmlAppend(a: seq<Block>, b: seq<Block>)
    ensures Html(a + b) == Html(a) + Html(b)
    decreases |b|
  {
    if b == [] {
      AppendEmpty(a);
      AppendEmpty(Html(a));
    } else {
      var b' := b[..|b| - 1];
      assert (a + b)[..|a + b| - 1] == a + b' && (a + b)[|a + b| - 1] == b[|b| - 1];
      HtmlAppend(a, b');
      AppendAssoc(Html(a), Html(b'), BlockHtml(b[|b| - 1]));
    }
  }

  /** The chain of tests for a line outside lists and code, each returning
      its block's HTML. */
  method BlockLine(line: string) returns (piece: string)
    ensures piece == BlockHtml(LineBlock(line))
  {
    var h1 := Marker(line, "#");
    var h2 := Marker(line, "##");
    var h3 := Marker(line, "###");
    var q := Marker(line, ">");
    assert Prefixed(line, 0) == if h1 > 0 then Heading(1, line[h1..]) else Prefixed(line, 1);
    assert Prefixed(line, 1) == if h2 > 0 then Heading(2, line[h2..]) else Prefixed(line, 2);
    assert Prefixed(line, 2) == if h3 > 0 then Heading(3, line[h3..]) else Prefixed(line, 3);
    assert Prefixed(line, 3) == if q > 0 then Quote(line[q..]) else Prefixed(line, 4);
    if h1 > 0 {
      piece := H1Open + FormatInline(line[h1..]) + H1Close;
    } else if h2 > 0 {
      piece := H2Open + FormatInline(line[h2..]) + H2Close;
    } else if h3 > 0 {
      piece := H3Open + FormatInline(line[h3..]) + H3Close;
    } else if q > 0 {
      piece := QuoteOpen + FormatInline(line[q..]) + QuoteClose;
    } else if AllWs(line) {
      piece := Br;
    } else {
      piece := POpen + FormatInline(line) + PClose;
    }
  }

  /** The callback run for each line: the HTML it appends and the state it
      leaves are those of one `Step`. */
  method RenderLine(m: Mode, line: string) returns (piece: string, next: Mode)
    ensures next == Step(m, Kind(line)).mode
    ensures piece == Html(Step(m, Kind(line)).blocks)
  {
    if StartsWith(line, FenceMark) {
      if m.inCode {
        piece := PreOpen + CodeOpen + EscapeHtml(Join(m.buffer, "\n")) + CodeClose + PreClose;
        next := Mode(m.inList, false, []);
        HtmlOne(Code(m.buffer));
      } else {
        piece := "";
        next := Mode(m.inList, true, m.buffer);
      }
    } else if m.inCode {
      piece := "";
      next := Mode(m.inList, true, m.buffer + [line]);
    } else {
      var k := ItemMarker(line);
      if k > 0 {
        HtmlOne(Item(line[k..]));
        piece := "";
        if !m.inList {
          piece := UlOpen;
          HtmlAppend([ListOpen], [Item(line[k..])]);
          HtmlOne(ListOpen);
        }
        var item := LiOpen + FormatInline(line[k..]) + LiClose;
        piece := piece + item;
        next := Mode(true, false, m.buffer);
      } else {
        var b := BlockLine(line);
        HtmlOne(LineBlock(line));
        piece := "";
        if m.inList {
          piece := UlClose;
          HtmlAppend([ListClose], [LineBlock(line)]);
          HtmlOne(ListClose);
        }
        piece := piece + b;
        next := Mode(false, false, m.buffer);
      }
    }
  }

  lemma KindsSnoc(a: seq<string>, x: string)
    ensures Kinds(a + [x]) == Kinds(a) + [Kind(x)]
  {
    KindsAppend(a, [x]);
  }

  /** The HTML written at the end of the input. */
  lemma FinishHtml(m: Mode)
    ensures Html(Finish(m)) == (if m.inList then UlClose else "") + (if m.inCode then BlockHtml(Code(m.buffer)) else "")
  {
    var close: seq<Block> := if m.inList then [ListClose] else [];
    var code: seq<Block> := if m.inCode then [Code(m.buffer)] else [];
    HtmlAppend(close, code);
    HtmlOne(ListClose);
    HtmlOne(Code(m.buffer));
  }

  /** One more line extends the run by one `Step`. */
  lemma RunPrefixStep(lines: seq<string>, i: nat)
    requires i < |lines|
    ensures var st := RunFrom(Start, Kinds(lines[..i]));
      var step := Step(st.mode, Kind(lines[i]));
      RunFrom(Start, Kinds(lines[..i + 1])) == State(step.mode, st.blocks + step.blocks)
  {
    assert lines[..i + 1] == lines[..i] + [lines[i]];
    KindsSnoc(lines[..i], lines[i]);
    RunFromSnoc(Start, Kinds(lines[..i]), Kind(lines[i]));
  }

  /** What is written after the last line: the closing `</ul>` of an open
      list, then the code of an unterminated fence. */
  method FinishLines(m: Mode) returns (tail: string)
    ensures tail == Html(Finish(m))
  {
    FinishHtml(m);
    tail := "";
    if m.inList {
      tail := UlClose;
    }
    if m.inCode {
      var code := PreOpen + CodeOpen + EscapeHtml(Join(m.buffer, "\n")) + CodeClose + PreClose;
      tail := tail + code;
    }
  }

  /** `renderMarkdown`, line by line, as the editor runs it. */
  method RenderMarkdown(markdown: string) returns (html: string)
    ensures html == Render(markdown)
  {
    var lines := SplitOn(markdown, '\n');
    html := "";
    var inList := false;
    var inCode := false;
    var codeBuffer: seq<string> := [];
    ghost var blocks: seq<Block> := [];
    var i := 0;
    while i < |lines|
      invariant 0 <= i <= |lines|
      invariant RunFrom(Start, Kinds(lines[..i])) == State(Mode(inList, inCode, codeBuffer), blocks)
      invariant html == Html(blocks)
    {
      ghost var emitted := Step(Mode(inList, inCode, codeBuffer), Kind(lines[i])).blocks;
      RunPrefixStep(lines, i);
      var piece, next := RenderLine(Mode(inList, inCode, codeBuffer), lines[i]);
      HtmlAppend(blocks, emitted);
      html := html + piece;
      blocks := blocks + emitted;
      inList, inCode, codeBuffer := next.inList, next.inCode, next.buffer;
      i := i + 1;
    }
    assert lines[..i] == lines;
    var tail := FinishLines(Mode(inList, inCode, codeBuffer));
    HtmlAppend(blocks, Finish(Mode(inList, inCode, codeBuffer)));
    html := html + tail;
  }

  // ------------------------------------------------------------------ lists

  /** Walking the blocks from a list state `open`: the state at the end, or
      `None` when a `<ul>` opens inside a list or a `</ul>` closes outside
      one. */
  function Nesting(bs: seq<Block>, open: bool): Option<bool> {
    if bs == [] then Some(open)
    else if bs[0].ListOpen? then (if open then None else Nesting(bs[1..], true))
    else if bs[0].ListClose? then (if open then Nesting(bs[1..], false) else None)
    else Nesting(bs[1..], open)
  }

  lemma {:induction false} NestingAppend(a: seq<Block>, b: seq<Block>, open: bool)
    ensures Nesting(a + b, open) == if Nesting(a, open).None? then None else Nesting(b, Nesting(a, open).value)
  {
    if a != [] {
      assert (a + b)[0] == a[0] && (a + b)[1..] == a[1..] + b;
      if a[0].ListOpen? {
        if !open { NestingAppend(a[1..], b, true); }
      } else if a[0].ListClose? {
        if open { NestingAppend(a[1..], b, false); }
      } else {
        NestingAppend(a[1..], b, open);
      }
    } else {
      assert a + b == b;
    }
  }

  /** One line's blocks walk the list state from the mode's to the new
      mode's. */
  lemma StepNesting(m: Mode, l: Line)
    requires Plain(l)
    ensures Nesting(Step(m, l).blocks, m.inList) == Some(Step(m, l).mode.inList)
    ensures !m.inCode && m.buffer == [] && !Step(m, l).mode.inCode ==> Step(m, l).mode.buffer == []
    ensures m.inCode && !Step(m, l).mode.inCode ==> Step(m, l).mode.buffer == []
  {
    match l
    case Fence =>
      if m.inCode {
        assert [Code(m.buffer)][1..] == [];
      }
    case Text(raw, item, block) =>
      if !m.inCode {
        var bs := Step(m, l).blocks;
        if item.Some? {
          var it := Item(item.value);
          assert bs == if m.inList then [it] else [ListOpen, it];
          assert [it][1..] == [] && [ListOpen, it][1..] == [it];
          assert Nesting([it], true) == Some(true);
          assert Nesting([ListOpen, it], false) == Nesting([it], true);
        } else {
          assert bs == if m.inList then [ListClose, block] else [block];
          assert [block][1..] == [] && [ListClose, block][1..] == [block];
          assert Nesting([block], false) == Some(false);
          assert Nesting([ListClose, block], true) == Nesting([block], false);
        }
      }
  }

  /** Reached from the start, a mode is inside a list exactly when a `<ul>`
      is open, and holds no code lines outside a fence. */
  lemma {:induction false} RunNesting(ls: seq<Line>)
    requires forall k | 0 <= k < |ls| :: Plain(ls[k])
    ensures Nesting(RunFrom(Start, ls).blocks, false) == Some(RunFrom(Start, ls).mode.inList)
    ensures !RunFrom(Start, ls).mode.inCode ==> RunFrom(Start, ls).mode.buffer == []
  {
    if ls != [] {
      var init := ls[..|ls| - 1];
      RunNesting(init);
      var st := RunFrom(Start, init);
      StepNesting(st.mode, ls[|ls| - 1]);
      NestingAppend(st.blocks, Step(st.mode, ls[|ls| - 1]).blocks, false);
    }
  }

  lemma {:induction false} NestingCounts(bs: seq<Block>, open: bool)
    requires Nesting(bs, open).Some?
    ensures Count(bs, ListOpen) - Count(bs, ListClose) == Indicator(Nesting(bs, open).value) - Indicator(open)
  {
    if bs != [] {
      NestingCounts(bs[1..], if bs[0].ListOpen? then true else if bs[0].ListClose? then false else open);
      CountCons(bs, ListOpen);
      CountCons(bs, ListClose);
    }
  }

  /** Lists pair up: every `<ul>` opens outside a list, every `</ul>` closes
      the open one, none is left open at the end, so there are as many of one
      as of the other. */
  lemma ListsBalanced(markdown: string)
    ensures Nesting(RenderBlocks(SplitOn(markdown, '\n')), false) == Some(false)
    ensures Count(RenderBlocks(SplitOn(markdown, '\n')), ListOpen) == Count(RenderBlocks(SplitOn(markdown, '\n')), ListClose)
  {
    var lines := SplitOn(markdown, '\n');
    KindsPlain(lines);
    RunNesting(Kinds(lines));
    var st := Run(lines);
    FinishNesting(st.mode);
    NestingAppend(st.blocks, Finish(st.mode), false);
    assert RenderBlocks(lines) == st.blocks + Finish(st.mode);
    assert Nesting(RenderBlocks(lines), false) == Some(false);
    NestingCounts(RenderBlocks(lines), false);
  }

  /** The end of the input closes an open list and opens none. */
  lemma FinishNesting(m: Mode)
    ensures Nesting(Finish(m), m.inList) == Some(false)
  {
    var code: seq<Block> := if m.inCode then [Code(m.buffer)] else [];
    assert code == [] || code[1..] == [];
    assert Nesting(code, false) == Some(false);
    if m.inList {
      assert Finish(m) == [ListClose] + code;
      assert ([ListClose] + code)[1..] == code;
    } else {
      assert Finish(m) == code;
    }
  }

  // ------------------------------------------------------------------ fences

  lemma {:induction false} RunFromAppend(m: Mode, a: seq<Line>, b: seq<Line>)
    ensures RunFrom(m, a + b) == State(RunFrom(RunFrom(m, a).mode, b).mode,
                                       RunFrom(m, a).blocks + RunFrom(RunFrom(m, a).mode, b).blocks)
    decreases |b|
  {
    if b == [] {
      assert a + b == a;
    } else {
      var b' := b[..|b| - 1];
      var l := b[|b| - 1];
      assert a + b == (a + b') + [l] && b == b' + [l];
      RunFromAppend(m, a, b');
      var sa := RunFrom(m, a);
      var sb := RunFrom(sa.mode, b');
      RunFromSnoc(m, a + b', l);
      RunFromSnoc(sa.mode, b', l);
      var st := Step(sb.mode, l);
      AppendAssoc(sa.blocks, sb.blocks, st.blocks);
    }
  }

  /** The raw text of lines that are not fences. */
  function Raws(ls: seq<Line>): seq<string>
    requires forall k | 0 <= k < |ls| :: ls[k].Text?
  {
    if ls == [] then [] else Raws(ls[..|ls| - 1]) + [ls[|ls| - 1].raw]
  }

  /** Inside a fence, lines that are not fences are buffered as they are and
      emit nothing. */
  lemma {:induction false} CodeBody(m: Mode, body: seq<Line>)
    requires m.inCode && forall k | 0 <= k < |body| :: body[k].Text?
    ensures RunFrom(m, body) == State(Mode(m.inList, true, m.buffer + Raws(body)), [])
  {
    if body != [] {
      var init := body[..|body| - 1];
      CodeBody(m, init);
      assert m.buffer + Raws(init) + [body[|body| - 1].raw] == m.buffer + Raws(body);
    }
  }

  /** The lines that are not fences classify as text holding each line. */
  lemma KindsText(body: seq<string>)
    requires forall k | 0 <= k < |body| :: !IsFence(body[k])
    ensures forall k | 0 <= k < |body| :: Kinds(body)[k].Text? && Kinds(body)[k].raw == body[k]
  {
    forall k | 0 <= k < |body|
      ensures Kinds(body)[k].Text? && Kinds(body)[k].raw == body[k]
    {
      KindText(body[k]);
    }
  }

  /** Text lines holding the given lines give those lines back. */
  lemma {:induction false} RawsOf(ls: seq<Line>, body: seq<string>)
    requires |ls| == |body| && forall k | 0 <= k < |ls| :: ls[k].Text? && ls[k].raw == body[k]
    ensures Raws(ls) == body
  {
    if ls != [] {
      RawsOf(ls[..|ls| - 1], body[..|body| - 1]);
      assert body[..|body| - 1] + [body[|body| - 1]] == body;
    }
  }

  /** The lines that are not fences classify as text holding each line. */
  lemma BodyKinds(body: seq<string>)
    requires forall k | 0 <= k < |body| :: !IsFence(body[k])
    ensures forall k | 0 <= k < |body| :: Kinds(body)[k].Text?
    ensures Raws(Kinds(body)) == body
  {
    KindsText(body);
    RawsOf(Kinds(body), body);
  }

  /** A line that is not a fence classifies as text holding the line. */
  lemma KindText(line: string)
    requires !IsFence(line)
    ensures Kind(line).Text? && Kind(line).raw == line
  {
  }

  /** From a mode outside code, a fence, lines that are not fences and
      optionally a closing fence. */
  lemma FenceLines(m: Mode, body: seq<Line>)
    requires !m.inCode && m.buffer == [] && forall k | 0 <= k < |body| :: body[k].Text?
    ensures RunFrom(m, [Fence] + body) == State(Mode(m.inList, true, Raws(body)), [])
    ensures RunFrom(m, [Fence] + body + [Fence]) == State(Mode(m.inList, false, []), [Code(Raws(body))])
  {
    var fenced := Mode(m.inList, true, []);
    RunFromSnoc(m, [], Fence);
    assert [] + [Fence] == [Fence];
    CodeBody(fenced, body);
    RunFromAppend(m, [Fence], body);
    RunFromSnoc(m, [Fence] + body, Fence);
  }

  lemma KindFence(line: string)
    requires IsFence(line)
    ensures Kinds([line]) == [Fence]
  {
    assert Kinds([line])[0] == Kind(line);
  }

  lemma Regroup<T>(a: seq<T>, b: seq<T>, c: seq<T>, d: seq<T>)
    ensures a + b + c + d == a + (b + c + d)
  {
    AppendAssoc(a, b, c);
    AppendAssoc(a, b + c, d);
    AppendAssoc(b, c, d);
  }

  /** The kinds of a fenced stretch of lines after `pre`. */
  lemma KindsFenced(pre: seq<string>, open: string, body: seq<string>, tail: seq<string>, close: seq<Line>)
    requires IsFence(open) && Kinds(tail) == close
    ensures Kinds(pre + [open] + body + tail) == Kinds(pre) + [Fence] + Kinds(body) + close
  {
    KindFence(open);
    KindsAppend(pre, [open]);
    KindsAppend(pre + [open], body);
    KindsAppend(pre + [open] + body, tail);
  }

  /** A fenced block in the middle of a page: the two fence lines and the
      lines between them emit exactly one code block holding those lines,
      and leave the list state as it was. */
  lemma FencedCode(pre: seq<string>, open: string, body: seq<string>, close: string)
    requires !Run(pre).mode.inCode
    requires IsFence(open) && IsFence(close) && forall k | 0 <= k < |body| :: !IsFence(body[k])
    ensures Run(pre + [open] + body + [close])
            == State(Mode(Run(pre).mode.inList, false, []), Run(pre).blocks + [Code(body)])
  {
    KindsPlain(pre);
    RunNesting(Kinds(pre));
    BodyKinds(body);
    KindFence(close);
    KindsFenced(pre, open, body, [close], [Fence]);
    Regroup(Kinds(pre), [Fence], Kinds(body), [Fence]);
    FenceLines(Run(pre).mode, Kinds(body));
    RunFromAppend(Start, Kinds(pre), [Fence] + Kinds(body) + [Fence]);
  }

  /** A fence that is never closed still shows its lines: at the end of the
      input the list is closed and the buffered lines form the last block. */
  lemma UnterminatedFence(pre: seq<string>, open: string, body: seq<string>)
    requires !Run(pre).mode.inCode
    requires IsFence(open) && forall k | 0 <= k < |body| :: !IsFence(body[k])
    ensures RenderBlocks(pre + [open] + body)
            == Run(pre).blocks + (if Run(pre).mode.inList then [ListClose] else []) + [Code(body)]
  {
    KindsPlain(pre);
    RunNesting(Kinds(pre));
    BodyKinds(body);
    assert Kinds([]) == [];
    KindsFenced(pre, open, body, [], []);
    AppendEmpty(pre + [open] + body);
    Regroup(Kinds(pre), [Fence], Kinds(body), []);
    AppendEmpty([Fence] + Kinds(body));
    FenceLines(Run(pre).mode, Kinds(body));
    RunFromAppend(Start, Kinds(pre), [Fence] + Kinds(body));
  }

  // ----------------------------------------------------------------- safety

  lemma Wrapped(a: string, t: string, b: string)
    requires Safe(a) && Safe(t) && Safe(b)
    ensures Safe(a + t + b)
  {
    SafeAppend(a, t);
    SafeAppend(a + t, b);
  }

  lemma InlineWrapped(open: string, t: string, close: string)
    requires Safe(open) && Safe(close)
    ensures Safe(open + FormatInline(t) + close)
  {
    FormatInlineSafe(t);
    Wrapped(open, FormatInline(t), close);
  }

  lemma ListBlockSafe(b: Block)
    requires b.ListOpen? || b.ListClose? || b.Item?
    ensures Safe(BlockHtml(b))
  {
    ListTagsShaped();
    if b.ListOpen? {
      TagSafe(ListTags, 0);
    } else if b.ListClose? {
      TagSafe(ListTags, 1);
    } else {
      TagSafe(ListTags, 2);
      TagSafe(ListTags, 3);
      InlineWrapped(LiOpen, b.text, LiClose);
    }
  }

  lemma CodeBlockSafe(lines: seq<string>)
    ensures Safe(BlockHtml(Code(lines)))
  {
    ListTagsShaped();
    TagSafe(ListTags, 4);
    TagSafe(ListTags, 5);
    InlineTagsShaped();
    TagSafe(InlineTags, 0);
    TagSafe(InlineTags, 1);
    var e := EscapeHtml(Join(lines, "\n"));
    EscapeHtmlAngles(Join(lines, "\n"));
    NoAngleSafe(e);
    SafeConcat(PreOpen, CodeOpen, e, CodeClose);
    SafeAppend(PreOpen + CodeOpen + e + CodeClose, PreClose);
  }

  lemma HeadingBlockSafe(level: nat, t: string)
    ensures Safe(BlockHtml(Heading(level, t)))
  {
    HeadingTagsShaped();
    if level == 1 {
      TagSafe(HeadingTags, 0);
      TagSafe(HeadingTags, 1);
      InlineWrapped(H1Open, t, H1Close);
    } else if level == 2 {
      TagSafe(HeadingTags, 2);
      TagSafe(HeadingTags, 3);
      InlineWrapped(H2Open, t, H2Close);
    } else {
      TagSafe(HeadingTags, 4);
      TagSafe(HeadingTags, 5);
      InlineWrapped(H3Open, t, H3Close);
    }
  }

  lemma TextBlockSafe(b: Block)
    requires b.Quote? || b.Break? || b.Para?
    ensures Safe(BlockHtml(b))
  {
    TextTagsShaped();
    if b.Quote? {
      TagSafe(TextTags, 0);
      TagSafe(TextTags, 1);
      InlineWrapped(QuoteOpen, b.text, QuoteClose);
    } else if b.Break? {
      TagSafe(TextTags, 4);
    } else {
      TagSafe(TextTags, 2);
      TagSafe(TextTags, 3);
      InlineWrapped(POpen, b.text, PClose);
    }
  }

  lemma BlockSafe(b: Block)
    ensures Safe(BlockHtml(b))
  {
    match b
    case ListOpen => ListBlockSafe(b);
    case ListClose => ListBlockSafe(b);
    case Item(_) => ListBlockSafe(b);
    case Code(lines) => CodeBlockSafe(lines);
    case Heading(level, t) => HeadingBlockSafe(level, t);
    case Quote(_) => TextBlockSafe(b);
    case Break => TextBlockSafe(b);
    case Para(_) => TextBlockSafe(b);
  }

  lemma {:induction false} HtmlSafe(bs: seq<Block>)
    ensures Safe(Html(bs))
  {
    if bs != [] {
      HtmlSafe(bs[..|bs| - 1]);
      BlockSafe(bs[|bs| - 1]);
      SafeAppend(Html(bs[..|bs| - 1]), BlockHtml(bs[|bs| - 1]));
    } else {
      NoAngleSafe("");
    }
  }

  /** Whatever is typed in the editor, every `<` on the page begins one of
      the renderer's own tags: all text is escaped before markup is added. */
  lemma RenderSafe(markdown: string)
    ensures Safe(Render(markdown))
  {
    HtmlSafe(RenderBlocks(SplitOn(markdown, '\n')));
  }
}
