/**
 * The vocal-logo concatenator: it writes an ffmpeg concat list naming the
 * start logo, the input and the end logo, one quoted `file` line each, and
 * before that settles the output path and refuses to overwrite the input.
 */
module ConcatMp3 {
  import opened Text


  const EntryOpen: string := "file '"
  const Quote: string := "'"
  /** A single quote closes the quoted path, is written escaped, and the
      quoting reopens: `'\''`. */
  const QuoteEscape: string := "'\\''"
  const Newline: string := "\n"

  /** `str(path).replace("'", r"'\''")`. */
  function EscapeQuotes(path: string): string {
    ReplaceChar(path, '\'', QuoteEscape)
  }

  /** One concat-list line: `file '<escaped path>'`. */
  function EntryLine(path: string): string {
    EntryOpen + EscapeQuotes(path) + Quote
  }

  function EntryLines(paths: seq<string>): (r: seq<string>)
    ensures |r| == |paths|
    ensures forall k | 0 <= k < |paths| :: r[k] == EntryLine(paths[k])
  {
    seq(|paths|, k requires 0 <= k < |paths| => EntryLine(paths[k]))
  }

  /** The list file: the lines joined by newlines, with a final newline. */
  function ConcatText(paths: seq<string>): string {
    Join(EntryLines(paths), Newline) + Newline
  }

  /** `_ffmpeg_concat_list`. */
  method FfmpegConcatList(paths: seq<string>) returns (r: string)
    ensures r == ConcatText(paths)
  {
    var lines: seq<string> := [];
    for i := 0 to |paths|
      invariant |lines| == i
      invariant forall k | 0 <= k < i :: lines[k] == EntryLine(paths[k])
    {
      var escaped := ReplaceChar(paths[i], '\'', QuoteEscape);
      lines := lines + [EntryOpen + escaped + Quote];
    }
    assert lines == EntryLines(paths);
    r := Join(lines, Newline) + Newline;
  }

  // ------------------------------------------------------------- reading

  /** The reading of an escaped path: each `'\''` stands for one quote. */
  function Unescape(s: string): string
    decreases |s|
  {
    if s == [] then []
    else if StartsWith(s, QuoteEscape) then Quote + Unescape(s[|QuoteEscape|..])
    else [s[0]] + Unescape(s[1..])
  }

  /** Reading an escaped path gives the path back. */
  lemma {:induction false} UnescapeEscape(path: string)
    ensures Unescape(EscapeQuotes(path)) == path
  {
    if path != [] {
      var rest := EscapeQuotes(path[1..]);
      UnescapeEscape(path[1..]);
      if path[0] == '\'' {
        var e := QuoteEscape + rest;
        assert EscapeQuotes(path) == e;
        assert e[..|QuoteEscape|] == QuoteEscape;
        assert e[|QuoteEscape|..] == rest;
      } else {
        var e := [path[0]] + rest;
        assert EscapeQuotes(path) == e;
        assert e[0] != QuoteEscape[0];
        assert e[1..] == rest;
      }
    }
  }

  /** The path a list line names, if it is a `file '…'` line. */
  function ParseEntry(line: string): Option<string> {
    if |line| >= |EntryOpen| + |Quote| && StartsWith(line, EntryOpen) && EndsWith(line, Quote) then
      Some(Unescape(line[|EntryOpen|..|line| - |Quote|]))
    else None
  }

  /** A written line names its path. */
  lemma ParseEntryLine(path: string)
    ensures ParseEntry(EntryLine(path)) == Some(path)
  {
    var e := EscapeQuotes(path);
    var line := EntryOpen + e + Quote;
    assert line[..|EntryOpen|] == EntryOpen;
    assert line[|line| - |Quote|..] == Quote;
    assert line[|EntryOpen|..|line| - |Quote|] == e;
    UnescapeEscape(path);
  }

  function ParseEntries(lines: seq<string>): Option<seq<string>> {
    if lines == [] then Some([])
    else
      var head := ParseEntry(lines[0]);
      var rest := ParseEntries(lines[1..]);
      if head.None? || rest.None? then None else Some([head.value] + rest.value)
  }

  /** The paths a list file names: its newline-ended lines, each a
      `file` line. */
  function ParseConcatText(text: string): Option<seq<string>> {
    if text == [] || text[|text| - 1] != '\n' then None
    else ParseEntries(SplitOn(text[..|text| - 1], '\n'))
  }

  lemma {:induction false} ParseEntriesLines(paths: seq<string>)
    ensures ParseEntries(EntryLines(paths)) == Some(paths)
  {
    if paths != [] {
      ParseEntryLine(paths[0]);
      ParseEntriesLines(paths[1..]);
      assert EntryLines(paths)[1..] == EntryLines(paths[1..]);
      assert [paths[0]] + paths[1..] == paths;
    }
  }

  /** Reading the written list gives back every path, in order, as long as
      there is at least one path and no path holds a newline. */
  lemma ConcatRoundTrip(paths: seq<string>)
    requires paths != []
    requires forall k | 0 <= k < |paths| :: '\n' !in paths[k]
    ensures ParseConcatText(ConcatText(paths)) == Some(paths)
  {
    var lines := EntryLines(paths);
    forall k | 0 <= k < |lines|
      ensures '\n' !in lines[k]
    {
      EntryLineNoNewline(paths[k]);
    }
    var body := Join(lines, Newline);
    assert (body + Newline)[..|body + Newline| - 1] == body;
    SplitOnJoin(lines, '\n');
    ParseEntriesLines(paths);
  }

  lemma EntryLineNoNewline(path: string)
    requires '\n' !in path
    ensures '\n' !in EntryLine(path)
  {
    ReplaceCharKeeps(path, '\'', QuoteEscape, '\n');
  }

  /** A path without quotes is written verbatim between the quotes. */
  lemma EntryLineVerbatim(path: string)
    requires '\'' !in path
    ensures EntryLine(path) == EntryOpen + path + Quote
  {
  }

  lemma {:induction false} CountJoin(parts: seq<string>)
    requires parts != []
    requires forall k | 0 <= k < |parts| :: '\n' !in parts[k]
    ensures Count(Join(parts, Newline), '\n') == |parts| - 1
    decreases |parts|
  {
    if |parts| > 1 {
      JoinCons(parts[0], parts[1..], Newline);
      assert [parts[0]] + parts[1..] == parts;
      CountJoin(parts[1..]);
      CountAppend(parts[0], Newline, '\n');
      CountAppend(parts[0] + Newline, Join(parts[1..], Newline), '\n');
    }
  }

  /** The list has one newline per path when no path holds one; an empty
      list of paths is still written as a single newline. */
  lemma NewlineCount(paths: seq<string>)
    requires forall k | 0 <= k < |paths| :: '\n' !in paths[k]
    ensures paths != [] ==> Count(ConcatText(paths), '\n') == |paths|
    ensures paths == [] ==> ConcatText(paths) == Newline
  {
    var lines := EntryLines(paths);
    if paths != [] {
      forall k | 0 <= k < |lines|
        ensures '\n' !in lines[k]
      {
        EntryLineNoNewline(paths[k]);
      }
      CountJoin(lines);
      CountAppend(Join(lines, Newline), Newline, '\n');
    }
  }

  // ------------------------------------------------------------ main

  /** A resolved path: its directory and its final component. */
  datatype Path = Path(dir: string, name: string)

  function PathText(p: Path): string {
    p.dir + "/" + p.name
  }

  /** Index of the last `c` in `s`, or -1. */
  function LastIndexOf(s: string, c: char): (i: int)
    ensures -1 <= i < |s|
    ensures i >= 0 ==> s[i] == c
    ensures forall j | i < j < |s| :: s[j] != c
  {
    if s == [] then -1
    else if s[|s| - 1] == c then |s| - 1
    else LastIndexOf(s[..|s| - 1], c)
  }

  /** `PurePath.stem`: the name without its last suffix, where a suffix
      starts at the last dot, is not the whole name and is not just the dot. */
  function Stem(name: string): (r: string)
    ensures |r| <= |name| && r == name[..|r|]
    ensures |r| < |name| ==> name[|r|] == '.' && 0 < |r| < |name| - 1
    ensures |r| < |name| ==> '.' !in name[|r| + 1..]
    ensures forall j | 0 < j < |name| - 1 && name[j] == '.' && '.' !in name[j + 1..] :: r == name[..j]
  {
    var i := LastIndexOf(name, '.');
    if 0 < i < |name| - 1 then name[..i] else name
  }

  const MofaSuffix: string := "_mofa.mp3"

  /** The default output: `<stem>_mofa.mp3` beside the input. */
  function DefaultOutput(input: Path): Path {
    Path(input.dir, Stem(input.name) + MofaSuffix)
  }

  /** The default output is never the input itself. */
  lemma DefaultDiffers(input: Path)
    ensures DefaultOutput(input) != input
  {
    var stem := Stem(input.name);
    var out := stem + MofaSuffix;
    assert out[|stem|] == '_';
    assert |stem| < |input.name| ==> input.name[|stem|] == '.';
  }

  /** What `main` goes on to do: stop with an exit status, or run ffmpeg on
      the given concat list to write the output. */
  datatype Step = Exit(code: int) | RunFfmpeg(concatList: string, output: Path)

  /** `main` up to the ffmpeg call. The presence of ffmpeg, of the input and
      of the two logos are parameters. */
  method Prepare(ffmpegFound: bool, input: Path, inputExists: bool,
                 startLogo: Path, startExists: bool, endLogo: Path, endExists: bool,
                 output: Option<Path>)
    returns (step: Step)
    ensures !(ffmpegFound && inputExists && startExists && endExists) ==> step == Exit(1)
    ensures ffmpegFound && inputExists && startExists && endExists ==>
      var out := if output.Some? then output.value else DefaultOutput(input);
      step == if out == input then Exit(1)
              else RunFfmpeg(ConcatText([PathText(startLogo), PathText(input), PathText(endLogo)]), out)
    ensures ffmpegFound && inputExists && startExists && endExists && output.None? ==> step.RunFfmpeg?
  {
    if !ffmpegFound {
      return Exit(1);
    }
    if !inputExists {
      return Exit(1);
    }
    if !startExists {
      return Exit(1);
    }
    if !endExists {
      return Exit(1);
    }
    var outputPath := if output.Some? then output.value else DefaultOutput(input);
    DefaultDiffers(input);
    if outputPath == input {
      return Exit(1);
    }
    var concatList := FfmpegConcatList([PathText(startLogo), PathText(input), PathText(endLogo)]);
    step := RunFfmpeg(concatList, outputPath);
  }
}
