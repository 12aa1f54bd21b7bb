/**
 * The command-line front end of the remix engine: the argument scanner, and
 * the pure parts of how it loads the style file, the facts and the text.
 * Files and standard input are read by the caller; their contents arrive
 * here as parameters.
 */
module RemixCli {
  import opened Text
  import StyleParse
  import PageEngine


  /** A token that names an option. */
  predicate IsFlag(t: string) {
    StartsWith(t, "--")
  }

  /** `key.replace(/^--/, "")`: the flag without its leading dashes. */
  function KeyOf(flag: string): string
    requires IsFlag(flag)
  {
    flag[2..]
  }

  /** The value the flag at `i` takes: the next token when there is one, it is
      not empty and it is not a flag itself; the empty string otherwise. */
  function ValueAfter(argv: seq<string>, i: nat): string
    requires i < |argv|
  {
    if i + 1 < |argv| && argv[i + 1] != "" && !IsFlag(argv[i + 1]) then argv[i + 1] else ""
  }

  /** The scan from token `i` on, starting from the options in `acc`: a flag
      records its value and skips it when it took one; any other token is
      passed over. */
  function Scan(argv: seq<string>, i: nat, acc: map<string, string>): map<string, string>
    decreases |argv| - i
  {
    if i >= |argv| then acc
    else if !IsFlag(argv[i]) then Scan(argv, i + 1, acc)
    else
      var v := ValueAfter(argv, i);
      Scan(argv, if v != "" then i + 2 else i + 1, acc[KeyOf(argv[i]) := v])
  }

  /** `parseArgs`: the options of a command line, scanned from `argv[2]`
      (after the interpreter and the script). */
  method ParseArgs(argv: seq<string>) returns (args: map<string, string>)
    ensures args == Scan(argv, 2, map[])
  {
    args := map[];
    var i := 2;
    while i < |argv|
      invariant 2 <= i
      invariant Scan(argv, i, args) == Scan(argv, 2, map[])
      decreases |argv| - i
    {
      var key := argv[i];
      if IsFlag(key) {
        var value := "";
        if i + 1 < |argv| && argv[i + 1] != "" && !IsFlag(argv[i + 1]) {
          value := argv[i + 1];
        }
        args := args[key[2..] := value];
        if value != "" {
          i := i + 1;
        }
      }
      i := i + 1;
    }
  }

  /** A scan never forgets an option it has recorded. */
  lemma {:induction false} ScanKeepsKeys(argv: seq<string>, i: nat, acc: map<string, string>)
    ensures acc.Keys <= Scan(argv, i, acc).Keys
    decreases |argv| - i
  {
    if i < |argv| {
      if !IsFlag(argv[i]) {
        ScanKeepsKeys(argv, i + 1, acc);
      } else {
        var v := ValueAfter(argv, i);
        ScanKeepsKeys(argv, if v != "" then i + 2 else i + 1, acc[KeyOf(argv[i]) := v]);
      }
    }
  }

  /** A key that no remaining flag names keeps its recorded value (or stays
      absent). */
  lemma {:induction false} ScanUntouched(argv: seq<string>, i: nat, acc: map<string, string>, k: string)
    requires forall l | i <= l < |argv| && IsFlag(argv[l]) :: KeyOf(argv[l]) != k
    ensures (k in Scan(argv, i, acc)) == (k in acc)
    ensures k in acc ==> Scan(argv, i, acc)[k] == acc[k]
    decreases |argv| - i
  {
    if i < |argv| {
      if !IsFlag(argv[i]) {
        ScanUntouched(argv, i + 1, acc, k);
      } else {
        var v := ValueAfter(argv, i);
        ScanUntouched(argv, if v != "" then i + 2 else i + 1, acc[KeyOf(argv[i]) := v], k);
      }
    }
  }

  /** Every flag is read as a flag, never swallowed as the value of the one
      before it, so its key is among the options. */
  lemma {:induction false} FlagRecorded(argv: seq<string>, i: nat, acc: map<string, string>, j: nat)
    requires i <= j < |argv| && IsFlag(argv[j])
    ensures KeyOf(argv[j]) in Scan(argv, i, acc)
    decreases |argv| - i
  {
    if !IsFlag(argv[i]) {
      FlagRecorded(argv, i + 1, acc, j);
    } else {
      var v := ValueAfter(argv, i);
      var next := if v != "" then i + 2 else i + 1;
      if i == j {
        ScanKeepsKeys(argv, next, acc[KeyOf(argv[i]) := v]);
      } else {
        FlagRecorded(argv, next, acc[KeyOf(argv[i]) := v], j);
      }
    }
  }

  /** An option's key always comes from a flag on the command line. */
  lemma {:induction false} KeyFromFlag(argv: seq<string>, i: nat, acc: map<string, string>, k: string)
    requires k in Scan(argv, i, acc) && k !in acc
    ensures exists j | i <= j < |argv| :: IsFlag(argv[j]) && KeyOf(argv[j]) == k
    decreases |argv| - i
  {
    if i >= |argv| {
    } else if !IsFlag(argv[i]) {
      KeyFromFlag(argv, i + 1, acc, k);
    } else if KeyOf(argv[i]) != k {
      var v := ValueAfter(argv, i);
      KeyFromFlag(argv, if v != "" then i + 2 else i + 1, acc[KeyOf(argv[i]) := v], k);
    }
  }

  /** The options are exactly the keys of the flags from `argv[2]` on. */
  lemma OptionKeys(argv: seq<string>, k: string)
    ensures k in Scan(argv, 2, map[]) <==> exists j | 2 <= j < |argv| :: IsFlag(argv[j]) && KeyOf(argv[j]) == k
  {
    if k in Scan(argv, 2, map[]) {
      KeyFromFlag(argv, 2, map[], k);
    }
    if exists j | 2 <= j < |argv| :: IsFlag(argv[j]) && KeyOf(argv[j]) == k {
      var j :| 2 <= j < |argv| && IsFlag(argv[j]) && KeyOf(argv[j]) == k;
      FlagRecorded(argv, 2, map[], j);
    }
  }

  /** A repeated flag keeps the value of its last occurrence: that value is the
      next token if it is a non-empty non-flag, and the empty string
      otherwise. */
  lemma {:induction false} LastFlagWins(argv: seq<string>, i: nat, acc: map<string, string>, j: nat)
    requires i <= j < |argv| && IsFlag(argv[j])
    requires forall l | j < l < |argv| && IsFlag(argv[l]) :: KeyOf(argv[l]) != KeyOf(argv[j])
    ensures KeyOf(argv[j]) in Scan(argv, i, acc)
    ensures Scan(argv, i, acc)[KeyOf(argv[j])] == ValueAfter(argv, j)
    decreases |argv| - i
  {
    if !IsFlag(argv[i]) {
      LastFlagWins(argv, i + 1, acc, j);
    } else {
      var v := ValueAfter(argv, i);
      var next := if v != "" then i + 2 else i + 1;
      if i == j {
        ScanUntouched(argv, next, acc[KeyOf(argv[i]) := v], KeyOf(argv[j]));
      } else {
        LastFlagWins(argv, next, acc[KeyOf(argv[i]) := v], j);
      }
    }
  }

  /** JavaScript truthiness of `args[key]`: present and not empty. */
  predicate Given(args: map<string, string>, key: string) {
    key in args && args[key] != ""
  }

  /** Where the text to remix comes from (`loadText`). */
  datatype TextSource = Inline(text: string) | InputFile(path: string) | Stdin

  /** `--text` wins over `--input`, which wins over standard input. */
  function TextSourceOf(args: map<string, string>): (r: TextSource)
    ensures Given(args, "text") ==> r == Inline(args["text"])
    ensures !Given(args, "text") && Given(args, "input") ==> r == InputFile(args["input"])
    ensures r.Stdin? <==> !Given(args, "text") && !Given(args, "input")
  {
    if Given(args, "text") then Inline(args["text"])
    else if Given(args, "input") then InputFile(args["input"])
    else Stdin
  }

  /** The `facts` member of the style file: an array of strings or not. */
  datatype FactsMember = NoFacts | FactList(items: seq<string>)

  /** The parsed style file; each member may be missing. The objects are passed
      on as they are. */
  datatype StyleFile = StyleFile(
    mix: Option<StyleParse.Mix>,
    skin: Option<StyleParse.SkinOut>,
    task: Option<StyleParse.Task>,
    customPrompt: Option<string>,
    facts: FactsMember)

  /** What `loadStyle` returns: four members, and no `facts`. */
  datatype Style = Style(mix: StyleParse.Mix, skin: StyleParse.SkinOut, task: StyleParse.Task, customPrompt: string)

  const DefaultStyle := Style(StyleParse.DefaultMix, StyleParse.DefaultSkin, StyleParse.DefaultTask, "")

  function OrElse<T>(o: Option<T>, default: T): T {
    if o.Some? then o.value else default
  }

  /** `loadStyle`: without `--style` the defaults; with it, each member of the
      file, or its default when the member is missing. */
  function LoadStyle(args: map<string, string>, file: StyleFile): (s: Style)
    ensures !Given(args, "style") ==> s == DefaultStyle
    ensures Given(args, "style") ==>
              s.mix == OrElse(file.mix, DefaultStyle.mix) && s.skin == OrElse(file.skin, DefaultStyle.skin)
              && s.task == OrElse(file.task, DefaultStyle.task)
              && s.customPrompt == OrElse(file.customPrompt, DefaultStyle.customPrompt)
  {
    if !Given(args, "style") then DefaultStyle
    else Style(OrElse(file.mix, StyleParse.DefaultMix), OrElse(file.skin, StyleParse.DefaultSkin),
               OrElse(file.task, StyleParse.DefaultTask), OrElse(file.customPrompt, ""))
  }

  /** The members default one by one: a style file `{}` is the same as no
      style file, and a member given in the file survives whatever the other
      members are. */
  lemma StyleMembersIndependent(args: map<string, string>, file: StyleFile, other: StyleFile)
    requires Given(args, "style")
    ensures LoadStyle(args, StyleFile(None, None, None, None, NoFacts)) == LoadStyle(map[], file)
    ensures file.mix.Some? && other.mix == file.mix ==> LoadStyle(args, other).mix == file.mix.value
    ensures other.customPrompt == file.customPrompt && file.customPrompt.Some? ==>
              LoadStyle(args, other).customPrompt == file.customPrompt.value
  {
  }

  /** `loadFacts` as written: the facts file when `--facts` is given, else
      `style.facts` if it is an array. It is called with the value
      `loadStyle` returned, which has no `facts` member, so the second branch
      always yields the empty list. */
  function LoadFactsAsWritten(args: map<string, string>, style: Style, factsText: string): (r: seq<string>)
    ensures Given(args, "facts") ==> r == PageEngine.Facts(factsText)
  {
    if Given(args, "facts") then PageEngine.Facts(factsText)
    else []
  }

  /** The discrepancy: a style file that lists facts, used without `--facts`,
      contributes none of them. */
  lemma StyleFileFactsLost(args: map<string, string>, file: StyleFile, factsText: string)
    requires Given(args, "style") && !Given(args, "facts")
    requires file.facts.FactList? && file.facts.items != []
    ensures LoadFactsAsWritten(args, LoadStyle(args, file), factsText) != file.facts.items
  {
  }

  /** `loadFacts` as intended: the facts file's non-blank lines, trimmed,
      when `--facts` is given; otherwise the style file's `facts` array when
      there is a style file and that member is an array; otherwise none. */
  function LoadFacts(args: map<string, string>, file: StyleFile, factsText: string): (r: seq<string>)
    ensures Given(args, "facts") ==> r == PageEngine.Facts(factsText)
    ensures !Given(args, "facts") && Given(args, "style") && file.facts.FactList? ==> r == file.facts.items
    ensures !Given(args, "facts") && !(Given(args, "style") && file.facts.FactList?) ==> r == []
  {
    if Given(args, "facts") then PageEngine.Facts(factsText)
    else if Given(args, "style") && file.facts.FactList? then file.facts.items
    else []
  }

  /** The inputs of one run: the options, the style and the facts. */
  datatype Setup = Setup(args: map<string, string>, source: TextSource, style: Style, facts: seq<string>)

  /** Everything the command line decides before the text is sent off, with
      the corrected `LoadFacts`. */
  function Configure(argv: seq<string>, file: StyleFile, factsText: string): (r: Setup)
    ensures r.args == Scan(argv, 2, map[])
    ensures r.source.Stdin? <==> !Given(r.args, "text") && !Given(r.args, "input")
    ensures !Given(r.args, "style") ==> r.style == DefaultStyle && (Given(r.args, "facts") || r.facts == [])
    ensures Given(r.args, "facts") ==> r.facts == PageEngine.Facts(factsText)
  {
    var args := Scan(argv, 2, map[]);
    Setup(args, TextSourceOf(args), LoadStyle(args, file), LoadFacts(args, file, factsText))
  }

  /** The same setup as `run` builds it on disk: `loadFacts` is handed the
      value `loadStyle` returned. */
  function ConfigureAsWritten(argv: seq<string>, file: StyleFile, factsText: string): (r: Setup)
    ensures r.args == Scan(argv, 2, map[])
    ensures !Given(r.args, "facts") ==> r.facts == []
  {
    var args := Scan(argv, 2, map[]);
    var style := LoadStyle(args, file);
    Setup(args, TextSourceOf(args), style, LoadFactsAsWritten(args, style, factsText))
  }

  /** The two setups agree on everything but the facts, and on the facts too
      unless a style file lists some and no `--facts` is given. */
  lemma ConfigureAsWrittenDiffers(argv: seq<string>, file: StyleFile, factsText: string)
    ensures var w := ConfigureAsWritten(argv, file, factsText);
            var c := Configure(argv, file, factsText);
            w.args == c.args && w.source == c.source && w.style == c.style
    ensures var args := Scan(argv, 2, map[]);
            ConfigureAsWritten(argv, file, factsText) == Configure(argv, file, factsText)
            <==> Given(args, "facts") || !Given(args, "style") || !file.facts.FactList? || file.facts.items == []
  {
  }

  /** With `--facts FILE` as the last `--facts` on the line, the facts are the
      file's non-blank lines, each trimmed and one line long. */
  lemma FactsFlagReadsFile(argv: seq<string>, file: StyleFile, factsText: string, j: nat)
    requires 2 <= j < |argv| - 1 && argv[j] == "--facts"
    requires argv[j + 1] != "" && !IsFlag(argv[j + 1])
    requires forall l | j < l < |argv| && IsFlag(argv[l]) :: KeyOf(argv[l]) != "facts"
    ensures Configure(argv, file, factsText).facts == PageEngine.Facts(factsText)
    ensures forall k | 0 <= k < |Configure(argv, file, factsText).facts| ::
              Configure(argv, file, factsText).facts[k] != [] && '\n' !in Configure(argv, file, factsText).facts[k]
  {
    assert KeyOf(argv[j]) == "facts";
    LastFlagWins(argv, 2, map[], j);
  }
}
