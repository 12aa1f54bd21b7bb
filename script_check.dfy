/**
 * The helper UI's script checks: a generated broadcast script is checked
 * against required tokens, forbidden tokens and ordered token pairs; custom
 * test cases run the generator and check its script; and the README endpoint
 * accepts only the top-level README or one directory's README.
 *
 * The web server and the serverless API carry the same three helpers; this
 * module models both copies. The script generator is a parameter.
 */
module ScriptCheck {
  import opened Text


  /** The result record of one check. */
  datatype Verdict = Verdict(name: string, passed: bool, detail: string)

  const MissingTag: string := "missing: "
  const PresentTag: string := "should not contain: "
  const OrderTag: string := "order: "
  const Arrow: string := " -> "
  const PassedDetail: string := "通过"
  const ErrorSep: string := "; "

  /** `x or []` for an optional list. */
  function OrEmpty<T>(o: Option<seq<T>>): seq<T> {
    if o.Some? then o.value else []
  }

  // --------------------------------------------------------------- errors

  /** One `missing:` error per required token absent from the script, in
      token order. */
  function MissingErrors(script: string, tokens: seq<string>): seq<string> {
    if tokens == [] then []
    else
      var t := tokens[|tokens| - 1];
      MissingErrors(script, tokens[..|tokens| - 1]) + (if Contains(script, t) then [] else [MissingTag + t])
  }

  /** One `should not contain:` error per forbidden token present in the
      script, in token order. */
  function PresentErrors(script: string, tokens: seq<string>): seq<string> {
    if tokens == [] then []
    else
      var t := tokens[|tokens| - 1];
      PresentErrors(script, tokens[..|tokens| - 1]) + (if Contains(script, t) then [PresentTag + t] else [])
  }

  /** An ordered pair holds when both tokens occur and the first occurrence
      of `earlier` is strictly before the first occurrence of `later`. */
  predicate OrderHolds(script: string, earlier: string, later: string) {
    var e := Find(script, earlier);
    var l := Find(script, later);
    e != -1 && l != -1 && e < l
  }

  function OrderError(pair: (string, string)): string {
    OrderTag + pair.0 + Arrow + pair.1
  }

  /** One `order:` error per pair that does not hold, in pair order. */
  function OrderErrors(script: string, pairs: seq<(string, string)>): seq<string> {
    if pairs == [] then []
    else
      var p := pairs[|pairs| - 1];
      OrderErrors(script, pairs[..|pairs| - 1]) + (if OrderHolds(script, p.0, p.1) then [] else [OrderError(p)])
  }

  /** All errors: the missing tokens, then the forbidden ones, then the
      broken orders. */
  function Errors(script: string, contains: seq<string>, notContains: seq<string>, order: seq<(string, string)>): seq<string> {
    MissingErrors(script, contains) + PresentErrors(script, notContains) + OrderErrors(script, order)
  }

  /** The verdict for a script: passed when there is no error, and the
      detail is the pass mark or the errors joined by `; `. */
  function Evaluation(name: string, script: string, contains: Option<seq<string>>,
                      notContains: Option<seq<string>>, order: Option<seq<(string, string)>>): Verdict
  {
    var errors := Errors(script, OrEmpty(contains), OrEmpty(notContains), OrEmpty(order));
    Verdict(name, errors == [], if errors == [] then PassedDetail else Join(errors, ErrorSep))
  }

  /** `_evaluate_script`: three passes collecting errors, then the verdict. */
  method EvaluateScript(name: string, script: string, contains: Option<seq<string>>,
                        notContains: Option<seq<string>>, order: Option<seq<(string, string)>>)
    returns (v: Verdict)
    ensures v == Evaluation(name, script, contains, notContains, order)
  {
    var errors := CheckContains(script, OrEmpty(contains), []);
    assert errors == MissingErrors(script, OrEmpty(contains));
    errors := CheckNotContains(script, OrEmpty(notContains), errors);
    errors := CheckOrder(script, OrEmpty(order), errors);
    var detail := if errors == [] then PassedDetail else Join(errors, ErrorSep);
    v := Verdict(name, errors == [], detail);
  }

  /** The first pass: a `missing:` error for each required token the
      script lacks. */
  method CheckContains(script: string, required: seq<string>, prior: seq<string>)
    returns (errors: seq<string>)
    ensures errors == prior + MissingErrors(script, required)
  {
    errors := prior;
    for i := 0 to |required|
      invariant errors == prior + MissingErrors(script, required[..i])
    {
      assert required[..i + 1][..i] == required[..i];
      var token := required[i];
      if !Contains(script, token) {
        AppendAssoc(prior, MissingErrors(script, required[..i]), [MissingTag + token]);
        errors := errors + [MissingTag + token];
      } else {
        AppendEmpty(MissingErrors(script, required[..i]));
      }
    }
    assert required[..|required|] == required;
  }

  /** The second pass: a `should not contain:` error for each forbidden
      token the script holds. */
  method CheckNotContains(script: string, forbidden: seq<string>, prior: seq<string>)
    returns (errors: seq<string>)
    ensures errors == prior + PresentErrors(script, forbidden)
  {
    errors := prior;
    for i := 0 to |forbidden|
      invariant errors == prior + PresentErrors(script, forbidden[..i])
    {
      assert forbidden[..i + 1][..i] == forbidden[..i];
      var token := forbidden[i];
      if Contains(script, token) {
        AppendAssoc(prior, PresentErrors(script, forbidden[..i]), [PresentTag + token]);
        errors := errors + [PresentTag + token];
      } else {
        AppendEmpty(PresentErrors(script, forbidden[..i]));
      }
    }
    assert forbidden[..|forbidden|] == forbidden;
  }

  /** The third pass: an `order:` error for each pair whose first token does
      not occur strictly before its second. */
  method CheckOrder(script: string, pairs: seq<(string, string)>, prior: seq<string>)
    returns (errors: seq<string>)
    ensures errors == prior + OrderErrors(script, pairs)
  {
    errors := prior;
    for i := 0 to |pairs|
      invariant errors == prior + OrderErrors(script, pairs[..i])
    {
      assert pairs[..i + 1][..i] == pairs[..i];
      var (earlier, later) := pairs[i];
      var posEarlier := Find(script, earlier);
      var posLater := Find(script, later);
      if posEarlier == -1 || posLater == -1 || posEarlier >= posLater {
        AppendAssoc(prior, OrderErrors(script, pairs[..i]), [OrderTag + earlier + Arrow + later]);
        errors := errors + [OrderTag + earlier + Arrow + later];
      } else {
        AppendEmpty(OrderErrors(script, pairs[..i]));
      }
    }
    assert pairs[..|pairs|] == pairs;
  }

  // ------------------------------------------------------------ meaning

  /** A token has a `missing:` error exactly when it is required and absent. */
  lemma {:induction false} MissingErrorsExact(script: string, tokens: seq<string>, e: string)
    ensures e in MissingErrors(script, tokens) <==>
            exists k | 0 <= k < |tokens| :: !Contains(script, tokens[k]) && e == MissingTag + tokens[k]
  {
    if tokens != [] {
      var init := tokens[..|tokens| - 1];
      MissingErrorsExact(script, init, e);
      assert forall k | 0 <= k < |init| :: init[k] == tokens[k];
    }
  }

  /** A token has a `should not contain:` error exactly when it is
      forbidden and present. */
  lemma {:induction false} PresentErrorsExact(script: string, tokens: seq<string>, e: string)
    ensures e in PresentErrors(script, tokens) <==>
            exists k | 0 <= k < |tokens| :: Contains(script, tokens[k]) && e == PresentTag + tokens[k]
  {
    if tokens != [] {
      var init := tokens[..|tokens| - 1];
      PresentErrorsExact(script, init, e);
      assert forall k | 0 <= k < |init| :: init[k] == tokens[k];
    }
  }

  lemma {:induction false} MissingNone(script: string, tokens: seq<string>)
    ensures MissingErrors(script, tokens) == [] <==> forall k | 0 <= k < |tokens| :: Contains(script, tokens[k])
  {
    if tokens != [] {
      var init := tokens[..|tokens| - 1];
      MissingNone(script, init);
      assert forall k | 0 <= k < |init| :: init[k] == tokens[k];
    }
  }

  lemma {:induction false} PresentNone(script: string, tokens: seq<string>)
    ensures PresentErrors(script, tokens) == [] <==> forall k | 0 <= k < |tokens| :: !Contains(script, tokens[k])
  {
    if tokens != [] {
      var init := tokens[..|tokens| - 1];
      PresentNone(script, init);
      assert forall k | 0 <= k < |init| :: init[k] == tokens[k];
    }
  }

  lemma {:induction false} OrderNone(script: string, pairs: seq<(string, string)>)
    ensures OrderErrors(script, pairs) == [] <==> forall k | 0 <= k < |pairs| :: OrderHolds(script, pairs[k].0, pairs[k].1)
  {
    if pairs != [] {
      var init := pairs[..|pairs| - 1];
      OrderNone(script, init);
      assert forall k | 0 <= k < |init| :: init[k] == pairs[k];
    }
  }

  /** A check passes exactly when every required token occurs, no forbidden
      token occurs and every pair is in order. */
  lemma PassedIff(name: string, script: string, contains: Option<seq<string>>,
                  notContains: Option<seq<string>>, order: Option<seq<(string, string)>>)
    ensures Evaluation(name, script, contains, notContains, order).passed <==>
      (forall k | 0 <= k < |OrEmpty(contains)| :: Contains(script, OrEmpty(contains)[k]))
      && (forall k | 0 <= k < |OrEmpty(notContains)| :: !Contains(script, OrEmpty(notContains)[k]))
      && (forall k | 0 <= k < |OrEmpty(order)| :: OrderHolds(script, OrEmpty(order)[k].0, OrEmpty(order)[k].1))
  {
    MissingNone(script, OrEmpty(contains));
    PresentNone(script, OrEmpty(notContains));
    OrderNone(script, OrEmpty(order));
  }

  /** A pair that holds has both tokens in the script, `earlier` first. */
  lemma OrderHoldsMeans(script: string, earlier: string, later: string)
    requires OrderHolds(script, earlier, later)
    ensures Contains(script, earlier) && Contains(script, later)
    ensures exists i | 0 <= i < Find(script, later) :: OccursAt(script, earlier, i)
    ensures forall j | 0 <= j <= Find(script, earlier) :: !OccursAt(script, later, j)
  {
    assert OccursAt(script, earlier, Find(script, earlier));
  }

  /** Every error message starts with a letter of its group's tag. */
  predicate TaggedError(e: string) {
    e != [] && (e[0] == 'm' || e[0] == 's' || e[0] == 'o')
  }

  lemma {:induction false} ErrorsTagged(script: string, contains: seq<string>, notContains: seq<string>, order: seq<(string, string)>)
    ensures forall k | 0 <= k < |Errors(script, contains, notContains, order)| :: TaggedError(Errors(script, contains, notContains, order)[k])
  {
    MissingTagged(script, contains);
    PresentTagged(script, notContains);
    OrderTagged(script, order);
  }

  lemma {:induction false} MissingTagged(script: string, tokens: seq<string>)
    ensures forall k | 0 <= k < |MissingErrors(script, tokens)| :: TaggedError(MissingErrors(script, tokens)[k])
  {
    if tokens != [] {
      MissingTagged(script, tokens[..|tokens| - 1]);
    }
  }

  lemma {:induction false} PresentTagged(script: string, tokens: seq<string>)
    ensures forall k | 0 <= k < |PresentErrors(script, tokens)| :: TaggedError(PresentErrors(script, tokens)[k])
  {
    if tokens != [] {
      PresentTagged(script, tokens[..|tokens| - 1]);
    }
  }

  lemma {:induction false} OrderTagged(script: string, pairs: seq<(string, string)>)
    ensures forall k | 0 <= k < |OrderErrors(script, pairs)| :: TaggedError(OrderErrors(script, pairs)[k])
  {
    if pairs != [] {
      OrderTagged(script, pairs[..|pairs| - 1]);
    }
  }

  lemma JoinHead(parts: seq<string>, sep: string)
    requires parts != [] && parts[0] != []
    ensures Join(parts, sep) != [] && Join(parts, sep)[0] == parts[0][0]
  {
  }

  /** The detail is the pass mark exactly when the check passed: no joined
      error list can read as the pass mark. */
  lemma DetailIffPassed(name: string, script: string, contains: Option<seq<string>>,
                        notContains: Option<seq<string>>, order: Option<seq<(string, string)>>)
    ensures Evaluation(name, script, contains, notContains, order).detail == PassedDetail
            <==> Evaluation(name, script, contains, notContains, order).passed
  {
    var errors := Errors(script, OrEmpty(contains), OrEmpty(notContains), OrEmpty(order));
    if errors != [] {
      ErrorsTagged(script, OrEmpty(contains), OrEmpty(notContains), OrEmpty(order));
      JoinHead(errors, ErrorSep);
      assert TaggedError(errors[0]);
    }
  }

  // --------------------------------------------------------- custom tests

  /** What the generator did with a case's config and inputs. */
  datatype Outcome = Script(text: string) | Raised(message: string)

  /** A custom test case; `None` is a key the case does not have. */
  datatype Case<Config, Inputs> = Case(
    name: Option<string>, config: Option<Config>, inputs: Option<Inputs>,
    contains: Option<seq<string>>, notContains: Option<seq<string>>, order: Option<seq<(string, string)>>)

  const Unnamed: string := "unnamed"
  const ErrorPrefix: string := "error: "

  function CaseName<C, I>(c: Case<C, I>): string {
    if c.name.Some? then c.name.value else Unnamed
  }

  /** The result of one case: a raised generator gives a failed result
      carrying the message, a script is checked. */
  function CaseVerdict<C, I>(c: Case<C, I>, generate: (Option<C>, Option<I>) -> Outcome): Verdict {
    match generate(c.config, c.inputs)
    case Raised(msg) => Verdict(CaseName(c), false, ErrorPrefix + msg)
    case Script(s) => Evaluation(CaseName(c), s, c.contains, c.notContains, c.order)
  }

  /** `_run_custom_tests`: one result per case, in order. */
  method RunCustomTests<C, I>(cases: seq<Case<C, I>>, generate: (Option<C>, Option<I>) -> Outcome)
    returns (results: seq<Verdict>)
    ensures |results| == |cases|
    ensures forall k | 0 <= k < |cases| :: results[k] == CaseVerdict(cases[k], generate)
  {
    results := [];
    for i := 0 to |cases|
      invariant |results| == i
      invariant forall k | 0 <= k < i :: results[k] == CaseVerdict(cases[k], generate)
    {
      var c := cases[i];
      var name := if c.name.Some? then c.name.value else Unnamed;
      var outcome := generate(c.config, c.inputs);
      if outcome.Raised? {
        results := results + [Verdict(name, false, ErrorPrefix + outcome.message)];
        continue;
      }
      var v := EvaluateScript(name, outcome.text, c.contains, c.notContains, c.order);
      results := results + [v];
    }
  }

  /** Each result carries its case's name, or `unnamed`; a case whose
      generator raised has failed with an `error:` detail, and one whose
      script was produced has passed exactly when its check passed. */
  lemma CaseVerdictMeans<C, I>(c: Case<C, I>, generate: (Option<C>, Option<I>) -> Outcome)
    ensures CaseVerdict(c, generate).name == (if c.name.Some? then c.name.value else Unnamed)
    ensures generate(c.config, c.inputs).Raised? ==>
      !CaseVerdict(c, generate).passed && CaseVerdict(c, generate).detail == ErrorPrefix + generate(c.config, c.inputs).message
    ensures generate(c.config, c.inputs).Script? ==>
      (CaseVerdict(c, generate).passed <==>
         Errors(generate(c.config, c.inputs).text, OrEmpty(c.contains), OrEmpty(c.notContains), OrEmpty(c.order)) == [])
  {
  }

  // --------------------------------------------------------------- README

  const ReadmeName: string := "README.md"
  const ReadmeSuffix: string := "/README.md"

  predicate NameChar(c: char) {
    ('A' <= c <= 'Z') || ('a' <= c <= 'z') || ('0' <= c <= '9') || c == '_' || c == '-'
  }

  /** A match of `[A-Za-z0-9_-]+`. */
  predicate IsName(s: string) {
    |s| >= 1 && forall i | 0 <= i < |s| :: NameChar(s[i])
  }

  /** Where a README may be read from, relative to the project directory. */
  datatype Readme = TopReadme | DirReadme(dir: string)

  function ReadmePath(r: Readme): string {
    match r
    case TopReadme => ReadmeName
    case DirReadme(dir) => dir + ReadmeSuffix
  }

  /** `_resolve_readme_path`: `README.md` itself, or a full match of
      `[A-Za-z0-9_-]+/README\.md`; anything else is refused. */
  function ResolveReadmePath(target: string): (r: Option<Readme>)
    ensures r.Some? ==> ReadmePath(r.value) == target
    ensures r.Some? && r.value.DirReadme? ==> IsName(r.value.dir)
  {
    if target == ReadmeName then Some(TopReadme)
    else if EndsWith(target, ReadmeSuffix) && IsName(target[..|target| - |ReadmeSuffix|]) then
      Some(DirReadme(target[..|target| - |ReadmeSuffix|]))
    else None
  }

  /** The gate accepts exactly `README.md` and the full matches of the
      pattern. */
  lemma ResolveIff(target: string)
    ensures ResolveReadmePath(target).Some? <==>
      target == ReadmeName || exists dir | IsName(dir) :: target == dir + ReadmeSuffix
  {
    if dir :| IsName(dir) && target == dir + ReadmeSuffix {
      assert target[..|target| - |ReadmeSuffix|] == dir;
      assert target[|target| - |ReadmeSuffix|..] == ReadmeSuffix;
    }
  }
  /** Characters of a directory README path: the name, then the suffix. */
  lemma DirPathChars(dir: string)
    requires IsName(dir)
    ensures forall i | 0 <= i < |dir + ReadmeSuffix| && (dir + ReadmeSuffix)[i] == '.' :: i == |dir| + 7
    ensures forall i | 0 <= i < |dir + ReadmeSuffix| && (dir + ReadmeSuffix)[i] == '/' :: i == |dir|
  {
    var t := dir + ReadmeSuffix;
    forall i | 0 <= i < |t|
      ensures t[i] == '.' ==> i == |dir| + 7
      ensures t[i] == '/' ==> i == |dir|
    {
      if i < |dir| {
        assert t[i] == dir[i] && NameChar(dir[i]);
      } else {
        assert t[i] == ReadmeSuffix[i - |dir|];
      }
    }
  }

  /** A path whose only dot is third from the end has no `..`. */
  lemma NoDoubleDot(t: string)
    requires |t| >= 3 && t[|t| - 2] != '.'
    requires forall i | 0 <= i < |t| && t[i] == '.' :: i == |t| - 3
    ensures !Contains(t, "..")
  {
    forall i | 0 <= i <= |t| - 2
      ensures !OccursAt(t, "..", i)
    {
      if t[i] == '.' {
        assert t[i + 1] == t[|t| - 2];
      }
    }
  }

  /** An accepted target has no `..`, does not start with `/` and names at
      most one directory. */
  lemma ResolveConfined(target: string)
    requires ResolveReadmePath(target).Some?
    ensures !Contains(target, "..")
    ensures target[0] != '/'
    ensures forall i | 0 <= i < |target| && target[i] == '/' :: i == |target| - |ReadmeSuffix|
  {
    match ResolveReadmePath(target).value
    case TopReadme =>
      assert target == ReadmeName;
      assert forall i | 0 <= i < |target| && target[i] == '.' :: i == |target| - 3;
      NoDoubleDot(target);
    case DirReadme(dir) =>
      assert target == dir + ReadmeSuffix;
      DirPathChars(dir);
      assert target[0] == dir[0] && NameChar(dir[0]);
      NoDoubleDot(target);
  }
}
