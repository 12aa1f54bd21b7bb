/**
 * The RSS collector's text helpers and its source loop: node texts are
 * stripped, a feed is named by its channel title or its host, publication
 * dates have their whitespace normalised, long article texts are truncated,
 * and the feeds are gathered in order with unreachable ones skipped.
 */
module Rss {
  import opened Text
  import opened NewsData


  /** `_text`: the stripped text of a node, or the empty string when the node
      or its text is missing (both are `None` here). */
  function NodeText(text: Option<string>): (r: string)
    ensures Trimmed(r)
    ensures text.None? ==> r == ""
    ensures text.Some? ==> (r == "" <==> AllWs(text.value))
  {
    if text.None? then "" else Trim(text.value)
  }

  const DefaultHost: string := "rss"
  const WwwMark: string := "www."

  /** `_guess_source_name`: the channel title when it has text, otherwise
      the URL's host (or `rss` when there is none) with `www.` removed.
      `title` is the raw title text, `None` when the channel or its title is
      missing. */
  function GuessSourceName(host: Option<string>, title: Option<string>): (r: string)
    ensures NodeText(title) != "" ==> r == NodeText(title)
  {
    var t := NodeText(title);
    if t != "" then t
    else
      var h := if host.Some? && host.value != "" then host.value else DefaultHost;
      RemoveAll(h, WwwMark)
  }

  /** Without a usable title, a `www.` host is named without the prefix,
      another host by itself, and a missing or empty host `rss`. */
  lemma GuessFromHost(host: Option<string>, title: Option<string>)
    requires NodeText(title) == ""
    ensures host.None? || host == Some("") ==> GuessSourceName(host, title) == DefaultHost
    ensures host.Some? && host.value != "" && !Contains(host.value, WwwMark) ==> GuessSourceName(host, title) == host.value
    ensures forall h :: host == Some(WwwMark + h) && !Contains(h, WwwMark) ==> GuessSourceName(host, title) == h
    ensures forall a, b :: host == Some(a + WwwMark + b) && !Contains(a, WwwMark) ==>
      GuessSourceName(host, title) == a + RemoveAll(b, WwwMark)
  {
    RemoveAllAbsent(DefaultHost, WwwMark);
    if host.Some? && host.value != "" && !Contains(host.value, WwwMark) {
      RemoveAllAbsent(host.value, WwwMark);
    }
    forall h | host == Some(WwwMark + h) && !Contains(h, WwwMark)
      ensures GuessSourceName(host, title) == h
    {
      RemoveAllLeading(WwwMark, h);
      RemoveAllAbsent(h, WwwMark);
    }
    forall a, b | host == Some(a + WwwMark + b) && !Contains(a, WwwMark)
      ensures GuessSourceName(host, title) == a + RemoveAll(b, WwwMark)
    {
      NoWwwStraddles(a);
      RemoveAllAfter(a, WwwMark, b);
    }
  }

  /** `www.` cannot start inside a text that does not hold it and end in a
      `www.` that follows it: its dot would fall on one of the `w`s. */
  lemma NoWwwStraddles(a: string)
    requires !Contains(a, WwwMark)
    ensures forall i | 0 <= i < |a| :: !OccursAt(a + WwwMark, WwwMark, i)
  {
    forall i | 0 <= i < |a|
      ensures !OccursAt(a + WwwMark, WwwMark, i)
    {
      var s := a + WwwMark;
      if i + |WwwMark| <= |a| {
        assert s[i..i + |WwwMark|] == a[i..i + |WwwMark|];
        assert !OccursAt(a, WwwMark, i);
      } else {
        assert s[i + 3] == WwwMark[i + 3 - |a|] == 'w';
        assert s[i..i + |WwwMark|][3] != WwwMark[3];
      }
    }
  }

  // ------------------------------------------------------ publication date

  /** `s` without its leading whitespace. */
  function DropWs(s: string): (r: string)
    ensures |r| <= |s| && r == s[|s| - |r|..]
    ensures r == [] || !IsWs(r[0])
    ensures AllWs(s[..|s| - |r|])
  {
    if s == [] || !IsWs(s[0]) then s
    else
      var r := DropWs(s[1..]);
      assert s[..|s| - |r|] == [s[0]] + s[1..][..|s[1..]| - |r|];
      r
  }

  /** `re.sub(r"\s+", " ", s)`: each maximal whitespace run becomes one
      space. */
  function CollapseWs(s: string): (r: string)
    ensures |r| <= |s|
    ensures s != [] ==> r != [] && r[0] == (if IsWs(s[0]) then ' ' else s[0])
    decreases |s|
  {
    if s == [] then []
    else if IsWs(s[0]) then [' '] + CollapseWs(DropWs(s[1..]))
    else [s[0]] + CollapseWs(s[1..])
  }

  /** Every whitespace character is a single space not followed by another
      whitespace character. */
  ghost predicate Collapsed(s: string) {
    forall i | 0 <= i < |s| && IsWs(s[i]) :: s[i] == ' ' && (i + 1 < |s| ==> !IsWs(s[i + 1]))
  }

  /** The non-whitespace characters of a string, in order. */
  function Words(s: string): string {
    if s == [] then []
    else (if IsWs(s[0]) then [] else [s[0]]) + Words(s[1..])
  }

  /** A character put in front of a collapsed string keeps it collapsed
      unless it is whitespace other than a space, or whitespace before
      whitespace. */
  lemma CollapsedCons(c: char, t: string)
    requires Collapsed(t)
    requires IsWs(c) ==> c == ' ' && (t == [] || !IsWs(t[0]))
    ensures Collapsed([c] + t)
  {
    var r := [c] + t;
    assert forall i | 1 <= i < |r| :: r[i] == t[i - 1];
  }

  lemma {:induction false} CollapseWsCollapsed(s: string)
    ensures Collapsed(CollapseWs(s))
    decreases |s|
  {
    if s != [] {
      if IsWs(s[0]) {
        var rest := DropWs(s[1..]);
        CollapseWsCollapsed(rest);
        CollapsedCons(' ', CollapseWs(rest));
      } else {
        CollapseWsCollapsed(s[1..]);
        CollapsedCons(s[0], CollapseWs(s[1..]));
      }
    }
  }

  lemma CollapsedTail(s: string)
    requires s != [] && Collapsed(s)
    ensures Collapsed(s[1..])
  {
    assert forall i | 0 <= i < |s[1..]| :: s[1..][i] == s[i + 1];
  }

  /** A collapsed string is its own collapse. */
  lemma {:induction false} CollapseWsFixed(s: string)
    requires Collapsed(s)
    ensures CollapseWs(s) == s
    decreases |s|
  {
    if s != [] {
      CollapsedTail(s);
      CollapseWsFixed(s[1..]);
      if IsWs(s[0]) {
        assert s[0] == ' ';
        assert s[1..] == [] || !IsWs(s[1..][0]);
        assert DropWs(s[1..]) == s[1..];
      }
    }
  }

  lemma {:induction false} WordsAppend(a: string, b: string)
    ensures Words(a + b) == Words(a) + Words(b)
  {
    if a != [] {
      TailOfAppend(a, b);
      WordsAppend(a[1..], b);
    } else {
      assert a + b == b;
    }
  }

  lemma {:induction false} WordsOfWs(s: string)
    requires AllWs(s)
    ensures Words(s) == []
  {
    if s != [] {
      assert AllWs(s[1..]);
      WordsOfWs(s[1..]);
    }
  }

  /** Collapsing keeps every non-whitespace character, in order. */
  lemma {:induction false} CollapseWsWords(s: string)
    ensures Words(CollapseWs(s)) == Words(s)
    decreases |s|
  {
    if s != [] {
      if IsWs(s[0]) {
        var t := s[1..];
        var rest := DropWs(t);
        CollapseWsWords(rest);
        assert t == t[..|t| - |rest|] + rest;
        WordsAppend(t[..|t| - |rest|], rest);
        WordsOfWs(t[..|t| - |rest|]);
        WordsAppend([' '], CollapseWs(rest));
      } else {
        CollapseWsWords(s[1..]);
        WordsAppend([s[0]], CollapseWs(s[1..]));
      }
    }
  }

  /** Trimming keeps every non-whitespace character, in order. */
  lemma {:induction false} TrimWords(s: string)
    ensures Words(Trim(s)) == Words(s)
    decreases |s|
  {
    if s != [] {
      if IsWs(s[0]) {
        TrimWords(s[1..]);
      } else if IsWs(s[|s| - 1]) {
        var init := s[..|s| - 1];
        TrimWords(init);
        assert s == init + [s[|s| - 1]];
        WordsAppend(init, [s[|s| - 1]]);
      }
    }
  }

  /** A slice of a collapsed string is collapsed. */
  lemma CollapsedSlice(s: string, a: nat, b: nat)
    requires a <= b <= |s| && Collapsed(s)
    ensures Collapsed(s[a..b])
  {
    assert forall i | 0 <= i < b - a :: s[a..b][i] == s[a + i];
  }

  lemma TrimCollapsed(s: string)
    requires Collapsed(s)
    ensures Collapsed(Trim(s))
  {
    var a := TrimSlice(s);
    CollapsedSlice(s, a, a + |Trim(s)|);
  }

  /** `DropWs` over whitespace followed by a text that does not start with
      whitespace leaves that text. */
  lemma {:induction false} DropWsBlank(w: string, b: string)
    requires AllWs(w) && (b == [] || !IsWs(b[0]))
    ensures DropWs(w + b) == b
    decreases |w|
  {
    if w == [] {
      assert w + b == b;
    } else {
      assert (w + b)[1..] == w[1..] + b;
      assert AllWs(w[1..]);
      DropWsBlank(w[1..], b);
    }
  }

  /** `DropWs` stops inside a text that ends in a non-whitespace character. */
  lemma {:induction false} DropWsStops(x: string, y: string)
    requires x != [] && !IsWs(x[|x| - 1])
    ensures DropWs(x + y) == DropWs(x) + y
    decreases |x|
  {
    if IsWs(x[0]) {
      assert (x + y)[1..] == x[1..] + y;
      DropWsStops(x[1..], y);
    }
  }

  /** A text ending in a non-whitespace character keeps that character
      when its leading whitespace goes. */
  lemma {:induction false} DropWsKeepsLast(t: string)
    requires t != [] && !IsWs(t[|t| - 1])
    ensures DropWs(t) != [] && DropWs(t)[|DropWs(t)| - 1] == t[|t| - 1]
    decreases |t|
  {
    if IsWs(t[0]) {
      assert |t| > 1;
      assert t[1..][|t| - 2] == t[|t| - 1];
      DropWsKeepsLast(t[1..]);
    }
  }

  /** A whitespace run in front of a text that does not start with
      whitespace collapses to one space. */
  lemma CollapseWsLeadingRun(w: string, b: string)
    requires w != [] && AllWs(w)
    requires b == [] || !IsWs(b[0])
    ensures CollapseWs(w + b) == " " + CollapseWs(b)
  {
    TailOfAppend(w, b);
    DropWsBlank(w[1..], b);
  }

  /** A non-whitespace character in front is kept in front. */
  lemma CollapseWsCharStep(a: string, w: string, b: string)
    requires a != [] && !IsWs(a[0])
    requires CollapseWs(a[1..] + w + b) == CollapseWs(a[1..]) + " " + CollapseWs(b)
    ensures CollapseWs(a + w + b) == CollapseWs(a) + " " + CollapseWs(b)
  {
    var t := a[1..];
    TailOfAppend(a, w + b);
    AppendAssoc(a, w, b);
    AppendAssoc(t, w, b);
    assert CollapseWs(a) == [a[0]] + CollapseWs(t);
    AppendAssoc([a[0]], CollapseWs(t) + " ", CollapseWs(b));
    AppendAssoc([a[0]], CollapseWs(t), " ");
  }

  /** Leading whitespace before a text that ends in a non-whitespace
      character is one space, whatever follows. */
  lemma CollapseWsRunStep(a: string, w: string, b: string)
    requires a != [] && IsWs(a[0])
    requires a[1..] != [] && !IsWs(a[|a| - 1])
    requires CollapseWs(DropWs(a[1..]) + w + b) == CollapseWs(DropWs(a[1..])) + " " + CollapseWs(b)
    ensures CollapseWs(a + w + b) == CollapseWs(a) + " " + CollapseWs(b)
  {
    var d := DropWs(a[1..]);
    assert CollapseWs(a + w + b) == [' '] + CollapseWs(d + w + b) by {
      CollapseWsRunFront(a, w + b);
      AppendAssoc(a, w, b);
      AppendAssoc(d, w, b);
    }
    AppendAssoc([' '], CollapseWs(d) + " ", CollapseWs(b));
    AppendAssoc([' '], CollapseWs(d), " ");
  }

  /** The leading run of a text that ends in a non-whitespace character
      collapses the same whatever follows the text. */
  lemma CollapseWsRunFront(a: string, y: string)
    requires a != [] && IsWs(a[0])
    requires a[1..] != [] && !IsWs(a[|a| - 1])
    ensures CollapseWs(a + y) == [' '] + CollapseWs(DropWs(a[1..]) + y)
  {
    TailOfAppend(a, y);
    DropWsStops(a[1..], y);
  }

  /** A whitespace run between two texts that do not touch it with
      whitespace of their own collapses to one space, and each side
      collapses on its own. */
  lemma {:induction false} CollapseWsJoin(a: string, w: string, b: string)
    requires w != [] && AllWs(w)
    requires a == [] || !IsWs(a[|a| - 1])
    requires b == [] || !IsWs(b[0])
    ensures CollapseWs(a + w + b) == CollapseWs(a) + " " + CollapseWs(b)
    decreases |a|
  {
    if a == [] {
      assert a + w + b == w + b;
      CollapseWsLeadingRun(w, b);
    } else if IsWs(a[0]) {
      assert CollapseWs(a + w + b) == CollapseWs(a) + " " + CollapseWs(b) by {
        DropWsKeepsLast(a[1..]);
        CollapseWsJoin(DropWs(a[1..]), w, b);
        CollapseWsRunStep(a, w, b);
      }
    } else {
      assert CollapseWs(a + w + b) == CollapseWs(a) + " " + CollapseWs(b) by {
        CollapseWsJoin(a[1..], w, b);
        CollapseWsCharStep(a, w, b);
      }
    }
  }

  /** `_parse_pub_date`: whitespace runs become one space and the ends are
      stripped. */
  function ParsePubDate(value: string): (r: string)
    ensures value == "" ==> r == ""
  {
    if value == "" then "" else Trim(CollapseWs(value))
  }

  /** A parsed date has no whitespace at its ends, only single spaces
      inside, and every other character of the input in order. */
  lemma ParsePubDateClean(value: string)
    ensures Trimmed(ParsePubDate(value))
    ensures Collapsed(ParsePubDate(value))
    ensures Words(ParsePubDate(value)) == Words(value)
  {
    if value != "" {
      CollapseWsCollapsed(value);
      TrimCollapsed(CollapseWs(value));
      CollapseWsWords(value);
      TrimWords(CollapseWs(value));
    }
  }

  /** Two clean date parts with any whitespace run between them are parsed
      to the parts joined by one space. */
  lemma ParsePubDateJoin(a: string, w: string, b: string)
    requires a != [] && Trimmed(a) && Collapsed(a)
    requires b != [] && Trimmed(b) && Collapsed(b)
    requires w != [] && AllWs(w)
    ensures ParsePubDate(a + w + b) == a + " " + b
  {
    CollapseWsJoin(a, w, b);
    CollapseWsFixed(a);
    CollapseWsFixed(b);
    var r := a + " " + b;
    assert r[0] == a[0] && r[|r| - 1] == b[|b| - 1];
    TrimOfTrimmed(r);
  }

  /** Parsing a parsed date changes nothing. */
  lemma ParsePubDateIdempotent(value: string)
    ensures ParsePubDate(ParsePubDate(value)) == ParsePubDate(value)
  {
    var r := ParsePubDate(value);
    if r != "" {
      ParsePubDateClean(value);
      CollapseWsFixed(r);
      TrimOfTrimmed(r);
    }
  }

  // ------------------------------------------------------------ truncation

  /** `_truncate_text`: a text within `maxLen` is kept, a longer one is cut
      to `maxLen - 1` characters, stripped at the end and given the tail. */
  function TruncateText(text: string, maxLen: int): (r: string)
    ensures |text| <= maxLen ==> r == text
    ensures |text| > maxLen ==> EndsWith(r, Ellipsis) && Kept(text, maxLen, r[..|r| - |Ellipsis|])
  {
    if |text| <= maxLen then text else Clip(text, maxLen)
  }

  /** A truncated text is at most `maxLen - 1` characters plus the tail. */
  lemma TruncateTextBound(text: string, maxLen: int)
    requires maxLen >= 1
    ensures |TruncateText(text, maxLen)| <= maxLen - 1 + |Ellipsis|
  {
    var r := TruncateText(text, maxLen);
    if |text| > maxLen {
      assert Kept(text, maxLen, r[..|r| - |Ellipsis|]);
    }
  }

  // ---------------------------------------------------------- source loop

  /** What fetching one feed did: its entries, a request error, or any other
      exception (a malformed feed, say), which the loop does not catch. */
  datatype Fetched<T> = Entries(items: seq<T>) | RequestFailed | Raised(message: string)

  datatype Result<T> = Ok(value: T) | Err(message: string)

  /** The entries of the feeds in order, skipping the request errors; the
      first other exception ends the whole collection. */
  function Gathered<T>(sources: seq<string>, fetch: string -> Fetched<T>): Result<seq<T>> {
    if sources == [] then Ok([])
    else
      var before := Gathered(sources[..|sources| - 1], fetch);
      if before.Err? then before
      else match fetch(sources[|sources| - 1])
        case Entries(items) => Ok(before.value + items)
        case RequestFailed => before
        case Raised(msg) => Err(msg)
  }

  /** `fetch_rss_items`, with the per-feed fetch as a parameter. */
  method FetchRssItems<T>(sources: Option<seq<string>>, fetch: string -> Fetched<T>) returns (r: Result<seq<T>>)
    ensures r == Gathered(if sources.Some? then sources.value else [], fetch)
  {
    var urls := if sources.Some? then sources.value else [];
    var items: seq<T> := [];
    for i := 0 to |urls|
      invariant Gathered(urls[..i], fetch) == Ok(items)
    {
      assert urls[..i + 1][..i] == urls[..i];
      match fetch(urls[i])
      case Entries(entries) =>
        items := items + entries;
      case RequestFailed =>
      case Raised(msg) =>
        assert urls[..i + 1] == urls[..i] + [urls[i]];
        GatheredErrSticks(urls[..i + 1], urls[i + 1..], fetch);
        assert urls[..i + 1] + urls[i + 1..] == urls;
        return Err(msg);
    }
    assert urls[..|urls|] == urls;
    r := Ok(items);
  }

  /** Once an exception ends the collection, later feeds do not matter. */
  lemma {:induction false} GatheredErrSticks<T>(a: seq<string>, b: seq<string>, fetch: string -> Fetched<T>)
    requires Gathered(a, fetch).Err?
    ensures Gathered(a + b, fetch) == Gathered(a, fetch)
    decreases |b|
  {
    if b != [] {
      var init := b[..|b| - 1];
      GatheredErrSticks(a, init, fetch);
      assert (a + b)[..|a + b| - 1] == a + init;
    } else {
      assert a + b == a;
    }
  }

  /** A feed that failed with a request error contributes nothing: the
      result is as if it were not listed. */
  lemma {:induction false} GatheredSkips<T>(a: seq<string>, u: string, b: seq<string>, fetch: string -> Fetched<T>)
    requires fetch(u).RequestFailed?
    ensures Gathered(a + [u] + b, fetch) == Gathered(a + b, fetch)
    decreases |b|
  {
    if b == [] {
      assert (a + [u])[..|a + [u]| - 1] == a;
      assert a + [u] + b == a + [u];
      assert a + b == a;
    } else {
      var init := b[..|b| - 1];
      GatheredSkips(a, u, init, fetch);
      assert (a + [u] + b)[..|a + [u] + b| - 1] == a + [u] + init;
      assert (a + b)[..|a + b| - 1] == a + init;
      assert (a + [u] + b)[|a + [u] + b| - 1] == b[|b| - 1] == (a + b)[|a + b| - 1];
    }
  }

  /** The collection succeeds exactly when no feed raised anything but a
      request error. */
  lemma {:induction false} GatheredOkIff<T>(sources: seq<string>, fetch: string -> Fetched<T>)
    ensures Gathered(sources, fetch).Ok? <==> forall k | 0 <= k < |sources| :: !fetch(sources[k]).Raised?
  {
    if sources != [] {
      var init := sources[..|sources| - 1];
      GatheredOkIff(init, fetch);
      assert forall k | 0 <= k < |init| :: init[k] == sources[k];
    }
  }

  /** A feed's entries follow those of the feeds before it. */
  lemma GatheredSnoc<T>(sources: seq<string>, u: string, items: seq<T>, fetch: string -> Fetched<T>)
    requires Gathered(sources, fetch).Ok? && fetch(u) == Entries(items)
    ensures Gathered(sources + [u], fetch) == Ok(Gathered(sources, fetch).value + items)
  {
    assert (sources + [u])[..|sources|] == sources;
  }
}
