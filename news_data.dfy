/**
 * Values shared by the personal-news Python helpers: decoded JSON, Python
 * truthiness and `str()`, dictionary lookups with defaults, and the
 * truncation tail both truncating helpers append.
 */
module NewsData {
  import opened Text

  /** A decoded JSON value, as `json.load` produces it. */
  datatype Json =
    | JNull
    | JBool(b: bool)
    | JNum(n: int)
    | JStr(s: string)
    | JList(elems: seq<Json>)
    | JObject(fields: map<string, Json>)

  /** Python truthiness: `None`, `False`, `0` and empty containers are
      false. */
  predicate Truthy(v: Json) {
    match v
    case JNull => false
    case JBool(b) => b
    case JNum(n) => n != 0
    case JStr(s) => s != []
    case JList(e) => e != []
    case JObject(m) => m != map[]
  }

  /** Python `str(v)` for the scalar values; containers are not rendered. */
  function PyStr(v: Json): (r: string)
    ensures v.JStr? ==> r == v.s
  {
    match v
    case JNull => "None"
    case JBool(b) => if b then "True" else "False"
    case JNum(n) => IntToString(n)
    case JStr(s) => s
    case JList(_) => ""
    case JObject(_) => ""
  }

  /** `d.get(key)`: `None` for a missing key. */
  function Get(d: map<string, Json>, key: string): Json {
    if key in d then d[key] else JNull
  }

  /** `d.get(key, default)`. */
  function GetOr(d: map<string, Json>, key: string, default: Json): Json {
    if key in d then d[key] else default
  }

  /** The tail both truncating helpers append: the UTF-8 bytes of a
      horizontal ellipsis read back as three Windows-1252 characters. */
  const Ellipsis: string := "â€¦"

  /** `p` is what `text[:limit - 1].rstrip()` keeps: the longest prefix of
      `text[:limit - 1]` that does not end in whitespace. */
  ghost predicate Kept(text: string, limit: int, p: string) {
    var cut := PyPrefix(text, limit - 1);
    |p| <= |cut| && p == text[..|p|] && AllWs(cut[|p|..])
    && (p == [] || !IsWs(p[|p| - 1]))
  }

  /** `text[:limit - 1].rstrip() + tail`. */
  function Clip(text: string, limit: int): (r: string)
    ensures |r| >= |Ellipsis| && r[|r| - |Ellipsis|..] == Ellipsis
    ensures Kept(text, limit, r[..|r| - |Ellipsis|])
  {
    var cut := PyPrefix(text, limit - 1);
    var kept := TrimEnd(cut);
    assert (kept + Ellipsis)[..|kept|] == kept;
    kept + Ellipsis
  }
}
