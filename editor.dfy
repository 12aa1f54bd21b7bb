/**
 * The broadcast editor's payload preparation: before the collected news is
 * sent to the language model, each source block keeps its first three
 * items, and each item keeps only the fields the prompt uses, with its long
 * texts truncated. A payload file holding a bare list is read as the list
 * of inputs.
 */
module Editor {
  import opened Text
  import opened NewsData


  const TitleLimit: int := 120
  const SummaryLimit: int := 600
  const PostLimit: int := 280
  const WeatherLimit: int := 200
  /** Items kept per source block. */
  const ItemsKept: nat := 3

  /** `_truncate`: a false value gives the empty string, a short text is
      kept, a long one is cut to `limit - 1` characters, stripped at the end
      and given the tail. */
  function Truncate(text: Json, limit: int): (r: string)
    ensures !Truthy(text) ==> r == ""
    ensures Truthy(text) && |PyStr(text)| <= limit ==> r == PyStr(text)
    ensures Truthy(text) && |PyStr(text)| > limit ==>
      EndsWith(r, Ellipsis) && Kept(PyStr(text), limit, r[..|r| - |Ellipsis|])
  {
    if !Truthy(text) then ""
    else
      var s := PyStr(text);
      if |s| <= limit then s else Clip(s, limit)
  }

  /** A truncated text is at most `limit - 1` characters plus the tail, and
      so may be up to two characters longer than `limit`. */
  lemma TruncateBound(text: Json, limit: int)
    requires limit >= 1
    ensures |Truncate(text, limit)| <= limit - 1 + |Ellipsis|
  {
    var r := Truncate(text, limit);
    if Truthy(text) && |PyStr(text)| > limit {
      assert Kept(PyStr(text), limit, r[..|r| - |Ellipsis|]);
    }
  }

  /** A text within the limit passes unchanged, so truncating a short text
      twice is truncating it once. */
  lemma TruncateShortStable(s: string, limit: int)
    requires |s| <= limit
    ensures Truncate(JStr(s), limit) == s
    ensures Truncate(JStr(Truncate(JStr(s), limit)), limit) == Truncate(JStr(s), limit)
  {
  }

  /** A string value of at most `n` characters. */
  predicate TextWithin(v: Json, n: int) {
    v.JStr? && |v.s| <= n
  }

  const Rss: Json := JStr("rss")
  const X: Json := JStr("x")
  const Weather: Json := JStr("weather")

  /** `_trim_item`: the fields kept for each known source. */
  function TrimItem(source: Json, item: map<string, Json>): map<string, Json> {
    if source == Rss then
      map["title" := JStr(Truncate(GetOr(item, "title", JStr("")), TitleLimit)),
          "summary" := JStr(Truncate(GetOr(item, "summary", JStr("")), SummaryLimit)),
          "published_at" := Get(item, "published_at"),
          "source_name" := Get(item, "source_name")]
    else if source == X then
      map["author" := Get(item, "author"),
          "text" := JStr(Truncate(GetOr(item, "text", JStr("")), PostLimit)),
          "engagement" := GetOr(item, "engagement", JObject(map[])),
          "created_at" := Get(item, "created_at")]
    else if source == Weather then
      map["summary" := JStr(Truncate(GetOr(item, "summary", JStr("")), WeatherLimit))]
    else item
  }

  /** An RSS item keeps its title, summary, date and source name, with the
      texts bounded and the other two copied. */
  lemma TrimRssItem(item: map<string, Json>)
    ensures TrimItem(Rss, item).Keys == {"title", "summary", "published_at", "source_name"}
    ensures TextWithin(TrimItem(Rss, item)["title"], TitleLimit + 2)
    ensures TextWithin(TrimItem(Rss, item)["summary"], SummaryLimit + 2)
    ensures TrimItem(Rss, item)["published_at"] == Get(item, "published_at")
    ensures TrimItem(Rss, item)["source_name"] == Get(item, "source_name")
  {
    TruncateBound(GetOr(item, "title", JStr("")), TitleLimit);
    TruncateBound(GetOr(item, "summary", JStr("")), SummaryLimit);
  }

  /** A post keeps its author, text, engagement and time; the text is
      bounded and a missing engagement becomes an empty object. */
  lemma TrimXItem(item: map<string, Json>)
    ensures TrimItem(X, item).Keys == {"author", "text", "engagement", "created_at"}
    ensures TextWithin(TrimItem(X, item)["text"], PostLimit + 2)
    ensures TrimItem(X, item)["author"] == Get(item, "author")
    ensures TrimItem(X, item)["created_at"] == Get(item, "created_at")
    ensures "engagement" !in item ==> TrimItem(X, item)["engagement"] == JObject(map[])
  {
    TruncateBound(GetOr(item, "text", JStr("")), PostLimit);
  }

  /** A weather item keeps only its bounded summary. */
  lemma TrimWeatherItem(item: map<string, Json>)
    ensures TrimItem(Weather, item).Keys == {"summary"}
    ensures TextWithin(TrimItem(Weather, item)["summary"], WeatherLimit + 2)
  {
    TruncateBound(GetOr(item, "summary", JStr("")), WeatherLimit);
  }

  /** An item of any other source is passed on untouched. */
  lemma TrimOtherItem(source: Json, item: map<string, Json>)
    requires source != Rss && source != X && source != Weather
    ensures TrimItem(source, item) == item
  {
  }

  /** One source block: its `source` value (`None` when missing) and its
      `items` list (`None` when missing or null). */
  datatype Block = Block(source: Json, items: Option<seq<map<string, Json>>>)

  /** The editor's payload: `config` and `inputs`, each possibly missing. */
  datatype Payload = Payload(config: Option<Json>, inputs: Option<seq<Block>>)

  function ItemsOf(b: Block): seq<map<string, Json>> {
    if b.items.Some? then b.items.value else []
  }

  function InputsOf(p: Payload): seq<Block> {
    if p.inputs.Some? then p.inputs.value else []
  }

  function Min(a: int, b: int): int {
    if a <= b then a else b
  }

  /** `_shrink_payload`: the config passes through (an empty object when
      missing), and each block, in order, keeps its source and the trimmed
      first three of its items. */
  method ShrinkPayload(payload: Payload) returns (r: Payload)
    ensures r.config == Some(if payload.config.Some? then payload.config.value else JObject(map[]))
    ensures r.inputs.Some? && |r.inputs.value| == |InputsOf(payload)|
    ensures forall k | 0 <= k < |InputsOf(payload)| ::
      var b := InputsOf(payload)[k];
      var c := r.inputs.value[k];
      c.source == b.source && c.items.Some?
      && |c.items.value| == Min(ItemsKept, |ItemsOf(b)|)
      && forall j | 0 <= j < |c.items.value| :: c.items.value[j] == TrimItem(b.source, ItemsOf(b)[j])
  {
    var config := if payload.config.Some? then payload.config.value else JObject(map[]);
    var inputs := if payload.inputs.Some? then payload.inputs.value else [];
    var compact: seq<Block> := [];
    for i := 0 to |inputs|
      invariant |compact| == i
      invariant forall k | 0 <= k < i ::
        var b := inputs[k];
        var c := compact[k];
        c.source == b.source && c.items.Some?
        && |c.items.value| == Min(ItemsKept, |ItemsOf(b)|)
        && forall j | 0 <= j < |c.items.value| :: c.items.value[j] == TrimItem(b.source, ItemsOf(b)[j])
    {
      var block := inputs[i];
      var items := if block.items.Some? then block.items.value else [];
      var first := if |items| <= ItemsKept then items else items[..ItemsKept];
      var trimmed := seq(|first|, j requires 0 <= j < |first| => TrimItem(block.source, first[j]));
      compact := compact + [Block(block.source, Some(trimmed))];
    }
    r := Payload(Some(config), Some(compact));
  }

  /** `_load_json`'s wrapping: a top-level list becomes the inputs of a
      payload object; anything else is the payload itself. */
  function LoadJson(data: Json): (r: Json)
    ensures !r.JList?
    ensures data.JList? ==> r.JObject? && r.fields.Keys == {"inputs"} && r.fields["inputs"] == data
    ensures !data.JList? ==> r == data
  {
    if data.JList? then JObject(map["inputs" := data]) else data
  }

  /** Loading an already loaded payload changes nothing. */
  lemma LoadJsonIdempotent(data: Json)
    ensures LoadJson(LoadJson(data)) == LoadJson(data)
  {
  }
}
