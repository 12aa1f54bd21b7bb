/**
 * The sanitiser of the style-parameter endpoint: it turns whatever record a
 * language model returned into complete style parameters. Every number is
 * rounded and clamped into [0,100], a missing field takes its default, and at
 * most eight signals are kept.
 *
 * The input is a parsed JSON record in which each field is either missing
 * (`null`/`undefined`) or present; numeric fields are modelled as finite
 * numbers only.
 */
module StyleParse {

  /** A numeric field of the input record. */
  datatype Field = Missing | Number(x: real)

  /** A text field of the input record. */
  datatype TextField = NoText | Text(s: string)

  /** The `signals` member: an array, or anything that is not one. */
  datatype SignalsField = NotArray | Array(items: seq<string>)

  datatype MixIn = MixIn(structure: Field, perception: Field, meaning: Field, distribution: Field)
  datatype SkinIn = SkinIn(sentenceLength: Field, abstraction: Field, emotion: Field)
  datatype TaskIn = TaskIn(contentType: TextField, primaryGoal: TextField, audience: Field)

  /** The payload; `NullPayload` is a `null` or `undefined` payload, and a
      missing `mix`, `skin` or `task` object is the record with every field
      missing (`?? {}`). */
  datatype Payload = NullPayload | Payload(mix: MixIn, skin: SkinIn, task: TaskIn, signals: SignalsField)

  datatype Mix = Mix(structure: int, perception: int, meaning: int, distribution: int)
  datatype SkinOut = SkinOut(sentenceLength: int, abstraction: int, emotion: int)
  datatype Task = Task(contentType: string, primaryGoal: string, audience: int)
  datatype Params = Params(mix: Mix, skin: SkinOut, task: Task, signals: seq<string>)

  const DefaultMix := Mix(72, 58, 52, 34)
  const DefaultSkin := SkinOut(56, 48, 32)
  const DefaultTask := Task("news", "clarity", 55)
  const MaxSignals := 8

  /** JavaScript `Math.round`: the nearest integer, halves rounded up. */
  function Round(x: real): (n: int)
    ensures n as real - 0.5 <= x < n as real + 0.5
  {
    (x + 0.5).Floor
  }

  /** `normalize`: round, then clamp into [0,100]. */
  function Normalize(x: real): (n: int)
    ensures 0 <= n <= 100
    ensures 0.0 <= x < 100.5 ==> n == Round(x)
    ensures x < 0.0 ==> n == 0
    ensures x >= 100.5 ==> n == 100
  {
    var r := Round(x);
    if r < 0 then 0 else if r > 100 then 100 else r
  }

  /** An integer in [0,100] is left as it is. */
  lemma NormalizeFixes(n: int)
    requires 0 <= n <= 100
    ensures Normalize(n as real) == n
  {
  }

  /** What a numeric field becomes: a present number is normalised, a missing
      field takes the default as it is. */
  predicate FieldGives(f: Field, default: int, n: int) {
    (f.Number? ==> n == Normalize(f.x)) && (f.Missing? ==> n == default)
  }

  /** `field ?? default`, then `normalize`. */
  function Value(f: Field, default: int): (n: int)
    ensures 0 <= default <= 100 ==> FieldGives(f, default, n)
  {
    match f
    case Missing => Normalize(default as real)
    case Number(x) => Normalize(x)
  }

  function TextOr(f: TextField, default: string): string {
    match f
    case NoText => default
    case Text(s) => s
  }

  function MissingMix(): MixIn { MixIn(Missing, Missing, Missing, Missing) }
  function MissingSkin(): SkinIn { SkinIn(Missing, Missing, Missing) }
  function MissingTask(): TaskIn { TaskIn(NoText, NoText, Missing) }

  predicate InRange(p: Params) {
    0 <= p.mix.structure <= 100 && 0 <= p.mix.perception <= 100
    && 0 <= p.mix.meaning <= 100 && 0 <= p.mix.distribution <= 100
    && 0 <= p.skin.sentenceLength <= 100 && 0 <= p.skin.abstraction <= 100
    && 0 <= p.skin.emotion <= 100 && 0 <= p.task.audience <= 100
  }

  /** `sanitize`: every number in [0,100], a missing field replaced by its
      default, text passed through unchecked, and the signals cut to the
      first eight of an array (none otherwise). */
  function Sanitize(payload: Payload): (p: Params)
    ensures InRange(p)
    ensures |p.signals| <= MaxSignals
    ensures payload.Payload? ==> p.signals == Signals(payload.signals)
    ensures payload.Payload? && payload.task.contentType.Text? ==> p.task.contentType == payload.task.contentType.s
    ensures payload.Payload? && payload.task.primaryGoal.Text? ==> p.task.primaryGoal == payload.task.primaryGoal.s
    ensures payload.Payload? && payload.task.contentType.NoText? ==> p.task.contentType == DefaultTask.contentType
    ensures payload.Payload? && payload.task.primaryGoal.NoText? ==> p.task.primaryGoal == DefaultTask.primaryGoal
    ensures payload.Payload? ==>
              FieldGives(payload.mix.structure, DefaultMix.structure, p.mix.structure)
              && FieldGives(payload.mix.perception, DefaultMix.perception, p.mix.perception)
              && FieldGives(payload.mix.meaning, DefaultMix.meaning, p.mix.meaning)
              && FieldGives(payload.mix.distribution, DefaultMix.distribution, p.mix.distribution)
    ensures payload.Payload? ==>
              FieldGives(payload.skin.sentenceLength, DefaultSkin.sentenceLength, p.skin.sentenceLength)
              && FieldGives(payload.skin.abstraction, DefaultSkin.abstraction, p.skin.abstraction)
              && FieldGives(payload.skin.emotion, DefaultSkin.emotion, p.skin.emotion)
              && FieldGives(payload.task.audience, DefaultTask.audience, p.task.audience)
    ensures payload.NullPayload? ==> p == Params(DefaultMix, DefaultSkin, DefaultTask, [])
  {
    var mix := if payload.Payload? then payload.mix else MissingMix();
    var skin := if payload.Payload? then payload.skin else MissingSkin();
    var task := if payload.Payload? then payload.task else MissingTask();
    Params(
      Mix(Value(mix.structure, DefaultMix.structure), Value(mix.perception, DefaultMix.perception),
          Value(mix.meaning, DefaultMix.meaning), Value(mix.distribution, DefaultMix.distribution)),
      SkinOut(Value(skin.sentenceLength, DefaultSkin.sentenceLength), Value(skin.abstraction, DefaultSkin.abstraction),
              Value(skin.emotion, DefaultSkin.emotion)),
      Task(TextOr(task.contentType, DefaultTask.contentType), TextOr(task.primaryGoal, DefaultTask.primaryGoal),
           Value(task.audience, DefaultTask.audience)),
      if payload.Payload? then Signals(payload.signals) else [])
  }

  /** `Array.isArray(signals) ? signals.slice(0, 8) : []`: the first eight
      items of an array, in order, and nothing from anything else. */
  function Signals(f: SignalsField): (r: seq<string>)
    ensures |r| <= MaxSignals
    ensures f.NotArray? ==> r == []
    ensures f.Array? ==> |r| == (if |f.items| < MaxSignals then |f.items| else MaxSignals)
                         && r == f.items[..|r|]
  {
    match f
    case NotArray => []
    case Array(items) => if |items| <= MaxSignals then items else items[..MaxSignals]
  }

  const Defaults := Params(DefaultMix, DefaultSkin, DefaultTask, [])

  /** A `null` payload, or one whose every field is missing, gives exactly the
      defaults. */
  lemma EmptyPayloadDefaults()
    ensures Sanitize(NullPayload) == Defaults
    ensures Sanitize(Payload(MissingMix(), MissingSkin(), MissingTask(), NotArray)) == Defaults
  {
    NormalizeFixes(72);
    NormalizeFixes(58);
    NormalizeFixes(52);
    NormalizeFixes(34);
    NormalizeFixes(56);
    NormalizeFixes(48);
    NormalizeFixes(32);
    NormalizeFixes(55);
  }

  /** `??` falls back only on a missing field: a missing audience takes the
      default 55 while an explicit 0 is kept as 0 (a `||` would have replaced
      it). */
  lemma MissingVersusZero(payload: Payload)
    requires payload.Payload?
    ensures payload.task.audience == Missing ==> Sanitize(payload).task.audience == DefaultTask.audience
    ensures payload.task.audience == Number(0.0) ==> Sanitize(payload).task.audience == 0
  {
    NormalizeFixes(DefaultTask.audience);
  }

  /** The payload that carries a set of parameters back in as input. */
  function AsPayload(p: Params): Payload {
    Payload(
      MixIn(Number(p.mix.structure as real), Number(p.mix.perception as real),
            Number(p.mix.meaning as real), Number(p.mix.distribution as real)),
      SkinIn(Number(p.skin.sentenceLength as real), Number(p.skin.abstraction as real), Number(p.skin.emotion as real)),
      TaskIn(Text(p.task.contentType), Text(p.task.primaryGoal), Number(p.task.audience as real)),
      Array(p.signals))
  }

  /** Sanitising the sanitised parameters again changes nothing. */
  lemma SanitizeIdempotent(payload: Payload)
    ensures Sanitize(AsPayload(Sanitize(payload))) == Sanitize(payload)
  {
    var p := Sanitize(payload);
    NormalizeFixes(p.mix.structure);
    NormalizeFixes(p.mix.perception);
    NormalizeFixes(p.mix.meaning);
    NormalizeFixes(p.mix.distribution);
    NormalizeFixes(p.skin.sentenceLength);
    NormalizeFixes(p.skin.abstraction);
    NormalizeFixes(p.skin.emotion);
    NormalizeFixes(p.task.audience);
  }
}
