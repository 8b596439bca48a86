/**
 * The car-card record every extraction provider returns, and the sanitizer
 * `normalizeCarCardData` that turns any model-produced value into one.
 */
module Schema {
  import opened JsValues
  import JsStrings

  /** The fields that carry a confidence score, in declaration order. */
  const ConfidenceKeys: seq<string> := [
    "plate_number", "vin", "make", "model", "year", "color", "engine_number",
    "owner_name", "registration_date", "expiry_date", "country",
    "vehicle_type", "fuel", "capacity"]

  const RawTextKey := "raw_text"
  const ConfidenceProperty := "confidence"

  /** The string fields of a card: one per confidence key, then the raw OCR text. */
  const FieldKeys: seq<string> := ConfidenceKeys + [RawTextKey]

  /**
   * A card: every string field by name, and a score per confidence key.
   * (`confidence` is the one non-string property of the source's record.)
   */
  datatype CarCardData = CarCardData(fields: map<string, string>, confidence: map<string, real>)

  /**
   * The shape `normalizeCarCardData` guarantees: exactly the declared keys,
   * scores in [0, 1], and a zero score for every field that is blank.
   */
  predicate WellFormed(card: CarCardData) {
    && card.fields.Keys == (set k | k in FieldKeys)
    && card.confidence.Keys == (set k | k in ConfidenceKeys)
    && (forall k :: k in card.confidence ==> 0.0 <= card.confidence[k] <= 1.0)
    && (forall k :: k in card.confidence && k in card.fields && JsStrings.Trim(card.fields[k]) == "" ==>
          card.confidence[k] == 0.0)
  }

  /** `emptyCarCardData`: every field blank and every score zero. */
  function EmptyCard(): (card: CarCardData)
    ensures WellFormed(card)
  {
    CarCardData(map k | k in FieldKeys :: "", map k | k in ConfidenceKeys :: 0.0)
  }

  /**
   * `clamp`: `Number(value)` pinned to [0, 1]; anything that is not a finite
   * number counts as 0.
   */
  function Clamp(value: JsValue, coerce: JsValue -> Num): (r: real)
    ensures 0.0 <= r <= 1.0
    ensures !ToNumber(value, coerce).Finite? ==> r == 0.0
    ensures ToNumber(value, coerce).Finite? ==>
      var x := ToNumber(value, coerce).value;
      r == if x < 0.0 then 0.0 else if x > 1.0 then 1.0 else x
  {
    var num := ToNumber(value, coerce);
    if !num.Finite? then 0.0
    else if num.value < 0.0 then 0.0
    else if num.value > 1.0 then 1.0
    else num.value
  }

  /** `typeof data[key] === "string" ? data[key] : ""` */
  function StringField(data: JsValue, key: string): string {
    var v := Get(data, key);
    if v.Str? then v.s else ""
  }

  /** `data.confidence ?? {}`: where the scores are read from. */
  function ConfidenceSource(data: JsValue): JsValue {
    OrElse(Get(data, ConfidenceProperty), Obj(map[]))
  }

  /** The string fields named by `keys`, copied from `data`. */
  function CopiedFields(keys: seq<string>, data: JsValue): (fields: map<string, string>)
    ensures fields.Keys == (set k | k in keys)
  {
    map k | k in keys :: StringField(data, k)
  }

  /**
   * The score of each key: zero when its field is blank, otherwise the
   * clamped value read from `source`.
   */
  function Scores(keys: seq<string>, fields: map<string, string>, source: JsValue, coerce: JsValue -> Num)
    : (scores: map<string, real>)
    ensures scores.Keys == (set k | k in keys)
    ensures forall k :: k in scores ==> 0.0 <= scores[k] <= 1.0
    ensures forall k :: k in scores && k in fields && JsStrings.Trim(fields[k]) == "" ==> scores[k] == 0.0
  {
    map k | k in keys ::
      if k in fields && JsStrings.Trim(fields[k]) == "" then 0.0 else Clamp(Get(source, k), coerce)
  }

  /**
   * What `normalizeCarCardData` returns, described field by field rather
   * than as the two passes the source makes: the empty card for anything
   * falsy or not an object; otherwise each string field copied when it is a
   * string, and each score clamped, except that a blank field scores zero.
   */
  function Normalized(input: JsValue, coerce: JsValue -> Num): (card: CarCardData)
    ensures !(Truthy(input) && IsObject(input)) ==> card == EmptyCard()
  {
    if !Truthy(input) || !IsObject(input) then EmptyCard()
    else CarCardData(CopiedFields(FieldKeys, input),
                     Scores(ConfidenceKeys, CopiedFields(FieldKeys, input), ConfidenceSource(input), coerce))
  }

  /** Whatever the model returned, the sanitized card has the guaranteed shape. */
  lemma NormalizedWellFormed(input: JsValue, coerce: JsValue -> Num)
    ensures WellFormed(Normalized(input, coerce))
  {
  }

  /** The first pass: every key's score clamped from `source`. */
  method ClampEachScore(keys: seq<string>, source: JsValue, coerce: JsValue -> Num, initial: map<string, real>)
    returns (scores: map<string, real>)
    requires initial.Keys == (set k | k in keys)
    ensures scores == map k | k in keys :: Clamp(Get(source, k), coerce)
  {
    scores := initial;
    for i := 0 to |keys|
      invariant scores.Keys == (set k | k in keys)
      invariant forall k :: k in keys[..i] ==> scores[k] == Clamp(Get(source, k), coerce)
    {
      var key := keys[i];
      assert keys[..i + 1] == keys[..i] + [key];
      scores := scores[key := Clamp(Get(source, key), coerce)];
    }
    assert keys[..|keys|] == keys;
  }

  /** The second pass: the score of every key whose field is blank set to zero. */
  method ZeroBlankScores(keys: seq<string>, fields: map<string, string>, initial: map<string, real>)
    returns (scores: map<string, real>)
    requires (set k | k in keys) <= initial.Keys
    requires (set k | k in keys) <= fields.Keys
    ensures scores == map k | k in initial ::
      if k in keys && JsStrings.Trim(fields[k]) == "" then 0.0 else initial[k]
  {
    scores := initial;
    for i := 0 to |keys|
      invariant scores.Keys == initial.Keys
      invariant forall k :: k in scores ==>
        scores[k] == if k in keys[..i] && JsStrings.Trim(fields[k]) == "" then 0.0 else initial[k]
    {
      var key := keys[i];
      assert keys[..i + 1] == keys[..i] + [key];
      var v := fields[key];
      if JsStrings.Trim(v) == "" {
        scores := scores[key := 0.0];
      }
    }
    assert keys[..|keys|] == keys;
  }

  /**
   * `normalizeCarCardData`: the field copy, then one pass clamping every
   * score and a second pass zeroing the scores of blank fields.
   */
  method NormalizeCarCardData(input: JsValue, coerce: JsValue -> Num) returns (result: CarCardData)
    ensures result == Normalized(input, coerce)
  {
    if !Truthy(input) || !IsObject(input) {
      return EmptyCard();
    }
    var fields := CopiedFields(FieldKeys, input);
    var source := ConfidenceSource(input);
    var clamped := ClampEachScore(ConfidenceKeys, source, coerce, EmptyCard().confidence);
    FieldKeysCoverConfidenceKeys();
    var confidence := ZeroBlankScores(ConfidenceKeys, fields, clamped);
    ScoresInTwoPasses(ConfidenceKeys, fields, source, coerce, clamped, confidence);
    result := CarCardData(fields, confidence);
  }

  lemma FieldKeysCoverConfidenceKeys()
    ensures (set k | k in ConfidenceKeys) <= (set k | k in FieldKeys)
  {
    forall k | k in ConfidenceKeys ensures k in FieldKeys {
      ScoredKeyIsField(k);
    }
  }

  /** Every scored key names a string field. */
  lemma ScoredKeyIsField(key: string)
    requires key in ConfidenceKeys
    ensures key in FieldKeys
  {
    var i :| 0 <= i < |ConfidenceKeys| && ConfidenceKeys[i] == key;
    assert FieldKeys[i] == key;
  }

  /** The two passes together give `Scores`, the blank test winning over the clamp. */
  lemma ScoresInTwoPasses(keys: seq<string>, fields: map<string, string>, source: JsValue,
                          coerce: JsValue -> Num, clamped: map<string, real>, scores: map<string, real>)
    requires (set k | k in keys) <= fields.Keys
    requires clamped == map k | k in keys :: Clamp(Get(source, k), coerce)
    requires scores == map k | k in clamped ::
      if k in keys && JsStrings.Trim(fields[k]) == "" then 0.0 else clamped[k]
    ensures scores == Scores(keys, fields, source, coerce)
  {
  }

  /** An object is sanitized field by field: copied strings, then scores. */
  lemma NormalizedObject(input: JsValue, coerce: JsValue -> Num)
    requires input.Obj?
    ensures Normalized(input, coerce) == CarCardData(CopiedFields(FieldKeys, input),
      Scores(ConfidenceKeys, CopiedFields(FieldKeys, input), ConfidenceSource(input), coerce))
  {
    assert Truthy(input) && IsObject(input);
  }

  lemma CopiedAt(keys: seq<string>, data: JsValue, key: string)
    requires key in keys
    ensures key in CopiedFields(keys, data) && CopiedFields(keys, data)[key] == StringField(data, key)
  {
  }

  lemma ScoreAt(keys: seq<string>, fields: map<string, string>, source: JsValue, coerce: JsValue -> Num, key: string)
    requires key in keys
    ensures key in Scores(keys, fields, source, coerce)
    ensures Scores(keys, fields, source, coerce)[key] ==
      if key in fields && JsStrings.Trim(fields[key]) == "" then 0.0 else Clamp(Get(source, key), coerce)
  {
  }

  /** Copying a field keeps strings and blanks everything else. */
  lemma NormalizedCopiesStringFields(input: JsValue, coerce: JsValue -> Num, key: string)
    requires Truthy(input) && IsObject(input) && key in FieldKeys
    ensures Get(input, key).Str? ==> Normalized(input, coerce).fields[key] == Get(input, key).s
    ensures !Get(input, key).Str? ==> Normalized(input, coerce).fields[key] == ""
  {
  }

  /**
   * The score rule: a blank field scores zero whatever the model claimed;
   * a non-blank field keeps the model's score clamped to [0, 1], read from
   * `confidence` when present (and absent scores count as 0).
   */
  lemma NormalizedScores(input: JsValue, coerce: JsValue -> Num, key: string)
    requires Truthy(input) && IsObject(input) && key in ConfidenceKeys
    ensures var card := Normalized(input, coerce);
      card.confidence[key] == if JsStrings.Trim(card.fields[key]) == "" then 0.0
                              else Clamp(Get(ConfidenceSource(input), key), coerce)
    ensures IsNullish(Get(input, ConfidenceProperty)) ==> Normalized(input, coerce).confidence[key] == 0.0
  {
    ScoredKeyIsField(key);
  }

  /** A card as the JavaScript object the providers hand back. */
  function ToJs(card: CarCardData): (v: JsValue)
    ensures v.Obj? && Truthy(v) && IsObject(v)
  {
    Obj((map k | k in card.fields :: Str(card.fields[k]))
        [ConfidenceProperty := Obj(map k | k in card.confidence :: Number(Finite(card.confidence[k])))])
  }

  /**
   * Normalizing is a projection: a well-formed card, passed through the
   * sanitizer again, comes back unchanged.
   */
  lemma NormalizeFixesWellFormed(card: CarCardData, coerce: JsValue -> Num)
    requires WellFormed(card)
    ensures Normalized(ToJs(card), coerce) == card
  {
    var v := ToJs(card);
    ConfidenceIsNotAField();
    CopiedFieldsFixed(FieldKeys, card);
    ToJsScores(card);
    ScoresFixed(ConfidenceKeys, card.fields, card.confidence, coerce);
    NormalizedObject(v, coerce);
  }

  /** The scores are read back from the card's `confidence` object. */
  lemma ToJsScores(card: CarCardData)
    ensures ConfidenceSource(ToJs(card)) == Obj(map k | k in card.confidence :: Number(Finite(card.confidence[k])))
  {
  }

  lemma ConfidenceIsNotAField()
    ensures ConfidenceProperty !in FieldKeys
  {
  }

  /** Reading the string fields back out of a card's object gives the card's fields. */
  lemma CopiedFieldsFixed(keys: seq<string>, card: CarCardData)
    requires card.fields.Keys == (set k | k in keys)
    requires ConfidenceProperty !in keys
    ensures CopiedFields(keys, ToJs(card)) == card.fields
  {
    var v := ToJs(card);
    forall k | k in keys
      ensures StringField(v, k) == card.fields[k]
    {
      assert k != ConfidenceProperty;
      assert Get(v, k) == Str(card.fields[k]);
    }
  }

  /** Re-scoring scores that already follow the rule gives them back. */
  lemma ScoresFixed(keys: seq<string>, fields: map<string, string>, conf: map<string, real>, coerce: JsValue -> Num)
    requires conf.Keys == (set k | k in keys)
    requires forall k :: k in conf ==> 0.0 <= conf[k] <= 1.0
    requires forall k :: k in conf && k in fields && JsStrings.Trim(fields[k]) == "" ==> conf[k] == 0.0
    ensures Scores(keys, fields, Obj(map k | k in conf :: Number(Finite(conf[k]))), coerce) == conf
  {
    var source := Obj(map k | k in conf :: Number(Finite(conf[k])));
    forall k | k in keys
      ensures Scores(keys, fields, source, coerce)[k] == conf[k]
    {
      assert Get(source, k) == Number(Finite(conf[k]));
    }
  }

  /** Hence sanitizing twice is sanitizing once. */
  lemma NormalizeIdempotent(input: JsValue, coerce: JsValue -> Num, coerce2: JsValue -> Num)
    ensures Normalized(ToJs(Normalized(input, coerce)), coerce2) == Normalized(input, coerce)
  {
    NormalizedWellFormed(input, coerce);
    NormalizeFixesWellFormed(Normalized(input, coerce), coerce2);
  }
}
