/**
 * The sanitizer's unit test (lib/normalizeCarCardData.test.ts) as lemmas:
 * what `normalizeCarCardData` must give for its sample record.
 */
module SchemaSample {
  import opened JsValues
  import opened Schema
  import JsStrings

  /**
   * The record of the sanitizer's unit test (a VIN, Persian engine digits, a
   * model, raw text in two scripts, no colour or plate, and scores above,
   * inside and below range): the fields it must give.
   */
  lemma SampleRecordFields(input: JsValue, coerce: JsValue -> Num)
    requires input.Obj?
    requires "vin" in input.props && input.props["vin"] == Str("NAAM123456789")
    requires "engine_number" in input.props && input.props["engine_number"] == Str("\U{06F1}\U{06F2}\U{06F3}\U{06F4}\U{06F5}")
    requires "model" in input.props && input.props["model"] == Str("405GLX-XU7-CNG")
    requires RawTextKey in input.props && input.props[RawTextKey] == Str("line one\n\U{062E}\U{0637} \U{062F}\U{0648}\U{0645}")
    requires "color" !in input.props
    ensures var card := Normalized(input, coerce);
      && card.fields.Keys == (set k | k in FieldKeys)
      && card.confidence.Keys == (set k | k in ConfidenceKeys)
      && "vin" in card.fields && card.fields["vin"] == "NAAM123456789"
      && "engine_number" in card.fields && card.fields["engine_number"] == "\U{06F1}\U{06F2}\U{06F3}\U{06F4}\U{06F5}"
      && "model" in card.fields && card.fields["model"] == "405GLX-XU7-CNG"
      && "color" in card.fields && card.fields["color"] == ""
      && RawTextKey in card.fields && card.fields[RawTextKey] == "line one\n\U{062E}\U{0637} \U{062F}\U{0648}\U{0645}"
  {
    NormalizedObject(input, coerce);
    var fields := CopiedFields(FieldKeys, input);
    assert "vin" in FieldKeys && "engine_number" in FieldKeys && "model" in FieldKeys;
    assert "color" in FieldKeys && RawTextKey in FieldKeys;
    CopiedAt(FieldKeys, input, "vin");
    CopiedAt(FieldKeys, input, "engine_number");
    CopiedAt(FieldKeys, input, "model");
    CopiedAt(FieldKeys, input, "color");
    CopiedAt(FieldKeys, input, RawTextKey);
  }

  /** The same record: the VIN's score of 1.2 is capped at 1. */
  lemma SampleVinScoreCapped(input: JsValue, coerce: JsValue -> Num)
    requires input.Obj?
    requires "vin" in input.props && input.props["vin"] == Str("NAAM123456789")
    requires ConfidenceProperty in input.props && input.props[ConfidenceProperty].Obj?
    requires "vin" in input.props[ConfidenceProperty].props
    requires input.props[ConfidenceProperty].props["vin"] == Number(Finite(1.2))
    ensures var card := Normalized(input, coerce);
      "vin" in card.confidence && card.confidence["vin"] == 1.0
  {
    NormalizedObject(input, coerce);
    var fields := CopiedFields(FieldKeys, input);
    var source := ConfidenceSource(input);
    assert "vin" in FieldKeys;
    assert "vin" in ConfidenceKeys;
    CopiedAt(FieldKeys, input, "vin");
    NonBlank("NAAM123456789");
    ScoreAt(ConfidenceKeys, fields, source, coerce, "vin");
  }

  /** The same record: the engine number's score of 0.9 is kept. */
  lemma SampleEngineScoreKept(input: JsValue, coerce: JsValue -> Num)
    requires input.Obj?
    requires "engine_number" in input.props && input.props["engine_number"] == Str("\U{06F1}\U{06F2}\U{06F3}\U{06F4}\U{06F5}")
    requires ConfidenceProperty in input.props && input.props[ConfidenceProperty].Obj?
    requires "engine_number" in input.props[ConfidenceProperty].props
    requires input.props[ConfidenceProperty].props["engine_number"] == Number(Finite(0.9))
    ensures var card := Normalized(input, coerce);
      "engine_number" in card.confidence && card.confidence["engine_number"] == 0.9
  {
    NormalizedObject(input, coerce);
    var fields := CopiedFields(FieldKeys, input);
    var source := ConfidenceSource(input);
    assert "engine_number" in FieldKeys;
    assert "engine_number" in ConfidenceKeys;
    CopiedAt(FieldKeys, input, "engine_number");
    NonBlank("\U{06F1}\U{06F2}\U{06F3}\U{06F4}\U{06F5}");
    ScoreAt(ConfidenceKeys, fields, source, coerce, "engine_number");
  }

  /** The same record: the model's score of 0.6 is kept. */
  lemma SampleModelScoreKept(input: JsValue, coerce: JsValue -> Num)
    requires input.Obj?
    requires "model" in input.props && input.props["model"] == Str("405GLX-XU7-CNG")
    requires ConfidenceProperty in input.props && input.props[ConfidenceProperty].Obj?
    requires "model" in input.props[ConfidenceProperty].props
    requires input.props[ConfidenceProperty].props["model"] == Number(Finite(0.6))
    ensures var card := Normalized(input, coerce);
      "model" in card.confidence && card.confidence["model"] == 0.6
  {
    NormalizedObject(input, coerce);
    var fields := CopiedFields(FieldKeys, input);
    var source := ConfidenceSource(input);
    assert "model" in FieldKeys;
    assert "model" in ConfidenceKeys;
    CopiedAt(FieldKeys, input, "model");
    NonBlank("405GLX-XU7-CNG");
    ScoreAt(ConfidenceKeys, fields, source, coerce, "model");
  }

  /** The same record: the colour is missing, so its score (given as -0.1) is 0. */
  lemma SampleColorScoreZero(input: JsValue, coerce: JsValue -> Num)
    requires input.Obj? && "color" !in input.props
    ensures var card := Normalized(input, coerce);
      "color" in card.confidence && card.confidence["color"] == 0.0
  {
    NormalizedObject(input, coerce);
    var fields := CopiedFields(FieldKeys, input);
    var source := ConfidenceSource(input);
    assert "color" in FieldKeys;
    assert "color" in ConfidenceKeys;
    CopiedAt(FieldKeys, input, "color");
    assert Get(input, "color") == Undefined;
    assert fields["color"] == "";
    JsStrings.TrimEmptyIff("");
    ScoreAt(ConfidenceKeys, fields, source, coerce, "color");
  }

  /** The same record: the plate is missing and has no score, so it scores 0. */
  lemma SamplePlateScoreZero(input: JsValue, coerce: JsValue -> Num)
    requires input.Obj? && "plate_number" !in input.props
    ensures var card := Normalized(input, coerce);
      "plate_number" in card.confidence && card.confidence["plate_number"] == 0.0
  {
    NormalizedObject(input, coerce);
    var fields := CopiedFields(FieldKeys, input);
    var source := ConfidenceSource(input);
    assert "plate_number" in FieldKeys;
    assert "plate_number" in ConfidenceKeys;
    CopiedAt(FieldKeys, input, "plate_number");
    assert Get(input, "plate_number") == Undefined;
    assert fields["plate_number"] == "";
    JsStrings.TrimEmptyIff("");
    ScoreAt(ConfidenceKeys, fields, source, coerce, "plate_number");
  }

  /** A string starting with a non-whitespace character does not trim to empty. */
  lemma NonBlank(s: string)
    requires |s| > 0 && !JsStrings.IsWs(s[0])
    ensures JsStrings.Trim(s) != ""
  {
    JsStrings.TrimEmptyIff(s);
  }
}
