/**
 * `generateScenario` (services/gemini.ts): the game mode's instruction and theme hint, the
 * scenario object assembled from the parsed response, and the fixed fallback scenario
 * returned on any failure.
 */
module ScenarioGenerator {
  import opened Wrappers
  import opened JsStrings
  import opened JsValues
  import opened Types
  import opened ModelReply
  import opened ResponseNormalizer

  const NightOpsInstruction :=
    "The scenario MUST take place at dusk or night. Visibility is poor. Temperature is dropping. Theme: 'night'."
  const HeatWaveInstruction :=
    "The scenario MUST take place in extreme heat/sun. Dehydration is a major risk. Theme: 'heat'."
  const TinyMistakesInstruction :=
    "The scenario MUST start with the user realizing they made a small, realistic error (forgot water, missed a turn, left gear behind) that complicates things. Theme: 'normal'."
  const StandardInstruction :=
    "Standard scenario. Theme: 'normal'."

  /** The theme a game mode asks the model for. */
  function ThemeHint(mode: string): Theme {
    if mode == "Night Ops" then Night
    else if mode == "Heat Wave" then Heat
    else Normal
  }

  /**
   * The instruction for the game mode that the prompt embeds; any unknown mode is
   * standard. Each instruction ends by naming exactly the theme `ThemeHint` gives the mode.
   */
  function ModeInstructions(mode: string): (r: string)
    ensures EndsWith(r, "Theme: '" + ThemeHint(mode).Name() + "'.")
  {
    InstructionsNameThemes();
    ThemeClauses();
    if mode == "Night Ops" then NightOpsInstruction
    else if mode == "Heat Wave" then HeatWaveInstruction
    else if mode == "Tiny Mistakes" then TinyMistakesInstruction
    else StandardInstruction
  }

  /** The fixed scenario returned when the call or the parse fails: one "retry" choice, turn 0. */
  const FallbackScenario: Scenario := Scenario(
    "fallback",
    "Signal Lost",
    "Connection to the ranger station failed. Please retry.",
    Normal,
    Location("Unknown", 0.0, 0.0, "N/A", None),
    Environment("?", "?", "?", Good, NoSignal, "?"),
    Inventory([], [], []),
    [Choice("retry", "Retry Connection")],
    0,
    5)

  /**
   * The object literal built from the parsed `data`: the fresh id, `turnCount` 1 and
   * `estimatedDuration` `data.estimatedDuration || 5`, then every property of `data`
   * spread over them, then `location` rebuilt from `data.location` with `mapUrl` set to the
   * grounding URL. `None` exactly when reading a property of `data` throws (it is `null`);
   * otherwise the object has an id, a turn count, a duration and a location object whose
   * `mapUrl` is the grounding URL.
   */
  function AssembleScenario(data: Value, freshId: string, mapUri: Option<string>): (r: Option<map<string, Value>>)
    ensures r.Some? <==> !IsNullish(data)
    ensures r.Some? ==>
              && {"id", "turnCount", "estimatedDuration", "location"} <= r.value.Keys
              && r.value["location"].Obj?
              && "mapUrl" in r.value["location"].fields
              && r.value["location"].fields["mapUrl"] == OptionalString(mapUri)
  {
    if IsNullish(data) then None
    else
      var defaults := map["id" := Str(freshId), "turnCount" := Num(1.0),
                          "estimatedDuration" := Or(Field(data, "estimatedDuration"), Num(5.0))];
      var location := Spread(Field(data, "location"))["mapUrl" := OptionalString(mapUri)];
      Some((defaults + Spread(data))["location" := Obj(location)])
  }

  /**
   * What `generateScenario` resolves to, given the model call's outcome. Whatever happens,
   * the result is an object with an id, a turn count, a duration and a location object:
   * never `null` or `undefined`; a failed call gives the fallback scenario.
   */
  function GenerateScenario(parse: string -> Option<Value>, reply: Reply, freshId: string): (r: Value)
    ensures r.Obj?
    ensures {"id", "turnCount", "estimatedDuration", "location"} <= r.fields.Keys
    ensures r.fields["location"].Obj?
    ensures reply.Failed? ==> r == ScenarioToValue(FallbackScenario)
  {
    match reply
    case Failed => ScenarioToValue(FallbackScenario)
    case Answered(text, mapUri) =>
      match CleanAndParseJson(parse, TextOr(text, "{}"))
      case None => ScenarioToValue(FallbackScenario)
      case Some(data) =>
        match AssembleScenario(data, freshId, mapUri)
        case None => ScenarioToValue(FallbackScenario)
        case Some(fields) => Obj(fields)
  }

  // ---------------------------------------------------------------------------
  // Lemmas

  /** The four instruction texts end with their theme, checked on the literals. */
  lemma InstructionsNameThemes()
    ensures EndsWith(NightOpsInstruction, "Theme: 'night'.")
    ensures EndsWith(HeatWaveInstruction, "Theme: 'heat'.")
    ensures EndsWith(TinyMistakesInstruction, "Theme: 'normal'.")
    ensures EndsWith(StandardInstruction, "Theme: 'normal'.")
  {
  }

  /** The clause that names each theme in an instruction. */
  lemma ThemeClauses()
    ensures "Theme: '" + Night.Name() + "'." == "Theme: 'night'."
    ensures "Theme: '" + Heat.Name() + "'." == "Theme: 'heat'."
    ensures "Theme: '" + Normal.Name() + "'." == "Theme: 'normal'."
  {
  }

  /** The fallback is renderable and actionable: id "fallback", turn 0, one "retry" choice. */
  lemma FallbackShape()
    ensures var v := ScenarioToValue(FallbackScenario);
      && v.fields["id"] == Str("fallback")
      && v.fields["turnCount"] == Num(0.0)
      && v.fields["theme"] == Str("normal")
      && |v.fields["choices"].items| == 1
      && v.fields["choices"].items[0].fields["id"] == Str("retry")
  {
  }

  /** A failed call or an unparsable response gives the fallback scenario. */
  lemma FailureGivesFallback(parse: string -> Option<Value>, reply: Reply, freshId: string)
    requires reply.Failed?
          || CleanAndParseJson(parse, TextOr(reply.text, "{}")).None?
          || CleanAndParseJson(parse, TextOr(reply.text, "{}")) == Some(Null)
    ensures GenerateScenario(parse, reply, freshId) == ScenarioToValue(FallbackScenario)
  {
  }

  /**
   * The properties of `data` override the defaults: every key of `data` but `location`
   * keeps `data`'s value; `id`, `turnCount` and `estimatedDuration` take their defaults only
   * when `data` lacks them (so a falsy `estimatedDuration` in `data` survives the `|| 5`).
   */
  lemma DataOverridesDefaults(data: Value, freshId: string, mapUri: Option<string>)
    requires !IsNullish(data)
    ensures AssembleScenario(data, freshId, mapUri).Some?
    ensures var m := AssembleScenario(data, freshId, mapUri).value;
      && (forall k :: k in Spread(data) && k != "location" ==> k in m && m[k] == Spread(data)[k])
      && m["id"] == (if "id" in Spread(data) then Spread(data)["id"] else Str(freshId))
      && m["turnCount"] == (if "turnCount" in Spread(data) then Spread(data)["turnCount"] else Num(1.0))
      && m["estimatedDuration"] == (if "estimatedDuration" in Spread(data)
                                    then Spread(data)["estimatedDuration"] else Num(5.0))
      && m.Keys == Spread(data).Keys + {"id", "turnCount", "estimatedDuration", "location"}
  {
    var sd := Spread(data);
    var defaults := map["id" := Str(freshId), "turnCount" := Num(1.0),
                        "estimatedDuration" := Or(Field(data, "estimatedDuration"), Num(5.0))];
    var location := Spread(Field(data, "location"))["mapUrl" := OptionalString(mapUri)];
    var m := (defaults + sd)["location" := Obj(location)];
    assert AssembleScenario(data, freshId, mapUri) == Some(m);
    SpreadNamedKey(data, "estimatedDuration");
  }

  /** From an empty object only the defaults and the location are assembled. */
  lemma EmptyDataAssemblesDefaults(freshId: string, mapUri: Option<string>)
    ensures AssembleScenario(EmptyObject, freshId, mapUri).Some?
    ensures AssembleScenario(EmptyObject, freshId, mapUri).value.Keys
            == {"id", "turnCount", "estimatedDuration", "location"}
  {
    assert Spread(EmptyObject) == map[];
  }

  /**
   * An empty response (its text defaults to "{}") that parses to the empty object gives a
   * scenario of the defaults and a location alone: it has no `environment`.
   */
  lemma EmptyReplyScenario(parse: string -> Option<Value>, freshId: string)
    requires parse("{}") == Some(EmptyObject)
    ensures GenerateScenario(parse, Answered("", None), freshId).fields.Keys
            == {"id", "turnCount", "estimatedDuration", "location"}
  {
    assert TextOr("", "{}") == "{}";
    assert CleanAndParseJson(parse, "{}") == Some(EmptyObject);
    EmptyDataAssemblesDefaults(freshId, None);
    var fields := AssembleScenario(EmptyObject, freshId, None).value;
    assert GenerateScenario(parse, Answered("", None), freshId) == Obj(fields);
  }

  /**
   * `location` keeps the properties of `data.location` and always carries `mapUrl`, set to
   * the grounding URL or to `undefined` when there is none, replacing any `mapUrl` the
   * response gave.
   */
  lemma MapUrlAlwaysReplaced(data: Value, freshId: string, mapUri: Option<string>)
    requires !IsNullish(data)
    ensures AssembleScenario(data, freshId, mapUri).Some?
    ensures var loc := AssembleScenario(data, freshId, mapUri).value["location"];
      && loc.Obj?
      && loc.fields["mapUrl"] == OptionalString(mapUri)
      && loc.fields.Keys == Spread(Field(data, "location")).Keys + {"mapUrl"}
      && (forall k :: k in Spread(Field(data, "location")) && k != "mapUrl" ==>
            loc.fields[k] == Spread(Field(data, "location"))[k])
  {
  }
}
