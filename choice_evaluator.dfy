/**
 * `evaluateChoice` (services/gemini.ts) without the prompt text: building the prompt reads
 * `scenario.environment`, which throws for a scenario without one; after that the parsed
 * response becomes an `EvaluationResult` with defaults, a boolean coercion and a
 * next-scenario fragment that only a continuing game receives, and a failed call or an
 * unusable response gives a fixed neutral result.
 */
module ChoiceEvaluator {
  import opened Wrappers
  import opened JsValues
  import opened Types
  import opened ModelReply
  import opened ResponseNormalizer
  import opened ScenarioGenerator

  const DefaultOutcome := Str("Outcome processed.")

  /** What a failed call or an unusable response resolves to: no deltas, the game goes on. */
  const NeutralResult := EvaluationResult(
    Str("System interference. Action recorded."), EmptyObject, false, Undefined, None)

  /**
   * The result built from the parsed `data`: `outcomeText || "Outcome processed."`,
   * `scoreDeltas || {}`, `!!isGameOver`, `gameOverReason` as it is, and the next scenario
   * part when `!isGameOver && nextScenarioDescription`. `None` exactly when reading a
   * property of `data` throws (it is `null`). A result never has a falsy outcome text or
   * delta mapping, and carries a next part only in a game that goes on, with a truthy
   * description.
   */
  function ShapeEvaluation(data: Value): (r: Option<EvaluationResult>)
    ensures r.Some? <==> !IsNullish(data)
    ensures r.Some? ==> Usable(r.value)
  {
    if IsNullish(data) then None
    else
      var next :=
        if !Truthy(Field(data, "isGameOver")) && Truthy(Field(data, "nextScenarioDescription"))
        then Some(ScenarioPart(Field(data, "nextScenarioDescription"), Field(data, "nextChoices")))
        else None;
      Some(EvaluationResult(
        Or(Field(data, "outcomeText"), DefaultOutcome),
        Or(Field(data, "scoreDeltas"), EmptyObject),
        Truthy(Field(data, "isGameOver")),
        Field(data, "gameOverReason"),
        next))
  }

  /**
   * What every evaluation guarantees its caller: an outcome text and a delta mapping that
   * are never falsy, and a next scenario part only in a game that goes on, with a truthy
   * description.
   */
  predicate Usable(r: EvaluationResult) {
    && Truthy(r.outcomeText)
    && Truthy(r.scoreDeltas)
    && (r.nextScenarioPart.Some? ==> !r.isGameOver && Truthy(r.nextScenarioPart.value.description))
  }

  /**
   * Reading `scenario.environment.weather` while building the prompt throws: the scenario
   * or its environment is `null` or `undefined`. Rendering a read value into the prompt
   * can throw as well (an object with no usable `toString`), which is not modelled.
   */
  predicate PromptThrows(scenario: Value) {
    IsNullish(scenario) || IsNullish(Field(scenario, "environment"))
  }

  /**
   * What `evaluateChoice` resolves to, given the scenario it is asked about and the model
   * call's outcome; `None` where the returned promise rejects because a property read
   * while building the prompt throws, before the call is guarded; from then on every
   * outcome is usable, and a failed call gives the neutral result.
   */
  function EvaluateChoice(parse: string -> Option<Value>, scenario: Value, reply: Reply): (r: Option<EvaluationResult>)
    ensures r.None? <==> PromptThrows(scenario)
    ensures r.Some? ==> Usable(r.value)
    ensures r.Some? && reply.Failed? ==> r.value == NeutralResult
  {
    if PromptThrows(scenario) then None
    else
      match reply
      case Failed => Some(NeutralResult)
      case Answered(text, _) =>
        match CleanAndParseJson(parse, TextOr(text, "{}"))
        case None => Some(NeutralResult)
        case Some(data) => Some(ShapeEvaluation(data).GetOr(NeutralResult))
  }

  // ---------------------------------------------------------------------------
  // Lemmas

  /**
   * Each field of the result, for a usable response: defaults when the response's value is
   * falsy, `isGameOver` its truthiness, `gameOverReason` unchanged, and a next part exactly
   * when the game is not over and a next description is given.
   */
  lemma ShapeFields(data: Value)
    requires !IsNullish(data)
    ensures ShapeEvaluation(data).Some?
    ensures var r := ShapeEvaluation(data).value;
      && r.outcomeText == (if Truthy(Field(data, "outcomeText")) then Field(data, "outcomeText") else DefaultOutcome)
      && r.scoreDeltas == (if Truthy(Field(data, "scoreDeltas")) then Field(data, "scoreDeltas") else EmptyObject)
      && r.isGameOver == Truthy(Field(data, "isGameOver"))
      && r.gameOverReason == Field(data, "gameOverReason")
      && (r.nextScenarioPart.Some? <==>
            !Truthy(Field(data, "isGameOver")) && Truthy(Field(data, "nextScenarioDescription")))
      && (r.nextScenarioPart.Some? ==>
            r.nextScenarioPart.value.description == Field(data, "nextScenarioDescription")
            && r.nextScenarioPart.value.choices == Field(data, "nextChoices"))
  {
  }

  /** A response declaring the game over drops any next description it also supplies. */
  lemma GameOverTakesPrecedence(data: Value)
    requires !IsNullish(data) && Truthy(Field(data, "isGameOver"))
    ensures ShapeEvaluation(data).Some?
    ensures ShapeEvaluation(data).value.isGameOver
    ensures ShapeEvaluation(data).value.nextScenarioPart.None?
  {
  }

  /** A response without `scoreDeltas` gives the empty mapping, not an error. */
  lemma MissingDeltasAreEmpty(data: Value)
    requires data.Obj? && "scoreDeltas" !in data.fields
    ensures ShapeEvaluation(data).Some?
    ensures ShapeEvaluation(data).value.scoreDeltas == EmptyObject
  {
  }

  /**
   * For a scenario the prompt can be built from, a failed call, an unparsable response or
   * a `null` response gives the neutral result: the game goes on.
   */
  lemma FailureIsNeutral(parse: string -> Option<Value>, scenario: Value, reply: Reply)
    requires !PromptThrows(scenario)
    requires reply.Failed?
          || CleanAndParseJson(parse, TextOr(reply.text, "{}")).None?
          || CleanAndParseJson(parse, TextOr(reply.text, "{}")) == Some(Null)
    ensures EvaluateChoice(parse, scenario, reply) == Some(NeutralResult)
    ensures !EvaluateChoice(parse, scenario, reply).value.isGameOver
  {
  }

  /**
   * The fallback scenario has an environment, so evaluating a choice in it never rejects.
   */
  lemma FallbackCanBeEvaluated(parse: string -> Option<Value>, reply: Reply)
    ensures EvaluateChoice(parse, ScenarioToValue(FallbackScenario), reply).Some?
  {
  }

  /**
   * A scenario generated from an empty response (the text defaults to "{}") carries no
   * `environment`, and evaluating any choice in it rejects instead of returning the
   * neutral result.
   */
  lemma EmptyReplyScenarioRejects(parse: string -> Option<Value>, freshId: string, reply: Reply)
    requires parse("{}") == Some(EmptyObject)
    ensures EvaluateChoice(parse, GenerateScenario(parse, Answered("", None), freshId), reply).None?
  {
    EmptyReplyScenario(parse, freshId);
    MissingEnvironmentRejects(parse, GenerateScenario(parse, Answered("", None), freshId), reply);
  }

  /** A scenario object with only the keys of an empty response makes every evaluation reject. */
  lemma MissingEnvironmentRejects(parse: string -> Option<Value>, scenario: Value, reply: Reply)
    requires scenario.Obj?
    requires scenario.fields.Keys == {"id", "turnCount", "estimatedDuration", "location"}
    ensures EvaluateChoice(parse, scenario, reply).None?
  {
    assert "environment" !in scenario.fields;
  }

  /** A game-over response with reason "Heatstroke" surfaces that reason unchanged. */
  lemma HeatstrokeReasonSurfaces(next: Value)
    ensures var data := Obj(map["isGameOver" := Bool(true), "gameOverReason" := Str("Heatstroke"),
                                "nextScenarioDescription" := next]);
      && ShapeEvaluation(data).Some?
      && ShapeEvaluation(data).value.gameOverReason == Str("Heatstroke")
      && ShapeEvaluation(data).value.isGameOver
      && ShapeEvaluation(data).value.nextScenarioPart.None?
  {
  }
}
