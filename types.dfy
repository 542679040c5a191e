/**
 * The records of the game (types.ts) as datatypes, and the encoding of a scenario as the
 * JavaScript object the service returns.
 */
module Types {
  import opened Wrappers
  import opened JsValues

  datatype Choice = Choice(id: string, text: string)

  datatype Inventory = Inventory(onPerson: seq<string>, inPack: seq<string>, atCampOrVehicle: seq<string>)

  /** The five scored categories of `ScoreBreakdown` (types.ts); a `Partial<ScoreBreakdown>` is a map over them. */
  datatype Category = Navigation | Weather | GroupSafety | RiskManagement | Timing

  type Deltas = map<Category, int>

  datatype Theme = Normal | Night | Heat {
    /** The literal that names the theme in a scenario record. */
    function Name(): string {
      match this
      case Normal => "normal"
      case Night => "night"
      case Heat => "heat"
    }
  }

  datatype Visibility = Good | Fair | Poor {
    function Name(): string {
      match this
      case Good => "Good"
      case Fair => "Fair"
      case Poor => "Poor"
    }
  }

  datatype SignalStrength = NoSignal | Weak | Strong {
    function Name(): string {
      match this
      case NoSignal => "None"
      case Weak => "Weak"
      case Strong => "Strong"
    }
  }

  datatype Location = Location(
    name: string, lat: real, lng: real, terrainType: string, mapUrl: Option<string>)

  datatype Environment = Environment(
    timeOfDay: string, weather: string, temperature: string,
    visibility: Visibility, signalStrength: SignalStrength, distanceFromSafety: string)

  datatype Scenario = Scenario(
    id: string,
    title: string,
    description: string,
    theme: Theme,
    location: Location,
    environment: Environment,
    inventory: Inventory,
    choices: seq<Choice>,
    turnCount: int,
    estimatedDuration: int)

  /** One completed turn, as the game keeps it in its history. */
  datatype HistoryEntry = HistoryEntry(
    scenarioDescription: string, choice: string, outcome: string, scoreDeltas: Deltas)

  datatype Role = User | Model {
    function Name(): string {
      match this
      case User => "user"
      case Model => "model"
    }
  }

  datatype ChatMessage = ChatMessage(role: Role, text: string)

  /**
   * The `nextScenarioPart` of an evaluation: the parsed response's description and
   * choices, passed on as they came.
   */
  datatype ScenarioPart = ScenarioPart(description: Value, choices: Value)

  /**
   * The result of evaluating a choice. The fields copied from the parsed response keep
   * the value the response held, whatever its type; `isGameOver` is coerced to a boolean.
   */
  datatype EvaluationResult = EvaluationResult(
    outcomeText: Value,
    scoreDeltas: Value,
    isGameOver: bool,
    gameOverReason: Value,
    nextScenarioPart: Option<ScenarioPart>)

  // ---------------------------------------------------------------------------
  // Scenarios as JavaScript objects

  function StringList(items: seq<string>): Value {
    Arr(seq(|items|, i requires 0 <= i < |items| => Str(items[i])))
  }

  function ChoiceToValue(c: Choice): Value {
    Obj(map["id" := Str(c.id), "text" := Str(c.text)])
  }

  function LocationToValue(l: Location): Value {
    var base := map["name" := Str(l.name), "lat" := Num(l.lat), "lng" := Num(l.lng),
                     "terrainType" := Str(l.terrainType)];
    match l.mapUrl
    case None => Obj(base)
    case Some(u) => Obj(base["mapUrl" := Str(u)])
  }

  function EnvironmentToValue(e: Environment): Value {
    Obj(map["timeOfDay" := Str(e.timeOfDay), "weather" := Str(e.weather),
            "temperature" := Str(e.temperature), "visibility" := Str(e.visibility.Name()),
            "signalStrength" := Str(e.signalStrength.Name()),
            "distanceFromSafety" := Str(e.distanceFromSafety)])
  }

  function InventoryToValue(inv: Inventory): Value {
    Obj(map["onPerson" := StringList(inv.onPerson), "inPack" := StringList(inv.inPack),
            "atCampOrVehicle" := StringList(inv.atCampOrVehicle)])
  }

  /** The object literal a `Scenario` is written as. */
  function ScenarioToValue(s: Scenario): Value {
    Obj(map[
      "id" := Str(s.id),
      "title" := Str(s.title),
      "description" := Str(s.description),
      "theme" := Str(s.theme.Name()),
      "location" := LocationToValue(s.location),
      "environment" := EnvironmentToValue(s.environment),
      "inventory" := InventoryToValue(s.inventory),
      "choices" := Arr(seq(|s.choices|, i requires 0 <= i < |s.choices| => ChoiceToValue(s.choices[i]))),
      "turnCount" := Num(s.turnCount as real),
      "estimatedDuration" := Num(s.estimatedDuration as real)])
  }
}
