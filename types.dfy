/** The records of the application: the context a user describes, the
    options offered for it and the result that gathers them. */
module Types {
  import opened Strings

  /** The user's primary goal: exactly six named values. */
  datatype Goal = Career | Money | Health | Learning | Productivity | Relationships
  {
    /** The string that stands for the goal in JSON. */
    function Name(): (s: string)
      ensures s in {"career", "money", "health", "learning", "productivity", "relationships"}
    {
      match this
      case Career => "career"
      case Money => "money"
      case Health => "health"
      case Learning => "learning"
      case Productivity => "productivity"
      case Relationships => "relationships"
    }
  }

  /** The user's energy level: exactly low, medium or high. */
  datatype EnergyLevel = Low | Medium | High
  {
    /** The string that stands for the energy level in JSON. */
    function Name(): (s: string)
      ensures s in {"low", "medium", "high"}
    {
      match this
      case Low => "low"
      case Medium => "medium"
      case High => "high"
    }
  }

  /** Different goals have different names, and so do energy levels. */
  lemma NamesDistinct(g1: Goal, g2: Goal, e1: EnergyLevel, e2: EnergyLevel)
    ensures g1.Name() == g2.Name() ==> g1 == g2
    ensures e1.Name() == e2.Name() ==> e1 == e2
  {
  }

  /** A decision and the situation it is taken in. The budget is the only
      field that may be left out. */
  datatype DecisionContext = DecisionContext(
    question: string,
    goal: Goal,
    timeAvailable: string,
    budget: Maybe<string>,
    energyLevel: EnergyLevel)

  /** The same record as the server reads it from a JSON request body:
      nothing checks the body against the declared types, so each field is
      some text or missing, and goal and energy level are free text. */
  datatype ContextJson = ContextJson(
    question: Maybe<string>,
    goal: Maybe<string>,
    timeAvailable: Maybe<string>,
    budget: Maybe<string>,
    energyLevel: Maybe<string>)

  /** The JSON form of a context: a missing budget is left out. */
  function ToJson(c: DecisionContext): ContextJson
  {
    ContextJson(Some(c.question), Some(c.goal.Name()), Some(c.timeAvailable), c.budget, Some(c.energyLevel.Name()))
  }

  /** Nothing is lost in the JSON form: different contexts stay different. */
  lemma ToJsonInjective(c1: DecisionContext, c2: DecisionContext)
    requires ToJson(c1) == ToJson(c2)
    ensures c1 == c2
  {
    NamesDistinct(c1.goal, c2.goal, c1.energyLevel, c2.energyLevel);
  }

  /** One course of action: its pros and cons in order, and its impact in
      the short and in the long term. */
  datatype Option = Option(
    title: string,
    description: string,
    pros: seq<string>,
    cons: seq<string>,
    shortTermScore: int,
    longTermScore: int)

  /** Both impact scores lie on the 1 to 10 scale. */
  predicate ScoresInRange(o: Option)
  {
    1 <= o.shortTermScore <= 10 && 1 <= o.longTermScore <= 10
  }

  /** The answer to one decision, carrying the context it was asked in. */
  datatype DecisionResult = DecisionResult(
    id: string,
    question: string,
    context: ContextJson,
    options: seq<Option>,
    recommendedIndex: int,
    explanation: string,
    createdAt: string)
}
