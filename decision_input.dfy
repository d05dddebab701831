/** The decision form: five fields the user edits, a validity rule, and the
    normalised context the form hands on when it is submitted. */
module DecisionInput {
  import opened Strings
  import opened Types
  import AnalyzeRoute

  /** The goal choices offered, in the order they are shown. */
  const Goals: seq<Goal> := [Career, Money, Health, Learning, Productivity, Relationships]

  /** The energy choices offered, in the order they are shown. */
  const EnergyLevels: seq<EnergyLevel> := [Low, Medium, High]

  /** Every goal and every energy level is offered exactly once. */
  lemma ChoicesComplete()
    ensures forall g: Goal :: g in Goals
    ensures forall e: EnergyLevel :: e in EnergyLevels
    ensures |Goals| == 6 && forall i, j :: 0 <= i < j < |Goals| ==> Goals[i] != Goals[j]
    ensures |EnergyLevels| == 3 && forall i, j :: 0 <= i < j < |EnergyLevels| ==> EnergyLevels[i] != EnergyLevels[j]
  {
    forall g: Goal ensures g in Goals {
      match g
      case Career => assert Goals[0] == g;
      case Money => assert Goals[1] == g;
      case Health => assert Goals[2] == g;
      case Learning => assert Goals[3] == g;
      case Productivity => assert Goals[4] == g;
      case Relationships => assert Goals[5] == g;
    }
    forall e: EnergyLevel ensures e in EnergyLevels {
      match e
      case Low => assert EnergyLevels[0] == e;
      case Medium => assert EnergyLevels[1] == e;
      case High => assert EnergyLevels[2] == e;
    }
  }

  /** The choices carry the JSON names in the order they are shown. */
  lemma ChoiceNames()
    ensures seq(|Goals|, i requires 0 <= i < |Goals| => Goals[i].Name())
         == ["career", "money", "health", "learning", "productivity", "relationships"]
    ensures seq(|EnergyLevels|, i requires 0 <= i < |EnergyLevels| => EnergyLevels[i].Name())
         == ["low", "medium", "high"]
  {
  }

  /** `isValid`: a question and a time available that are not all white
      space, and a chosen goal and energy level. The budget plays no part. */
  predicate IsValid(question: string, goal: Maybe<Goal>, timeAvailable: string, energyLevel: Maybe<EnergyLevel>)
  {
    Trim(question) != [] && goal.Some? && Trim(timeAvailable) != [] && energyLevel.Some?
  }

  /** The context `handleSubmit` emits, or None when the form is invalid and
      nothing is emitted: question and time available trimmed, and the
      budget trimmed, or absent when its trim is empty. */
  function Submitted(question: string, goal: Maybe<Goal>, timeAvailable: string, budget: string,
                     energyLevel: Maybe<EnergyLevel>): (r: Maybe<DecisionContext>)
    ensures r.Some? <==> IsValid(question, goal, timeAvailable, energyLevel)
  {
    if !IsValid(question, goal, timeAvailable, energyLevel) then None
    else
      Some(DecisionContext(Trim(question), goal.value, Trim(timeAvailable),
                           if Trim(budget) == [] then None else Some(Trim(budget)),
                           energyLevel.value))
  }

  /** The form is valid exactly when the question and the time available each
      hold a character other than white space and both choices are made. */
  lemma ValidIff(question: string, goal: Maybe<Goal>, timeAvailable: string, energyLevel: Maybe<EnergyLevel>)
    ensures IsValid(question, goal, timeAvailable, energyLevel) <==>
      && (exists i :: 0 <= i < |question| && !IsSpace(question[i]))
      && goal.Some?
      && (exists i :: 0 <= i < |timeAvailable| && !IsSpace(timeAvailable[i]))
      && energyLevel.Some?
  {
    TrimEmpty(question);
    TrimEmpty(timeAvailable);
  }

  /** What is emitted is the typed text trimmed: question and time available
      are the trims of what was typed, not empty and their own trims; the
      budget is the trim of what was typed, absent exactly when that trim is
      empty, that is when the budget typed is blank. */
  lemma SubmittedIsNormalised(question: string, goal: Maybe<Goal>, timeAvailable: string, budget: string,
                              energyLevel: Maybe<EnergyLevel>)
    requires Submitted(question, goal, timeAvailable, budget, energyLevel).Some?
    ensures var c := Submitted(question, goal, timeAvailable, budget, energyLevel).value;
      && c.question == Trim(question) && c.timeAvailable == Trim(timeAvailable)
      && c.budget == (if Trim(budget) == [] then None else Some(Trim(budget)))
      && c.question != [] && Trim(c.question) == c.question
      && c.timeAvailable != [] && Trim(c.timeAvailable) == c.timeAvailable
      && (c.budget.None? <==> forall i :: 0 <= i < |budget| ==> IsSpace(budget[i]))
      && (c.budget.Some? ==> c.budget.value != [] && Trim(c.budget.value) == c.budget.value)
      && Some(c.goal) == goal && Some(c.energyLevel) == energyLevel
  {
    TrimIdempotent(question);
    TrimIdempotent(timeAvailable);
    TrimIdempotent(budget);
    TrimEmpty(budget);
  }

  /** Submitting a form filled in with an already normalised context gives
      that context back. */
  lemma SubmitNormalisedRoundTrip(c: DecisionContext)
    requires c.question != [] && !IsSpace(c.question[0]) && !IsSpace(c.question[|c.question| - 1])
    requires c.timeAvailable != [] && !IsSpace(c.timeAvailable[0]) && !IsSpace(c.timeAvailable[|c.timeAvailable| - 1])
    requires c.budget.Some? ==>
      c.budget.value != [] && !IsSpace(c.budget.value[0]) && !IsSpace(c.budget.value[|c.budget.value| - 1])
    ensures Submitted(c.question, Some(c.goal), c.timeAvailable,
                      if c.budget.Some? then c.budget.value else "", Some(c.energyLevel)) == Some(c)
  {
    TrimUntouched(c.question);
    TrimUntouched(c.timeAvailable);
    if c.budget.Some? {
      TrimUntouched(c.budget.value);
    } else {
      assert Trim("") == "";
    }
  }

  /** Every context the form emits has the four fields the endpoint
      requires, each present and non-empty. */
  lemma EmittedHasRequiredFields(c: DecisionContext)
    requires c.question != [] && c.timeAvailable != []
    ensures AnalyzeRoute.HasRequiredFields(ToJson(c))
  {
    assert c.goal.Name() != [];
    assert c.energyLevel.Name() != [];
  }

  /** Every context the form emits passes the endpoint's required-field
      check, so the endpoint never answers it with 400. */
  lemma EmittedPassesServerCheck(question: string, goal: Maybe<Goal>, timeAvailable: string, budget: string,
                                 energyLevel: Maybe<EnergyLevel>, apiKey: string,
                                 complete: string -> AnalyzeRoute.Reply, parse: string -> AnalyzeRoute.Parsed,
                                 id: string, createdAt: string)
    requires Submitted(question, goal, timeAvailable, budget, energyLevel).Some?
    ensures var c := Submitted(question, goal, timeAvailable, budget, energyLevel).value;
      AnalyzeRoute.Analyze(Some(ToJson(c)), apiKey, complete, parse, id, createdAt)
      != AnalyzeRoute.Status400(AnalyzeRoute.MissingFields)
  {
    var c := Submitted(question, goal, timeAvailable, budget, energyLevel).value;
    SubmittedIsNormalised(question, goal, timeAvailable, budget, energyLevel);
    EmittedHasRequiredFields(c);
  }

  /** The form component: its five fields change one at a time as the user
      types or picks, and submitting reads them without changing them. */
  class DecisionForm {
    var question: string
    var goal: Maybe<Goal>          // None while no goal is picked ("")
    var timeAvailable: string
    var budget: string
    var energyLevel: Maybe<EnergyLevel>

    /** A fresh form: every text empty and nothing picked. */
    constructor()
      ensures question == "" && goal.None? && timeAvailable == "" && budget == "" && energyLevel.None?
    {
      question := "";
      goal := None;
      timeAvailable := "";
      budget := "";
      energyLevel := None;
    }

    /** The form's current validity. */
    predicate IsValidForm()
      reads this
    {
      IsValid(question, goal, timeAvailable, energyLevel)
    }

    /** `setQuestion`, from typing or from an example question. */
    method SetQuestion(q: string)
      modifies this
      ensures question == q
      ensures goal == old(goal) && timeAvailable == old(timeAvailable)
      ensures budget == old(budget) && energyLevel == old(energyLevel)
    {
      question := q;
    }

    /** `setGoal`, from a goal button. */
    method SetGoal(g: Goal)
      modifies this
      ensures goal == Some(g)
      ensures question == old(question) && timeAvailable == old(timeAvailable)
      ensures budget == old(budget) && energyLevel == old(energyLevel)
    {
      goal := Some(g);
    }

    /** `setTimeAvailable`. */
    method SetTimeAvailable(t: string)
      modifies this
      ensures timeAvailable == t
      ensures question == old(question) && goal == old(goal)
      ensures budget == old(budget) && energyLevel == old(energyLevel)
    {
      timeAvailable := t;
    }

    /** `setBudget`: changing the budget never changes validity. */
    method SetBudget(b: string)
      modifies this
      ensures budget == b
      ensures question == old(question) && goal == old(goal)
      ensures timeAvailable == old(timeAvailable) && energyLevel == old(energyLevel)
      ensures IsValidForm() == old(IsValidForm())
    {
      budget := b;
    }

    /** `setEnergyLevel`, from an energy button. */
    method SetEnergyLevel(e: EnergyLevel)
      modifies this
      ensures energyLevel == Some(e)
      ensures question == old(question) && goal == old(goal)
      ensures timeAvailable == old(timeAvailable) && budget == old(budget)
    {
      energyLevel := Some(e);
    }

    /** `handleSubmit`: emits nothing when the form is invalid, and the
      normalised context otherwise; the fields are left as they are. */
    method HandleSubmit() returns (emitted: Maybe<DecisionContext>)
      ensures emitted.Some? <==> IsValidForm()
      ensures emitted == Submitted(question, goal, timeAvailable, budget, energyLevel)
    {
      if !IsValid(question, goal, timeAvailable, energyLevel) {
        return None;
      }
      var b: Maybe<string> := if Trim(budget) == [] then None else Some(Trim(budget));
      emitted := Some(DecisionContext(Trim(question), goal.value, Trim(timeAvailable), b, energyLevel.value));
    }
  }
}
