/** The `POST /api/analyze` endpoint: it checks the required fields of the
    submitted context, asks a chat-completion model for an analysis when an
    API key is configured, and falls back to a fixed, rule-based analysis
    when there is no key or the model's answer cannot be used.

    The outside world is a set of parameters: the configured key (empty when
    unset), the outcome of the completion call as a function of the prompt
    sent, the outcome of `JSON.parse` as a function of the text parsed, and
    the fresh identifier and timestamp. */
module AnalyzeRoute {
  import opened Strings
  import opened Types

  const MissingFields := "Missing required fields"
  const AnalysisFailed := "Failed to analyze decision"

  /** The part of a result that the model, or the fallback, supplies. */
  datatype Analysis = Analysis(options: seq<Option>, recommendedIndex: int, explanation: string)

  /** What the call to the completion endpoint came to. */
  datatype Reply =
    | Threw                             // the request threw, a response body was not JSON, or a 2xx body had no `choices` array
    | NotOk                             // a status outside 200-299; its error body was read
    | Answered(content: Maybe<string>)  // `choices[0]?.message?.content` of a 2xx answer

  /** What `JSON.parse` made of the cleaned answer. */
  datatype Parsed =
    | Unparseable                       // it threw
    | NullValue                         // the text was `null`
    | Value(analysis: Analysis)         // an object of the analysis shape; other non-null values are not modelled

  /** The HTTP answer of the endpoint. */
  datatype Response =
    | Status200(result: DecisionResult)
    | Status400(error: string)
    | Status500(error: string)

  const Undefined := "undefined"

  /** A template literal renders a missing value as "undefined". */
  function Interp(m: Maybe<string>): string
  {
    if m.Some? then m.value else Undefined
  }

  /** JavaScript truthiness of a string that may be missing. */
  predicate Truthy(m: Maybe<string>)
  {
    m.Some? && m.value != ""
  }

  // ---------------------------------------------------------------- validation

  /** The guard of the endpoint: question, goal, time available and energy
      level must each be present and non-empty. */
  predicate HasRequiredFields(c: ContextJson)
  {
    Truthy(c.question) && Truthy(c.goal) && Truthy(c.timeAvailable) && Truthy(c.energyLevel)
  }

  /** The budget plays no part in the guard, nothing is trimmed (a question
      of blanks passes), and nothing checks that goal and energy level are
      among the named values. */
  lemma GuardIgnoresBudgetAndBlanks(c: ContextJson, budget: Maybe<string>)
    ensures HasRequiredFields(c) <==> HasRequiredFields(c.(budget := budget))
    ensures HasRequiredFields(ContextJson(Some(" "), Some("fame"), Some(" "), None, Some("extreme")))
    ensures !HasRequiredFields(c.(question := Some(""))) && !HasRequiredFields(c.(question := None))
    ensures !HasRequiredFields(c.(goal := Some(""))) && !HasRequiredFields(c.(goal := None))
    ensures !HasRequiredFields(c.(timeAvailable := Some(""))) && !HasRequiredFields(c.(timeAvailable := None))
    ensures !HasRequiredFields(c.(energyLevel := Some(""))) && !HasRequiredFields(c.(energyLevel := None))
  {
  }

  // ---------------------------------------------------------------- prompt

  // The fixed text of the per-request prompt, line by line.
  const DecisionTag := "DECISION: "
  const ContextHeader := "CONTEXT:"
  const GoalTag := "- Primary Goal: "
  const TimeTag := "- Time Available: "
  const EnergyTag := "- Energy Level: "
  const BudgetTag := "- Budget: "
  const NoBudget := BudgetTag + "Not a concern"
  const AnalyzeThis := "Analyze this decision and provide "
  const TwoOrThree := "2-3 options with your recommendation."
  const Closing := AnalyzeThis + TwoOrThree

  /** The budget line: the budget when it is truthy, "Not a concern" otherwise. */
  function BudgetLine(budget: Maybe<string>): string
  {
    if Truthy(budget) then BudgetTag + budget.value else NoBudget
  }

  /** The lines of the per-request prompt. */
  function PromptLines(c: ContextJson): seq<string>
  {
    [ DecisionTag + Interp(c.question),
      "",
      ContextHeader,
      GoalTag + Interp(c.goal),
      TimeTag + Interp(c.timeAvailable),
      EnergyTag + Interp(c.energyLevel),
      BudgetLine(c.budget),
      "",
      Closing ]
  }

  /** `buildUserPrompt`: the prompt sent to the model beside the fixed system prompt. */
  function BuildUserPrompt(c: ContextJson): string
  {
    Join(PromptLines(c), '\n')
  }

  /** None of the fixed text of the prompt holds a line break. */
  lemma PromptTagsSingleLine()
    ensures '\n' !in DecisionTag && '\n' !in ContextHeader && '\n' !in GoalTag
    ensures '\n' !in TimeTag && '\n' !in EnergyTag && '\n' !in BudgetTag && '\n' !in NoBudget
  {
  }

  /** The closing line of the prompt holds no line break. */
  lemma ClosingSingleLine()
    ensures '\n' !in Closing
  {
    assert '\n' !in AnalyzeThis;
    assert '\n' !in TwoOrThree;
  }

  /** When goal, time available, energy level and budget hold no line
      breaks, the prompt reads back line by line: the question, which may
      span several lines, comes first after "DECISION: ", and the last eight
      lines are a blank line, the context header, one line per field with
      the field verbatim after its tag, the budget line ("Not a concern"
      unless a non-empty budget was given), a blank line and the request.
      A single-line question makes nine lines in all. */
  lemma PromptReadsBack(c: ContextJson)
    requires '\n' !in Interp(c.goal)
    requires '\n' !in Interp(c.timeAvailable) && '\n' !in Interp(c.energyLevel)
    requires '\n' !in Interp(c.budget)
    ensures var lines := Split(BuildUserPrompt(c), '\n');
      var k := |lines| - 8;
      && k >= 1
      && Join(lines[..k], '\n') == DecisionTag + Interp(c.question)
      && lines[k..] == ["", ContextHeader, GoalTag + Interp(c.goal), TimeTag + Interp(c.timeAvailable),
                        EnergyTag + Interp(c.energyLevel),
                        if c.budget.Some? && c.budget.value != "" then BudgetTag + c.budget.value else NoBudget,
                        "", Closing]
      && ('\n' !in Interp(c.question) ==> k == 1 && lines[0] == DecisionTag + Interp(c.question))
  {
    PromptSplit(c);
    PromptTail(c);
    var first := DecisionTag + Interp(c.question);
    var head := Split(first, '\n');
    var rest := PromptLines(c)[1..];
    var lines := Split(BuildUserPrompt(c), '\n');
    assert lines == head + rest && |rest| == 8;
    assert lines[..|head|] == head && lines[|head|..] == rest;
    JoinSplit(first, '\n');
    if '\n' !in first {
      SplitNoSeparator(first, '\n');
    }
  }

  /** The eight lines after the first. */
  lemma PromptTail(c: ContextJson)
    ensures PromptLines(c)[1..]
         == ["", ContextHeader, GoalTag + Interp(c.goal), TimeTag + Interp(c.timeAvailable),
             EnergyTag + Interp(c.energyLevel),
             if c.budget.Some? && c.budget.value != "" then BudgetTag + c.budget.value else NoBudget,
             "", Closing]
  {
  }

  /** The lines of the prompt are those of its first line, which may hold
      line breaks, followed by the eight single lines after it. */
  lemma PromptSplit(c: ContextJson)
    requires '\n' !in Interp(c.goal)
    requires '\n' !in Interp(c.timeAvailable) && '\n' !in Interp(c.energyLevel)
    requires '\n' !in Interp(c.budget)
    ensures Split(BuildUserPrompt(c), '\n') == Split(DecisionTag + Interp(c.question), '\n') + PromptLines(c)[1..]
  {
    PromptTagsSingleLine();
    ClosingSingleLine();
    var all := PromptLines(c);
    var rest := all[1..];
    assert forall p :: p in rest ==> '\n' !in p;
    assert BuildUserPrompt(c) == all[0] + ['\n'] + Join(rest, '\n');
    SplitAppend(all[0], '\n', Join(rest, '\n'));
    SplitJoin(rest, '\n');
  }

  // ---------------------------------------------------------------- fallback

  // Each fallback title is "<tag>: <words>".
  const TagA := "Option A"
  const TagB := "Option B"
  const TagC := "Option C"
  const WordsA := "Take action now"
  const WordsB := "Delay for more information"
  const WordsC := "Hybrid approach"
  const TitleA := TagA + ": " + WordsA
  const TitleB := TagB + ": " + WordsB
  const TitleC := TagC + ": " + WordsC

  // The text of option A that does not depend on the context.
  const DescriptionA := "Move forward with the first choice that aligns with your immediate needs."
  const FixedProsA := ["Immediate progress", "Builds momentum"]
  const ConsA := ["Less time to consider alternatives", "May miss better opportunities"]
  const MatchesYour := "Matches your "
  const EnergyLevelWords := " energy level"

  /** The first fallback option; its third pro names the energy level. */
  function OptionA(energy: Maybe<string>): Option
  {
    Option(TitleA, DescriptionA, FixedProsA + [MatchesYour + Interp(energy) + EnergyLevelWords], ConsA, 8, 6)
  }

  const OptionB := Option(TitleB,
    "Take time to gather more context before making a final decision.",
    ["More informed decision", "Reduces risk of regret", "Allows for better preparation"],
    ["Opportunity cost of waiting", "Analysis paralysis risk"],
    5, 7)

  const OptionC := Option(TitleC,
    "Start with a small commitment while keeping options open.",
    ["Balanced approach", "Flexibility maintained", "Learn through action"],
    ["Divided focus", "May take longer overall"],
    7, 8)

  /** The three fixed options. */
  function FallbackOptions(energy: Maybe<string>): seq<Option>
  {
    [OptionA(energy), OptionB, OptionC]
  }

  /** The fallback's choice: option A for high energy, option B for low
      energy, option C for anything else, a missing level included. */
  function FallbackIndex(energy: Maybe<string>): int
  {
    if energy == Some("high") then 0 else if energy == Some("low") then 1 else 2
  }

  /** `title.split(":")[1].trim().toLowerCase()`. */
  function ChosenPhrase(title: string): string
    requires ':' in title
  {
    ToLower(Trim(Split(title, ':')[1]))
  }

  // The fixed text of the fallback explanation.
  const GivenYour := "Given your "
  const FocusOn := "focus on "
  const BestApproach := " is the best approach. This balances your available time "
  const ClosingWords := " with meaningful progress toward your goal."

  /** The fallback explanation around the phrase naming the chosen option. */
  function Explain(c: ContextJson, phrase: string): string
  {
    GivenYour + Interp(c.energyLevel) + EnergyLevelWords + " and " + FocusOn + Interp(c.goal) + ", "
    + phrase + BestApproach + "(" + Interp(c.timeAvailable) + ")" + ClosingWords
  }

  /** The fallback explanation for the option at `index`. */
  function MockExplanation(c: ContextJson, index: int): string
    requires 0 <= index < 3
  {
    var title := FallbackOptions(c.energyLevel)[index].title;
    assert title[8] == ':';
    Explain(c, ChosenPhrase(title))
  }

  /** `getMockResponse`: the analysis used when the model is not configured
      or its answer cannot be used. */
  function GetMockResponse(c: ContextJson): Analysis
  {
    var index := FallbackIndex(c.energyLevel);
    Analysis(FallbackOptions(c.energyLevel), index, MockExplanation(c, index))
  }

  /** Three pros, two cons and both scores on the 1 to 10 scale. */
  predicate WellShaped(o: Option)
  {
    |o.pros| == 3 && |o.cons| == 2 && ScoresInRange(o)
  }

  /** Each fallback option is well shaped and carries its own title and
      its fixed (short-term, long-term) scores: (8, 6), (5, 7) and (7, 8). */
  lemma FallbackOptionsShape(energy: Maybe<string>)
    ensures |FallbackOptions(energy)| == 3
    ensures forall o :: o in FallbackOptions(energy) ==> WellShaped(o)
    ensures FallbackOptions(energy)[0].title == TitleA
    ensures FallbackOptions(energy)[1].title == TitleB
    ensures FallbackOptions(energy)[2].title == TitleC
    ensures FallbackOptions(energy)[0].shortTermScore == 8 && FallbackOptions(energy)[0].longTermScore == 6
    ensures FallbackOptions(energy)[1].shortTermScore == 5 && FallbackOptions(energy)[1].longTermScore == 7
    ensures FallbackOptions(energy)[2].shortTermScore == 7 && FallbackOptions(energy)[2].longTermScore == 8
  {
    assert WellShaped(OptionA(energy)) && WellShaped(OptionB) && WellShaped(OptionC);
  }

  /** The fallback always offers three well-shaped options and recommends
      one of them: option A for high energy, option B for low energy and
      option C otherwise. */
  lemma FallbackShape(c: ContextJson)
    ensures GetMockResponse(c).options == FallbackOptions(c.energyLevel)
    ensures |GetMockResponse(c).options| == 3
    ensures forall o :: o in GetMockResponse(c).options ==> WellShaped(o)
    ensures GetMockResponse(c).recommendedIndex ==
      if c.energyLevel == Some("high") then 0 else if c.energyLevel == Some("low") then 1 else 2
  {
    FallbackOptionsShape(c.energyLevel);
  }

  /** A title "<tag>: <words>" splits at its one colon. */
  lemma SplitTitle(tag: string, words: string)
    requires ':' !in tag && ':' !in words
    ensures Split(tag + ": " + words, ':') == [tag, " " + words]
  {
    assert tag + ": " + words == Join([tag, " " + words], ':');
    SplitJoin([tag, " " + words], ':');
  }

  /** Trimming drops the single space in front of words that have no
      white space at either end. */
  lemma TrimLeadingSpace(words: string)
    requires words != [] && !IsSpace(words[0]) && !IsSpace(words[|words| - 1])
    ensures Trim(" " + words) == words
  {
    assert TrimStart(" " + words) == words by {
      assert (" " + words)[1..] == words;
    }
    TrimUntouched(words);
  }

  /** A title "<tag>: <words>" yields its words, lower-cased. */
  lemma PhraseOf(tag: string, words: string)
    requires ':' !in tag && ':' !in words && words != []
    requires !IsSpace(words[0]) && !IsSpace(words[|words| - 1])
    ensures ':' in tag + ": " + words
    ensures ChosenPhrase(tag + ": " + words) == ToLower(words)
  {
    var title := tag + ": " + words;
    assert title[|tag|] == ':';
    SplitTitle(tag, words);
    var piece := Split(title, ':')[1];
    assert piece == " " + words;
    TrimLeadingSpace(words);
    assert Trim(piece) == words;
  }

  /** Option A's explanation phrase is its title's words, lower-cased. */
  lemma ChosenPhraseA()
    ensures ':' in TitleA && ChosenPhrase(TitleA) == ToLower(WordsA)
  {
    assert ':' !in TagA && ':' !in WordsA;
    PhraseOf(TagA, WordsA);
  }

  /** Option B's explanation phrase is its title's words, lower-cased. */
  lemma ChosenPhraseB()
    ensures ':' in TitleB && ChosenPhrase(TitleB) == ToLower(WordsB)
  {
    assert ':' !in TagB && ':' !in WordsB;
    PhraseOf(TagB, WordsB);
  }

  /** Option C's explanation phrase is its title's words, lower-cased. */
  lemma ChosenPhraseC()
    ensures ':' in TitleC && ChosenPhrase(TitleC) == ToLower(WordsC)
  {
    assert ':' !in TagC && ':' !in WordsC;
    PhraseOf(TagC, WordsC);
  }

  /** The fallback explanation names the energy level, the goal, the
      lower-cased words of the chosen option's title and the time available. */
  lemma FallbackExplanation(c: ContextJson)
    ensures c.energyLevel == Some("high") ==> GetMockResponse(c).explanation == Explain(c, ToLower(WordsA))
    ensures c.energyLevel == Some("low") ==> GetMockResponse(c).explanation == Explain(c, ToLower(WordsB))
    ensures c.energyLevel != Some("high") && c.energyLevel != Some("low") ==>
      GetMockResponse(c).explanation == Explain(c, ToLower(WordsC))
  {
    FallbackOptionsShape(c.energyLevel);
    var title := FallbackOptions(c.energyLevel)[FallbackIndex(c.energyLevel)].title;
    match FallbackIndex(c.energyLevel)
    case 0 =>
      ChosenPhraseA();
      assert ChosenPhrase(title) == ToLower(WordsA);
    case 1 =>
      ChosenPhraseB();
      assert ChosenPhrase(title) == ToLower(WordsB);
    case 2 =>
      ChosenPhraseC();
      assert ChosenPhrase(title) == ToLower(WordsC);
  }

  /** The fallback depends on the context only through the energy level,
      the goal and the time available, and its options and choice only
      through the energy level. */
  lemma FallbackDeterministic(c1: ContextJson, c2: ContextJson)
    ensures c1.energyLevel == c2.energyLevel ==>
      GetMockResponse(c1).options == GetMockResponse(c2).options
      && GetMockResponse(c1).recommendedIndex == GetMockResponse(c2).recommendedIndex
    ensures c1.energyLevel == c2.energyLevel && c1.goal == c2.goal && c1.timeAvailable == c2.timeAvailable ==>
      GetMockResponse(c1) == GetMockResponse(c2)
  {
  }

  /** Only the third pro of option A varies: every other text and every
      score is the same whatever the energy level. */
  lemma FallbackFixedText(e1: Maybe<string>, e2: Maybe<string>)
    ensures OptionA(e1).(pros := []) == OptionA(e2).(pros := [])
    ensures OptionA(e1).pros[..2] == OptionA(e2).pros[..2]
    ensures FallbackOptions(e1)[1..] == FallbackOptions(e2)[1..] == [OptionB, OptionC]
  {
  }

  // ---------------------------------------------------------------- cleanup

  /** Strips the code fences the model may wrap its JSON in: every "```json"
      with an optional newline, then every "```" with an optional newline,
      then surrounding white space. */
  function CleanContent(content: string): (r: string)
    ensures FenceFree(r)
    ensures r == [] || (!IsSpace(r[0]) && !IsSpace(r[|r| - 1]))
  {
    var unfenced := RemoveAll(RemoveAll(content, "```json"), "```");
    RemoveFencesLeavesNone(RemoveAll(content, "```json"));
    TrimKeepsFenceFree(unfenced);
    Trim(unfenced)
  }

  /** Fence-free text holds no match of a pattern opening with a fence. */
  lemma FenceFreeNoMatch(s: string, pat: string)
    requires FenceFree(s)
    requires |pat| >= 3 && pat[0] == '`' && pat[1] == '`' && pat[2] == '`'
    ensures RemoveAll(s, pat) == s
  {
    forall i | 0 <= i < |s|
      ensures !MatchAt(s, pat, i)
    {
      assert !FenceAt(s, i);
      if i + 3 <= |s| {
        assert s[i] != '`' || s[i + 1] != '`' || s[i + 2] != '`';
      }
    }
    assert s + [] == s;
    RemoveAllSkipsNoMatch(s, [], pat);
  }

  /** Fence-free text without surrounding white space is left as it is;
      single backticks in it are kept. */
  lemma CleanLeavesPlainText(s: string)
    requires FenceFree(s)
    requires s == [] || (!IsSpace(s[0]) && !IsSpace(s[|s| - 1]))
    ensures CleanContent(s) == s
  {
    FenceFreeNoMatch(s, "```json");
    FenceFreeNoMatch(s, "```");
    TrimUntouched(s);
  }

  /** A trailing line break is trimmed away. */
  lemma TrimTrailingNewline(j: string)
    requires j == [] || (!IsSpace(j[0]) && !IsSpace(j[|j| - 1]))
    ensures Trim(j + "\n") == j
  {
    var s := j + "\n";
    if j == [] {
      assert TrimStart(s) == [];
    } else {
      assert TrimStart(s) == s;
      assert s[..|s| - 1] == j;
      assert TrimEnd(s) == TrimEnd(j);
    }
  }

  /** No match of a pattern opening with a fence starts in a fence-free
      text or at the line break after it. */
  lemma NoMatchBeforeClosingFence(j: string, pat: string)
    requires FenceFree(j)
    requires |pat| >= 3 && pat[0] == '`' && pat[1] == '`' && pat[2] == '`'
    ensures NoMatchBefore(j + "\n" + "```", pat, |j + "\n"|)
  {
    var s := j + "\n" + "```";
    forall i | 0 <= i < |j| + 1
      ensures !MatchAt(s, pat, i)
    {
      if i + 3 <= |j| {
        assert !FenceAt(j, i);
        assert s[i] != '`' || s[i + 1] != '`' || s[i + 2] != '`';
      } else {
        assert s[i..][|j| - i] == '\n';
      }
    }
  }

  /** The first pass leaves a closing fence after fence-free text. */
  lemma ClosingFenceKept(j: string)
    requires FenceFree(j)
    ensures RemoveAll(j + "\n```", "```json") == j + "\n```"
  {
    NoMatchBeforeClosingFence(j, "```json");
    RemoveAllSkipsNoMatch(j + "\n", "```", "```json");
    assert j + "\n" + "```" == j + "\n```";
    RemoveAllShort("```", "```json");
  }

  /** The first pass deletes an opening "```json" fence with its newline. */
  lemma TaggedFirstPass(j: string)
    requires FenceFree(j)
    ensures RemoveAll("```json\n" + j + "\n```", "```json") == j + "\n```"
  {
    assert "```json\n" + j + "\n```" == "```json" + "\n" + (j + "\n```");
    RemoveAllDropsMatch("```json", j + "\n```");
    ClosingFenceKept(j);
  }

  /** The first pass keeps an opening fence without the tag: its fourth
      character, a newline, is not the tag's `j`. */
  lemma PlainFirstPass(j: string)
    requires FenceFree(j)
    ensures RemoveAll("```\n" + j + "\n```", "```json") == "```\n" + j + "\n```"
  {
    var pat := "```json";
    var u := j + "\n```";
    var open := "```\n";
    forall i | 0 <= i < |open|
      ensures !MatchAt(open + u, pat, i)
    {
      assert (open + u)[i..][3 - i] == '\n';
    }
    RemoveAllSkipsNoMatch(open, u, pat);
    ClosingFenceKept(j);
    assert open + u == "```\n" + j + "\n```";
  }

  /** The second pass deletes the closing fence after fence-free text. */
  lemma ClosingFenceDropped(j: string)
    requires FenceFree(j)
    ensures RemoveAll(j + "\n```", "```") == j + "\n"
  {
    NoMatchBeforeClosingFence(j, "```");
    RemoveAllSkipsNoMatch(j + "\n", "```", "```");
    assert j + "\n" + "```" == j + "\n```";
    RemoveAllDropsMatch("```", []);
    assert "```" + [] == "```";
  }

  /** Both passes together strip a tagged fence down to its text and a newline. */
  lemma TaggedPasses(j: string)
    requires FenceFree(j)
    ensures RemoveAll(RemoveAll("```json\n" + j + "\n```", "```json"), "```") == j + "\n"
  {
    ClosingFenceDropped(j);
    TaggedFirstPass(j);
  }

  /** Both passes together strip an untagged fence down to its text and a newline. */
  lemma PlainPasses(j: string)
    requires FenceFree(j)
    ensures RemoveAll(RemoveAll("```\n" + j + "\n```", "```json"), "```") == j + "\n"
  {
    ClosingFenceDropped(j);
    PlainFirstPass(j);
    assert "```\n" + j + "\n```" == "```" + "\n" + (j + "\n```");
    RemoveAllDropsMatch("```", j + "\n```");
  }

  /** Content the two passes reduce to some text and a newline is cleaned
      down to that text. */
  lemma CleanedToLine(content: string, j: string)
    requires RemoveAll(RemoveAll(content, "```json"), "```") == j + "\n"
    requires j == [] || (!IsSpace(j[0]) && !IsSpace(j[|j| - 1]))
    ensures CleanContent(content) == j
  {
    TrimTrailingNewline(j);
  }

  /** An answer wrapped in a code fence, with or without the `json` tag,
      is cleaned down to what the fence holds. */
  lemma CleanUnwrapsFence(j: string)
    requires FenceFree(j)
    requires j == [] || (!IsSpace(j[0]) && !IsSpace(j[|j| - 1]))
    ensures CleanContent("```json\n" + j + "\n```") == j
    ensures CleanContent("```\n" + j + "\n```") == j
  {
    TaggedPasses(j);
    CleanedToLine("```json\n" + j + "\n```", j);
    PlainPasses(j);
    CleanedToLine("```\n" + j + "\n```", j);
  }

  // ---------------------------------------------------------------- POST

  /** The analysis `POST` builds up in `responseData`; None when an
      exception escapes to the endpoint's outer handler. */
  function ResponseData(c: ContextJson, apiKey: string, complete: string -> Reply, parse: string -> Parsed): Maybe<Analysis>
  {
    if apiKey == "" then Some(GetMockResponse(c))
    else
      match complete(BuildUserPrompt(c))
      case Threw => None
      case NotOk => Some(GetMockResponse(c))
      case Answered(content) =>
        if !Truthy(content) then Some(GetMockResponse(c))
        else
          match parse(CleanContent(content.value))
          case Unparseable => Some(GetMockResponse(c))
          case NullValue => None   // reading `responseData.options` then throws
          case Value(a) => Some(a)
  }

  /** The result object: the analysis wrapped with the identifier, the
      original question and context, and the creation time. */
  function Assemble(c: ContextJson, a: Analysis, id: string, createdAt: string): DecisionResult
    requires c.question.Some?
  {
    DecisionResult(id, c.question.value, c, a.options, a.recommendedIndex, a.explanation, createdAt)
  }

  /** The endpoint. `body` is the request's `context`, None when the body
      is not JSON or has no context. */
  function Analyze(body: Maybe<ContextJson>, apiKey: string, complete: string -> Reply,
                   parse: string -> Parsed, id: string, createdAt: string): (r: Response)
    ensures body.None? ==> r == Status500(AnalysisFailed)
    ensures body.Some? ==> (r == Status400(MissingFields) <==> !HasRequiredFields(body.value))
    ensures r.Status200? ==>
      && body.Some? && HasRequiredFields(body.value)
      && r.result.context == body.value && Some(r.result.question) == body.value.question
      && r.result.id == id && r.result.createdAt == createdAt
    ensures r.Status200? || r == Status400(MissingFields) || r == Status500(AnalysisFailed)
  {
    match body
    case None => Status500(AnalysisFailed)
    case Some(c) =>
      if !HasRequiredFields(c) then Status400(MissingFields)
      else
        match ResponseData(c, apiKey, complete, parse)
        case None => Status500(AnalysisFailed)
        case Some(a) => Status200(Assemble(c, a, id, createdAt))
  }

  /** The answer is unusable: no key, a non-2xx status, no content, or
      content that does not parse. */
  predicate Unusable(c: ContextJson, apiKey: string, complete: string -> Reply, parse: string -> Parsed)
  {
    apiKey == "" ||
    match complete(BuildUserPrompt(c))
    case Threw => false
    case NotOk => true
    case Answered(content) => !Truthy(content) || parse(CleanContent(content.value)).Unparseable?
  }

  /** With an unusable answer `responseData` is the fallback. */
  lemma UnusableMeansFallback(c: ContextJson, apiKey: string, complete: string -> Reply, parse: string -> Parsed)
    requires Unusable(c, apiKey, complete, parse)
    ensures ResponseData(c, apiKey, complete, parse) == Some(GetMockResponse(c))
  {
  }

  /** With an unusable answer the result is the fallback analysis, wrapped
      with the context, identifier and time. */
  lemma FallbackWhenUnusable(c: ContextJson, apiKey: string, complete: string -> Reply,
                             parse: string -> Parsed, id: string, createdAt: string)
    requires HasRequiredFields(c) && Unusable(c, apiKey, complete, parse)
    ensures Analyze(Some(c), apiKey, complete, parse, id, createdAt)
         == Status200(Assemble(c, GetMockResponse(c), id, createdAt))
  {
    UnusableMeansFallback(c, apiKey, complete, parse);
  }

  /** An answer that parses is copied into the result as it is, without any
      check of its options, scores or index. */
  lemma ParsedAnswerCopied(c: ContextJson, apiKey: string, complete: string -> Reply,
                           parse: string -> Parsed, id: string, createdAt: string, text: string)
    requires HasRequiredFields(c) && apiKey != ""
    requires complete(BuildUserPrompt(c)) == Answered(Some(text)) && text != ""
    requires parse(CleanContent(text)).Value?
    ensures Analyze(Some(c), apiKey, complete, parse, id, createdAt)
         == Status200(Assemble(c, parse(CleanContent(text)).analysis, id, createdAt))
  {
    assert ResponseData(c, apiKey, complete, parse) == Some(parse(CleanContent(text)).analysis);
  }

  /** The endpoint fails with 500 exactly when the body has no context, or
      the key is set and the call throws or the answer parses to null. */
  lemma ServerErrorCases(body: Maybe<ContextJson>, apiKey: string, complete: string -> Reply,
                         parse: string -> Parsed, id: string, createdAt: string)
    ensures Analyze(body, apiKey, complete, parse, id, createdAt).Status500? <==>
      || body.None?
      || (&& HasRequiredFields(body.value) && apiKey != ""
          && var reply := complete(BuildUserPrompt(body.value));
          || reply.Threw?
          || (reply.Answered? && Truthy(reply.content) && parse(CleanContent(reply.content.value)).NullValue?))
  {
  }

  /** Without a key the model is never consulted: the answer does not depend
      on the completion call or on the parser. */
  lemma NoKeyNoCall(body: Maybe<ContextJson>, complete1: string -> Reply, complete2: string -> Reply,
                    parse1: string -> Parsed, parse2: string -> Parsed, id: string, createdAt: string)
    ensures Analyze(body, "", complete1, parse1, id, createdAt) == Analyze(body, "", complete2, parse2, id, createdAt)
  {
  }

  /** Without a key every valid context gets three well-shaped options and
      a recommended index into them. */
  lemma FallbackResultWellFormed(c: ContextJson, complete: string -> Reply, parse: string -> Parsed,
                                 id: string, createdAt: string)
    requires HasRequiredFields(c)
    ensures var r := Analyze(Some(c), "", complete, parse, id, createdAt);
      && r.Status200?
      && |r.result.options| == 3
      && 0 <= r.result.recommendedIndex < |r.result.options|
      && forall o :: o in r.result.options ==> WellShaped(o)
  {
    FallbackWhenUnusable(c, "", complete, parse, id, createdAt);
    FallbackShape(c);
  }

  /** A JSON answer wrapped in a code fence reaches the parser unwrapped, and
      what it parses to becomes the result. */
  lemma FencedAnswerParsed(c: ContextJson, apiKey: string, complete: string -> Reply,
                           parse: string -> Parsed, id: string, createdAt: string, json: string)
    requires HasRequiredFields(c) && apiKey != ""
    requires FenceFree(json) && json != [] && !IsSpace(json[0]) && !IsSpace(json[|json| - 1])
    requires complete(BuildUserPrompt(c)) == Answered(Some("```json\n" + json + "\n```"))
    requires parse(json).Value?
    ensures Analyze(Some(c), apiKey, complete, parse, id, createdAt)
         == Status200(Assemble(c, parse(json).analysis, id, createdAt))
  {
    CleanUnwrapsFence(json);
    ParsedAnswerCopied(c, apiKey, complete, parse, id, createdAt, "```json\n" + json + "\n```");
  }

  /** The fallback explanation opens with the energy level and the goal,
      and mentions the chosen phrase and, in parentheses, the time available. */
  lemma ExplainMentions(c: ContextJson, phrase: string)
    ensures GivenYour + Interp(c.energyLevel) + EnergyLevelWords + " and " + FocusOn + Interp(c.goal) + ", "
            <= Explain(c, phrase)
    ensures Contains(Explain(c, phrase), Interp(c.energyLevel) + EnergyLevelWords)
    ensures Contains(Explain(c, phrase), FocusOn + Interp(c.goal))
    ensures Contains(Explain(c, phrase), phrase)
    ensures Contains(Explain(c, phrase), "(" + Interp(c.timeAvailable) + ")")
  {
    var e, g, t := Interp(c.energyLevel), Interp(c.goal), Interp(c.timeAvailable);
    var energy, focus, time := e + EnergyLevelWords, FocusOn + g, "(" + t + ")";
    var s1 := GivenYour + e + EnergyLevelWords;
    ContainsPair(GivenYour, e, EnergyLevelWords);
    var s2 := s1 + " and " + FocusOn + g;
    ContainsExtend(s1, energy, " and ");
    ContainsExtend(s1 + " and ", energy, FocusOn);
    ContainsExtend(s1 + " and " + FocusOn, energy, g);
    ContainsPair(s1 + " and ", FocusOn, g);
    var head := s2 + ", ";
    ContainsExtend(s2, energy, ", ");
    ContainsExtend(s2, focus, ", ");
    var s4 := head + phrase;
    ContainsExtend(head, energy, phrase);
    ContainsExtend(head, focus, phrase);
    ContainsPiece(head, phrase, []);
    assert head + phrase + [] == s4;
    var s5 := s4 + BestApproach + "(";
    ContainsExtend(s4, energy, BestApproach);
    ContainsExtend(s4, focus, BestApproach);
    ContainsExtend(s4, phrase, BestApproach);
    ContainsExtend(s4 + BestApproach, energy, "(");
    ContainsExtend(s4 + BestApproach, focus, "(");
    ContainsExtend(s4 + BestApproach, phrase, "(");
    var s6 := s5 + t + ")";
    ContainsExtend(s5, energy, t);
    ContainsExtend(s5, focus, t);
    ContainsExtend(s5, phrase, t);
    ContainsExtend(s5 + t, energy, ")");
    ContainsExtend(s5 + t, focus, ")");
    ContainsExtend(s5 + t, phrase, ")");
    ContainsTriple(s4 + BestApproach, "(", t, ")");
    assert s6 == s4 + BestApproach + "(" + t + ")";
    ContainsExtend(s6, energy, ClosingWords);
    ContainsExtend(s6, focus, ClosingWords);
    ContainsExtend(s6, phrase, ClosingWords);
    ContainsExtend(s6, time, ClosingWords);
    assert Explain(c, phrase) == s6 + ClosingWords;
    PrefixExtend(head, s4, BestApproach);
    PrefixExtend(head, s4 + BestApproach, "(");
    PrefixExtend(head, s5, t);
    PrefixExtend(head, s5 + t, ")");
    PrefixExtend(head, s6, ClosingWords);
  }

  /** "Should I cook or order food?", money, 30 minutes, low energy and no
      key: the three fallback options, option B recommended, and an
      explanation that names the energy level and the goal. */
  lemma CookOrOrderExample(complete: string -> Reply, parse: string -> Parsed)
    ensures var c := ContextJson(Some("Should I cook or order food?"), Some("money"), Some("30 minutes"), None, Some("low"));
      var r := Analyze(Some(c), "", complete, parse, "id-1", "2025-01-01T00:00:00.000Z");
      && r.Status200?
      && |r.result.options| == 3
      && r.result.options[0].title == TitleA
      && r.result.options[1].title == TitleB
      && r.result.options[2].title == TitleC
      && r.result.recommendedIndex == 1
      && Contains(r.result.explanation, "low" + EnergyLevelWords)
      && Contains(r.result.explanation, FocusOn + "money")
  {
    var c := ContextJson(Some("Should I cook or order food?"), Some("money"), Some("30 minutes"), None, Some("low"));
    assert HasRequiredFields(c);
    FallbackWhenUnusable(c, "", complete, parse, "id-1", "2025-01-01T00:00:00.000Z");
    FallbackShape(c);
    FallbackOptionsShape(c.energyLevel);
    FallbackExplanation(c);
    ExplainMentions(c, ToLower(WordsB));
  }
}
