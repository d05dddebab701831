/** The home page: which view is shown, the result on screen, the history
    panel and the history of the last five results, newest first. */
module Page {
  import opened Strings
  import opened Types
  import AnalyzeRoute
  import DecisionInput

  /** The three views of the page. */
  datatype AppState = InputView | LoadingView | ResultView

  /** The longest history kept. */
  const HistoryLimit := 5

  /** `[data, ...prev].slice(0, 5)`: the new result in front of the
      previous history, cut to five. */
  function Recorded(data: DecisionResult, prev: seq<DecisionResult>): (r: seq<DecisionResult>)
    ensures |r| == Min(|prev| + 1, HistoryLimit)
    ensures r[0] == data && r[1..] == prev[..|r| - 1]
    ensures forall d :: d in r ==> d == data || d in prev
  {
    ([data] + prev)[..Min(|prev| + 1, HistoryLimit)]
  }

  /** The history after results arrive in the order given, starting from an
      empty one. */
  function HistoryOf(received: seq<DecisionResult>): seq<DecisionResult>
  {
    if received == [] then []
    else Recorded(received[|received| - 1], HistoryOf(received[..|received| - 1]))
  }

  /** A sequence backwards. */
  function Reverse<T>(s: seq<T>): (r: seq<T>)
    ensures |r| == |s| && forall i :: 0 <= i < |s| ==> r[i] == s[|s| - 1 - i]
  {
    if s == [] then [] else [s[|s| - 1]] + Reverse(s[..|s| - 1])
  }

  /** The history holds the last five results received, the newest first. */
  lemma {:induction false} HistoryKeepsLatest(received: seq<DecisionResult>)
    ensures HistoryOf(received) == Reverse(received)[..Min(|received|, HistoryLimit)]
  {
    if received != [] {
      var n := |received|;
      var rest := received[..n - 1];
      var d := received[n - 1];
      HistoryKeepsLatest(rest);
      var h := HistoryOf(rest);
      var r := Reverse(received);
      var m := Min(n, HistoryLimit);
      assert |h| == Min(n - 1, HistoryLimit);
      assert HistoryOf(received) == Recorded(d, h);
      forall i | 0 <= i < m
        ensures Recorded(d, h)[i] == r[i]
      {
        if i > 0 {
          assert Recorded(d, h)[i] == h[i - 1];
          assert h[i - 1] == Reverse(rest)[i - 1];
        }
      }
    }
  }

  /** The history never holds more than five results, and it is empty only
      before the first result arrives. */
  lemma HistoryBounded(received: seq<DecisionResult>)
    ensures |HistoryOf(received)| == Min(|received|, HistoryLimit)
    ensures HistoryOf(received) == [] <==> received == []
  {
    HistoryKeepsLatest(received);
  }

  /** How `handleSubmit` reads the endpoint's answer: the result of a 200
      answer, and a thrown error otherwise. */
  function ClientReply(response: AnalyzeRoute.Response): Maybe<DecisionResult>
  {
    match response
    case Status200(result) => Some(result)
    case _ => None
  }

  /** Without a key, submitting any context the form emits succeeds, and the
      page receives the fallback analysis for that context. */
  lemma FormSubmitWithoutKey(c: DecisionContext, complete: string -> AnalyzeRoute.Reply,
                             parse: string -> AnalyzeRoute.Parsed, id: string, createdAt: string)
    requires c.question != [] && c.timeAvailable != []
    ensures ClientReply(AnalyzeRoute.Analyze(Some(ToJson(c)), "", complete, parse, id, createdAt))
         == Some(AnalyzeRoute.Assemble(ToJson(c), AnalyzeRoute.GetMockResponse(ToJson(c)), id, createdAt))
  {
    DecisionInput.EmittedHasRequiredFields(c);
    AnalyzeRoute.FallbackWhenUnusable(ToJson(c), "", complete, parse, id, createdAt);
  }

  /** For a context the form emits, submitting fails, and the page goes back
      to the input view, exactly when a key is set and the completion call
      throws or its answer parses to `null`; otherwise the page receives a
      result for the very question and context it sent. */
  lemma FormSubmitOutcome(c: DecisionContext, apiKey: string, complete: string -> AnalyzeRoute.Reply,
                          parse: string -> AnalyzeRoute.Parsed, id: string, createdAt: string)
    requires c.question != [] && c.timeAvailable != []
    ensures var reply := ClientReply(AnalyzeRoute.Analyze(Some(ToJson(c)), apiKey, complete, parse, id, createdAt));
      var answer := complete(AnalyzeRoute.BuildUserPrompt(ToJson(c)));
      && (reply.None? <==>
            apiKey != "" &&
            (|| answer.Threw?
             || (answer.Answered? && AnalyzeRoute.Truthy(answer.content)
                 && parse(AnalyzeRoute.CleanContent(answer.content.value)).NullValue?)))
      && (reply.Some? ==>
            reply.value.question == c.question && reply.value.context == ToJson(c)
            && reply.value.id == id && reply.value.createdAt == createdAt)
  {
    DecisionInput.EmittedHasRequiredFields(c);
    AnalyzeRoute.ServerErrorCases(Some(ToJson(c)), apiKey, complete, parse, id, createdAt);
  }

  /** The `Home` component's state. */
  class Home {
    var state: AppState
    var result: Maybe<DecisionResult>       // None stands for `null`
    var history: seq<DecisionResult>
    var showHistory: bool
    /** Every result received so far, oldest first. */
    ghost var received: seq<DecisionResult>

    /** The history is the one the received results build; the result view
        always has a result to show; the result on screen is one of the
        history's; the history panel is open only over a non-empty history. */
    ghost predicate Valid()
      reads this
    {
      && history == HistoryOf(received)
      && |history| <= HistoryLimit
      && (state == ResultView ==> result.Some?)
      && (result.Some? ==> result.value in history)
      && (showHistory ==> history != [])
    }

    /** The page as first shown: the input view, no result, an empty and
        closed history. */
    constructor()
      ensures state == InputView && result.None? && history == [] && !showHistory
      ensures received == []
      ensures Valid()
    {
      state := InputView;
      result := None;
      history := [];
      showHistory := false;
      received := [];
    }

    /** The first step of `handleSubmit`, taken as the form is submitted
        from the input view: the loading view. */
    method BeginSubmit()
      requires Valid() && state == InputView
      modifies this
      ensures state == LoadingView
      ensures result == old(result) && history == old(history) && showHistory == old(showHistory)
      ensures received == old(received)
      ensures Valid()
    {
      state := LoadingView;
    }

    /** The rest of `handleSubmit`, once the request has settled: a result
        is shown and put in front of the history; a failure returns to the
        input view and keeps the result and the history. */
    method SettleSubmit(reply: Maybe<DecisionResult>)
      requires Valid()
      modifies this
      ensures reply.Some? ==>
        && result == reply && state == ResultView
        && history == Recorded(reply.value, old(history))
        && received == old(received) + [reply.value]
      ensures reply.None? ==>
        && state == InputView && result == old(result) && history == old(history)
        && received == old(received)
      ensures showHistory == old(showHistory)
      ensures Valid()
    {
      if reply.Some? {
        var data := reply.value;
        result := Some(data);
        history := ([data] + history)[..Min(|history| + 1, HistoryLimit)];
        received := received + [data];
        assert received[..|received| - 1] == old(received);
        state := ResultView;
      } else {
        state := InputView;
      }
    }

    /** `handleSubmit` as a whole, from the input view: the view the page
        ends in, and the history that results. */
    method HandleSubmit(reply: Maybe<DecisionResult>)
      requires Valid() && state == InputView
      modifies this
      ensures state == (if reply.Some? then ResultView else InputView)
      ensures result == (if reply.Some? then reply else old(result))
      ensures history == (if reply.Some? then Recorded(reply.value, old(history)) else old(history))
      ensures showHistory == old(showHistory)
      ensures Valid()
    {
      BeginSubmit();
      SettleSubmit(reply);
    }

    /** `handleNewDecision`: back to the input view with no result; the
        history stays. */
    method HandleNewDecision()
      requires Valid()
      modifies this
      ensures state == InputView && result.None?
      ensures history == old(history) && showHistory == old(showHistory) && received == old(received)
      ensures Valid()
    {
      result := None;
      state := InputView;
    }

    /** `handleSelectFromHistory`: the chosen past result is shown and the
        panel closes; the history stays. */
    method HandleSelectFromHistory(decision: DecisionResult)
      requires Valid() && decision in history
      modifies this
      ensures result == Some(decision) && state == ResultView && !showHistory
      ensures history == old(history) && received == old(received)
      ensures Valid()
    {
      result := Some(decision);
      state := ResultView;
      showHistory := false;
    }

    /** The history button, shown only over a non-empty history, opens or
        closes the panel. */
    method ToggleHistory()
      requires Valid() && history != []
      modifies this
      ensures showHistory == !old(showHistory)
      ensures state == old(state) && result == old(result) && history == old(history)
      ensures received == old(received)
      ensures Valid()
    {
      showHistory := !showHistory;
    }

    /** The panel's close action. */
    method CloseHistory()
      requires Valid()
      modifies this
      ensures !showHistory
      ensures state == old(state) && result == old(result) && history == old(history)
      ensures received == old(received)
      ensures Valid()
    {
      showHistory := false;
    }
  }
}
