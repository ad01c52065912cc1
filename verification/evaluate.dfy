/** The evaluation stage for one category: each item's `tell` is replayed to
    the backend, its `question` is asked, the reply is scored, and the score is
    logged and kept for the category's averages. One item's failure is caught
    and skips only that item. The backend and the scorer are oracles given as
    one outcome per call site per item; the remote calls the stage makes are
    recorded as a trace. */
module Evaluate {
  import opened Outcomes
  import opened Model
  import opened Utils
  import opened Averaging

  /** The ways a backend call fails; the client reports each as a `RuntimeError`. */
  datatype BackendFailure = HttpStatus(status: int) | Network | MissingLastMessage | Unexpected

  /** What the backend does with one prompt: the `lastMessage` it returns, or a failure. */
  datatype ChatOutcome = Reply(text: string) | ChatFailed(failure: BackendFailure)

  /** What the scoring model does with one request: a parsed rubric, or a failure. */
  datatype ScoreOutcome = Rubric(score: RubricScore) | ScoreFailed(message: string)

  /** The oracle outcomes one item meets, whether or not each call is made. */
  datatype ItemOracle = ItemOracle(tellReply: ChatOutcome, askReply: ChatOutcome, score: ScoreOutcome)

  /** A remote call the stage makes. */
  datatype Call = Chat(prompt: string) | Score(context: string, response: string, expected: string)

  /** The calls a step made, and what it returned or raised. */
  datatype Attempt<T> = Attempt(calls: seq<Call>, outcome: Result<T>)

  /** `call_app_api`: one backend call; every failure surfaces as a `RuntimeError`. */
  function CallAppApi(prompt: string, backend: ChatOutcome): (r: Attempt<string>)
    ensures r.calls == [Chat(prompt)]
    ensures backend.Reply? ==> r.outcome == Ok(backend.text)
    ensures backend.ChatFailed? ==> r.outcome == Err(RuntimeError)
  {
    match backend
    case Reply(text) => Attempt([Chat(prompt)], Ok(text))
    case ChatFailed(_) => Attempt([Chat(prompt)], Err(RuntimeError))
  }

  /** `evaluate_response`: one scorer call; a failure is returned as
      `{"error": message}`, never raised. */
  function EvaluateResponse(context: string, response: string, expected: string, scorer: ScoreOutcome): (r: Attempt<Evaluation>)
    ensures r.calls == [Score(context, response, expected)]
    ensures r.outcome.Ok?
    ensures scorer.ScoreFailed? ==> r.outcome.value == ErrorEntry(scorer.message)
    ensures scorer.Rubric? ==> r.outcome.value == Scored(scorer.score)
  {
    var evaluation := match scorer
      case Rubric(score) => Scored(score)
      case ScoreFailed(message) => ErrorEntry(message);
    Attempt([Score(context, response, expected)], Ok(evaluation))
  }

  /** `tell_func`: a NaN `tell` is skipped without a call; otherwise the
      statement is sent and the reply discarded. */
  function TellFunc(tell: Cell, backend: ChatOutcome): (r: Attempt<()>)
    ensures tell.Blank? ==> r == Attempt([], Ok(()))
    ensures tell.Text? ==> r.calls == [Chat(tell.s)]
    ensures tell.Text? ==> (r.outcome.Ok? <==> backend.Reply?)
    ensures r.outcome.Err? ==> r.outcome.error == RuntimeError
  {
    if tell.Blank? then Attempt([], Ok(()))
    else
      var sent := CallAppApi(tell.s, backend);
      Attempt(sent.calls, if sent.outcome.Ok? then Ok(()) else Err(RuntimeError))
  }

  /** `eval_process`: ask the question, reject a falsy reply, score the reply
      against the expected answer with the question as context. A backend
      failure is re-raised as `RuntimeError`, an empty reply as `ValueError`. */
  function EvalProcess(question: string, expected: string, backend: ChatOutcome, scorer: ScoreOutcome): (r: Attempt<Evaluation>)
    ensures backend.ChatFailed? ==> r == Attempt([Chat(question)], Err(RuntimeError))
    ensures backend == Reply("") ==> r == Attempt([Chat(question)], Err(ValueError))
    ensures r.outcome.Ok? <==> backend.Reply? && backend.text != ""
    ensures r.outcome.Ok? ==> r.calls == [Chat(question), Score(question, backend.text, expected)]
    ensures r.outcome.Ok? && scorer.ScoreFailed? ==> r.outcome.value == ErrorEntry(scorer.message)
    ensures r.outcome.Ok? && scorer.Rubric? ==> r.outcome.value == Scored(scorer.score)
  {
    var asked := CallAppApi(question, backend);
    if asked.outcome.Err? then Attempt(asked.calls, Err(RuntimeError))
    else if asked.outcome.value == "" then Attempt(asked.calls, Err(ValueError))
    else
      var scored := EvaluateResponse(question, asked.outcome.value, expected, scorer);
      Attempt(asked.calls + scored.calls, scored.outcome)
  }

  /** The guarded body of the `calc_criteria` loop for one item, up to the
      point where the item is logged. */
  function RunItem(item: EvalItem, o: ItemOracle): (r: Attempt<Evaluation>)
    ensures r.outcome.Ok? <==>
      (item.tell.Blank? || o.tellReply.Reply?) && o.askReply.Reply? && o.askReply.text != ""
    ensures item.tell.Blank? ==> r == EvalProcess(item.question, item.expected, o.askReply, o.score)
    ensures item.tell.Text? ==> |r.calls| > 0 && r.calls[0] == Chat(item.tell.s)
    ensures item.tell.Text? && o.tellReply.ChatFailed? ==> r == Attempt([Chat(item.tell.s)], Err(RuntimeError))
    ensures item.tell.Text? && o.tellReply.Reply? ==>
      var e := EvalProcess(item.question, item.expected, o.askReply, o.score);
      r == Attempt([Chat(item.tell.s)] + e.calls, e.outcome)
  {
    var told := TellFunc(item.tell, o.tellReply);
    if told.outcome.Err? then Attempt(told.calls, Err(told.outcome.error))
    else
      var evaluated := EvalProcess(item.question, item.expected, o.askReply, o.score);
      Attempt(told.calls + evaluated.calls, evaluated.outcome)
  }

  /** What one item adds to the detail log and to the averaged list. */
  function Contribution(item: EvalItem, o: ItemOracle): seq<Detail> {
    match RunItem(item, o).outcome
    case Ok(evaluation) => [Detail(item, evaluation)]
    case Err(_) => []
  }

  /** What each item adds, item by item. */
  function Contributions(items: seq<EvalItem>, oracle: seq<ItemOracle>): (r: seq<seq<Detail>>)
    requires |oracle| == |items|
    ensures |r| == |items|
    ensures forall i :: 0 <= i < |items| ==> r[i] == Contribution(items[i], oracle[i])
  {
    seq(|items|, i requires 0 <= i < |items| => Contribution(items[i], oracle[i]))
  }

  /** The entries the loop logs, in item order. */
  function Successes(items: seq<EvalItem>, oracle: seq<ItemOracle>): seq<Detail>
    requires |oracle| == |items|
  {
    Concat(Contributions(items, oracle))
  }

  /** Extending the items by one extends the log by that item's entry, if any. */
  lemma SuccessesStep(items: seq<EvalItem>, oracle: seq<ItemOracle>, i: nat)
    requires |oracle| == |items| && i < |items|
    ensures Successes(items[..i + 1], oracle[..i + 1]) == Successes(items[..i], oracle[..i]) + Contribution(items[i], oracle[i])
  {
    var longer := Contributions(items[..i + 1], oracle[..i + 1]);
    assert longer[..i] == Contributions(items[..i], oracle[..i]);
  }

  /** The calls each item makes, item by item. */
  function Traces(items: seq<EvalItem>, oracle: seq<ItemOracle>): (r: seq<seq<Call>>)
    requires |oracle| == |items|
    ensures |r| == |items|
    ensures forall i :: 0 <= i < |items| ==> r[i] == RunItem(items[i], oracle[i]).calls
  {
    seq(|items|, i requires 0 <= i < |items| => RunItem(items[i], oracle[i]).calls)
  }

  /** The traces joined end to end. */
  function Concat<T>(parts: seq<seq<T>>): seq<T> {
    if |parts| == 0 then [] else Concat(parts[..|parts| - 1]) + parts[|parts| - 1]
  }

  /** Every remote call the loop makes, in order. */
  function AllCalls(items: seq<EvalItem>, oracle: seq<ItemOracle>): seq<Call>
    requires |oracle| == |items|
  {
    Concat(Traces(items, oracle))
  }

  /** Extending the items by one extends the trace by that item's calls. */
  lemma AllCallsStep(items: seq<EvalItem>, oracle: seq<ItemOracle>, i: nat)
    requires |oracle| == |items| && i < |items|
    ensures AllCalls(items[..i + 1], oracle[..i + 1]) == AllCalls(items[..i], oracle[..i]) + RunItem(items[i], oracle[i]).calls
  {
    var longer := Traces(items[..i + 1], oracle[..i + 1]);
    assert longer[..i] == Traces(items[..i], oracle[..i]);
  }

  /** The evaluations of the logged entries: the list `calc_criteria` averages. */
  function EvaluationsOf(details: seq<Detail>): (r: seq<Evaluation>)
    ensures |r| == |details|
    ensures forall j :: 0 <= j < |details| ==> r[j] == details[j].evaluate
  {
    seq(|details|, j requires 0 <= j < |details| => details[j].evaluate)
  }

  /** The detail file after `add_to_json_file` has logged `details` under `category`. */
  ghost function LogAfter(log0: FileState<DetailLog>, category: string, details: seq<Detail>): FileState<DetailLog> {
    if details == [] || !Usable(log0) then log0
    else Parsed(DocOrEmpty(log0)[category := Bucket(DocOrEmpty(log0), category) + details])
  }

  lemma LogStep(log0: FileState<DetailLog>, category: string, details: seq<Detail>, d: Detail)
    ensures AddToJsonFile(LogAfter(log0, category, details), category, d.dataset, d.evaluate)
         == LogAfter(log0, category, details + [d])
  {
    if Usable(log0) && details == [] {
      assert details + [d] == [d];
      if log0.Missing? {
        assert DocOrEmpty(log0)[category := [] + [d]] == map[category := [d]];
      }
    } else if Usable(log0) {
      var doc := DocOrEmpty(log0);
      var b := Bucket(doc, category);
      assert Bucket(doc[category := b + details], category) == b + details;
      assert b + details + [d] == b + (details + [d]);
      assert doc[category := b + details][category := b + details + [d]] == doc[category := b + (details + [d])];
    }
  }

  /** `calc_criteria`: every item is attempted in order; an item reaches the
      detail log and the averaged list exactly when its `tell_func` and
      `eval_process` both returned, and the result is the average of that list. */
  method CalcCriteria(items: seq<EvalItem>, criteria: string, oracle: seq<ItemOracle>, log0: FileState<DetailLog>)
    returns (averages: Averages, evaluations: seq<Evaluation>, log: FileState<DetailLog>, calls: seq<Call>)
    requires |oracle| == |items|
    ensures evaluations == EvaluationsOf(Successes(items, oracle))
    ensures averages == AverageScores(evaluations)
    ensures evaluations == [] ==> averages == ZeroAverages
    ensures calls == AllCalls(items, oracle)
    ensures Successes(items, oracle) == [] || !Usable(log0) ==> log == log0
    ensures Successes(items, oracle) != [] && Usable(log0) ==>
      log == Parsed(DocOrEmpty(log0)[criteria := Bucket(DocOrEmpty(log0), criteria) + Successes(items, oracle)])
  {
    var logged: seq<Detail> := [];
    log, calls := log0, [];
    var i := 0;
    while i < |items|
      invariant 0 <= i <= |items|
      invariant logged == Successes(items[..i], oracle[..i])
      invariant calls == AllCalls(items[..i], oracle[..i])
      invariant log == LogAfter(log0, criteria, logged)
    {
      var run := RunItem(items[i], oracle[i]);
      SuccessesStep(items, oracle, i);
      AllCallsStep(items, oracle, i);
      calls := calls + run.calls;
      if run.outcome.Ok? {
        var d := Detail(items[i], run.outcome.value);
        LogStep(log0, criteria, logged, d);
        log := AddToJsonFile(log, criteria, items[i], run.outcome.value);
        logged := logged + [d];
      }
      i := i + 1;
    }
    assert items[..i] == items;
    assert oracle[..i] == oracle;
    evaluations := EvaluationsOf(logged);
    averages := CalculateAverageScores(evaluations);
  }

  /** Splitting the items splits the logged entries. */
  lemma SuccessesSplit(items: seq<EvalItem>, oracle: seq<ItemOracle>, k: nat)
    requires |oracle| == |items| && k <= |items|
    ensures Successes(items, oracle) == Successes(items[..k], oracle[..k]) + Successes(items[k..], oracle[k..])
  {
    var parts := Contributions(items, oracle);
    ConcatSplit(parts, k);
    assert parts[..k] == Contributions(items[..k], oracle[..k]);
    assert parts[k..] == Contributions(items[k..], oracle[k..]);
  }

  /** Failure isolation: item k contributes its own entry, or nothing, at its
      own position, whatever the other items do. */
  lemma EachItemContributesInPlace(items: seq<EvalItem>, oracle: seq<ItemOracle>, k: nat)
    requires |oracle| == |items| && k < |items|
    ensures Successes(items, oracle) ==
      Successes(items[..k], oracle[..k]) + Contribution(items[k], oracle[k]) + Successes(items[k + 1..], oracle[k + 1..])
  {
    var parts := Contributions(items, oracle);
    ConcatAround(parts, k);
    assert parts[..k] == Contributions(items[..k], oracle[..k]);
    assert parts[k + 1..] == Contributions(items[k + 1..], oracle[k + 1..]);
  }

  /** Dropping item k leaves the entries of the items on either side of it. */
  lemma SuccessesWithout(items: seq<EvalItem>, oracle: seq<ItemOracle>, k: nat)
    requires |oracle| == |items| && k < |items|
    ensures Successes(items[..k] + items[k + 1..], oracle[..k] + oracle[k + 1..])
      == Successes(items[..k], oracle[..k]) + Successes(items[k + 1..], oracle[k + 1..])
  {
    var without, withoutOracle := items[..k] + items[k + 1..], oracle[..k] + oracle[k + 1..];
    SuccessesSplit(without, withoutOracle, k);
    assert without[..k] == items[..k] && withoutOracle[..k] == oracle[..k];
    assert without[k..] == items[k + 1..] && withoutOracle[k..] == oracle[k + 1..];
  }

  /** An item that logs nothing can be removed without changing the log. */
  lemma SilentItemRemovable(items: seq<EvalItem>, oracle: seq<ItemOracle>, k: nat)
    requires |oracle| == |items| && k < |items|
    requires Contribution(items[k], oracle[k]) == []
    ensures Successes(items, oracle) == Successes(items[..k] + items[k + 1..], oracle[..k] + oracle[k + 1..])
  {
    EachItemContributesInPlace(items, oracle, k);
    SuccessesWithout(items, oracle, k);
  }

  /** A failing item (its statement could not be told, the question could not
      be asked, or the answer was empty) is skipped and the items after it are
      still processed: the log is what it would be had the item not been in the
      list. */
  lemma FailedItemSkipped(items: seq<EvalItem>, oracle: seq<ItemOracle>, k: nat)
    requires |oracle| == |items| && k < |items|
    requires || (items[k].tell.Text? && oracle[k].tellReply.ChatFailed?)
             || oracle[k].askReply.ChatFailed?
             || oracle[k].askReply == Reply("")
    ensures Successes(items, oracle) == Successes(items[..k] + items[k + 1..], oracle[..k] + oracle[k + 1..])
  {
    SilentItemRemovable(items, oracle, k);
  }

  /** A scorer failure does not skip the item: its error entry is logged and
      averaged, adding nothing to any field's total and one to the divisor. */
  lemma ScorerFailureCountsAsZero(items: seq<EvalItem>, oracle: seq<ItemOracle>, k: nat, f: Field)
    requires |oracle| == |items| && k < |items|
    requires items[k].tell.Blank? || oracle[k].tellReply.Reply?
    requires oracle[k].askReply.Reply? && oracle[k].askReply.text != ""
    requires oracle[k].score.ScoreFailed?
    ensures Detail(items[k], ErrorEntry(oracle[k].score.message)) in Successes(items, oracle)
    ensures var without := Successes(items[..k], oracle[..k]) + Successes(items[k + 1..], oracle[k + 1..]);
      && Total(EvaluationsOf(Successes(items, oracle)), f) == Total(EvaluationsOf(without), f)
      && |Successes(items, oracle)| == |without| + 1
  {
    var before := Successes(items[..k], oracle[..k]);
    var after := Successes(items[k + 1..], oracle[k + 1..]);
    var entry := Detail(items[k], ErrorEntry(oracle[k].score.message));
    EachItemContributesInPlace(items, oracle, k);
    assert Contribution(items[k], oracle[k]) == [entry];
    assert Successes(items, oracle)[|before|] == entry;
    assert EvaluationsOf(before + [entry] + after) == EvaluationsOf(before) + [entry.evaluate] + EvaluationsOf(after);
    assert EvaluationsOf(before + after) == EvaluationsOf(before) + EvaluationsOf(after);
    ErrorEntryOnlyCounts(EvaluationsOf(before), EvaluationsOf(after), oracle[k].score.message, f);
  }

  /** Splitting the parts splits their concatenation. */
  lemma {:induction false} ConcatSplit<T>(parts: seq<seq<T>>, k: nat)
    requires k <= |parts|
    ensures Concat(parts) == Concat(parts[..k]) + Concat(parts[k..])
    decreases |parts|
  {
    if k == |parts| {
      assert parts[..k] == parts;
    } else {
      var n := |parts| - 1;
      ConcatSplit(parts[..n], k);
      assert parts[..n][..k] == parts[..k];
      assert parts[k..][..n - k] == parts[..n][k..];
    }
  }

  /** One part sits in the concatenation between the parts before and after it. */
  lemma ConcatAround<T>(parts: seq<seq<T>>, k: nat)
    requires k < |parts|
    ensures Concat(parts) == Concat(parts[..k]) + parts[k] + Concat(parts[k + 1..])
  {
    ConcatSplit(parts, k);
    ConcatSplit(parts[k..], 1);
    assert parts[k..][..1] == [parts[k]];
    assert Concat([parts[k]]) == parts[k] by {
      assert [parts[k]][..0] == [];
    }
    assert parts[k..][1..] == parts[k + 1..];
  }

  /** Item k's calls sit in the trace between those of the items before and after it. */
  lemma EachItemCallsInPlace(items: seq<EvalItem>, oracle: seq<ItemOracle>, k: nat)
    requires |oracle| == |items| && k < |items|
    ensures AllCalls(items, oracle) ==
      AllCalls(items[..k], oracle[..k]) + RunItem(items[k], oracle[k]).calls + AllCalls(items[k + 1..], oracle[k + 1..])
  {
    var traces := Traces(items, oracle);
    ConcatAround(traces, k);
    assert traces[..k] == Traces(items[..k], oracle[..k]);
    assert traces[k + 1..] == Traces(items[k + 1..], oracle[k + 1..]);
  }

  /** Records read back from the clustered store carry their `tell` as text
      (a blank cell became "nan"), so the NaN skip never fires for them: every
      record's statement is sent to the backend. */
  lemma ClusteredRecordsAlwaysTold(records: seq<Record>, oracle: seq<ItemOracle>, j: nat)
    requires |oracle| == |records| && j < |records|
    ensures var items := seq(|records|, i requires 0 <= i < |records| => FromRecord(records[i]));
      Chat(records[j].tell) in AllCalls(items, oracle)
  {
    var items := seq(|records|, i requires 0 <= i < |records| => FromRecord(records[i]));
    EachItemCallsInPlace(items, oracle, j);
    var own := RunItem(items[j], oracle[j]).calls;
    assert own[0] == Chat(records[j].tell);
    assert AllCalls(items, oracle)[|AllCalls(items[..j], oracle[..j])|] == own[0];
  }
}
