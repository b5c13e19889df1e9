/** The bounded leader loop (manage/workgroup/turn_kernel.py:1434-1709).

    The model is an arbitrary function of the round, the history it is shown and whether
    tools are offered; it may also fail. Tools return arbitrary text. Everything below
    therefore holds whatever the model answers.

    The history is shared: while the tools of a round run, a cancel heals it from another
    thread, and other messages may be stored (manage/workgroup/turn_kernel.py:785-814,
    1353-1371). What other threads store at other times is the subject of SharedHistory. */
module LeaderLoop {
  import opened History
  import opened Pairing
  import opened Seqs
  import opened Shared

  datatype Reply = Reply(content: Text, calls: seq<ToolCall>)

  /** One run of the loop. cancelled and dateDue say whether a cancel is seen, and whether
      today's date must be added, before a given request. meanwhile is what other threads
      store between the reply of a round and its results. */
  datatype Setting = Setting(
    maxSteps: nat,
    disableTools: bool,
    model: (nat, seq<Message>, bool) -> Option<Reply>,
    tool: (nat, nat) -> Text,
    cancelled: nat -> bool,
    dateDue: nat -> bool,
    meanwhile: nat -> seq<Message>,
    today: Text,
    interrupted: Text,
    overBudget: Text)

  /** One model request: the history shown, and the reply, if the model gave one. */
  datatype Exchange = Exchange(request: seq<Message>, answer: Option<Reply>)

  datatype Outcome = Final | LimitExceeded | Cancelled | ModelFailed | ToolsRefused

  function Result(s: Setting, round: nat, k: nat, call: ToolCall): Message {
    ToolMessage(call.id, call.name, if round < s.maxSteps then s.tool(round, k) else s.overBudget)
  }

  /** One tool message per call; past the soft budget it only carries the notice. */
  function Results(s: Setting, round: nat, calls: seq<ToolCall>): (results: seq<Message>)
    ensures Matches(calls, results)
  {
    if calls == [] then []
    else
      var k := |calls| - 1;
      Results(s, round, calls[..k]) + [Result(s, round, k, calls[k])]
  }

  /** So the check before the next request never stops the loop. */
  lemma ResultsLetTheLoopGoOn(s: Setting, round: nat, calls: seq<ToolCall>)
    ensures CanInvokeLlmAfterTools(calls, Results(s, round, calls))
  {
    MatchedCanInvoke(calls, Results(s, round, calls));
  }

  function Request(s: Setting, round: nat, history: seq<Message>): seq<Message> {
    if s.dateDue(round) then Healed(history, s.interrupted) + [UserMessage(s.today)]
    else Healed(history, s.interrupted)
  }

  predicate Dispatches(s: Setting, e: Exchange) {
    e.answer.Some? && |e.answer.value.calls| > 0 && !s.disableTools
  }

  function AssistantTurn(reply: Reply): Message {
    AssistantMessage(reply.content, reply.calls)
  }

  /** The history after an exchange: the request, the reply, and its results behind whatever
      was stored in between. */
  function AfterExchange(s: Setting, round: nat, e: Exchange): seq<Message> {
    if e.answer.None? then e.request
    else if Dispatches(s, e) then
      e.request + [AssistantTurn(e.answer.value)] + s.meanwhile(round) + Results(s, round, e.answer.value.calls)
    else e.request + [AssistantTurn(e.answer.value)]
  }

  function HistoryAfter(s: Setting, start: seq<Message>, log: seq<Exchange>): seq<Message> {
    if log == [] then start else AfterExchange(s, |log| - 1, log[|log| - 1])
  }

  /** The next exchange: its request shows the history left before, healed and dated, its
      reply is the model's, and it comes only after dispatched tools. */
  ghost predicate Next(s: Setting, start: seq<Message>, log: seq<Exchange>, e: Exchange) {
    && (log != [] ==> Dispatches(s, log[|log| - 1]))
    && e.request == Request(s, |log|, HistoryAfter(s, start, log))
    && e.answer == s.model(|log|, e.request, !s.disableTools && |log| < s.maxSteps)
  }

  ghost predicate Conversation(s: Setting, start: seq<Message>, log: seq<Exchange>) {
    forall k {:trigger Next(s, start, log[..k], log[k])} ::
      0 <= k < |log| ==> Next(s, start, log[..k], log[k])
  }

  lemma ConversationGrows(s: Setting, start: seq<Message>, log: seq<Exchange>, e: Exchange)
    requires Conversation(s, start, log)
    requires Next(s, start, log, e)
    ensures Conversation(s, start, log + [e])
  {
    var grown := log + [e];
    forall k | 0 <= k < |grown| ensures Next(s, start, grown[..k], grown[k]) {
      if k < |log| {
        assert grown[k] == log[k] && grown[..k] == log[..k];
      } else {
        assert grown[k] == e && grown[..k] == log;
      }
    }
  }

  /** How the loop can end after the given exchanges. */
  predicate Ends(s: Setting, log: seq<Exchange>, outcome: Outcome) {
    var n := |log|;
    match outcome
    case Final => n > 0 && log[n - 1].answer.Some? && |log[n - 1].answer.value.calls| == 0
    case ModelFailed => n > 0 && log[n - 1].answer.None?
    case ToolsRefused => n == 1 && s.disableTools && log[0].answer.Some? && |log[0].answer.value.calls| > 0
    case LimitExceeded => n == s.maxSteps + 2 && Dispatches(s, log[n - 1])
    case Cancelled => s.cancelled(n) && (n > 0 ==> Dispatches(s, log[n - 1]))
  }

  /** The history holds the batch of a round and behind it, after whatever other threads
      stored, the answer to each call: the output of its tool if the tools ran, and the notice
      of the soft budget if not. */
  predicate BatchStored(s: Setting, round: nat, e: Exchange, ran: bool, history: seq<Message>)
    requires e.answer.Some?
  {
    var calls, first := e.answer.value.calls, |e.request| + 1 + |s.meanwhile(round)|;
    && first + |calls| <= |history|
    && e.request + [AssistantMessage(e.answer.value.content, calls)] <= history
    && forall k :: 0 <= k < |calls| ==>
         history[first + k] ==
         ToolMessage(calls[k].id, calls[k].name, if ran then s.tool(round, k) else s.overBudget)
  }

  /** A request shows what was stored before it, one failure for each call left open, and the
      date when it is due. */
  predicate Shows(s: Setting, round: nat, before: seq<Message>, request: seq<Message>) {
    && before <= request
    && |request| == |before| + |OpenIds(before)| + (if s.dateDue(round) then 1 else 0)
    && (s.dateDue(round) ==>
          var date := request[|request| - 1];
          date.role == User && date.content == s.today && date.calls == [])
  }

  /** Of every dispatched batch the first ones ran their tools, and the others carry the
      notice. */
  predicate BatchesStored(s: Setting, log: seq<Exchange>, ran: nat, history: seq<Message>) {
    forall j :: 0 <= j < |log| && Dispatches(s, log[j]) ==> BatchStored(s, j, log[j], j < ran, history)
  }

  /** Every reply is the model's to its request; tools are offered while the soft budget
      lasts. */
  ghost predicate Asked(s: Setting, start: seq<Message>, log: seq<Exchange>) {
    forall j :: 0 <= j < |log| ==>
      Shows(s, j, HistoryAfter(s, start, log[..j]), log[j].request) &&
      log[j].answer == s.model(j, log[j].request, !s.disableTools && j < s.maxSteps)
  }

  class LeaderRun {
    var history: seq<Message>

    constructor ()
      ensures history == []
    {
      history := [];
    }

    method HealOpenToolCalls(reason: Text) returns (healed: seq<CallId>)
      modifies this
      ensures healed == OpenIds(old(history))
      ensures history == Healed(old(history), reason)
    {
      healed := OpenToolCallIds(history);
      if healed != [] {
        history := history + Failures(healed, AllCalls(history), reason);
      }
    }

    /** One model request: heal, add the date if it is due, ask. Tools are withheld once
        the soft budget is spent. */
    method Ask(s: Setting, ghost start: seq<Message>, log: seq<Exchange>) returns (e: Exchange)
      requires log != [] ==> Dispatches(s, log[|log| - 1])
      requires history == HistoryAfter(s, start, log)
      modifies this
      ensures history == e.request && Next(s, start, log, e)
    {
      var round := |log|;
      var _ := HealOpenToolCalls(s.interrupted);
      if s.dateDue(round) {
        history := history + [UserMessage(s.today)];
      }
      var overBudget := round >= s.maxSteps;
      e := Exchange(history, s.model(round, history, !(s.disableTools || overBudget)));
    }

    /** What other threads store while the tools of a round run. */
    method LetOthersStore(s: Setting, round: nat)
      modifies this
      ensures history == old(history) + s.meanwhile(round)
    {
      history := history + s.meanwhile(round);
    }

    /** Stores the reply, and the results of its calls unless tools are disabled: two writes,
        with the tools running in between. */
    method Record(s: Setting, round: nat, e: Exchange)
      requires history == e.request
      modifies this
      ensures history == AfterExchange(s, round, e)
    {
      if e.answer.Some? {
        history := history + [AssistantTurn(e.answer.value)];
        if |e.answer.value.calls| > 0 && !s.disableTools {
          LetOthersStore(s, round);
          history := history + Results(s, round, e.answer.value.calls);
        }
      }
    }

    /** One round: request, reply, results. */
    method Round(s: Setting, ghost start: seq<Message>, log: seq<Exchange>) returns (grown: seq<Exchange>)
      requires log != [] ==> Dispatches(s, log[|log| - 1])
      requires Conversation(s, start, log) && history == HistoryAfter(s, start, log)
      modifies this
      ensures |grown| == |log| + 1 && forall k :: 0 <= k < |log| ==> grown[k] == log[k]
      ensures Conversation(s, start, grown) && history == HistoryAfter(s, start, grown)
    {
      var e := Ask(s, start, log);
      ConversationGrows(s, start, log, e);
      grown := log + [e];
      Record(s, |log|, e);
    }

    /** The rounds. dispatched counts the batches whose tools really ran. */
    method RunRounds(s: Setting) returns (outcome: Outcome, log: seq<Exchange>, dispatched: nat)
      requires s.maxSteps >= 1
      modifies this
      ensures Conversation(s, old(history), log) && Ends(s, log, outcome)
      ensures history == HistoryAfter(s, old(history), log)
      ensures |log| <= s.maxSteps + 2
      ensures dispatched <= s.maxSteps
      ensures dispatched <= |log| && forall k :: 0 <= k < dispatched ==> Dispatches(s, log[k])
      ensures forall k :: dispatched <= k < |log| && k < s.maxSteps ==> !Dispatches(s, log[k])
    {
      ghost var start := history;
      log, dispatched := [], 0;
      var toolLoops := 0;
      while true
        invariant toolLoops == |log| <= s.maxSteps + 1
        invariant dispatched == if toolLoops < s.maxSteps then toolLoops else s.maxSteps
        invariant forall k :: 0 <= k < |log| ==> Dispatches(s, log[k])
        invariant Conversation(s, start, log)
        invariant history == HistoryAfter(s, start, log)
        decreases s.maxSteps + 2 - toolLoops
      {
        if s.cancelled(toolLoops) {
          outcome := Cancelled;
          break;
        }
        log := Round(s, start, log);
        var e := log[toolLoops];
        toolLoops := toolLoops + 1;
        if !Dispatches(s, e) {
          outcome := if e.answer.None? then ModelFailed
                     else if |e.answer.value.calls| == 0 then Final
                     else ToolsRefused;
          break;
        }
        if toolLoops > s.maxSteps {
          if toolLoops > s.maxSteps + 1 {
            outcome := LimitExceeded;
            break;
          }
        } else {
          dispatched := dispatched + 1;
        }
      }
    }

    /** The loop as its callers use it. dispatched counts the batches whose tools really ran;
        the history then holds their output, and the notice for the others. */
    method RunUntilIdle(s: Setting) returns (outcome: Outcome, log: seq<Exchange>, dispatched: nat)
      requires s.maxSteps >= 1
      modifies this
      ensures Conversation(s, old(history), log) && Ends(s, log, outcome)
      ensures history == HistoryAfter(s, old(history), log)
      ensures |log| <= s.maxSteps + 2 && dispatched <= s.maxSteps
      ensures dispatched <= |log| && forall k :: 0 <= k < dispatched ==> Dispatches(s, log[k])
      ensures forall k :: dispatched <= k < |log| && k < s.maxSteps ==> !Dispatches(s, log[k])
      ensures BatchesStored(s, log, dispatched, history) && Asked(s, old(history), log)
    {
      ghost var start := history;
      outcome, log, dispatched := RunRounds(s);
      AllStored(s, start, log, dispatched);
      AllAsked(s, start, log);
    }
  }

  lemma RequestShows(s: Setting, round: nat, before: seq<Message>)
    ensures Shows(s, round, before, Request(s, round, before))
  {
  }

  // ------------------------------------------------------- what is stored

  lemma {:induction false} ResultContents(s: Setting, round: nat, calls: seq<ToolCall>)
    ensures forall k :: 0 <= k < |calls| ==>
      Results(s, round, calls)[k] ==
      ToolMessage(calls[k].id, calls[k].name, if round < s.maxSteps then s.tool(round, k) else s.overBudget)
  {
    if calls != [] {
      ResultContents(s, round, calls[..|calls| - 1]);
    }
  }

  lemma {:induction false} ExchangeStored(s: Setting, round: nat, e: Exchange)
    requires Dispatches(s, e)
    ensures BatchStored(s, round, e, round < s.maxSteps, AfterExchange(s, round, e))
  {
    var calls, sent := e.answer.value.calls, e.request + [AssistantTurn(e.answer.value)];
    ResultContents(s, round, calls);
    ThirdPart(sent, s.meanwhile(round), Results(s, round, calls));
  }

  lemma {:induction false} StoredStays(s: Setting, round: nat, e: Exchange, ran: bool, history: seq<Message>, later: seq<Message>)
    requires e.answer.Some? && BatchStored(s, round, e, ran, history) && history <= later
    ensures BatchStored(s, round, e, ran, later)
  {
  }

  lemma ConversationPrefix(s: Setting, start: seq<Message>, log: seq<Exchange>, n: nat)
    requires Conversation(s, start, log) && n <= |log|
    ensures Conversation(s, start, log[..n])
  {
    forall k | 0 <= k < n ensures Next(s, start, log[..n][..k], log[..n][k]) {
      assert log[..n][..k] == log[..k] && Next(s, start, log[..k], log[k]);
    }
  }

  /** What an exchange stores is there at every later time. */
  lemma {:induction false} StoredForGood(s: Setting, start: seq<Message>, log: seq<Exchange>, j: nat)
    requires Conversation(s, start, log) && j < |log|
    ensures AfterExchange(s, j, log[j]) <= HistoryAfter(s, start, log)
  {
    var n := |log| - 1;
    if j < n {
      assert Next(s, start, log[..n], log[n]);
      ConversationPrefix(s, start, log, n);
      StoredForGood(s, start, log[..n], j);
      RequestShows(s, n, HistoryAfter(s, start, log[..n]));
    }
  }

  lemma {:induction false} BatchForGood(s: Setting, start: seq<Message>, log: seq<Exchange>, j: nat)
    requires Conversation(s, start, log) && j < |log| && Dispatches(s, log[j])
    ensures BatchStored(s, j, log[j], j < s.maxSteps, HistoryAfter(s, start, log))
  {
    StoredForGood(s, start, log, j);
    ExchangeStored(s, j, log[j]);
    StoredStays(s, j, log[j], j < s.maxSteps, AfterExchange(s, j, log[j]), HistoryAfter(s, start, log));
  }

  lemma AllStored(s: Setting, start: seq<Message>, log: seq<Exchange>, dispatched: nat)
    requires Conversation(s, start, log)
    requires dispatched <= s.maxSteps && forall k :: dispatched <= k < |log| && k < s.maxSteps ==> !Dispatches(s, log[k])
    ensures BatchesStored(s, log, dispatched, HistoryAfter(s, start, log))
  {
    forall j | 0 <= j < |log| && Dispatches(s, log[j])
      ensures BatchStored(s, j, log[j], j < dispatched, HistoryAfter(s, start, log))
    {
      BatchForGood(s, start, log, j);
    }
  }

  lemma AllAsked(s: Setting, start: seq<Message>, log: seq<Exchange>)
    requires Conversation(s, start, log)
    ensures Asked(s, start, log)
  {
    forall j | 0 <= j < |log|
      ensures Shows(s, j, HistoryAfter(s, start, log[..j]), log[j].request)
      ensures log[j].answer == s.model(j, log[j].request, !s.disableTools && j < s.maxSteps)
    {
      assert Next(s, start, log[..j], log[j]);
      RequestShows(s, j, HistoryAfter(s, start, log[..j]));
    }
  }

  // ------------------------------------------------------------------ results

  lemma {:induction false} DateChangesNoCalls(history: seq<Message>, date: Text)
    ensures CallIds(history + [UserMessage(date)]) == CallIds(history)
    ensures OpenIds(history + [UserMessage(date)]) == OpenIds(history)
  {
    var m := UserMessage(date);
    var h := history + [m];
    CallIdsConcat(history, [m]);
    assert CallIds([m]) == [];
    forall id ensures Answered(h, id) <==> Answered(history, id) {
      AnsweredConcat(history, [m], id);
      assert !Answers([m][0], id);
    }
    UnansweredAgree(CallIds(history), history, h);
  }

  lemma {:induction false} DateKeepsPairing(history: seq<Message>, date: Text)
    ensures Paired(history + [UserMessage(date)]) <==> Paired(history)
  {
    PairedIsRead(history);
    PairedIsRead(history + [UserMessage(date)]);
    ReadConcat(Some([]), history, [UserMessage(date)]);
    ReadOne(Waiting(history), UserMessage(date));
  }

  lemma {:induction false} HealedCalls(history: seq<Message>, reason: Text)
    ensures CallIds(Healed(history, reason)) == CallIds(history)
  {
    var fix := Failures(OpenIds(history), AllCalls(history), reason);
    CallIdsConcat(history, fix);
    ToolsCallNothing(fix);
    EmptyRight(CallIds(history));
  }

  lemma {:induction false} RequestClosed(s: Setting, round: nat, history: seq<Message>)
    ensures CallIds(Request(s, round, history)) == CallIds(history)
    ensures OpenIds(Request(s, round, history)) == [] <==> NoId !in CallIds(history)
    ensures Paired(Request(s, round, history)) <==> Paired(Healed(history, s.interrupted))
  {
    HealCloses(history, s.interrupted);
    HealedCalls(history, s.interrupted);
    DateChangesNoCalls(Healed(history, s.interrupted), s.today);
    DateKeepsPairing(Healed(history, s.interrupted), s.today);
  }

  /** Every model request is closed, whatever came before and whatever the model does,
      exactly when it holds no call with an empty id. */
  lemma EveryRequestClosed(s: Setting, start: seq<Message>, log: seq<Exchange>, k: nat)
    requires Conversation(s, start, log) && k < |log|
    ensures OpenIds(log[k].request) == [] <==> NoId !in CallIds(log[k].request)
  {
    assert Next(s, start, log[..k], log[k]);
    NextRequestClosed(s, start, log[..k], log[k]);
  }

  lemma NextRequestClosed(s: Setting, start: seq<Message>, log: seq<Exchange>, e: Exchange)
    requires Next(s, start, log, e)
    ensures OpenIds(e.request) == [] <==> NoId !in CallIds(e.request)
  {
    RequestClosed(s, |log|, HistoryAfter(s, start, log));
  }

  // ------------------------------------------------------------------ pairing

  /** Nothing was stored between the reply and its results. */
  predicate Undisturbed(s: Setting, round: nat, e: Exchange) {
    Dispatches(s, e) ==> s.meanwhile(round) == []
  }

  predicate UndisturbedUpTo(s: Setting, log: seq<Exchange>, k: nat)
    requires k <= |log|
  {
    forall j :: 0 <= j < k ==> Undisturbed(s, j, log[j])
  }

  /** Other threads heal and store plain messages; they do not call tools on this run. */
  ghost predicate OneLoop(s: Setting) {
    forall round :: NoBatch(s.meanwhile(round))
  }

  /** An exchange that leaves no batch dangling is well paired exactly if its request is and
      nothing came between the reply and its results; otherwise it is broken for good. */
  lemma {:induction false} ExchangePaired(s: Setting, round: nat, e: Exchange)
    requires OneLoop(s) && e.answer.Some? && (e.answer.value.calls == [] || !s.disableTools)
    ensures var after := AfterExchange(s, round, e);
      if Paired(e.request) && Undisturbed(s, round, e) then Paired(after) else Broken(after)
  {
    var m, due := AssistantTurn(e.answer.value), Waiting(e.request);
    PairedIsRead(e.request);
    ReadConcat(Some([]), e.request, [m]);
    ReadOne(due, m);
    if Dispatches(s, e) {
      var results := Results(s, round, e.answer.value.calls);
      ReadConcat(Some([]), e.request + [m], s.meanwhile(round) + results);
      Assoc(e.request + [m], s.meanwhile(round), results);
      if due == Some([]) {
        ResultsAfter(m.calls, s.meanwhile(round), results);
      } else {
        ReadNone(s.meanwhile(round) + results);
      }
    }
    PairedIsRead(AfterExchange(s, round, e));
  }

  lemma {:induction false} ResultsAfter(calls: seq<ToolCall>, meanwhile: seq<Message>, results: seq<Message>)
    requires NoBatch(meanwhile) && Matches(calls, results) && |calls| > 0
    ensures Read(Some(Ids(calls)), meanwhile + results) == if meanwhile == [] then Some([]) else None
  {
    if meanwhile == [] {
      EmptyLeft(results);
      ReadTools(Ids(calls), results);
    } else {
      MeanwhileBreaks(Ids(calls), meanwhile, results);
    }
  }

  /** A request is well paired exactly if the one before it is, nothing disturbed its batch,
      and no empty id is called. */
  lemma {:induction false} NextRequestPaired(s: Setting, start: seq<Message>, log: seq<Exchange>, e: Exchange)
    requires OneLoop(s) && Next(s, start, log, e) && log != []
    ensures var n := |log| - 1;
      Paired(e.request) <==>
      Paired(log[n].request) && Undisturbed(s, n, log[n]) && NoId !in CallIds(e.request)
  {
    var n, after := |log| - 1, HistoryAfter(s, start, log);
    ExchangePaired(s, n, log[n]);
    RequestClosed(s, |log|, after);
    HealedIsPaired(after, s.interrupted);
    PairedIsRead(after);
  }

  lemma NextCallsMore(s: Setting, start: seq<Message>, log: seq<Exchange>, e: Exchange)
    requires Next(s, start, log, e) && log != []
    ensures forall id :: id in CallIds(log[|log| - 1].request) ==> id in CallIds(e.request)
  {
    var n := |log| - 1;
    var last := log[n];
    var more := s.meanwhile(n) + Results(s, n, last.answer.value.calls);
    Assoc(last.request + [AssistantTurn(last.answer.value)], s.meanwhile(n), Results(s, n, last.answer.value.calls));
    Assoc(last.request, [AssistantTurn(last.answer.value)], more);
    CallIdsConcat(last.request, [AssistantTurn(last.answer.value)] + more);
    RequestClosed(s, |log|, HistoryAfter(s, start, log));
  }

  lemma StepOfConversation(s: Setting, start: seq<Message>, log: seq<Exchange>, k: nat)
    requires OneLoop(s) && Conversation(s, start, log) && 0 < k < |log|
    ensures Paired(log[k].request) <==>
      Paired(log[k - 1].request) && Undisturbed(s, k - 1, log[k - 1]) && NoId !in CallIds(log[k].request)
    ensures NoId in CallIds(log[k - 1].request) ==> NoId in CallIds(log[k].request)
  {
    var before := log[..k];
    assert Next(s, start, before, log[k]) && before[k - 1] == log[k - 1] && |before| == k;
    NextRequestPaired(s, start, before, log[k]);
    NextCallsMore(s, start, before, log[k]);
  }

  /** A request is well paired, each batch followed at once by exactly its results in call
      order, exactly when the start could be healed, nothing was stored between an earlier
      reply and its results, and (but for the first request) no empty id is called. */
  lemma {:induction false} EveryRequestPaired(s: Setting, start: seq<Message>, log: seq<Exchange>, k: nat)
    requires OneLoop(s) && Conversation(s, start, log) && k < |log|
    ensures Paired(log[k].request) <==>
      && Paired(Healed(start, s.interrupted))
      && UndisturbedUpTo(s, log, k)
      && (k > 0 ==> NoId !in CallIds(log[k].request))
  {
    if k == 0 {
      assert Next(s, start, log[..0], log[0]);
      RequestClosed(s, 0, start);
    } else {
      StepOfConversation(s, start, log, k);
      EveryRequestPaired(s, start, log, k - 1);
      assert UndisturbedUpTo(s, log, k) <==> UndisturbedUpTo(s, log, k - 1) && Undisturbed(s, k - 1, log[k - 1]);
    }
  }

  /** A finished loop, and one cancelled between two rounds, leaves a well-paired history
      exactly when its last request was well paired and nothing was stored between the last
      reply and its results. A refused reply leaves one dangling batch, which the next turn
      repairs exactly when none of its ids was answered before. */
  lemma LoopLeavesPaired(s: Setting, start: seq<Message>, log: seq<Exchange>, outcome: Outcome)
    requires OneLoop(s) && Conversation(s, start, log) && Ends(s, log, outcome) && log != []
    ensures var n, after := |log| - 1, HistoryAfter(s, start, log);
      outcome != ToolsRefused ==> (Paired(after) <==> Paired(log[n].request) && Undisturbed(s, n, log[n]))
    ensures var request, after := log[0].request, HistoryAfter(s, start, log);
      outcome == ToolsRefused && Paired(request) && NoId !in CallIds(request) ==>
        (Paired(Healed(after, s.interrupted)) <==>
         forall k :: 0 <= k < |log[0].answer.value.calls| ==> !Answered(request, log[0].answer.value.calls[k].id))
  {
    var n := |log| - 1;
    var request := log[n].request;
    if outcome == ToolsRefused {
      if Paired(request) && NoId !in CallIds(request) {
        HealPairsDanglingBatch(request, AssistantTurn(log[0].answer.value), s.interrupted);
      }
    } else if log[n].answer.Some? {
      ExchangePaired(s, n, log[n]);
      PairedIsRead(AfterExchange(s, n, log[n]));
    }
  }

  /** A cancel that heals while the tools of a batch run: the failures are stored first, the
      results behind them. Nothing is open any more, and no later request is well paired. */
  lemma {:induction false} CancelDuringToolsBreaks(s: Setting, start: seq<Message>, log: seq<Exchange>, j: nat, k: nat, reason: Text)
    requires OneLoop(s) && Conversation(s, start, log) && j < k < |log| && log[j].answer.Some?
    requires var h := log[j].request + [AssistantTurn(log[j].answer.value)];
      OpenIds(h) != [] && s.meanwhile(j) == Failures(OpenIds(h), AllCalls(h), reason)
    ensures !Paired(log[k].request)
  {
    assert Dispatches(s, log[j]) by {
      assert Next(s, start, log[..j + 1], log[j + 1]) && log[..j + 1][j] == log[j];
    }
    EveryRequestPaired(s, start, log, k);
    assert !Undisturbed(s, j, log[j]);
  }

  /** A model that never stops calling tools meets both bounds: maxSteps + 2 requests, of
      which the last two are answered by the notice instead of tools. */
  lemma {:induction false} StubbornModelReachesTheBound(s: Setting, start: seq<Message>, log: seq<Exchange>, outcome: Outcome)
    requires Conversation(s, start, log) && Ends(s, log, outcome)
    requires !s.disableTools && forall k: nat :: !s.cancelled(k)
    requires forall k: nat, h, offered :: s.model(k, h, offered).Some? && s.model(k, h, offered).value.calls != []
    ensures outcome == LimitExceeded && |log| == s.maxSteps + 2
  {
    if log != [] {
      var n := |log| - 1;
      assert Next(s, start, log[..n], log[n]);
    }
  }
}
