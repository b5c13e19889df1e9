/** The private message history of an actor run (manage/workgroup/history.py).

    A batch is an assistant message with tool calls; each call is answered by a later tool
    message carrying its id. Ids come from the model provider, so nothing here assumes that
    they are distinct or non-empty: the streaming client numbers id-less calls call_0,
    call_1, ... afresh in every reply (manage/workgroup/llm_chat.py:177), and the plain
    client lets the empty id through (manage/workgroup/llm_chat.py:273). */
module History {
  import opened Seqs
  import opened Shared

  /** A call id; NoId is the empty string. */
  datatype CallId = NoId | Id(text: Text)

  /** A tool name; Unknown stands for the empty string and for the name used in its place. */
  datatype ToolName = Unknown | Named(text: Text)

  datatype Role = System | User | Assistant | Tool

  datatype ToolCall = ToolCall(id: CallId, name: ToolName, arguments: Text)

  datatype Message = Message(role: Role, name: ToolName, content: Text, calls: seq<ToolCall>, callId: CallId)

  function UserMessage(content: Text): Message {
    Message(User, Unknown, content, [], NoId)
  }

  function AssistantMessage(content: Text, calls: seq<ToolCall>): Message {
    Message(Assistant, Unknown, content, calls, NoId)
  }

  function ToolMessage(callId: CallId, name: ToolName, content: Text): Message {
    Message(Tool, name, content, [], callId)
  }

  predicate IsBatch(m: Message) {
    m.role == Assistant && |m.calls| > 0
  }

  function Ids(calls: seq<ToolCall>): (ids: seq<CallId>)
    ensures |ids| == |calls| && forall k :: 0 <= k < |calls| ==> ids[k] == calls[k].id
  {
    seq(|calls|, k requires 0 <= k < |calls| => calls[k].id)
  }

  function Called(m: Message): seq<CallId> {
    if IsBatch(m) then Ids(m.calls) else []
  }

  /** The ids called, in order of appearance. */
  function CallIds(history: seq<Message>): seq<CallId> {
    if |history| == 0 then [] else Called(history[0]) + CallIds(history[1..])
  }

  predicate Answers(m: Message, id: CallId) {
    m.role == Tool && m.callId == id && id != NoId
  }

  predicate Answered(history: seq<Message>, id: CallId) {
    exists i :: 0 <= i < |history| && Answers(history[i], id)
  }

  /** Those of ids that the history does not answer, in order. */
  function Unanswered(ids: seq<CallId>, history: seq<Message>): (open: seq<CallId>)
    ensures forall id :: id in open <==> id in ids && !Answered(history, id)
    ensures |open| <= |ids|
  {
    if ids == [] then []
    else if Answered(history, ids[0]) then Unanswered(ids[1..], history)
    else [ids[0]] + Unanswered(ids[1..], history)
  }

  function OpenIds(history: seq<Message>): seq<CallId> {
    Unanswered(CallIds(history), history)
  }

  ghost predicate Collected(seen: set<CallId>, history: seq<Message>) {
    forall id :: id in seen <==> Answered(history, id)
  }

  /** The scan of the source: one pass collects the called ids and the answered ids, then
      the answered ones are dropped. */
  method OpenToolCallIds(history: seq<Message>) returns (open: seq<CallId>)
    ensures open == OpenIds(history)
  {
    var pending: seq<CallId> := [];
    var seen: set<CallId> := {};
    for i := 0 to |history|
      invariant pending == CallIds(history[..i])
      invariant Collected(seen, history[..i])
    {
      ScanStep(history, i, seen);
      if IsBatch(history[i]) {
        pending := pending + Ids(history[i].calls);
      } else if history[i].role == Tool && history[i].callId != NoId {
        seen := seen + {history[i].callId};
      }
    }
    assert history[..|history|] == history;
    open := [];
    for i := 0 to |pending|
      invariant open == Unanswered(pending[..i], history)
    {
      FilterStep(pending, i, history);
      if pending[i] !in seen {
        open := open + [pending[i]];
      }
    }
    assert pending[..|pending|] == pending;
  }

  lemma ScanStep(history: seq<Message>, i: nat, seen: set<CallId>)
    requires i < |history| && Collected(seen, history[..i])
    ensures CallIds(history[..i + 1]) == CallIds(history[..i]) + Called(history[i])
    ensures var m := history[i];
      Collected(if m.role == Tool && m.callId != NoId then seen + {m.callId} else seen, history[..i + 1])
  {
    assert history[..i + 1] == history[..i] + [history[i]];
    CallIdsConcat(history[..i], [history[i]]);
    forall id ensures Answered(history[..i + 1], id) <==> id in seen || Answers(history[i], id) {
      AnsweredConcat(history[..i], [history[i]], id);
      assert Answers([history[i]][0], id) <==> Answered([history[i]], id);
    }
  }

  lemma FilterStep(ids: seq<CallId>, i: nat, history: seq<Message>)
    requires i < |ids|
    ensures Unanswered(ids[..i + 1], history) ==
            Unanswered(ids[..i], history) + if Answered(history, ids[i]) then [] else [ids[i]]
  {
    assert ids[..i + 1] == ids[..i] + [ids[i]];
    UnansweredConcat(ids[..i], [ids[i]], history);
  }

  lemma AnsweredConcat(a: seq<Message>, b: seq<Message>, id: CallId)
    ensures Answered(a + b, id) <==> Answered(a, id) || Answered(b, id)
  {
    if Answered(a, id) {
      var i :| 0 <= i < |a| && Answers(a[i], id);
      assert Answers((a + b)[i], id);
    }
    if Answered(b, id) {
      var i :| 0 <= i < |b| && Answers(b[i], id);
      assert Answers((a + b)[|a| + i], id);
    }
    if Answered(a + b, id) {
      var i :| 0 <= i < |a + b| && Answers((a + b)[i], id);
      assert if i < |a| then Answers(a[i], id) else Answers(b[i - |a|], id);
    }
  }

  lemma {:induction false} CallIdsConcat(a: seq<Message>, b: seq<Message>)
    ensures CallIds(a + b) == CallIds(a) + CallIds(b)
  {
    if a == [] {
      assert a + b == b;
    } else {
      CallIdsConcat(a[1..], b);
      DropConcat(a, b, 1);
      Assoc(Called(a[0]), CallIds(a[1..]), CallIds(b));
    }
  }

  lemma {:induction false} UnansweredConcat(x: seq<CallId>, y: seq<CallId>, history: seq<Message>)
    ensures Unanswered(x + y, history) == Unanswered(x, history) + Unanswered(y, history)
  {
    if x == [] {
      assert x + y == y;
    } else {
      UnansweredConcat(x[1..], y, history);
      DropConcat(x, y, 1);
      Assoc([x[0]], Unanswered(x[1..], history), Unanswered(y, history));
    }
  }

  /** Dropping answered ids from a list keeps all of it exactly when none is answered. */
  lemma {:induction false} UnansweredAll(ids: seq<CallId>, history: seq<Message>)
    ensures |Unanswered(ids, history)| == |ids| <==> forall id :: id in ids ==> !Answered(history, id)
    ensures |Unanswered(ids, history)| == |ids| ==> Unanswered(ids, history) == ids
  {
    if ids != [] {
      UnansweredAll(ids[1..], history);
      assert ids == [ids[0]] + ids[1..];
    }
  }

  lemma {:induction false} UnansweredAgree(ids: seq<CallId>, a: seq<Message>, b: seq<Message>)
    requires forall id :: id in ids ==> (Answered(a, id) <==> Answered(b, id))
    ensures Unanswered(ids, a) == Unanswered(ids, b)
  {
    if ids != [] {
      UnansweredAgree(ids[1..], a, b);
    }
  }

  // ---------------------------------------------------------------- pairing

  /** The tool messages answer the calls one for one, in call order. */
  predicate Matches(calls: seq<ToolCall>, results: seq<Message>) {
    |results| == |calls| &&
    forall k :: 0 <= k < |calls| ==> results[k].role == Tool && results[k].callId == calls[k].id
  }

  /** What a provider accepts: every batch is followed at once by exactly its results in
      call order, and there is no other tool message. */
  predicate Paired(history: seq<Message>) {
    |history| == 0 ||
    if IsBatch(history[0]) then
      var n := |history[0].calls|;
      n < |history| && Matches(history[0].calls, history[1..1 + n]) && Paired(history[1 + n..])
    else
      history[0].role != Tool && Paired(history[1..])
  }

  predicate HasResult(results: seq<Message>, id: CallId) {
    exists i :: 0 <= i < |results| && results[i].callId == id
  }

  /** The calls that still wait for a result. Unlike OpenIds, an empty id is answered by a
      result with an empty id. */
  function MissingToolResults(calls: seq<ToolCall>, results: seq<Message>): (missing: seq<CallId>)
    ensures |missing| == 0 <==> forall k :: 0 <= k < |calls| ==> HasResult(results, calls[k].id)
  {
    if |calls| == 0 then []
    else
      var n := |calls| - 1;
      MissingToolResults(calls[..n], results) + if HasResult(results, calls[n].id) then [] else [calls[n].id]
  }

  predicate CanInvokeLlmAfterTools(calls: seq<ToolCall>, results: seq<Message>) {
    |MissingToolResults(calls, results)| == 0
  }

  /** Results in call order always let the model go on. */
  lemma MatchedCanInvoke(calls: seq<ToolCall>, results: seq<Message>)
    requires Matches(calls, results)
    ensures CanInvokeLlmAfterTools(calls, results)
  {
    forall k | 0 <= k < |calls| ensures HasResult(results, calls[k].id) {
      assert results[k].callId == calls[k].id;
    }
  }

  /** A batch is closed by its results exactly when this check lets the model go on and no
      call has an empty id. */
  lemma CanInvokeMeansClosed(calls: seq<ToolCall>, results: seq<Message>)
    requires forall r <- results :: r.role == Tool
    ensures Unanswered(Ids(calls), results) == [] <==>
            CanInvokeLlmAfterTools(calls, results) && NoId !in Ids(calls)
  {
    var open := Unanswered(Ids(calls), results);
    assert |open| > 0 ==> open[0] in open;
    forall id | id != NoId ensures Answered(results, id) <==> HasResult(results, id) {
      assert forall i :: 0 <= i < |results| ==> (Answers(results[i], id) <==> results[i].callId == id);
    }
    forall k | 0 <= k < |calls| && Ids(calls)[k] !in open ensures calls[k].id != NoId && HasResult(results, calls[k].id) {
      assert Ids(calls)[k] in Ids(calls);
    }
  }

  /** A well-paired prefix can be cut off without changing whether the rest is well paired. */
  lemma {:induction false} PairedCut(a: seq<Message>, b: seq<Message>)
    requires Paired(a)
    ensures Paired(a + b) <==> Paired(b)
  {
    if a == [] {
      assert a + b == b;
    } else if IsBatch(a[0]) {
      var n := |a[0].calls|;
      PairedCut(a[1 + n..], b);
      assert (a + b)[1..1 + n] == a[1..1 + n];
      assert (a + b)[1 + n..] == a[1 + n..] + b;
    } else {
      PairedCut(a[1..], b);
      assert (a + b)[1..] == a[1..] + b;
    }
  }

  lemma {:induction false} PairedBatch(m: Message, results: seq<Message>)
    requires IsBatch(m)
    requires |results| <= |m.calls|
    ensures Paired([m] + results) <==> Matches(m.calls, results)
  {
    if |results| == |m.calls| {
      FullBatch(m, results);
    }
  }

  lemma FullBatch(m: Message, results: seq<Message>)
    requires IsBatch(m) && |results| == |m.calls|
    ensures Paired([m] + results) <==> Matches(m.calls, results)
  {
    PairedUnfolds([m] + results);
    BatchOnly(m, results);
  }

  lemma PairedUnfolds(h: seq<Message>)
    requires |h| > 0 && IsBatch(h[0])
    ensures var n := |h[0].calls|;
      Paired(h) <==> n < |h| && Matches(h[0].calls, h[1..1 + n]) && Paired(h[1 + n..])
  {
  }

  lemma BatchOnly(m: Message, results: seq<Message>)
    ensures ([m] + results)[1..1 + |results|] == results && ([m] + results)[1 + |results|..] == []
  {
  }

  lemma {:induction false} PairedThenBatch(history: seq<Message>, m: Message, results: seq<Message>)
    requires Paired(history) && IsBatch(m) && |results| <= |m.calls|
    ensures Paired(history + [m] + results) <==> Matches(m.calls, results)
  {
    assert history + [m] + results == history + ([m] + results);
    PairedCut(history, [m] + results);
    PairedBatch(m, results);
  }

  /** In a well-paired history every call with a non-empty id is answered, so only empty
      ids can be open. */
  lemma {:induction false} PairedAnswersCalls(history: seq<Message>, id: CallId)
    requires Paired(history) && id in CallIds(history) && id != NoId
    ensures Answered(history, id)
  {
    var m := history[0];
    if IsBatch(m) {
      var n := |m.calls|;
      var head, rest := [m] + history[1..1 + n], history[1 + n..];
      assert history == head + rest;
      CallIdsConcat(head, rest);
      BatchAnswersCalls(m, history[1..1 + n], id);
      if id !in CallIds(head) {
        PairedAnswersCalls(rest, id);
      }
      AnsweredConcat(head, rest, id);
    } else {
      assert history == [m] + history[1..];
      PairedAnswersCalls(history[1..], id);
      AnsweredConcat([m], history[1..], id);
    }
  }

  lemma BatchAnswersCalls(m: Message, results: seq<Message>, id: CallId)
    requires IsBatch(m) && Matches(m.calls, results) && id != NoId
    ensures id in CallIds([m] + results) ==> Answered([m] + results, id)
  {
    CallIdsConcat([m], results);
    ToolsCallNothing(results);
    assert CallIds([m]) == Ids(m.calls);
    if id in Ids(m.calls) {
      var k :| 0 <= k < |m.calls| && Ids(m.calls)[k] == id;
      assert Answers(([m] + results)[1 + k], id);
    }
  }

  lemma {:induction false} ToolsCallNothing(messages: seq<Message>)
    requires forall k :: 0 <= k < |messages| ==> !IsBatch(messages[k])
    ensures CallIds(messages) == []
  {
    if messages != [] {
      ToolsCallNothing(messages[1..]);
    }
  }

  lemma PairedIsClosed(history: seq<Message>)
    requires Paired(history)
    ensures OpenIds(history) == [] <==> NoId !in CallIds(history)
  {
    forall id | id in OpenIds(history) && id != NoId ensures false {
      PairedAnswersCalls(history, id);
    }
    if OpenIds(history) != [] {
      assert OpenIds(history)[0] in OpenIds(history);
    }
  }

  // ---------------------------------------------------------------- healing

  /** The name of the last call with this id. */
  function CallName(calls: seq<ToolCall>, id: CallId): ToolName {
    if calls == [] then Unknown
    else if calls[|calls| - 1].id == id then calls[|calls| - 1].name
    else CallName(calls[..|calls| - 1], id)
  }

  function AllCalls(history: seq<Message>): seq<ToolCall> {
    if |history| == 0 then []
    else (if IsBatch(history[0]) then history[0].calls else []) + AllCalls(history[1..])
  }

  /** Synthetic failure results, one per id. */
  function Failures(ids: seq<CallId>, calls: seq<ToolCall>, reason: Text): (results: seq<Message>)
    ensures |results| == |ids|
    ensures forall k :: 0 <= k < |ids| ==>
      results[k].role == Tool && results[k].callId == ids[k] && results[k].content == reason
  {
    seq(|ids|, k requires 0 <= k < |ids| => ToolMessage(ids[k], CallName(calls, ids[k]), reason))
  }

  function Healed(history: seq<Message>, reason: Text): seq<Message> {
    history + Failures(OpenIds(history), AllCalls(history), reason)
  }

  /** The calls are those whose ids are called, in order. */
  lemma {:induction false} AllCallsInOrder(history: seq<Message>)
    ensures Ids(AllCalls(history)) == CallIds(history)
  {
    if |history| > 0 {
      AllCallsInOrder(history[1..]);
    }
  }

  /** A failure carries the name of the last call with its id. */
  lemma {:induction false} CallNameIsLast(calls: seq<ToolCall>, i: nat)
    requires i < |calls| && forall j :: i < j < |calls| ==> calls[j].id != calls[i].id
    ensures CallName(calls, calls[i].id) == calls[i].name
  {
    if i < |calls| - 1 {
      CallNameIsLast(calls[..|calls| - 1], i);
    }
  }

  /** Healing closes a history exactly when no empty id is open: an empty id can never be
      answered, so every later pass finds it open again. */
  lemma HealCloses(history: seq<Message>, reason: Text)
    ensures OpenIds(Healed(history, reason)) == [] <==> NoId !in CallIds(history)
    ensures OpenIds(history) == [] ==> Healed(history, reason) == history
  {
    var open := OpenIds(history);
    var fix := Failures(open, AllCalls(history), reason);
    CallIdsConcat(history, fix);
    ToolsCallNothing(fix);
    EmptyRight(CallIds(history));
    forall id | id in CallIds(history) && id != NoId ensures Answered(history + fix, id) {
      HealAnswers(history, reason, id);
    }
    AllAnswered(CallIds(history), history + fix);
    if OpenIds(history) == [] {
      EmptyRight(history);
    }
  }

  lemma HealAnswers(history: seq<Message>, reason: Text, id: CallId)
    requires id in CallIds(history) && id != NoId
    ensures Answered(Healed(history, reason), id)
  {
    var open := OpenIds(history);
    var fix := Failures(open, AllCalls(history), reason);
    AnsweredConcat(history, fix, id);
    if !Answered(history, id) {
      var k :| 0 <= k < |open| && open[k] == id;
      assert Answers(fix[k], id);
    }
  }

  lemma AllAnsweredIff(ids: seq<CallId>, history: seq<Message>)
    ensures Unanswered(ids, history) == [] <==> forall id <- ids :: Answered(history, id)
  {
    var open := Unanswered(ids, history);
    assert |open| > 0 ==> open[0] in open;
  }

  /** Nothing is open exactly when no id is empty, if all others are answered. */
  lemma AllAnswered(ids: seq<CallId>, history: seq<Message>)
    requires forall id <- ids :: id != NoId ==> Answered(history, id)
    ensures Unanswered(ids, history) == [] <==> NoId !in ids
  {
    AllAnsweredIff(ids, history);
  }

  /** A batch left without results (a cancel, a crash, a refused reply) is repaired into a
      well-paired history exactly when none of its ids was answered before. Reused ids defeat
      the repair: the old answer hides the new call. */
  lemma {:induction false} HealPairsDanglingBatch(history: seq<Message>, m: Message, reason: Text)
    requires Paired(history) && NoId !in CallIds(history)
    requires IsBatch(m)
    ensures Paired(Healed(history + [m], reason)) <==>
            forall k :: 0 <= k < |m.calls| ==> !Answered(history, m.calls[k].id)
  {
    var h := history + [m];
    var open := OpenIds(h);
    DanglingOpenIds(history, m);
    PairedThenBatch(history, m, Failures(open, AllCalls(h), reason));
    FailuresMatch(m.calls, open, AllCalls(h), reason);
    UnansweredAll(Ids(m.calls), history);
    assert forall k :: 0 <= k < |m.calls| ==> Ids(m.calls)[k] in Ids(m.calls);
  }

  lemma FailuresMatch(calls: seq<ToolCall>, open: seq<CallId>, all: seq<ToolCall>, reason: Text)
    ensures Matches(calls, Failures(open, all, reason)) <==> open == Ids(calls)
  {
    var fix := Failures(open, all, reason);
    assert Matches(calls, fix) ==> forall k :: 0 <= k < |open| ==> open[k] == fix[k].callId;
  }

  lemma DanglingOpenIds(history: seq<Message>, m: Message)
    requires Paired(history) && NoId !in CallIds(history)
    requires IsBatch(m)
    ensures OpenIds(history + [m]) == Unanswered(Ids(m.calls), history)
  {
    var h := history + [m];
    var ids := Ids(m.calls);
    CallIdsConcat(history, [m]);
    assert CallIds([m]) == ids;
    UnansweredConcat(CallIds(history), ids, h);
    forall id ensures Answered(h, id) <==> Answered(history, id) {
      AnsweredConcat(history, [m], id);
    }
    UnansweredAgree(CallIds(history), history, h);
    UnansweredAgree(ids, history, h);
    PairedIsClosed(history);
  }

  /** A concrete failure: two replies both numbered call_0, the second interrupted. */
  lemma ReusedIdDefeatsHealing(call0: Text, name: ToolName, text: Text)
    ensures
      var batch := AssistantMessage(text, [ToolCall(Id(call0), name, text)]);
      var history := [batch, ToolMessage(Id(call0), name, text)];
      Paired(history) && OpenIds(history + [batch]) == [] && !Paired(Healed(history + [batch], text))
  {
    var batch := AssistantMessage(text, [ToolCall(Id(call0), name, text)]);
    var history := [batch, ToolMessage(Id(call0), name, text)];
    PairedBatch(batch, history[1..]);
    assert history == [batch] + history[1..];
    CallIdsConcat([batch], history[1..]);
    assert CallIds([batch]) == [Id(call0)];
    assert Answers(history[1], Id(call0));
    DanglingOpenIds(history, batch);
    HealPairsDanglingBatch(history, batch, text);
    assert Answered(history, batch.calls[0].id);
  }

  predicate Distinct(ids: seq<CallId>) {
    forall i, j :: 0 <= i < j < |ids| ==> ids[i] != ids[j]
  }

  /** After a restart a resolved human question is answered first and the other calls of its
      batch are healed afterwards. Results keep call order exactly when the question was the
      batch's first call. */
  lemma ResumedQuestionKeepsOrder(history: seq<Message>, m: Message, q: nat, tool: ToolName, answer: Text, reason: Text)
    requires Paired(history) && NoId !in CallIds(history)
    requires IsBatch(m) && q < |m.calls| && Distinct(Ids(m.calls))
    requires forall k :: 0 <= k < |m.calls| ==> m.calls[k].id != NoId && !Answered(history, m.calls[k].id)
    ensures Paired(Healed(history + [m, ToolMessage(m.calls[q].id, tool, answer)], reason)) <==> q == 0
  {
    var ids := Ids(m.calls);
    var reply := ToolMessage(ids[q], tool, answer);
    var h := history + [m, reply];
    ResumedOpenIds(history, m, q, reply);
    var fix := Failures(OpenIds(h), AllCalls(h), reason);
    ResultsInOrder(m.calls, q, reply, fix);
    PairThen(history, m, reply, fix);
    PairedThenBatch(history, m, [reply] + fix);
  }

  /** Two calls, the second one a question: its answer ends up before the failure of the
      first. */
  lemma SecondQuestionBreaksOrder(batch: Message, reply: Message, name: Text, reason: Text)
    requires batch == AssistantMessage(name, [ToolCall(Id(name), Named(name), name), ToolCall(Id(reason), Named(name), name)])
    requires reply == ToolMessage(Id(reason), Named(name), name) && name != reason
    ensures !Paired(Healed([batch, reply], reason))
  {
    ResumedQuestionKeepsOrder([], batch, 1, Named(name), name, reason);
    EmptyLeft([batch, reply]);
  }

  lemma ResultsInOrder(calls: seq<ToolCall>, q: nat, reply: Message, fix: seq<Message>)
    requires q < |calls| && Distinct(Ids(calls))
    requires reply.role == Tool && reply.callId == calls[q].id
    requires |fix| == |calls| - 1
    requires forall k :: 0 <= k < |fix| ==>
      fix[k].role == Tool && fix[k].callId == (Ids(calls)[..q] + Ids(calls)[q + 1..])[k]
    ensures Matches(calls, [reply] + fix) <==> q == 0
  {
    var results := [reply] + fix;
    assert results[0].callId == Ids(calls)[q];
    if q == 0 {
      forall k | 0 <= k < |calls| ensures results[k].role == Tool && results[k].callId == calls[k].id {
        assert k > 0 ==> results[k] == fix[k - 1];
      }
    } else {
      assert calls[0].id == Ids(calls)[0] != Ids(calls)[q];
    }
  }

  lemma ResumedOpenIds(history: seq<Message>, m: Message, q: nat, reply: Message)
    requires Paired(history) && NoId !in CallIds(history)
    requires IsBatch(m) && q < |m.calls| && Distinct(Ids(m.calls))
    requires forall k :: 0 <= k < |m.calls| ==> m.calls[k].id != NoId && !Answered(history, m.calls[k].id)
    requires reply.role == Tool && reply.callId == m.calls[q].id
    ensures OpenIds(history + [m, reply]) == Ids(m.calls)[..q] + Ids(m.calls)[q + 1..]
  {
    var ids := Ids(m.calls);
    var h := history + [m, reply];
    AnswerAfterBatch(history, m, reply);
    forall id | id in CallIds(history) ensures Answered(h, id) {
      PairedAnswersCalls(history, id);
    }
    AllAnsweredIff(CallIds(history), h);
    forall k | 0 <= k < |ids| ensures Answered(h, ids[k]) <==> k == q {
      assert ids[k] == m.calls[k].id;
    }
    UnansweredOneAnswered(ids, q, h);
    UnansweredConcat(CallIds(history), ids, h);
  }

  lemma AnswerAfterBatch(history: seq<Message>, m: Message, reply: Message)
    requires IsBatch(m) && reply.role == Tool && reply.callId != NoId
    ensures CallIds(history + [m, reply]) == CallIds(history) + Ids(m.calls)
    ensures forall id :: Answered(history + [m, reply], id) <==> Answered(history, id) || id == reply.callId
  {
    CallIdsConcat(history, [m, reply]);
    CallIdsConcat([m], [reply]);
    assert [m, reply] == [m] + [reply];
    assert CallIds([m]) == Ids(m.calls) && CallIds([reply]) == [];
    forall id ensures Answered(history + [m, reply], id) <==> Answered(history, id) || id == reply.callId {
      AnsweredConcat(history, [m, reply], id);
      assert Answers([m, reply][1], reply.callId);
      assert !Answers([m, reply][0], id);
    }
  }

  lemma {:induction false} UnansweredOneAnswered(ids: seq<CallId>, q: nat, history: seq<Message>)
    requires q < |ids|
    requires forall k :: 0 <= k < |ids| ==> (Answered(history, ids[k]) <==> k == q)
    ensures Unanswered(ids, history) == ids[..q] + ids[q + 1..]
  {
    if q == 0 {
      UnansweredAll(ids[1..], history);
      EmptyLeft(ids[1..]);
    } else {
      UnansweredOneAnswered(ids[1..], q - 1, history);
      LeaveOut(ids, q);
    }
  }
}
