/** One run history written by several threads (manage/workgroup/turn_kernel.py:274-345,
    785-814, 1165-1178, 1353-1371, 1463-1709, 1846-1889; manage/workgroup/store.py:840-873).

    A loop heals, asks its model, stores the reply, runs the tools and stores the results. A
    cancel heals the same run from another thread, and after a restart a queue worker and a
    resumed question may both drive it. Every append holds the lock; reading the open calls
    and storing their failures are two steps, and so are storing a reply and its results. */
module SharedHistory {
  import opened Compression
  import opened History
  import opened Pairing
  import opened Seqs
  import opened Shared

  datatype Purpose = Heal | Tools | Question

  /** A thread is going to answer these ids; at is the length the history had when it read or
      called them. */
  datatype Promise = Promise(purpose: Purpose, ids: seq<CallId>, at: nat)

  /** seen is the history each thread read last, which is what its next request shows.
      settled are the threads that healed the run, or stored their results, since their last
      reply. */
  datatype State = State(
    history: seq<Message>, promises: map<nat, Promise>, seen: map<nat, seq<Message>>, settled: set<nat>)

  datatype Step =
    | Look(thread: nat)
    | Scan(thread: nat)
    | CheckQuestion(thread: nat, id: CallId)
    | Reply(thread: nat, message: Message, runsTools: bool)
    | Note(thread: nat, message: Message)
    | Store(thread: nat, results: seq<Message>)
    | Leave(thread: nat)

  predicate Enabled(s: State, step: Step) {
    match step
    case Look(t) => true
    case Scan(t) => t !in s.promises
    case CheckQuestion(t, id) => t !in s.promises && id != NoId && id in CallIds(s.history)
    case Reply(t, m, _) => t !in s.promises && t in s.settled && t in s.seen && m.role == Assistant
    case Note(t, m) => t !in s.promises && m.role == User
    case Store(t, results) =>
      t in s.promises && |results| == |s.promises[t].ids| && Answering(s.promises[t].ids, results)
    case Leave(t) => true
  }

  /** The ids of a new batch are its own. */
  predicate OwnIds(s: State, step: Step) {
    step.Reply? && IsBatch(step.message) ==>
      Distinct(Ids(step.message.calls)) &&
      forall id <- Ids(step.message.calls) :: id != NoId && id !in CallIds(s.history)
  }

  /** What a step appends. */
  function Appended(step: Step): seq<Message> {
    match step
    case Reply(_, m, _) => [m]
    case Note(_, m) => [m]
    case Store(_, results) => results
    case _ => []
  }

  function Promised(s: State, step: Step): map<nat, Promise>
    requires Enabled(s, step)
  {
    match step
    case Scan(t) =>
      if OpenIds(s.history) == [] then s.promises
      else s.promises[t := Promise(Heal, OpenIds(s.history), |s.history|)]
    case CheckQuestion(t, id) =>
      if Answered(s.history, id) then s.promises else s.promises[t := Promise(Question, [id], |s.history|)]
    case Reply(t, m, runsTools) =>
      if IsBatch(m) && runsTools then s.promises[t := Promise(Tools, Ids(m.calls), |s.history| + 1)] else s.promises
    case Store(t, _) => s.promises - {t}
    case Leave(t) => s.promises - {t}
    case _ => s.promises
  }

  function Settled(s: State, step: Step): set<nat>
    requires Enabled(s, step)
  {
    match step
    case Scan(t) => if OpenIds(s.history) == [] then s.settled + {t} else s.settled
    case Reply(t, _, _) => s.settled - {t}
    case Store(t, _) => if s.promises[t].purpose == Question then s.settled else s.settled + {t}
    case Leave(t) => s.settled - {t}
    case _ => s.settled
  }

  function Apply(s: State, step: Step): State
    requires Enabled(s, step)
  {
    State(s.history + Appended(step), Promised(s, step),
          if step.Look? then s.seen[step.thread := s.history] else s.seen, Settled(s, step))
  }

  // ----------------------------------------------------------- one append

  /** The history is not broken, and what waits is what is open. */
  ghost predicate Tidy(history: seq<Message>) {
    && Waiting(history) == Some(OpenIds(history))
    && Distinct(OpenIds(history))
    && NoId !in CallIds(history)
    && (forall id :: Answered(history, id) ==> id in CallIds(history))
  }

  lemma {:induction false} AnsweredAfter(history: seq<Message>, more: seq<Message>, ids: seq<CallId>)
    requires NoId !in ids
    requires forall id :: Answered(more, id) <==> id in ids
    ensures Unanswered(CallIds(history), history + more) == Unanswered(OpenIds(history), more)
    ensures forall id :: Answered(history + more, id) <==> Answered(history, id) || id in ids
  {
    forall id ensures Answered(history + more, id) <==> Answered(history, id) || Answered(more, id) {
      AnsweredConcat(history, more, id);
    }
    FilterTwice(CallIds(history), history, history + more, more);
  }

  lemma {:induction false} FilterTwice(ids: seq<CallId>, a: seq<Message>, ab: seq<Message>, b: seq<Message>)
    requires forall id :: Answered(ab, id) <==> Answered(a, id) || Answered(b, id)
    ensures Unanswered(ids, ab) == Unanswered(Unanswered(ids, a), b)
  {
    if ids != [] {
      FilterTwice(ids[1..], a, ab, b);
      var rest := Unanswered(ids[1..], a);
      assert ([ids[0]] + rest)[1..] == rest;
    }
  }

  lemma {:induction false} PlainMessage(history: seq<Message>, m: Message)
    requires Tidy(history) && !IsBatch(m) && m.role != Tool
    ensures if OpenIds(history) == [] then Tidy(history + [m]) && OpenIds(history + [m]) == []
            else Broken(history + [m])
  {
    ReadConcat(Some([]), history, [m]);
    ReadOne(Waiting(history), m);
    forall id ensures !Answered([m], id) {
    }
    AnsweredAfter(history, [m], []);
    CallIdsConcat(history, [m]);
    assert CallIds([m]) == [];
    EmptyRight(CallIds(history));
  }

  lemma {:induction false} NewBatch(history: seq<Message>, m: Message)
    requires Tidy(history) && IsBatch(m) && Distinct(Ids(m.calls))
    requires forall id <- Ids(m.calls) :: id != NoId && id !in CallIds(history)
    ensures if OpenIds(history) == [] then Tidy(history + [m]) && OpenIds(history + [m]) == Ids(m.calls)
            else Broken(history + [m])
  {
    ReadConcat(Some([]), history, [m]);
    ReadOne(Waiting(history), m);
    if OpenIds(history) == [] {
      PairedIsRead(history);
      DanglingOpenIds(history, m);
      UnansweredAll(Ids(m.calls), history);
      BatchAnswersNothing(history, m);
    }
  }

  lemma {:induction false} BatchAnswersNothing(history: seq<Message>, m: Message)
    requires IsBatch(m)
    ensures CallIds(history + [m]) == CallIds(history) + Ids(m.calls)
    ensures forall id :: Answered(history + [m], id) <==> Answered(history, id)
  {
    CallIdsConcat(history, [m]);
    assert CallIds([m]) == Ids(m.calls);
    forall id ensures Answered(history + [m], id) <==> Answered(history, id) {
      AnsweredConcat(history, [m], id);
      assert !Answers([m][0], id);
    }
  }

  lemma {:induction false} NewResults(history: seq<Message>, ids: seq<CallId>, results: seq<Message>)
    requires Tidy(history) && ids != [] && (forall id <- ids :: id in CallIds(history))
    requires |results| == |ids| && Answering(ids, results)
    ensures if ids <= OpenIds(history) then Tidy(history + results) && OpenIds(history + results) == OpenIds(history)[|ids|..]
            else Broken(history + results)
  {
    var open := OpenIds(history);
    ReadConcat(Some([]), history, results);
    ReadTools(open, results);
    assert Answering(open, results) <==> ids <= open by {
      if Answering(open, results) {
        assert forall k :: 0 <= k < |ids| ==> ids[k] == open[k];
      }
    }
    if ids <= open {
      ResultsClose(history, ids, results);
    }
  }

  lemma {:induction false} ResultsClose(history: seq<Message>, ids: seq<CallId>, results: seq<Message>)
    requires Tidy(history) && |results| == |ids| && Answering(ids, results) && ids <= OpenIds(history)
    ensures OpenIds(history + results) == OpenIds(history)[|ids|..] && CallIds(history + results) == CallIds(history)
    ensures Distinct(OpenIds(history)[|ids|..])
    ensures forall id :: Answered(history + results, id) <==> Answered(history, id) || id in ids
  {
    var open, rest := OpenIds(history), OpenIds(history)[|ids|..];
    ToolsCallNothing(results);
    CallIdsConcat(history, results);
    EmptyRight(CallIds(history));
    assert open == ids + rest;
    NoIdNotOpen(history, ids);
    ResultsAnswer(ids, results);
    AnsweredAfter(history, results, ids);
    RestStaysOpen(ids, rest, results);
  }

  lemma {:induction false} NoIdNotOpen(history: seq<Message>, ids: seq<CallId>)
    requires NoId !in CallIds(history) && ids <= OpenIds(history)
    ensures NoId !in ids
  {
    assert forall k :: 0 <= k < |ids| ==> ids[k] == OpenIds(history)[k] && OpenIds(history)[k] in OpenIds(history);
  }

  lemma {:induction false} RestStaysOpen(ids: seq<CallId>, rest: seq<CallId>, results: seq<Message>)
    requires Distinct(ids + rest) && forall id :: Answered(results, id) <==> id in ids
    ensures Unanswered(ids + rest, results) == rest && Distinct(rest)
  {
    DistinctConcat(ids, rest);
    UnansweredConcat(ids, rest, results);
    AllAnsweredIff(ids, results);
    UnansweredAll(rest, results);
    EmptyLeft(rest);
  }

  lemma {:induction false} ResultsAnswer(ids: seq<CallId>, results: seq<Message>)
    requires |results| == |ids| && Answering(ids, results) && NoId !in ids
    ensures forall id :: Answered(results, id) <==> id in ids
  {
    forall id | id in ids ensures Answered(results, id) {
      var k :| 0 <= k < |ids| && ids[k] == id;
      assert Answers(results[k], id);
    }
  }

  // ------------------------------------------------------------ invariants

  /** Promises name called ids. One that was made on the whole open batch names what is open
      now, or its first id has been answered since. */
  ghost predicate PromiseOk(history: seq<Message>, p: Promise) {
    && p.ids != [] && p.at <= |history|
    && (forall id <- p.ids :: id in CallIds(history))
    && (!Broken(history) && p.purpose != Question ==>
          if p.at == |history| then p.ids == OpenIds(history) else Answered(history, p.ids[0]))
  }

  ghost predicate Inv(s: State) {
    && NoId !in CallIds(s.history)
    && (Broken(s.history) || Tidy(s.history))
    && (forall t :: t in s.promises ==> PromiseOk(s.history, s.promises[t]))
  }

  /** The append comes at the right moment: plain messages and replies when nothing is open,
      answers when their ids are the first that are open. */
  predicate Fits(s: State, step: Step)
    requires Enabled(s, step)
  {
    match step
    case Reply(_, _, _) => OpenIds(s.history) == []
    case Note(_, _) => OpenIds(s.history) == []
    case Store(t, _) => s.promises[t].ids <= OpenIds(s.history)
    case _ => true
  }

  lemma {:induction false} StepKeepsTidy(s: State, step: Step)
    requires Inv(s) && Enabled(s, step) && OwnIds(s, step)
    ensures var after := Apply(s, step).history;
      if !Broken(s.history) && Fits(s, step) then Tidy(after) else Broken(after)
  {
    var h := s.history;
    if Broken(h) {
      BrokenGrows(h, Appended(step));
    } else if step.Store? {
      NewResults(h, s.promises[step.thread].ids, step.results);
    } else if step.Reply? && IsBatch(step.message) {
      NewBatch(h, step.message);
    } else if step.Reply? || step.Note? {
      PlainMessage(h, step.message);
    } else {
      EmptyRight(h);
    }
  }

  lemma {:induction false} StepAddsCalls(s: State, step: Step)
    requires Inv(s) && Enabled(s, step) && OwnIds(s, step)
    ensures var after := Apply(s, step).history;
      && NoId !in CallIds(after)
      && (forall id :: id in CallIds(s.history) ==> id in CallIds(after))
      && (forall id :: Answered(s.history, id) ==> Answered(after, id))
      && (step.Reply? ==> forall id <- Called(step.message) :: id in CallIds(after))
  {
    var h, more := s.history, Appended(step);
    CallIdsConcat(h, more);
    forall id ensures Answered(h, id) ==> Answered(h + more, id) {
      AnsweredConcat(h, more, id);
    }
    if step.Store? {
      ToolsCallNothing(more);
    } else if step.Reply? {
      assert CallIds([step.message]) == Called(step.message);
    }
  }

  /** A promise made on the whole open batch, before an append that fits. */
  lemma {:induction false} OldPromiseOk(s: State, step: Step, t: nat)
    requires Inv(s) && Enabled(s, step) && OwnIds(s, step) && t in s.promises
    ensures PromiseOk(Apply(s, step).history, s.promises[t])
  {
    var h, p, more := s.history, s.promises[t], Appended(step);
    StepAddsCalls(s, step);
    StepKeepsTidy(s, step);
    if more == [] {
      EmptyRight(h);
    } else if !Broken(h) && p.purpose != Question && Fits(s, step) && p.at == |h| {
      var kept := s.promises[step.thread].ids;
      assert kept[0] == p.ids[0];
      assert Answers(more[0], p.ids[0]) by {
        assert OpenIds(h)[0] in OpenIds(h);
      }
      AnsweredConcat(h, more, p.ids[0]);
    }
  }

  lemma {:induction false} StepKeepsInv(s: State, step: Step)
    requires Inv(s) && Enabled(s, step) && OwnIds(s, step)
    ensures Inv(Apply(s, step))
    ensures !Broken(Apply(s, step).history) <==> !Broken(s.history) && Fits(s, step)
  {
    var s1 := Apply(s, step);
    StepKeepsTidy(s, step);
    StepAddsCalls(s, step);
    forall t | t in s1.promises ensures PromiseOk(s1.history, s1.promises[t]) {
      if t in s.promises && s1.promises[t] == s.promises[t] {
        OldPromiseOk(s, step, t);
      } else {
        NewPromiseOk(s, step);
      }
    }
  }

  lemma {:induction false} NewPromiseOk(s: State, step: Step)
    requires Inv(s) && Enabled(s, step) && OwnIds(s, step)
    ensures step.thread !in s.promises && step.thread in Apply(s, step).promises ==>
      PromiseOk(Apply(s, step).history, Apply(s, step).promises[step.thread])
  {
    StepAddsCalls(s, step);
    StepKeepsTidy(s, step);
    if step.Reply? && IsBatch(step.message) {
      if !Broken(s.history) {
        NewBatch(s.history, step.message);
      }
    } else {
      EmptyRight(s.history);
    }
  }

  // ---------------------------------------------------------------- all runs

  /** A run of any threads, from a well-paired history without empty ids. */
  ghost predicate Run(start: seq<Message>, states: seq<State>, steps: seq<Step>) {
    && |states| == |steps| + 1 && states[0] == State(start, map[], map[], {})
    && Paired(start) && NoId !in CallIds(start)
    && (forall i :: 0 <= i < |steps| ==>
          Enabled(states[i], steps[i]) && OwnIds(states[i], steps[i]) && states[i + 1] == Apply(states[i], steps[i]))
  }

  lemma {:induction false} StartIsTidy(start: seq<Message>)
    requires Paired(start) && NoId !in CallIds(start)
    ensures Inv(State(start, map[], map[], {})) && !Broken(start)
  {
    PairedIsRead(start);
    PairedIsClosed(start);
    forall id | Answered(start, id) ensures id in CallIds(start) {
      PairedAnswersOnlyCalls(start, id);
    }
  }

  lemma {:induction false} RunKeepsInv(start: seq<Message>, states: seq<State>, steps: seq<Step>, n: nat)
    requires Run(start, states, steps) && n < |states|
    ensures Inv(states[n])
  {
    if n == 0 {
      StartIsTidy(start);
    } else {
      RunKeepsInv(start, states, steps, n - 1);
      StepKeepsInv(states[n - 1], steps[n - 1]);
    }
  }

  ghost predicate AllFit(states: seq<State>, steps: seq<Step>, n: nat)
    requires n <= |steps| < |states|
  {
    forall j :: 0 <= j < n ==> Enabled(states[j], steps[j]) && Fits(states[j], steps[j])
  }

  lemma {:induction false} AllFitGrows(states: seq<State>, steps: seq<Step>, n: nat)
    requires 0 < n <= |steps| < |states| && Enabled(states[n - 1], steps[n - 1])
    ensures AllFit(states, steps, n) <==> AllFit(states, steps, n - 1) && Fits(states[n - 1], steps[n - 1])
  {
  }

  lemma {:induction false} UnbrokenWhileFitting(start: seq<Message>, states: seq<State>, steps: seq<Step>, n: nat)
    requires Run(start, states, steps) && n < |states|
    ensures !Broken(states[n].history) <==> AllFit(states, steps, n)
  {
    if n == 0 {
      StartIsTidy(start);
    } else {
      UnbrokenWhileFitting(start, states, steps, n - 1);
      RunKeepsInv(start, states, steps, n - 1);
      StepKeepsInv(states[n - 1], steps[n - 1]);
      AllFitGrows(states, steps, n);
    }
  }

  /** Over every run with ids of their own: the history can still be completed exactly when
      every append so far fitted, and it is well paired exactly when besides nothing is open. */
  lemma {:induction false} PairedExactly(start: seq<Message>, states: seq<State>, steps: seq<Step>, n: nat)
    requires Run(start, states, steps) && n < |states|
    ensures !Broken(states[n].history) <==> AllFit(states, steps, n)
    ensures Paired(states[n].history) <==> AllFit(states, steps, n) && OpenIds(states[n].history) == []
  {
    UnbrokenWhileFitting(start, states, steps, n);
    RunKeepsInv(start, states, steps, n);
    PairedIsRead(states[n].history);
  }

  /** Results of tools and failures of a heal fit exactly when nothing was stored since the
      reply, or since the open calls were read. */
  lemma {:induction false} AnswersFitExactly(start: seq<Message>, states: seq<State>, steps: seq<Step>, j: nat)
    requires Run(start, states, steps) && j < |steps| && steps[j].Store? && !Broken(states[j].history)
    requires states[j].promises[steps[j].thread].purpose != Question
    ensures Fits(states[j], steps[j]) <==> |states[j].history| == states[j].promises[steps[j].thread].at
  {
    RunKeepsInv(start, states, steps, j);
    var s := states[j];
    var p := s.promises[steps[j].thread];
    assert PromiseOk(s.history, p);
    var open := OpenIds(s.history);
    assert p.ids <= open ==> p.ids[0] == open[0] && open[0] in open;
  }

  /** The answer to a resumed question fits exactly when its call is the first that is open. */
  lemma {:induction false} QuestionFitsExactly(s: State, t: nat, id: CallId, results: seq<Message>)
    requires Enabled(s, Store(t, results)) && s.promises[t].ids == [id]
    ensures Fits(s, Store(t, results)) <==> OpenIds(s.history) != [] && OpenIds(s.history)[0] == id
  {
  }

  /** A question is answered only if its call was not, and a heal only if something was open;
      a heal and stored results let their loop go on, an answered question does not. */
  lemma WhoGoesOn(s: State, t: nat, id: CallId, results: seq<Message>)
    ensures Enabled(s, CheckQuestion(t, id)) ==>
      (t in Apply(s, CheckQuestion(t, id)).promises <==> !Answered(s.history, id))
    ensures Enabled(s, Scan(t)) ==>
      var s1 := Apply(s, Scan(t));
      (t in s1.promises <==> OpenIds(s.history) != []) && (OpenIds(s.history) == [] ==> t in s1.settled)
    ensures Enabled(s, Store(t, results)) && t !in s.settled ==>
      (t in Apply(s, Store(t, results)).settled <==> s.promises[t].purpose in {Heal, Tools})
    ensures Enabled(s, Look(t)) && Apply(s, Look(t)).seen == s.seen[t := s.history]
    ensures Enabled(s, Leave(t)) && t !in Apply(s, Leave(t)).promises && t !in Apply(s, Leave(t)).settled
  {
  }

  /** Once broken, a history stays broken, whatever heals or loops follow. */
  lemma BrokenStays(start: seq<Message>, states: seq<State>, steps: seq<Step>, m: nat, n: nat)
    requires Run(start, states, steps) && m <= n < |states| && Broken(states[m].history)
    ensures Broken(states[n].history) && !Paired(states[n].history)
  {
    PairedExactly(start, states, steps, m);
    PairedExactly(start, states, steps, n);
  }

  // ---------------------------------------------------------------- one loop

  /** One loop replies and adds messages, the latter while it is settled; any other thread
      only heals. */
  ghost predicate OneLoop(states: seq<State>, steps: seq<Step>, loop: nat) {
    |states| == |steps| + 1 &&
    forall i :: 0 <= i < |steps| ==> LoopStep(states[i], steps[i], loop)
  }

  predicate LoopStep(s: State, step: Step, loop: nat) {
    && !step.CheckQuestion?
    && (step.Reply? ==> step.thread == loop)
    && (step.Note? ==> step.thread == loop && loop in s.settled)
  }

  /** While the loop is settled, nothing is open. */
  ghost predicate LoopInv(s: State, loop: nat) {
    && (loop in s.settled && !Broken(s.history) ==> OpenIds(s.history) == [])
    && (forall t :: t in s.promises ==> s.promises[t].purpose != Question)
  }

  lemma {:induction false} StepKeepsLoopInv(s: State, step: Step, loop: nat)
    requires Inv(s) && LoopInv(s, loop) && Enabled(s, step) && OwnIds(s, step) && LoopStep(s, step, loop)
    ensures LoopInv(Apply(s, step), loop)
    ensures step.Reply? || step.Note? ==> Broken(s.history) || Fits(s, step)
  {
    StepKeepsTidy(s, step);
    if Broken(s.history) || !Fits(s, step) {
    } else if step.Store? {
      var p := s.promises[step.thread];
      NewResults(s.history, p.ids, step.results);
      assert PromiseOk(s.history, p) && (p.ids <= OpenIds(s.history) ==> p.ids[0] in OpenIds(s.history));
    } else if step.Note? {
      PlainMessage(s.history, step.message);
    } else if !step.Reply? {
      EmptyRight(s.history);
    }
  }

  lemma {:induction false} RunKeepsLoopInv(start: seq<Message>, states: seq<State>, steps: seq<Step>, loop: nat, n: nat)
    requires Run(start, states, steps) && OneLoop(states, steps, loop) && n < |states|
    ensures LoopInv(states[n], loop)
  {
    if n > 0 {
      RunKeepsInv(start, states, steps, n - 1);
      RunKeepsLoopInv(start, states, steps, loop, n - 1);
      StepKeepsLoopInv(states[n - 1], steps[n - 1], loop);
    }
  }

  predicate Stands(s: State, t: nat, p: Promise) {
    t in s.promises && s.promises[t] == p
  }

  /** Other answers are stored in step w while the promise stands. */
  predicate StoresBefore(states: seq<State>, steps: seq<Step>, w: nat, t: nat, p: Promise) {
    w < |steps| && w < |states| && steps[w].Store? && steps[w].thread != t && Stands(states[w], t, p)
  }

  /** Other answers came between the promise and the storing of those of step j. */
  ghost predicate Overlapped(states: seq<State>, steps: seq<Step>, j: nat)
    requires j < |steps| < |states|
  {
    steps[j].Store? && steps[j].thread in states[j].promises &&
    exists w :: 0 <= w < j && StoresBefore(states, steps, w, steps[j].thread, states[j].promises[steps[j].thread])
  }

  lemma {:induction false} HistoryGrows(start: seq<Message>, states: seq<State>, steps: seq<Step>, m: nat, n: nat)
    requires Run(start, states, steps) && m <= n < |states|
    ensures |states[m].history| <= |states[n].history|
    decreases n
  {
    if m < n {
      HistoryGrows(start, states, steps, m, n - 1);
    }
  }

  lemma {:induction false} OverlapIsLate(start: seq<Message>, states: seq<State>, steps: seq<Step>, j: nat)
    requires Run(start, states, steps) && j < |steps| && Overlapped(states, steps, j)
    ensures |states[j].history| > states[j].promises[steps[j].thread].at
  {
    var p := states[j].promises[steps[j].thread];
    var w :| 0 <= w < j && StoresBefore(states, steps, w, steps[j].thread, p);
    RunKeepsInv(start, states, steps, w);
    assert PromiseOk(states[w].history, p) && PromiseOk(states[w].history, states[w].promises[steps[w].thread]);
    HistoryGrows(start, states, steps, w + 1, j);
  }

  /** A promise the history has grown over was already grown over, or just now by answers of
      another thread. */
  lemma {:induction false} GrownOver(s: State, step: Step, loop: nat, t: nat)
    requires Inv(s) && LoopInv(s, loop) && Enabled(s, step) && OwnIds(s, step) && LoopStep(s, step, loop)
    requires var s1 := Apply(s, step);
      !Broken(s1.history) && t in s1.promises && |s1.history| > s1.promises[t].at
    ensures var p := Apply(s, step).promises[t];
      Stands(s, t, p) && !Broken(s.history) && (|s.history| > p.at || (step.Store? && step.thread != t))
  {
    StepKeepsInv(s, step);
    StepKeepsLoopInv(s, step, loop);
    var p := Apply(s, step).promises[t];
    assert Stands(s, t, p);
    assert PromiseOk(s.history, p);
  }

  /** If one loop's history has grown over a promise, other answers were stored. */
  lemma {:induction false} LateIsOverlapped(start: seq<Message>, states: seq<State>, steps: seq<Step>, loop: nat, m: nat, t: nat)
    returns (w: nat)
    requires Run(start, states, steps) && OneLoop(states, steps, loop) && m < |states| && !Broken(states[m].history)
    requires t in states[m].promises && |states[m].history| > states[m].promises[t].at
    ensures w < m && StoresBefore(states, steps, w, t, states[m].promises[t])
  {
    assert m > 0;
    RunKeepsInv(start, states, steps, m - 1);
    RunKeepsLoopInv(start, states, steps, loop, m - 1);
    GrownOver(states[m - 1], steps[m - 1], loop, t);
    w := m - 1;
    if |states[m - 1].history| > states[m].promises[t].at {
      w := LateIsOverlapped(start, states, steps, loop, m - 1, t);
    }
  }

  ghost predicate NoOverlap(states: seq<State>, steps: seq<Step>, n: nat)
    requires n <= |steps| < |states|
  {
    forall j :: 0 <= j < n ==> !Overlapped(states, steps, j)
  }

  lemma {:induction false} StoreFitsExactly(start: seq<Message>, states: seq<State>, steps: seq<Step>, loop: nat, j: nat)
    requires Run(start, states, steps) && OneLoop(states, steps, loop) && j < |steps|
    requires steps[j].Store? && !Broken(states[j].history)
    ensures Fits(states[j], steps[j]) <==> !Overlapped(states, steps, j)
  {
    RunKeepsInv(start, states, steps, j);
    RunKeepsLoopInv(start, states, steps, loop, j);
    AnswersFitExactly(start, states, steps, j);
    assert PromiseOk(states[j].history, states[j].promises[steps[j].thread]);
    if Overlapped(states, steps, j) {
      OverlapIsLate(start, states, steps, j);
    } else if !Fits(states[j], steps[j]) {
      var w := LateIsOverlapped(start, states, steps, loop, j, steps[j].thread);
    }
  }

  lemma {:induction false} OneLoopStep(start: seq<Message>, states: seq<State>, steps: seq<Step>, loop: nat, j: nat)
    requires Run(start, states, steps) && OneLoop(states, steps, loop) && j < |steps|
    ensures !Broken(states[j + 1].history) <==> !Broken(states[j].history) && !Overlapped(states, steps, j)
  {
    RunKeepsInv(start, states, steps, j);
    RunKeepsLoopInv(start, states, steps, loop, j);
    StepKeepsInv(states[j], steps[j]);
    StepKeepsLoopInv(states[j], steps[j], loop);
    if steps[j].Store? && !Broken(states[j].history) {
      StoreFitsExactly(start, states, steps, loop, j);
    }
  }

  lemma {:induction false} NoOverlapGrows(states: seq<State>, steps: seq<Step>, n: nat)
    requires 0 < n <= |steps| < |states|
    ensures NoOverlap(states, steps, n) <==> NoOverlap(states, steps, n - 1) && !Overlapped(states, steps, n - 1)
  {
  }

  lemma {:induction false} UnbrokenExactly(start: seq<Message>, states: seq<State>, steps: seq<Step>, loop: nat, n: nat)
    requires Run(start, states, steps) && OneLoop(states, steps, loop) && n < |states|
    ensures !Broken(states[n].history) <==> NoOverlap(states, steps, n)
  {
    if n == 0 {
      StartIsTidy(start);
    } else {
      UnbrokenExactly(start, states, steps, loop, n - 1);
      OneLoopStep(start, states, steps, loop, n - 1);
      NoOverlapGrows(states, steps, n);
    }
  }

  /** With one loop, whatever other threads heal and whenever: the history can be completed
      exactly when no answers were stored between the promise and the storing of others, that
      is, when no heal fell between a reply and its results, or into another heal. And then
      every request the loop makes is well paired. */
  lemma {:induction false} OneLoopPaired(start: seq<Message>, states: seq<State>, steps: seq<Step>, loop: nat, n: nat)
    requires Run(start, states, steps) && OneLoop(states, steps, loop) && n < |states|
    ensures !Broken(states[n].history) <==> NoOverlap(states, steps, n)
    ensures loop in states[n].settled ==> (Paired(states[n].history) <==> NoOverlap(states, steps, n))
  {
    RunKeepsInv(start, states, steps, n);
    RunKeepsLoopInv(start, states, steps, loop, n);
    UnbrokenExactly(start, states, steps, loop, n);
    PairedIsRead(states[n].history);
  }

  // ---------------------------------------------------------------- requests

  lemma {:induction false} SeenBefore(start: seq<Message>, states: seq<State>, steps: seq<Step>, n: nat, t: nat)
    returns (i: nat)
    requires Run(start, states, steps) && n < |states| && t in states[n].seen
    ensures i <= n && states[n].seen[t] == states[i].history
  {
    assert n > 0;
    if steps[n - 1] == Look(t) {
      i := n - 1;
    } else {
      i := SeenBefore(start, states, steps, n - 1, t);
    }
  }

  /** What a thread's next request shows is the history of an earlier state. It is well paired
      exactly when every append up to that state fitted and nothing was open in it. */
  lemma RequestPairedExactly(start: seq<Message>, states: seq<State>, steps: seq<Step>, n: nat, t: nat)
    returns (i: nat)
    requires Run(start, states, steps) && n < |states| && t in states[n].seen
    ensures i <= n && states[n].seen[t] == states[i].history
    ensures Paired(states[n].seen[t]) <==> AllFit(states, steps, i) && OpenIds(states[n].seen[t]) == []
  {
    i := SeenBefore(start, states, steps, n, t);
    PairedExactly(start, states, steps, i);
  }

  // ------------------------------------------------------ answers after calls

  lemma {:induction false} ResultsFollow(history: seq<Message>, more: seq<Message>)
    requires AnswersFollowCalls(history)
    requires forall k :: 0 <= k < |more| && more[k].role == Tool ==> more[k].callId in CallIds(history)
    ensures AnswersFollowCalls(history + more)
  {
    var h := history + more;
    forall i | 0 <= i < |h| ensures FollowsCall(h, i) {
      if i < |history| {
        TakeOfConcat(history, more, i);
        assert FollowsCall(history, i);
      } else {
        assert h[..i] == history + more[..i - |history|];
        CallIdsConcat(history, more[..i - |history|]);
      }
    }
  }

  lemma {:induction false} StepAnswersFollow(s: State, step: Step)
    requires Inv(s) && Enabled(s, step) && AnswersFollowCalls(s.history)
    ensures AnswersFollowCalls(Apply(s, step).history)
  {
    if step.Store? {
      var p := s.promises[step.thread];
      assert PromiseOk(s.history, p) && forall k :: 0 <= k < |p.ids| ==> p.ids[k] in p.ids;
    }
    ResultsFollow(s.history, Appended(step));
  }

  /** In every run every result comes after a call of its id, however often it is answered. */
  lemma {:induction false} RunAnswersFollowCalls(start: seq<Message>, states: seq<State>, steps: seq<Step>, n: nat)
    requires Run(start, states, steps) && n < |states|
    ensures AnswersFollowCalls(states[n].history)
  {
    if n == 0 {
      PairedAnswersFollow(start);
    } else {
      RunAnswersFollowCalls(start, states, steps, n - 1);
      RunKeepsInv(start, states, steps, n - 1);
      StepAnswersFollow(states[n - 1], steps[n - 1]);
    }
  }

  /** So in every run a cut at a closed place leaves every kept result with its call exactly
      when none repeats an answer given before the cut. */
  lemma RunCutKeepsCalls(start: seq<Message>, states: seq<State>, steps: seq<Step>, n: nat, end: nat)
    requires Run(start, states, steps) && n < |states| && ClosedAt(states[n].history, end)
    ensures var h := states[n].history;
      AnswersFollowCalls(h[end..]) <==> forall i :: end <= i < |h| ==> !RepeatsAnswer(h, end, i)
  {
    RunAnswersFollowCalls(start, states, steps, n);
    KeptResultsKeepCalls(states[n].history, end);
  }

  // ------------------------------------------------------------- three runs

  /** One more step. */
  lemma Extend(start: seq<Message>, states: seq<State>, steps: seq<Step>, step: Step)
    returns (states1: seq<State>, steps1: seq<Step>, s: State)
    requires Run(start, states, steps) && Enabled(states[|states| - 1], step) && OwnIds(states[|states| - 1], step)
    ensures Run(start, states1, steps1) && |states1| == |states| + 1
    ensures states1[|states|] == s == Apply(states[|states| - 1], step)
    ensures steps1 == steps + [step]
  {
    s := Apply(states[|states| - 1], step);
    states1, steps1 := states + [s], steps + [step];
  }

  predicate OwnBatch(start: seq<Message>, m: Message) {
    Paired(start) && NoId !in CallIds(start) && IsBatch(m) && Distinct(Ids(m.calls)) &&
    forall id <- Ids(m.calls) :: id != NoId && id !in CallIds(start)
  }

  /** The loop of thread t has healed and looked. */
  lemma LoopReady(start: seq<Message>, t: nat) returns (states: seq<State>, steps: seq<Step>, s: State)
    requires Paired(start) && NoId !in CallIds(start)
    ensures Run(start, states, steps) && |states| == 3 && states[2] == s
    ensures s == State(start, map[], map[t := start], {t})
    ensures steps == [Look(t), Scan(t)]
  {
    StartIsTidy(start);
    PairedIsClosed(start);
    EmptyRight(start);
    states, steps := [State(start, map[], map[], {})], [];
    states, steps, s := Extend(start, states, steps, Look(t));
    states, steps, s := Extend(start, states, steps, Scan(t));
  }

  /** The batch is stored; its tools run, or not. */
  lemma BatchStored(start: seq<Message>, m: Message, runs: bool) returns (states: seq<State>, steps: seq<Step>, s: State)
    requires OwnBatch(start, m)
    ensures Run(start, states, steps) && |states| == 4 && states[3] == s
    ensures s == State(start + [m], if runs then map[0 := Promise(Tools, Ids(m.calls), |start| + 1)] else map[],
                       map[0 := start], {})
    ensures steps == [Look(0), Scan(0), Reply(0, m, runs)]
    ensures OpenIds(s.history) == Ids(m.calls) && NoId !in CallIds(s.history)
  {
    states, steps, s := LoopReady(start, 0);
    RunKeepsInv(start, states, steps, 2);
    StartIsTidy(start);
    NewBatch(start, m);
    PairedIsClosed(start);
    states, steps, s := Extend(start, states, steps, Reply(0, m, runs));
    assert {0} - {0} == {};
  }

  lemma NewBatchOpen(start: seq<Message>, m: Message, reason: Text)
    requires OwnBatch(start, m)
    ensures var h := start + [m];
      && OpenIds(h) == Ids(m.calls) && !Paired(h)
      && Paired(Healed(h, reason)) && OpenIds(Healed(h, reason)) == []
  {
    var h := start + [m];
    StartIsTidy(start);
    PairedIsClosed(start);
    NewBatch(start, m);
    PairedIsRead(h);
    PairedThenBatch(start, m, Failures(Ids(m.calls), AllCalls(h), reason));
    HealCloses(h, reason);
  }

  /** A cancel in thread 1 reads the open calls and stores their failures. */
  lemma {:induction false} CancelStores(start: seq<Message>, states: seq<State>, steps: seq<Step>, m: Message, reason: Text)
    returns (states1: seq<State>, steps1: seq<Step>, s: State)
    requires OwnBatch(start, m) && Run(start, states, steps)
    requires states[|steps|].history == start + [m] && 1 !in states[|steps|].promises
    ensures Run(start, states1, steps1) && s == states1[|steps1|]
    ensures steps1 == steps + [Scan(1), Store(1, Failures(Ids(m.calls), AllCalls(start + [m]), reason))]
    ensures s.history == Healed(start + [m], reason)
    ensures s.promises == states[|steps|].promises && s.seen == states[|steps|].seen
  {
    var h, ids, before := start + [m], Ids(m.calls), states[|steps|];
    var fix := Failures(ids, AllCalls(h), reason);
    NewBatchOpen(start, m, reason);
    states1, steps1, s := Extend(start, states, steps, Scan(1));
    EmptyRight(h);
    states1, steps1, s := Extend(start, states1, steps1, Store(1, fix));
    assert before.promises[1 := Promise(Heal, ids, |h|)] - {1} == before.promises;
  }

  /** A cancel while the tools of a batch run: the failures are stored first, the results
      behind them. Nothing is open any more, so no heal acts on it, and no request is ever
      well paired again. */
  lemma {:induction false} CancelDuringTools(start: seq<Message>, m: Message, results: seq<Message>, reason: Text)
    returns (states: seq<State>, steps: seq<Step>)
    requires OwnBatch(start, m) && |results| == |m.calls| && Answering(Ids(m.calls), results)
    ensures Run(start, states, steps) && OneLoop(states, steps, 0)
    ensures var h := states[|steps|].history;
      h == Healed(start + [m], reason) + results && OpenIds(h) == [] && Healed(h, reason) == h && Broken(h)
  {
    var s: State;
    states, steps, s := BatchStored(start, m, true);
    states, steps, s := CancelStores(start, states, steps, m, reason);
    LateResults(start, m, results, reason);
    var five := steps;
    states, steps, s := Extend(start, states, steps, Store(0, results));
    assert steps == five + [Store(0, results)];
    CancelIsOneLoop(states, steps, m, five[4].results, results);
  }

  lemma {:induction false} CancelIsOneLoop(states: seq<State>, steps: seq<Step>, m: Message, fix: seq<Message>, results: seq<Message>)
    requires |states| == 7
    requires steps == [Look(0), Scan(0), Reply(0, m, true), Scan(1), Store(1, fix), Store(0, results)]
    ensures OneLoop(states, steps, 0)
  {
  }

  lemma {:induction false} LateResults(start: seq<Message>, m: Message, results: seq<Message>, reason: Text)
    requires OwnBatch(start, m) && |results| == |m.calls| && Answering(Ids(m.calls), results)
    ensures var h := Healed(start + [m], reason) + results;
      OpenIds(h) == [] && Healed(h, reason) == h && Broken(h)
  {
    var healed := Healed(start + [m], reason);
    NewBatchOpen(start, m, reason);
    ResultsStayClosed(healed, results);
    HealCloses(healed + results, reason);
    PairedIsRead(healed);
    ReadConcat(Some([]), healed, results);
    ReadTools([], results);
  }

  lemma ResultsStayClosed(history: seq<Message>, results: seq<Message>)
    requires OpenIds(history) == [] && NoBatch(results)
    ensures OpenIds(history + results) == []
  {
    CallIdsConcat(history, results);
    ToolsCallNothing(results);
    EmptyRight(CallIds(history));
    AllAnsweredIff(CallIds(history), history);
    forall id | id in CallIds(history) ensures Answered(history + results, id) {
      AnsweredConcat(history, results, id);
    }
    AllAnsweredIff(CallIds(history), history + results);
  }

  /** Two loops on one run, as a restart may start them: the second replies while the tools
      of the first still run. */
  lemma SecondLoopBreaks(start: seq<Message>, m: Message, reply: Message, reason: Text)
    returns (states: seq<State>, steps: seq<Step>)
    requires OwnBatch(start, m) && reply.role == Assistant && reply.calls == []
    ensures Run(start, states, steps)
    ensures states[|steps|].history == start + [m] + [reply] && Broken(start + [m] + [reply])
  {
    var s: State;
    StartIsTidy(start);
    PairedIsClosed(start);
    EmptyRight(start);
    states, steps, s := LoopReady(start, 0);
    states, steps, s := Extend(start, states, steps, Look(1));
    states, steps, s := Extend(start, states, steps, Scan(1));
    states, steps, s := Extend(start, states, steps, Reply(0, m, true));
    NewBatchOpen(start, m, reason);
    RunKeepsInv(start, states, steps, 5);
    StepKeepsInv(s, Reply(1, reply, true));
    states, steps, s := Extend(start, states, steps, Reply(1, reply, true));
  }

  /** A loop reads the history, another thread heals it, and the loop, finding nothing open,
      does not read it again: its request shows the dangling batch. */
  lemma StaleRequest(start: seq<Message>, m: Message, reason: Text)
    returns (states: seq<State>, steps: seq<Step>)
    requires OwnBatch(start, m)
    ensures Run(start, states, steps)
    ensures var s := states[|steps|];
      0 in s.settled && Paired(s.history) && 0 in s.seen && !Paired(s.seen[0])
  {
    var s: State;
    NewBatchOpen(start, m, reason);
    states, steps, s := BatchStored(start, m, false);
    states, steps, s := Extend(start, states, steps, Look(0));
    EmptyRight(start + [m]);
    states, steps, s := CancelStores(start, states, steps, m, reason);
    states, steps, s := Extend(start, states, steps, Scan(0));
    EmptyRight(Healed(start + [m], reason));
  }
}
