/** Questions to a human and the threads blocked on them (manage/workgroup/store.py:1404-1600).

    A waiting thread holds an event object; resolving sets the event registered for the
    question and forgets it. Each function is one lock section; waking and timing out happen
    outside the lock and are steps of their own. */
module HumanQuestions {
  import opened Shared

  datatype Question = Pending | Resolved(resolution: Text)

  datatype Ticket = Ticket(question: nat, event: nat)

  datatype Desk = Desk(
    questions: map<nat, Question>,
    registered: map<nat, nat>,
    fired: set<nat>,
    owner: map<nat, nat>,
    blocked: map<nat, Ticket>,
    nextEvent: nat) {

    /** A new question registers its event before anyone can resolve it. */
    function Create(q: nat): Desk {
      this.(questions := questions[q := Pending], registered := registered[q := nextEvent],
            owner := owner[nextEvent := q], nextEvent := nextEvent + 1)
    }

    /** The registered event, or a new one after a restart. */
    function Registered(q: nat): Desk {
      if q in registered then this
      else this.(registered := registered[q := nextEvent], owner := owner[nextEvent := q], nextEvent := nextEvent + 1)
    }

    predicate CanBlock(t: nat, q: nat) {
      t !in blocked && q in questions && questions[q].Pending?
    }

    function Block(t: nat, q: nat): Desk
      requires q in questions
    {
      var d := Registered(q);
      d.(blocked := blocked[t := Ticket(q, d.registered[q])])
    }

    predicate CanResolve(q: nat) {
      q in questions && questions[q].Pending?
    }

    function Resolve(q: nat, resolution: Text): Desk {
      this.(questions := questions[q := Resolved(resolution)],
            fired := if q in registered then fired + {registered[q]} else fired,
            registered := registered - {q})
    }

    function Leave(t: nat): Desk {
      this.(blocked := blocked - {t})
    }

    /** Threads and events are lost, questions are durable. */
    function Restart(): Desk {
      this.(registered := map[], fired := {}, owner := map[], blocked := map[])
    }
  }

  datatype Op =
    | Ask(q: nat)
    | Wait(thread: nat, q: nat)
    | Answer(q: nat, resolution: Text)
    | Wake(thread: nat)
    | Timeout(thread: nat)
    | Crash

  predicate Enabled(d: Desk, op: Op) {
    match op
    case Ask(q) => q !in d.questions
    case Wait(t, q) => t !in d.blocked && q in d.questions
    case Answer(q, _) => true
    case Wake(t) => t in d.blocked && d.blocked[t].event in d.fired
    case Timeout(t) => t in d.blocked
    case Crash => true
  }

  function Apply(d: Desk, op: Op): Desk
    requires Enabled(d, op)
  {
    match op
    case Ask(q) => d.Create(q)
    case Wait(t, q) => if d.CanBlock(t, q) then d.Block(t, q) else d
    case Answer(q, resolution) => if d.CanResolve(q) then d.Resolve(q, resolution) else d
    case Wake(t) => d.Leave(t)
    case Timeout(t) => d.Leave(t)
    case Crash => d.Restart()
  }

  /** Every blocked thread holds an event that has fired, or the registered event of a
      question that is still pending; a fired event means its question is resolved. */
  ghost predicate Inv(d: Desk) {
    && (forall q :: q in d.registered ==>
          q in d.questions && d.questions[q].Pending? && d.registered[q] in d.owner && d.owner[d.registered[q]] == q)
    && (forall e :: e in d.fired ==> e in d.owner && d.owner[e] in d.questions && d.questions[d.owner[e]].Resolved?)
    && (forall e :: e in d.owner ==> e < d.nextEvent)
    && (forall t :: t in d.blocked ==> Hears(d, d.blocked[t]))
  }

  predicate Hears(d: Desk, k: Ticket) {
    k.event in d.owner && d.owner[k.event] == k.question &&
    (k.event in d.fired || (k.question in d.registered && d.registered[k.question] == k.event))
  }

  lemma StepKeepsInv(d: Desk, op: Op)
    requires Inv(d) && Enabled(d, op)
    ensures Inv(Apply(d, op))
  {
    forall t | t in Apply(d, op).blocked && t in d.blocked ensures Hears(Apply(d, op), d.blocked[t]) {
      assert Hears(d, d.blocked[t]);
    }
  }

  /** A new question has an event of its own at once; and questions can be answered, and the
      process can end, at any time. */
  lemma NewQuestionHasEvent(d: Desk, q: nat, resolution: Text)
    requires Inv(d) && q !in d.questions
    ensures Enabled(d, Ask(q)) && Enabled(d, Answer(q, resolution)) && Enabled(d, Crash)
    ensures var d1 := Apply(d, Ask(q));
      q in d1.registered && d1.registered[q] !in d.owner && d1.registered[q] !in d1.fired
    ensures var d2 := Apply(Apply(d, Ask(q)), Answer(q, resolution));
      Apply(d, Ask(q)).registered[q] in d2.fired && q !in d2.registered
  {
  }

  ghost predicate Run(states: seq<Desk>, ops: seq<Op>) {
    |states| == |ops| + 1 && states[0] == Desk(map[], map[], {}, map[], map[], 0) &&
    forall i :: 0 <= i < |ops| ==> Enabled(states[i], ops[i]) && states[i + 1] == Apply(states[i], ops[i])
  }

  lemma {:induction false} RunKeepsInv(states: seq<Desk>, ops: seq<Op>, n: nat)
    requires Run(states, ops) && n < |states|
    ensures Inv(states[n])
  {
    if n > 0 {
      RunKeepsInv(states, ops, n - 1);
      StepKeepsInv(states[n - 1], ops[n - 1]);
    }
  }

  /** No wake-up is lost: a blocked thread whose question is resolved can wake, and one that
      wakes finds its question resolved. */
  lemma NoLostWakeUp(states: seq<Desk>, ops: seq<Op>, n: nat, t: nat)
    requires Run(states, ops) && n < |states| && t in states[n].blocked
    ensures var d := states[n];
      d.blocked[t].question in d.questions &&
      (Enabled(d, Wake(t)) <==> d.questions[d.blocked[t].question].Resolved?)
  {
    RunKeepsInv(states, ops, n);
    assert Hears(states[n], states[n].blocked[t]);
  }

  /** The first resolution is final, across answers, cancels, timeouts and restarts. */
  lemma {:induction false} ResolutionIsFinal(states: seq<Desk>, ops: seq<Op>, i: nat, j: nat, q: nat)
    requires Run(states, ops) && i <= j < |states|
    requires q in states[i].questions && states[i].questions[q].Resolved?
    ensures q in states[j].questions && states[j].questions[q] == states[i].questions[q]
    decreases j
  {
    if i < j {
      ResolutionIsFinal(states, ops, i, j - 1, q);
    }
  }

  // ------------------------------------------------- what the operations said

  /** What was said of a question, oldest first: nothing, asked, or answered; only the first
      answer after the asking counts, and restarts forget nothing. */
  function Said(ops: seq<Op>, q: nat): Option<Question> {
    if |ops| == 0 then None
    else
      var op, before := ops[|ops| - 1], Said(ops[..|ops| - 1], q);
      if op == Ask(q) then Some(Pending)
      else if op.Answer? && op.q == q && before == Some(Pending) then Some(Resolved(op.resolution))
      else before
  }

  /** The stored questions are exactly those asked, each as it was said last. */
  lemma {:induction false} QuestionsAreSaid(states: seq<Desk>, ops: seq<Op>, n: nat, q: nat)
    requires Run(states, ops) && n < |states|
    ensures Said(ops[..n], q) == if q in states[n].questions then Some(states[n].questions[q]) else None
  {
    if n > 0 {
      QuestionsAreSaid(states, ops, n - 1, q);
      assert ops[..n][..n - 1] == ops[..n - 1];
    }
  }

  /** The question a thread was last told to wait for and has not left: it is told to only
      while the question is pending, and it leaves by waking, by its deadline, or with the
      process. */
  function WaitsFor(states: seq<Desk>, ops: seq<Op>, n: nat, t: nat): Option<nat>
    requires n <= |ops| < |states|
  {
    if n == 0 then None
    else
      var op, before := ops[n - 1], WaitsFor(states, ops, n - 1, t);
      if op.Wait? && op.thread == t then
        if op.q in states[n - 1].questions && states[n - 1].questions[op.q] == Pending then Some(op.q) else before
      else if op.Crash? || ((op.Wake? || op.Timeout?) && op.thread == t) then None
      else before
  }

  lemma {:induction false} BlockedWaits(states: seq<Desk>, ops: seq<Op>, n: nat, t: nat)
    requires Run(states, ops) && n < |states|
    ensures WaitsFor(states, ops, n, t) ==
            if t in states[n].blocked then Some(states[n].blocked[t].question) else None
  {
    if n > 0 {
      BlockedWaits(states, ops, n - 1, t);
    }
  }

  class HitlStore {
    var questions: map<nat, Question>
    var registered: map<nat, nat>
    var fired: set<nat>
    ghost var owner: map<nat, nat>
    ghost var blocked: map<nat, Ticket>
    var nextEvent: nat

    ghost function View(): Desk
      reads this
    {
      Desk(questions, registered, fired, owner, blocked, nextEvent)
    }

    constructor ()
      ensures View() == Desk(map[], map[], {}, map[], map[], 0)
    {
      questions, registered, fired, nextEvent := map[], map[], {}, 0;
      owner, blocked := map[], map[];
    }

    method CreateHitl(q: nat)
      requires q !in questions
      modifies this
      ensures View() == old(View()).Create(q)
    {
      questions := questions[q := Pending];
      registered := registered[q := nextEvent];
      owner := owner[nextEvent := q];
      nextEvent := nextEvent + 1;
    }

    /** Either the resolution, at once, or the event to wait on. */
    method BeginWait(t: nat, q: nat) returns (resolution: Option<Text>, event: Option<nat>)
      requires t !in blocked
      modifies this
      ensures View() == if old(View()).CanBlock(t, q) then old(View()).Block(t, q) else old(View())
      ensures event.Some? <==> old(View()).CanBlock(t, q)
      ensures event.Some? ==> blocked[t] == Ticket(q, event.value)
      ensures resolution.Some? <==> q in old(questions) && old(questions)[q].Resolved?
      ensures resolution.Some? ==> old(questions)[q] == Resolved(resolution.value)
    {
      if q !in questions {
        return None, None;
      }
      if questions[q].Resolved? {
        return Some(questions[q].resolution), None;
      }
      if q !in registered {
        registered := registered[q := nextEvent];
        owner := owner[nextEvent := q];
        nextEvent := nextEvent + 1;
      }
      blocked := blocked[t := Ticket(q, registered[q])];
      return None, Some(registered[q]);
    }

    /** After waking. The source's check that the question is there and resolved cannot fail. */
    method EndWait(t: nat, q: nat) returns (resolution: Option<Text>)
      requires Inv(View()) && t in blocked && blocked[t].question == q && blocked[t].event in fired
      modifies this
      ensures View() == old(View()).Leave(t)
      ensures resolution.Some? && q in questions && questions[q] == Resolved(resolution.value)
    {
      assert Hears(View(), blocked[t]);
      blocked := blocked - {t};
      resolution := if q in questions && questions[q].Resolved? then Some(questions[q].resolution) else None;
    }

    /** Compare and set: only a pending question can be resolved. */
    method ResolveHitlCas(q: nat, resolution: Text) returns (ok: bool)
      modifies this
      ensures ok == old(View()).CanResolve(q)
      ensures View() == if ok then old(View()).Resolve(q, resolution) else old(View())
    {
      if q !in questions || questions[q].Resolved? {
        return false;
      }
      questions := questions[q := Resolved(resolution)];
      if q in registered {
        fired := fired + {registered[q]};
        registered := registered - {q};
      }
      return true;
    }
  }
}
