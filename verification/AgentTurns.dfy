/** Frames that nodes send about delegated turns (manage/workgroup/vertical.py:78-188, 331-412,
    518-608; manage/workgroup/store.py:984-1025): which events and results still count, and the
    hand-over of a result to the thread that waits for it. */
module AgentTurns {
  import opened AssignmentService
  import opened Assignments
  import opened Shared

  // -------------------------------------------------------------- event cursor

  /** The stream epoch and the last number taken from it; None is the blank epoch. */
  datatype Cursor = Cursor(epoch: Option<nat>, last: nat)

  /** number is 0 for an event without one. */
  datatype Numbered = Numbered(number: nat, epoch: Option<nat>)

  predicate NewEpoch(c: Cursor, e: Numbered) {
    e.epoch.Some? && e.epoch != c.epoch
  }

  predicate Taken(c: Cursor, e: Numbered) {
    e.number == 0 || NewEpoch(c, e) || e.number > c.last
  }

  function Advanced(c: Cursor, e: Numbered): Cursor {
    if e.number == 0 || !Taken(c, e) then c
    else Cursor(if e.epoch.Some? then e.epoch else c.epoch, e.number)
  }

  function CursorAfter(c: Cursor, events: seq<Numbered>): Cursor {
    if |events| == 0 then c else Advanced(CursorAfter(c, events[..|events| - 1]), events[|events| - 1])
  }

  predicate TakenAt(c: Cursor, events: seq<Numbered>, i: nat)
    requires i < |events|
  {
    events[i].number > 0 && Taken(CursorAfter(c, events[..i]), events[i])
  }

  /** Event k changes the epoch. A blank epoch never does. */
  predicate OpensEpoch(c: Cursor, events: seq<Numbered>, k: nat)
    requires k < |events|
  {
    NewEpoch(CursorAfter(c, events[..k]), events[k])
  }

  /** Behind a taken event, and as long as none opens another epoch, the cursor only rises. */
  lemma {:induction false} CursorRises(c: Cursor, events: seq<Numbered>, i: nat, j: nat)
    requires i < j <= |events| && TakenAt(c, events, i)
    requires forall k :: i < k < j ==> !OpensEpoch(c, events, k)
    ensures CursorAfter(c, events[..j]).last >= events[i].number
    decreases j
  {
    assert events[..j][..j - 1] == events[..j - 1];
    if j > i + 1 {
      CursorRises(c, events, i, j - 1);
      assert !OpensEpoch(c, events, j - 1);
    }
  }

  /** Of two numbered events that are both taken, the later has the greater number unless an
      event up to it opened another epoch; so within an epoch none is taken twice. */
  lemma TakenInOrder(c: Cursor, events: seq<Numbered>, i: nat, j: nat)
    requires i < j < |events| && TakenAt(c, events, i) && TakenAt(c, events, j)
    ensures events[i].number < events[j].number || exists k :: i < k <= j && OpensEpoch(c, events, k)
  {
    if forall k :: i < k <= j ==> !OpensEpoch(c, events, k) {
      CursorRises(c, events, i, j);
      assert !OpensEpoch(c, events, j);
    } else {
      var k :| i < k <= j && OpensEpoch(c, events, k);
    }
  }

  predicate Within(c: Cursor, events: seq<Numbered>, n: nat)
    requires n <= |events|
  {
    forall k :: 0 <= k < n ==> events[k].number > 0 && events[k].epoch in {None, c.epoch}
  }

  /** While no event names another epoch, the cursor is the greatest number so far. */
  lemma {:induction false} CursorIsGreatest(c: Cursor, events: seq<Numbered>, n: nat)
    requires n <= |events| && Within(c, events, n)
    ensures var after := CursorAfter(c, events[..n]);
      && after.epoch == c.epoch && after.last >= c.last
      && (forall k :: 0 <= k < n ==> events[k].number <= after.last)
      && (after.last == c.last || exists k :: 0 <= k < n && events[k].number == after.last)
  {
    if n > 0 {
      CursorIsGreatest(c, events, n - 1);
      assert events[..n][..n - 1] == events[..n - 1];
    }
  }

  /** Then an event is taken exactly when its number exceeds the old cursor and every number
      before it, taken or not. */
  lemma TakenExactly(c: Cursor, events: seq<Numbered>, i: nat)
    requires i < |events| && Within(c, events, i + 1)
    ensures TakenAt(c, events, i) <==>
      events[i].number > c.last && forall k :: 0 <= k < i ==> events[k].number < events[i].number
  {
    CursorIsGreatest(c, events, i);
  }

  /** An event of another epoch is always taken, and numbers count from it again. */
  lemma OtherEpochTaken(c: Cursor, e: Numbered, next: Numbered)
    requires e.number > 0 && e.epoch.Some? && e.epoch != c.epoch
    requires next.number > 0 && next.epoch in {None, e.epoch}
    ensures Taken(c, e) && (Taken(Advanced(c, e), next) <==> next.number > e.number)
  {
  }

  /** An event without a number is always taken and moves nothing. */
  lemma UnnumberedTaken(c: Cursor, e: Numbered)
    requires e.number == 0
    ensures Taken(c, e) && Advanced(c, e) == c
  {
  }

  /** An epoch that comes back starts over: the same event is taken twice. */
  lemma ReturningEpochRepeats(c: Cursor, a: nat, b: nat, n: nat)
    requires a != b && n > 0 && c.epoch == Some(a) && c.last < n
    ensures var events := [Numbered(n, Some(a)), Numbered(1, Some(b)), Numbered(n, Some(a))];
      TakenAt(c, events, 0) && TakenAt(c, events, 1) && TakenAt(c, events, 2)
  {
    var events := [Numbered(n, Some(a)), Numbered(1, Some(b)), Numbered(n, Some(a))];
    assert events[..1] == [events[0]] && events[..2] == [events[0], events[1]];
    assert events[..1][..0] == [] && events[..2][..1] == events[..1];
    assert CursorAfter(c, events[..1]) == Cursor(Some(a), n);
    assert CursorAfter(c, events[..2]) == Cursor(Some(b), 1);
  }

  // ------------------------------------------------------------ the hand-over

  datatype Ending = EndedWell | EndedAwaiting | EndedCanceled | EndedOtherwise

  datatype TurnResult = TurnResult(ending: Ending, text: Option<Text>, message: Option<Text>, code: Option<Text>)

  /** What happened to the turns, oldest first. A thread that times out leaves without its
      result; one that is woken takes it. */
  datatype Happening =
    | Started(assign: nat)
    | Signalled(assign: nat, result: TurnResult)
    | TimedOut(assign: nat)
    | Woken(assign: nat)

  predicate Waiting(log: seq<Happening>, a: nat) {
    |log| > 0 &&
    var e, before := log[|log| - 1], log[..|log| - 1];
    if e.assign != a || e.Signalled? then Waiting(before, a) else e.Started?
  }

  /** Signalled since the thread began to wait. */
  predicate Awake(log: seq<Happening>, a: nat) {
    |log| > 0 &&
    var e, before := log[|log| - 1], log[..|log| - 1];
    if e.assign != a then Awake(before, a)
    else match e
      case Started(_) => Awake(before, a)
      case Signalled(_, _) => Waiting(before, a)
      case _ => false
  }

  /** The last result not yet taken. */
  function Mail(log: seq<Happening>, a: nat): Option<TurnResult> {
    if |log| == 0 then None
    else
      var e, before := log[|log| - 1], log[..|log| - 1];
      if e.assign != a || e.Started? || e.TimedOut? then Mail(before, a)
      else if e.Signalled? then Some(e.result)
      else None
  }

  lemma {:induction false} AwakeHasMail(log: seq<Happening>, a: nat)
    requires Awake(log, a)
    ensures Waiting(log, a) && Mail(log, a).Some?
    decreases |log|
  {
    var e, before := log[|log| - 1], log[..|log| - 1];
    if e.assign != a || e.Started? {
      AwakeHasMail(before, a);
    }
  }

  lemma Last(log: seq<Happening>, e: Happening)
    ensures (log + [e])[..|log|] == log && (log + [e])[|log|] == e
  {
  }

  /** A signal wakes the turn's thread exactly when the thread had begun to wait: an earlier
      one, say of a cancel, leaves mail that nobody is told of. */
  lemma SignalWakes(log: seq<Happening>, a: nat, r: TurnResult)
    ensures Awake(log + [Signalled(a, r)], a) <==> Waiting(log, a)
    ensures !Waiting(log, a) ==>
      var later := log + [Signalled(a, r)] + [Started(a)];
      Waiting(later, a) && !Awake(later, a) && Mail(later, a) == Some(r)
  {
    var once := log + [Signalled(a, r)];
    Last(log, Signalled(a, r));
    Last(once, Started(a));
  }

  // ------------------------------------------------------------- result frames

  datatype Binding = Binding(workgroup: nat, member: nat, childTurn: nat, attempt: nat)

  /** A frame may leave out its turn and attempt. */
  datatype Address = Address(workgroup: nat, member: nat, childTurn: Option<nat>, attempt: Option<nat>)

  predicate Fits(b: Binding, to: Address) {
    to.workgroup == b.workgroup && to.member == b.member &&
    to.childTurn in {None, Some(b.childTurn)} && to.attempt in {None, Some(b.attempt)}
  }

  /** A frame that names its turn and attempt fits exactly one binding; one that leaves them
      out fits every turn of its member. */
  lemma AddressFits(b: Binding, workgroup: nat, member: nat, turn: nat, attempt: nat)
    ensures Fits(b, Address(workgroup, member, Some(turn), Some(attempt))) <==> b == Binding(workgroup, member, turn, attempt)
    ensures Fits(b, Address(workgroup, member, None, None)) <==> b == Binding(workgroup, member, b.childTurn, b.attempt)
    ensures Fits(b, Address(workgroup, member, Some(turn), None)) <==> b == Binding(workgroup, member, turn, b.attempt)
    ensures Fits(b, Address(workgroup, member, None, Some(attempt))) <==> b == Binding(workgroup, member, b.childTurn, attempt)
  {
  }

  /** An answer that awaits more input is stored as failed, although its text is published. */
  function StoredStatus(ending: Ending): AssignStatus {
    match ending
    case EndedWell => Succeeded
    case EndedCanceled => Canceled
    case _ => Failed
  }

  /** Endings that the waiting assign takes as an answer. */
  predicate AnswersCaller(ending: Ending) {
    ending.EndedWell? || ending.EndedAwaiting?
  }

  predicate Publishes(r: TurnResult) {
    r.text.Some? && (r.ending.EndedWell? || r.ending.EndedAwaiting?)
  }

  /** The stored status and the answer to the waiting assign disagree exactly for an ending
      that awaits input; published without success is exactly such an ending with a text. */
  lemma StoredAgainstAnswered(r: TurnResult)
    ensures AnswersCaller(r.ending) != (StoredStatus(r.ending) == Succeeded) <==> r.ending.EndedAwaiting?
    ensures Publishes(r) && StoredStatus(r.ending) != Succeeded <==> r.ending.EndedAwaiting? && r.text.Some?
    ensures StoredStatus(r.ending) == Canceled <==> r.ending.EndedCanceled?
    ensures !Active(StoredStatus(r.ending))
  {
  }

  /** Such a result, on any store: its text is published and returned to the dispatcher, which
      reports the assign as failed. */
  lemma AwaitingAnswerReportedFailed(s: Store, m: nat, text: Text, code: Text)
    requires Inv(s) && s.CanCreate(m)
    ensures var r, a := TurnResult(EndedAwaiting, Some(text), None, None), s.nextAssign;
      var created := s.Create(m);
      a in created.assigns &&
      var looked := created.Finish(a, StoredStatus(r.ending), SummaryOf(r), CodeOf(r, code));
      Publishes(r) && AnswersCaller(r.ending) && a in looked.assigns &&
      ReportedStatus(looked, a, Returned(text)) == Failed
  {
    CreateKeepsInv(s, m);
  }

  class TurnInbox {
    const store: WorkGroupStore
    var bindings: map<nat, Binding>
    var cursors: map<nat, Cursor>
    var finals: seq<nat>
    var waiters: map<nat, bool>
    var results: map<nat, TurnResult>
    ghost var log: seq<Happening>

    /** waiters and results say what the log says. */
    ghost predicate Valid()
      reads this
    {
      (forall a :: a in waiters <==> Waiting(log, a)) &&
      (forall a :: a in waiters ==> waiters[a] == Awake(log, a)) &&
      (forall a :: Mail(log, a) == if a in results then Some(results[a]) else None)
    }

    constructor (store: WorkGroupStore)
      ensures Valid() && this.store == store && log == [] && finals == []
    {
      this.store := store;
      bindings, cursors, finals, waiters, results, log := map[], map[], [], map[], map[], [];
    }

    method StartTurn(a: nat)
      requires Valid()
      modifies this`waiters, this`log
      ensures Valid() && log == old(log) + [Started(a)]
    {
      Effect(log, Started(a));
      if a !in waiters {
        NotWaitingNotAwake(log, a);
        waiters := waiters[a := false];
      }
      log := log + [Started(a)];
    }

    method Signal(a: nat, r: TurnResult)
      requires Valid()
      modifies this`waiters, this`results, this`log
      ensures Valid() && log == old(log) + [Signalled(a, r)]
    {
      Effect(log, Signalled(a, r));
      results := results[a := r];
      if a in waiters {
        waiters := waiters[a := true];
      }
      log := log + [Signalled(a, r)];
    }

    /** The waiting thread after its deadline. */
    method GiveUp(a: nat)
      requires Valid()
      modifies this`waiters, this`log
      ensures Valid() && log == old(log) + [TimedOut(a)]
    {
      Effect(log, TimedOut(a));
      waiters := waiters - {a};
      log := log + [TimedOut(a)];
    }

    /** The waiting thread after its event is set: the result cannot be missing. */
    method TakeResult(a: nat) returns (r: TurnResult)
      requires Valid() && a in waiters && waiters[a]
      modifies this`waiters, this`results, this`log
      ensures Valid() && log == old(log) + [Woken(a)]
      ensures Mail(old(log), a) == Some(r)
    {
      AwakeHasMail(log, a);
      Effect(log, Woken(a));
      r := results[a];
      results := results - {a};
      waiters := waiters - {a};
      log := log + [Woken(a)];
    }

    method AdvanceEventCursor(a: nat, e: Numbered) returns (taken: bool)
      requires a in cursors
      modifies this`cursors
      ensures taken == Taken(old(cursors)[a], e)
      ensures cursors == old(cursors)[a := Advanced(old(cursors)[a], e)]
    {
      if e.number == 0 {
        return true;
      }
      var c := cursors[a];
      if e.epoch.Some? && e.epoch != c.epoch {
        cursors := cursors[a := Cursor(e.epoch, e.number)];
        return true;
      }
      if e.number <= c.last {
        return false;
      }
      cursors := cursors[a := Cursor(if e.epoch.Some? then e.epoch else c.epoch, e.number)];
      return true;
    }

    ghost predicate Counts(a: nat, to: Address)
      reads this, store
    {
      a in store.assigns && a in bindings && Fits(bindings[a], to) && Active(store.assigns[a].status)
    }

    /** A result frame finishes its assign and wakes its thread exactly when it fits the turn
        and the assign is still active; any other changes nothing. */
    method HandleResult(a: nat, to: Address, r: TurnResult, code: Text)
      requires Valid() && Inv(store.View())
      modifies this`finals, this`waiters, this`results, this`log, store
      ensures Valid() && Inv(store.View())
      ensures !old(Counts(a, to)) ==>
        store.View() == old(store.View()) && finals == old(finals) && log == old(log)
      ensures old(Counts(a, to)) ==>
        store.View() == old(store.View()).Finish(a, StoredStatus(r.ending), SummaryOf(r), CodeOf(r, code)) &&
        log == old(log) + [Signalled(a, r)] && !Active(store.assigns[a].status) &&
        finals == if Publishes(r) && a !in old(finals) then old(finals) + [a] else old(finals)
    {
      if a !in store.assigns || a !in bindings || !Fits(bindings[a], to) {
        return;
      }
      if !Active(store.assigns[a].status) {
        return;
      }
      if Publishes(r) {
        if a !in finals {
          finals := finals + [a];
        }
      }
      FinishKeepsInv(store.View(), a, StoredStatus(r.ending), SummaryOf(r), CodeOf(r, code));
      var _ := store.Finish(a, StoredStatus(r.ending), SummaryOf(r), CodeOf(r, code));
      Signal(a, r);
    }
  }

  function SummaryOf(r: TurnResult): Option<Text> {
    if r.text.Some? then r.text else r.message
  }

  function CodeOf(r: TurnResult, otherwise: Text): Option<Text> {
    if r.ending.EndedWell? then None else if r.code.Some? then r.code else Some(otherwise)
  }

  /** What a counted result leaves in its assign: the text, or the message if there is none;
      an error code exactly if it did not end well, its own if it has one. */
  lemma ResultStored(s: Store, a: nat, r: TurnResult, code: Text)
    requires a in s.assigns && Active(s.assigns[a].status)
    ensures var after := s.Finish(a, StoredStatus(r.ending), SummaryOf(r), CodeOf(r, code)).assigns[a];
      && after.member == s.assigns[a].member
      && (r.text.Some? ==> after.summary == r.text)
      && (r.text.None? && r.message.Some? ==> after.summary == r.message)
      && (r.text.None? && r.message.None? ==> after.summary == s.assigns[a].summary)
      && (after.error.None? <==> after.status == Succeeded)
      && (after.error.Some? ==> after.error == if r.code.Some? then r.code else Some(code))
  {
  }

  /** After the first result counted, no later frame of that assign counts, whatever else
      happens to the store. */
  lemma LateResultsNeverCount(s: Store, a: nat, r: TurnResult, code: Text, ops: seq<Op>)
    requires Inv(s) && a in s.assigns
    ensures var t := s.Finish(a, StoredStatus(r.ending), SummaryOf(r), CodeOf(r, code));
      a in ApplyAll(t, ops).assigns && ApplyAll(t, ops).assigns[a] == t.assigns[a] && !Active(t.assigns[a].status)
  {
    var status, summary, error := StoredStatus(r.ending), SummaryOf(r), CodeOf(r, code);
    FinishKeepsInv(s, a, status, summary, error);
    RunKeepsFinished(s.Finish(a, status, summary, error), ops, a);
  }

  lemma NotWaitingNotAwake(log: seq<Happening>, a: nat)
    ensures !Waiting(log, a) ==> !Awake(log, a)
  {
    if Awake(log, a) {
      AwakeHasMail(log, a);
    }
  }

  /** One happening changes the three views of its own assign only. */
  lemma Effect(log: seq<Happening>, e: Happening)
    ensures forall a {:trigger Waiting(log + [e], a)} ::
      Waiting(log + [e], a) == (if e.assign != a || e.Signalled? then Waiting(log, a) else e.Started?)
    ensures forall a {:trigger Awake(log + [e], a)} ::
      Awake(log + [e], a) == (if e.assign != a || e.Started? then Awake(log, a) else e.Signalled? && Waiting(log, a))
    ensures forall a {:trigger Mail(log + [e], a)} ::
      Mail(log + [e], a) ==
        (if e.assign != a || e.Started? || e.TimedOut? then Mail(log, a)
         else if e.Signalled? then Some(e.result)
         else None)
  {
    Last(log, e);
  }
}
