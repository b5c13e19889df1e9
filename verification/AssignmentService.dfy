/** The assign lifecycle as the services run it (manage/workgroup/assignment_service.py:45-128,
    manage/workgroup/native_tools.py:194-338). */
module AssignmentService {
  import opened Assignments
  import opened Shared

  /** What became of the code that carries out an assign. */
  datatype Completion =
    | Returned(summary: Text)
    | Refused(code: Text, message: Text)
    | Crashed(message: Text)
    | Interrupted

  /** What the dispatcher tells the leader. Without an error code the status stands in for it. */
  datatype Report =
    | NotCreated
    | Reported(assign: nat, status: AssignStatus, summary: Text, error: Option<Text>)
    | Reraised(assign: nat)

  /** The fixed texts of the dispatcher. */
  datatype Wording = Wording(interrupted: Text, canceledCode: Text, conflictCode: Text, canceled: Text, finished: Text)

  /** How the dispatcher finishes an assign. */
  function EndStatus(completion: Completion): AssignStatus {
    if completion.Returned? then Succeeded else Failed
  }

  /** What it reports of an assign it last saw in the store looked. */
  function ReportedStatus(looked: Store, a: nat, completion: Completion): AssignStatus
    requires a in looked.assigns
  {
    if Active(looked.assigns[a].status) then EndStatus(completion) else looked.assigns[a].status
  }

  function SummaryGiven(completion: Completion, w: Wording): Text {
    match completion
    case Returned(summary) => summary
    case Refused(_, message) => message
    case Crashed(message) => message
    case Interrupted => w.interrupted
  }

  function ErrorGiven(completion: Completion, w: Wording): Option<Text> {
    match completion
    case Returned(_) => None
    case Refused(code, _) => Some(code)
    case Crashed(_) => Some(w.conflictCode)
    case Interrupted => Some(w.canceledCode)
  }

  /** What is reported of an assign that someone else finished: its own summary and error, and
      where it has none what the completer left. */
  function ReportOfFinished(a: nat, known: Assign, completion: Completion, w: Wording): Report {
    var summary :=
      if known.summary.Some? then known.summary.value
      else if !completion.Returned? then SummaryGiven(completion, w)
      else if known.status.Canceled? then w.canceled else w.finished;
    var error :=
      if known.status.Succeeded? then None
      else if known.error.Some? then known.error else ErrorGiven(completion, w);
    Reported(a, known.status, summary, error)
  }

  /** How an assign stands that nobody but the dispatcher finished. */
  predicate EndsAs(assign: Assign, m: nat, completion: Completion, w: Wording) {
    match completion
    case Returned(summary) => assign == Assign(m, Succeeded, Some(summary), None)
    case Refused(code, message) => assign == Assign(m, Failed, Some(message), Some(code))
    case Crashed(message) => assign == Assign(m, Failed, Some(message), Some(w.conflictCode))
    case Interrupted => assign == Assign(m, Failed, Some(w.interrupted), Some(w.canceledCode))
  }

  /** The leader is told what the assign says. */
  predicate Tells(report: Report, a: nat, assign: Assign) {
    report.Reported? && report.assign == a && report.status == assign.status &&
    assign.summary == Some(report.summary) && report.error == assign.error
  }

  /** A cancel between the dispatcher's last look and its own finish: success is reported and
      a canceled assign is stored. */
  lemma RacingCancelMisreported(s: Store, m: nat, reason: Text, summary: Text)
    requires Inv(s) && s.CanCreate(m)
    ensures var a, looked := s.nextAssign, s.Create(m);
      var raced := ApplyAll(looked, [FinishWith(a, Canceled, Some(reason), None)]);
      a in looked.assigns && ReportedStatus(looked, a, Returned(summary)) == Succeeded &&
      a in raced.assigns && raced.Finish(a, Succeeded, Some(summary), None).assigns[a].status == Canceled
  {
    CreateKeepsInv(s, m);
    var looked, op := s.Create(m), FinishWith(s.nextAssign, Canceled, Some(reason), None);
    assert [op][..0] == [];
    assert ApplyAll(looked, [op][..0]) == looked;
  }

  /** The store after finishing the assigns of order, one by one, as canceled. */
  function CancelEach(s: Store, order: seq<nat>, reason: Option<Text>, error: Option<Text>): (r: Store)
    requires forall a :: a in order ==> a in s.assigns
    ensures r.assigns.Keys == s.assigns.Keys
  {
    if |order| == 0 then s
    else
      var n := |order| - 1;
      CancelEach(s, order[..n], reason, error).Finish(order[n], Canceled, reason, error)
  }

  predicate NoRepeats(order: seq<nat>) {
    forall i, j :: 0 <= i < j < |order| ==> order[i] != order[j]
  }

  /** Exactly the assigns of order changed: each is canceled, with one new event. */
  ghost predicate OnlyCanceled(before: Store, after: Store, order: seq<nat>, reason: Option<Text>, error: Option<Text>) {
    && after.assigns.Keys == before.assigns.Keys
    && (forall a :: a in before.assigns ==>
          after.assigns[a] == (if a in order then before.Updated(a, Canceled, reason, error) else before.assigns[a]))
    && after.finished == before.finished + order
  }

  lemma {:induction false} CancelEachCancels(s: Store, order: seq<nat>, reason: Option<Text>, error: Option<Text>)
    requires Inv(s) && NoRepeats(order)
    requires forall a :: a in order ==> a in s.assigns && Active(s.assigns[a].status)
    ensures Inv(CancelEach(s, order, reason, error))
    ensures OnlyCanceled(s, CancelEach(s, order, reason, error), order, reason, error)
  {
    if |order| > 0 {
      var n := |order| - 1;
      var before := CancelEach(s, order[..n], reason, error);
      CancelEachCancels(s, order[..n], reason, error);
      FinishKeepsInv(before, order[n], Canceled, reason, error);
      assert order[n] in order && order == order[..n] + [order[n]];
      assert before.assigns[order[n]] == s.assigns[order[n]];
      assert before.Finish(order[n], Canceled, reason, error).finished == s.finished + order;
    }
  }

  class WorkGroupStore {
    var members: map<nat, Member>
    var assigns: map<nat, Assign>
    var finished: seq<nat>
    var nextAssign: nat

    function View(): Store
      reads this
    {
      Store(members, assigns, finished, nextAssign)
    }

    constructor ()
      ensures View() == EMPTY
    {
      members, assigns, finished, nextAssign := map[], map[], [], 0;
    }

    method CreateAssign(m: nat) returns (r: Result<nat>)
      modifies this
      ensures r.Ok? <==> old(View()).CanCreate(m)
      ensures r.Ok? ==> r.value == old(nextAssign) && View() == old(View()).CreateAssign(m)
      ensures !r.Ok? ==> View() == old(View())
    {
      if m !in members {
        return NotFound;
      }
      var member := members[m];
      if member.status == Archived || member.status == Error {
        return Conflict;
      }
      if exists a :: a in assigns && assigns[a].member == m && Active(assigns[a].status) {
        return Conflict;
      }
      var a := nextAssign;
      nextAssign := nextAssign + 1;
      assigns := assigns[a := Assign(m, Queued, None, None)];
      var status := if member.status.Ready? then Busy else member.status;
      members := members[m := Member(status, Some(a))];
      return Ok(a);
    }

    method SetAssignStatus(a: nat, status: AssignStatus, summary: Option<Text>, error: Option<Text>)
      returns (r: Result<Assign>)
      modifies this
      ensures r.Ok? <==> a in old(assigns)
      ensures r.Ok? ==> View() == old(View()).SetAssignStatus(a, status, summary, error) && r.value == assigns[a]
      ensures !r.Ok? ==> View() == old(View())
    {
      if a !in assigns {
        return NotFound;
      }
      var updated := assigns[a].(status := status);
      if summary.Some? {
        updated := updated.(summary := summary);
      }
      if error.Some? || !Active(status) {
        updated := updated.(error := error);
      }
      assigns := assigns[a := updated];
      if !Active(status) && updated.member in members {
        var member := members[updated.member];
        if member.active == Some(a) {
          var freed := if member.status.Archived? || member.status.Error? then member.status else Ready;
          members := members[updated.member := Member(freed, None)];
        }
      }
      return Ok(updated);
    }

    method MarkMemberStatus(m: nat, status: MemberStatus) returns (found: bool)
      modifies this
      ensures found == (m in old(members))
      ensures View() == if found then old(View()).MarkMember(m, status) else old(View())
    {
      if m !in members {
        return false;
      }
      if members[m].status != Archived || status == Archived {
        members := members[m := members[m].(status := status)];
      }
      return true;
    }

    method Create(m: nat) returns (r: Result<nat>)
      modifies this
      ensures r.Ok? <==> old(View()).CanCreate(m)
      ensures r.Ok? ==> r.value == old(nextAssign) && View() == old(View()).Create(m)
      ensures !r.Ok? ==> View() == old(View())
    {
      r := CreateAssign(m);
      if r.Ok? {
        var _ := SetAssignStatus(r.value, Running, None, None);
      }
    }

    /** A terminal assign is returned as it is. */
    method Finish(a: nat, status: AssignStatus, summary: Option<Text>, error: Option<Text>)
      returns (r: Result<Assign>)
      modifies this
      ensures r.Ok? <==> a in old(assigns)
      ensures r.Ok? ==> View() == old(View()).Finish(a, status, summary, error) && r.value == assigns[a]
      ensures !r.Ok? ==> View() == old(View())
    {
      if a !in assigns {
        return NotFound;
      }
      if !Active(assigns[a].status) {
        return Ok(assigns[a]);
      }
      r := SetAssignStatus(a, status, summary, error);
      if !Active(status) {
        if a !in finished {
          finished := finished + [a];
        }
      }
    }

    /** Cancels the selected active assigns, in any order, and nothing else. */
    method CancelActive(selected: set<nat>, reason: Option<Text>, error: Option<Text>) returns (canceled: seq<nat>)
      requires Inv(View())
      modifies this
      ensures Inv(View()) && NoRepeats(canceled)
      ensures forall a :: a in canceled <==> a in old(assigns) && a in selected && Active(old(assigns[a].status))
      ensures OnlyCanceled(old(View()), View(), canceled, reason, error)
    {
      var todo := set a | a in assigns && a in selected && Active(assigns[a].status);
      ghost var all, before := todo, View();
      canceled := [];
      while todo != {}
        invariant NoRepeats(canceled) && forall a :: a in canceled <==> a in all && a !in todo
        invariant todo <= all <= before.assigns.Keys
        invariant View() == CancelEach(before, canceled, reason, error)
        decreases |todo|
      {
        var a :| a in todo;
        assert (canceled + [a])[..|canceled|] == canceled;
        var _ := Finish(a, Canceled, reason, error);
        canceled := canceled + [a];
        todo := todo - {a};
      }
      CancelEachCancels(before, canceled, reason, error);
    }

    /** Other threads: each operation is applied if the store accepts it. */
    method Interfere(ops: seq<Op>)
      modifies this
      ensures View() == ApplyAll(old(View()), ops)
    {
      for i := 0 to |ops|
        invariant View() == ApplyAll(old(View()), ops[..i])
      {
        assert ops[..i + 1][..i] == ops[..i];
        var s := View();
        if Enabled(s, ops[i]) {
          s := Apply(s, ops[i]);
          members, assigns, finished, nextAssign := s.members, s.assigns, s.finished, s.nextAssign;
        }
      }
      assert ops[..|ops|] == ops;
    }

    /** Runs one delegated task. during is what other threads do while the completer works;
        race is what they do between the dispatcher's last look at the assign and its own
        finish. Whatever the completer does, the assign ends terminal with one event and
        its member is free. The report is the stored status exactly when the race did not
        finish the assign with another status first. */
    method DispatchAssign(m: nat, completion: Completion, during: seq<Op>, race: seq<Op>,
                          w: Wording)
      returns (report: Report, ghost looked: Store, ghost raced: Store)
      requires Inv(View())
      modifies this
      ensures Inv(View())
      ensures report.NotCreated? <==> !old(View()).CanCreate(m)
      ensures report.NotCreated? ==> View() == old(View())
      ensures !report.NotCreated? ==>
        var a := report.assign;
        && a == old(nextAssign)
        && looked == ApplyAll(old(View()).Create(m), during) && a in looked.assigns
        && raced == ApplyAll(looked, race) && a in raced.assigns
        && a in assigns && assigns[a].member == m && !Active(assigns[a].status)
        && (m in members ==> members[m].active != Some(a))
        && (Active(raced.assigns[a].status) ==> finished == raced.finished + [a])
        && (if Active(raced.assigns[a].status) then EndsAs(assigns[a], m, completion, w)
            else assigns[a] == raced.assigns[a])
        && (Active(raced.assigns[a].status) && !completion.Interrupted? ==> Tells(report, a, assigns[a]))
      ensures report.Reported? ==>
        var a, known := report.assign, looked.assigns[report.assign];
        !Active(known.status) ==>
          && report.status == known.status
          && (known.summary.Some? ==> report.summary == known.summary.value)
          && (known.summary.None? && completion.Returned? ==>
                report.summary == if known.status == Canceled then w.canceled else w.finished)
          && (known.status == Succeeded ==> report.error == None)
          && (known.status != Succeeded && known.error.Some? ==> report.error == known.error)
          && (known.status != Succeeded && known.error.None? ==>
                match completion
                case Returned(_) => report.error == None
                case Refused(code, _) => report.error == Some(code)
                case Crashed(_) => report.error == Some(w.conflictCode)
                case Interrupted => true)
          && (known.summary.None? && !completion.Returned? ==> completion.Interrupted? || report.summary == completion.message)
      ensures report.Reraised? <==> completion.Interrupted? && !report.NotCreated?
      ensures report.Reported? ==>
        var a := report.assign;
        && report.status == ReportedStatus(looked, a, completion)
        && (report.status == assigns[a].status <==>
              Active(raced.assigns[a].status) || raced.assigns[a].status == report.status)
    {
      var created := Create(m);
      looked, raced := View(), View();
      if !created.Ok? {
        return NotCreated, looked, raced;
      }
      var a := created.value;
      CreateKeepsInv(old(View()), m);
      ghost var s := View();
      Interfere(during);
      looked := View();
      RunKeepsInv(s, during);
      RunKeepsFinished(s, during, a);
      var known := assigns[a];
      Interfere(race);
      raced := View();
      RunKeepsInv(looked, race);
      RunKeepsFinished(looked, race, a);
      if completion.Interrupted? {
        FinishKeepsInv(raced, a, Failed, Some(w.interrupted), Some(w.canceledCode));
        var _ := Finish(a, Failed, Some(w.interrupted), Some(w.canceledCode));
        return Reraised(a), looked, raced;
      }
      if !Active(known.status) {
        return ReportOfFinished(a, known, completion, w), looked, raced;
      }
      var status := EndStatus(completion);
      var summary, error := SummaryGiven(completion, w), ErrorGiven(completion, w);
      FinishKeepsInv(raced, a, status, Some(summary), error);
      var _ := Finish(a, status, Some(summary), error);
      return Reported(a, status, summary, error), looked, raced;
    }
  }
}
