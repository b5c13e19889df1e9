/** Assigns and member occupancy (manage/workgroup/store.py:573-646, 904-982;
    manage/workgroup/assignment_service.py:21-128). Store methods hold one lock and are one
    step each; a service call, which makes several store calls, is one step here too. A
    restart (manage/workgroup/store.py:1159-1204) is a step as well. */
module Assignments {
  import opened Shared

  datatype Result<T> = Ok(value: T) | NotFound | Conflict

  datatype AssignStatus = Queued | Running | AwaitingHitl | Succeeded | Failed | Canceled | Indeterminate

  predicate Active(status: AssignStatus) {
    status.Queued? || status.Running? || status.AwaitingHitl?
  }

  datatype MemberStatus = Provisioning | Ready | Busy | Archived | Error

  datatype Member = Member(status: MemberStatus, active: Option<nat>)

  datatype Assign = Assign(member: nat, status: AssignStatus, summary: Option<Text>, error: Option<Text>)

  /** finished lists the assign_finished events of the Timeline, by assign id. */
  datatype Store = Store(members: map<nat, Member>, assigns: map<nat, Assign>, finished: seq<nat>, nextAssign: nat) {

    predicate HasActive(m: nat) {
      exists a :: a in assigns && assigns[a].member == m && Active(assigns[a].status)
    }

    predicate CanCreate(m: nat) {
      m in members && members[m].status != Archived && members[m].status != Error && !HasActive(m)
    }

    /** A new assign is queued and occupies its member at once. */
    function CreateAssign(m: nat): Store
      requires m in members
    {
      var member := members[m];
      this.(assigns := assigns[nextAssign := Assign(m, Queued, None, None)],
            members := members[m := Member(if member.status.Ready? then Busy else member.status, Some(nextAssign))],
            nextAssign := nextAssign + 1)
    }

    function Updated(a: nat, status: AssignStatus, summary: Option<Text>, error: Option<Text>): Assign
      requires a in assigns
    {
      var old1 := assigns[a];
      Assign(old1.member, status, if summary.Some? then summary else old1.summary,
             if error.Some? || !Active(status) then error else old1.error)
    }

    function Released(m: nat): Member
      requires m in members
    {
      Member(if members[m].status.Archived? || members[m].status.Error? then members[m].status else Ready, None)
    }

    /** Writes the status whatever it was before; a terminal one frees the member. */
    function SetAssignStatus(a: nat, status: AssignStatus, summary: Option<Text>, error: Option<Text>): Store
      requires a in assigns
    {
      var m := assigns[a].member;
      var s := this.(assigns := assigns[a := Updated(a, status, summary, error)]);
      if !Active(status) && m in members && members[m].active == Some(a)
      then s.(members := members[m := Released(m)]) else s
    }

    function Create(m: nat): Store
      requires m in members
    {
      CreateAssign(m).SetAssignStatus(nextAssign, Running, None, None)
    }

    function Finish(a: nat, status: AssignStatus, summary: Option<Text>, error: Option<Text>): Store
      requires a in assigns
    {
      if !Active(assigns[a].status) then this
      else
        var s := SetAssignStatus(a, status, summary, error);
        if !Active(status) && a !in finished then s.(finished := finished + [a]) else s
    }

    /** A session report: archived members stay archived. */
    function MarkMember(m: nat, status: MemberStatus): Store
      requires m in members
    {
      if members[m].status == Archived && status != Archived then this
      else this.(members := members[m := members[m].(status := status)])
    }
  }

  const EMPTY := Store(map[], map[], [], 0)

  // ------------------------------------------------------------ invariants

  /** A member names an assign exactly when that assign is active and the member's own. */
  ghost predicate Occupancy(s: Store) {
    && (forall m :: m in s.members && s.members[m].active.Some? ==>
          var a := s.members[m].active.value;
          a in s.assigns && s.assigns[a].member == m && Active(s.assigns[a].status))
    && (forall a :: a in s.assigns && Active(s.assigns[a].status) ==>
          var m := s.assigns[a].member;
          m in s.members && s.members[m].active == Some(a))
    && (forall a :: a in s.assigns ==> a < s.nextAssign)
  }

  /** Each assign has at most one assign_finished event, and none while it is active. */
  ghost predicate Events(s: Store) {
    && (forall i, j :: 0 <= i < j < |s.finished| ==> s.finished[i] != s.finished[j])
    && (forall a :: a in s.finished ==> a in s.assigns && !Active(s.assigns[a].status))
  }

  ghost predicate Inv(s: Store) {
    Occupancy(s) && Events(s)
  }

  lemma AtMostOneActivePerMember(s: Store, a: nat, b: nat)
    requires Occupancy(s) && a in s.assigns && b in s.assigns
    requires Active(s.assigns[a].status) && Active(s.assigns[b].status) && s.assigns[a].member == s.assigns[b].member
    ensures a == b
  {
    assert s.members[s.assigns[a].member].active == Some(a);
    assert s.members[s.assigns[b].member].active == Some(b);
  }

  // --------------------------------------------------------------- restart

  predicate Occupied(s: Store, m: nat)
    requires m in s.members
  {
    s.members[m].active.Some? && s.members[m].active.value in s.assigns &&
    Active(s.assigns[s.members[m].active.value].status)
  }

  predicate FreedByAssign(s: Store, m: nat, a: nat)
    requires m in s.members && a in s.assigns
  {
    Active(s.assigns[a].status) && s.assigns[a].member == m &&
    (s.members[m].active == Some(a) || s.members[m].status == Busy)
  }

  predicate FreedAmong(s: Store, m: nat, assigns: set<nat>)
    requires m in s.members && assigns <= s.assigns.Keys
  {
    exists a :: a in assigns && FreedByAssign(s, m, a)
  }

  predicate Idle(s: Store, m: nat)
    requires m in s.members
  {
    s.members[m].status == Busy && !Occupied(s, m)
  }

  /** The members the two passes reset: busy without an active assign, or named by one. */
  predicate Reset(s: Store, m: nat)
    requires m in s.members
  {
    Idle(s, m) || FreedAmong(s, m, s.assigns.Keys)
  }

  function ResetIf(reset: bool, member: Member): Member {
    if reset then Member(Ready, None) else member
  }

  function Abandoned(a: Assign, summary: Text, code: Text): Assign {
    if Active(a.status) then Assign(a.member, Indeterminate, Some(summary), Some(code)) else a
  }

  /** What a restart leaves: no worker is alive, so active assigns are abandoned, without an
      event, and their members are free. */
  function Restarted(s: Store, summary: Text, code: Text): Store {
    s.(members := map m | m in s.members :: ResetIf(Reset(s, m), s.members[m]),
       assigns := map a | a in s.assigns :: Abandoned(s.assigns[a], summary, code))
  }

  lemma OccupiedMembersReset(s: Store, m: nat)
    requires Occupancy(s) && m in s.members
    ensures s.members[m].active.Some? || s.members[m].status == Busy ==> Reset(s, m)
  {
    if s.members[m].active.Some? {
      assert FreedByAssign(s, m, s.members[m].active.value);
    }
  }

  lemma RestartKeepsInv(s: Store, summary: Text, code: Text)
    requires Occupancy(s)
    ensures var t := Restarted(s, summary, code);
      && (forall a :: a in t.assigns ==> !Active(t.assigns[a].status))
      && (forall m :: m in t.members ==> t.members[m].active.None? && t.members[m].status != Busy)
      && Occupancy(t) && (Events(s) ==> Events(t))
    ensures var t := Restarted(s, summary, code);
      && t.assigns.Keys == s.assigns.Keys && t.members.Keys == s.members.Keys
      && t.finished == s.finished && t.nextAssign == s.nextAssign
      && (forall a :: a in s.assigns ==>
            t.assigns[a] == if Active(s.assigns[a].status) then Assign(s.assigns[a].member, Indeterminate, Some(summary), Some(code))
                            else s.assigns[a])
      && (forall m :: m in s.members ==>
            t.members[m] == if s.members[m].active.Some? || s.members[m].status == Busy then Member(Ready, None) else s.members[m])
  {
    var t := Restarted(s, summary, code);
    forall m | m in s.members ensures t.members[m].active.None? && t.members[m].status != Busy {
      OccupiedMembersReset(s, m);
    }
    forall m | m in s.members && s.members[m].active.None? && s.members[m].status != Busy ensures !Reset(s, m) {
    }
  }

  /** Even on a store with unsound occupancy a restart frees the busy member of an active
      assign, and a member that names one of its own. */
  lemma RestartFreesMembers(s: Store, a: nat, summary: Text, code: Text)
    requires a in s.assigns && Active(s.assigns[a].status) && s.assigns[a].member in s.members
    ensures var m := s.assigns[a].member;
      s.members[m].status == Busy || s.members[m].active == Some(a) ==> Restarted(s, summary, code).members[m] == Member(Ready, None)
  {
    if s.members[s.assigns[a].member].status == Busy || s.members[s.assigns[a].member].active == Some(a) {
      assert FreedByAssign(s, s.assigns[a].member, a);
    }
  }

  // ------------------------------------------------------------------ runs

  /** What the environment of one assign may do to the store. A late hitl_required frame is
      only allowed while its assign is active; LateApprovalBreaksOccupancy says why. */
  datatype Op =
    | AddMember(m: nat)
    | Mark(m: nat, memberStatus: MemberStatus)
    | CreateFor(m: nat)
    | FinishWith(a: nat, status: AssignStatus, summary: Option<Text>, error: Option<Text>)
    | HitlRequired(a: nat)
    | Restart(abandoned: Text, code: Text)

  predicate Enabled(s: Store, op: Op) {
    match op
    case AddMember(m) => m !in s.members
    case Mark(m, status) => m in s.members
    case CreateFor(m) => s.CanCreate(m)
    case FinishWith(a, status, _, _) => a in s.assigns && !Active(status)
    case HitlRequired(a) => a in s.assigns && Active(s.assigns[a].status)
    case Restart(_, _) => true
  }

  function Apply(s: Store, op: Op): Store
    requires Enabled(s, op)
  {
    match op
    case AddMember(m) => s.(members := s.members[m := Member(Provisioning, None)])
    case Mark(m, status) => s.MarkMember(m, status)
    case CreateFor(m) => s.Create(m)
    case FinishWith(a, status, summary, error) => s.Finish(a, status, summary, error)
    case HitlRequired(a) => s.SetAssignStatus(a, AwaitingHitl, None, None)
    case Restart(summary, code) => Restarted(s, summary, code)
  }

  /** Operations that are not enabled are refused by the store and change nothing. */
  function ApplyAll(s: Store, ops: seq<Op>): Store {
    if |ops| == 0 then s
    else
      var before := ApplyAll(s, ops[..|ops| - 1]);
      var op := ops[|ops| - 1];
      if Enabled(before, op) then Apply(before, op) else before
  }

  lemma FinishKeepsInv(s: Store, a: nat, status: AssignStatus, summary: Option<Text>, error: Option<Text>)
    requires Inv(s) && a in s.assigns && !Active(status)
    ensures Inv(s.Finish(a, status, summary, error))
    ensures !Active(s.Finish(a, status, summary, error).assigns[a].status)
    ensures Active(s.assigns[a].status) ==> s.Finish(a, status, summary, error).finished == s.finished + [a]
    ensures Active(s.assigns[a].status) ==>
      var after, m := s.Finish(a, status, summary, error), s.assigns[a].member;
      && after.assigns[a] == Assign(m, status, if summary.Some? then summary else s.assigns[a].summary, error)
      && after.members[m].active.None?
      && after.members[m].status == (if s.members[m].status in {Archived, Error} then s.members[m].status else Ready)
      && after.members == s.members[m := after.members[m]] && after.assigns == s.assigns[a := after.assigns[a]]
    ensures !Active(s.assigns[a].status) ==> s.Finish(a, status, summary, error) == s
  {
    assert a in s.finished ==> !Active(s.assigns[a].status);
  }

  /** Other writes: a request for approval keeps what was stored, and the member with it; a
      report sets the status of any member but an archived one. */
  lemma OtherWrites(s: Store, a: nat, m: nat, status: MemberStatus)
    requires a in s.assigns && m in s.members
    ensures var asked := s.SetAssignStatus(a, AwaitingHitl, None, None);
      asked == s.(assigns := s.assigns[a := s.assigns[a].(status := AwaitingHitl)])
    ensures var after := s.MarkMember(m, status);
      && after == s.(members := s.members[m := after.members[m]]) && after.members[m].active == s.members[m].active
      && after.members[m].status == (if s.members[m].status == Archived then Archived else status)
  {
  }

  /** Between the two writes of a creation the store is sound too, and a finish with a status
      that is not terminal adds no event. */
  lemma PartialWrites(s: Store, m: nat, a: nat, status: AssignStatus)
    requires Inv(s) && s.CanCreate(m) && a in s.assigns && Active(status)
    ensures Inv(s.CreateAssign(m)) && s.CreateAssign(m).assigns[s.nextAssign].status == Queued
    ensures s.Finish(a, status, None, None).finished == s.finished
  {
    NamedAssignIsActive(s, m);
  }

  /** A new assign is refused exactly for an unknown, archived or broken member, and for one
      that already has an active assign. */
  lemma RefusedMembers(s: Store, m: nat)
    requires Occupancy(s)
    ensures s.CanCreate(m) <==>
      m in s.members && s.members[m].status !in {Archived, Error} && s.members[m].active.None?
  {
    if m in s.members {
      NamedAssignIsActive(s, m);
    }
  }

  lemma NamedAssignIsActive(s: Store, m: nat)
    requires Occupancy(s) && m in s.members
    ensures s.members[m].active.Some? ==> s.HasActive(m)
  {
  }

  lemma CreateKeepsInv(s: Store, m: nat)
    requires Inv(s) && s.CanCreate(m)
    ensures Inv(s.Create(m))
    ensures s.Create(m).members[m].active == Some(s.nextAssign) && s.Create(m).assigns[s.nextAssign].status == Running
    ensures var after := s.Create(m);
      && after.assigns == s.assigns[s.nextAssign := Assign(m, Running, None, None)] && after.nextAssign > s.nextAssign
      && after.members[m].status == (if s.members[m].status == Ready then Busy else s.members[m].status)
      && after.members == s.members[m := after.members[m]] && after.finished == s.finished
  {
    NamedAssignIsActive(s, m);
  }

  lemma StepKeepsInv(s: Store, op: Op)
    requires Inv(s) && Enabled(s, op)
    ensures Inv(Apply(s, op))
  {
    match op {
      case AddMember(m) =>
      case Mark(m, status) =>
      case CreateFor(m) => CreateKeepsInv(s, m);
      case FinishWith(a, status, summary, error) => FinishKeepsInv(s, a, status, summary, error);
      case HitlRequired(a) =>
      case Restart(summary, code) => RestartKeepsInv(s, summary, code);
    }
  }

  /** A finished assign is never written again: status, summary, error and event stay. */
  lemma StepKeepsFinished(s: Store, op: Op, a: nat)
    requires Inv(s) && Enabled(s, op) && a in s.assigns
    ensures a in Apply(s, op).assigns && Apply(s, op).assigns[a].member == s.assigns[a].member
    ensures !Active(s.assigns[a].status) ==>
      Apply(s, op).assigns[a] == s.assigns[a] && (a in Apply(s, op).finished <==> a in s.finished)
  {
  }

  lemma {:induction false} RunKeepsInv(s: Store, ops: seq<Op>)
    requires Inv(s)
    ensures Inv(ApplyAll(s, ops))
  {
    if |ops| > 0 {
      RunKeepsInv(s, ops[..|ops| - 1]);
      var before := ApplyAll(s, ops[..|ops| - 1]);
      if Enabled(before, ops[|ops| - 1]) {
        StepKeepsInv(before, ops[|ops| - 1]);
      }
    }
  }

  lemma {:induction false} RunKeepsFinished(s: Store, ops: seq<Op>, a: nat)
    requires Inv(s) && a in s.assigns
    ensures a in ApplyAll(s, ops).assigns && ApplyAll(s, ops).assigns[a].member == s.assigns[a].member
    ensures !Active(s.assigns[a].status) ==> ApplyAll(s, ops).assigns[a] == s.assigns[a]
  {
    if |ops| > 0 {
      RunKeepsFinished(s, ops[..|ops| - 1], a);
      RunKeepsInv(s, ops[..|ops| - 1]);
      var before := ApplyAll(s, ops[..|ops| - 1]);
      if Enabled(before, ops[|ops| - 1]) {
        StepKeepsFinished(before, ops[|ops| - 1], a);
      }
    }
  }

  /** Some restart of the run found the assign active. */
  predicate AbandonedIn(s: Store, ops: seq<Op>, a: nat) {
    |ops| > 0 &&
    var before, op := ApplyAll(s, ops[..|ops| - 1]), ops[|ops| - 1];
    AbandonedIn(s, ops[..|ops| - 1], a) || (op.Restart? && a in before.assigns && Active(before.assigns[a].status))
  }

  /** Over every run from an empty store, restarts included: an assign is terminal exactly if
      it has its assign_finished event or a restart abandoned it, and never both. There is at
      most one event of each assign. */
  lemma {:induction false} ExactlyOneFinishedEvent(ops: seq<Op>, a: nat)
    requires var s := ApplyAll(EMPTY, ops); a in s.assigns
    ensures var s := ApplyAll(EMPTY, ops);
      (!Active(s.assigns[a].status) <==> a in s.finished || AbandonedIn(EMPTY, ops, a)) &&
      !(a in s.finished && AbandonedIn(EMPTY, ops, a)) && Events(s)
  {
    RunKeepsInv(EMPTY, ops);
    if |ops| > 0 {
      var before := ApplyAll(EMPTY, ops[..|ops| - 1]);
      RunKeepsInv(EMPTY, ops[..|ops| - 1]);
      if a in before.assigns {
        ExactlyOneFinishedEvent(ops[..|ops| - 1], a);
        LastStepFinishes(ops, a);
      } else {
        NeverAbandoned(ops[..|ops| - 1], a);
      }
    }
  }

  /** An assign that a run does not know yet was not abandoned in it. */
  lemma {:induction false} NeverAbandoned(ops: seq<Op>, a: nat)
    requires a !in ApplyAll(EMPTY, ops).assigns
    ensures !AbandonedIn(EMPTY, ops, a)
  {
    if |ops| > 0 {
      var before, op := ApplyAll(EMPTY, ops[..|ops| - 1]), ops[|ops| - 1];
      RunKeepsInv(EMPTY, ops[..|ops| - 1]);
      if a in before.assigns && Enabled(before, op) {
        StepKeepsFinished(before, op, a);
      }
      NeverAbandoned(ops[..|ops| - 1], a);
    }
  }

  lemma {:induction false} LastStepFinishes(ops: seq<Op>, a: nat)
    requires |ops| > 0
    requires var before := ApplyAll(EMPTY, ops[..|ops| - 1]);
      Inv(before) && a in before.assigns && (Active(before.assigns[a].status) ==> a !in before.finished)
    ensures var before, s, op := ApplyAll(EMPTY, ops[..|ops| - 1]), ApplyAll(EMPTY, ops), ops[|ops| - 1];
      a in s.assigns &&
      (Active(before.assigns[a].status) && !op.Restart? ==> (!Active(s.assigns[a].status) <==> a in s.finished)) &&
      (Active(before.assigns[a].status) && op.Restart? ==> !Active(s.assigns[a].status) && a !in s.finished) &&
      (!Active(before.assigns[a].status) ==> !Active(s.assigns[a].status) && (a in s.finished <==> a in before.finished))
  {
    var before, op := ApplyAll(EMPTY, ops[..|ops| - 1]), ops[|ops| - 1];
    if Enabled(before, op) {
      StepKeepsFinished(before, op, a);
    }
  }

  /** The store writes awaiting_hitl whatever the assign's status was. Occupancy survives
      exactly when the assign was still active. */
  lemma LateApprovalBreaksOccupancy(s: Store, a: nat)
    requires Occupancy(s) && a in s.assigns
    ensures Occupancy(s.SetAssignStatus(a, AwaitingHitl, None, None)) <==> Active(s.assigns[a].status)
  {
    var s1 := s.SetAssignStatus(a, AwaitingHitl, None, None);
    assert Active(s1.assigns[a].status);
  }

  /** A finished assign, then its late approval request: it is active again and its member
      does not know of it. */
  lemma LateApprovalExample(m: nat)
    ensures var s := ApplyAll(EMPTY, [AddMember(m), CreateFor(m), FinishWith(0, Succeeded, None, None)]);
      0 in s.assigns && !Occupancy(s.SetAssignStatus(0, AwaitingHitl, None, None))
  {
    var ops := [AddMember(m), CreateFor(m), FinishWith(0, Succeeded, None, None)];
    assert ops[..2] == [AddMember(m), CreateFor(m)] && ops[..2][..1] == [AddMember(m)] && ops[..1][..0] == [];
    assert ops[..3] == ops;
    assert [AddMember(m)][..0] == [] && ApplyAll(EMPTY, []) == EMPTY;
    var joined := ApplyAll(EMPTY, [AddMember(m)]);
    assert joined == Store(map[m := Member(Provisioning, None)], map[], [], 0);
    var created := ApplyAll(EMPTY, [AddMember(m), CreateFor(m)]);
    assert created == joined.Create(m);
    LateApprovalBreaksOccupancy(ApplyAll(EMPTY, ops), 0);
  }

  /** A running assign, then a restart: it is terminal and has no event. */
  lemma AbandonedExample(m: nat, summary: Text, code: Text)
    ensures var s := ApplyAll(EMPTY, [AddMember(m), CreateFor(m), Restart(summary, code)]);
      0 in s.assigns && !Active(s.assigns[0].status) && 0 !in s.finished
  {
    var ops := [AddMember(m), CreateFor(m), Restart(summary, code)];
    assert ops[..2] == [AddMember(m), CreateFor(m)] && ops[..2][..1] == [AddMember(m)] && ops[..1][..0] == [];
    assert [AddMember(m)][..0] == [] && ApplyAll(EMPTY, []) == EMPTY;
    var joined := ApplyAll(EMPTY, [AddMember(m)]);
    assert joined == Store(map[m := Member(Provisioning, None)], map[], [], 0);
    var created := ApplyAll(EMPTY, [AddMember(m), CreateFor(m)]);
    assert created == joined.Create(m);
    assert ApplyAll(EMPTY, ops) == Restarted(created, summary, code);
  }
}
