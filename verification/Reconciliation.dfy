/** Fencing after a restart (manage/workgroup/store.py:1098-1209): no assign or run may look
    active when its worker thread is gone, unless a human answer can still continue it. */
module Reconciliation {
  import opened AssignmentService
  import opened Assignments
  import opened Shared

  datatype RunStatus = RunRunning | RunAwaitingHitl | RunEnded | RunIndeterminate

  predicate Live(status: RunStatus) {
    status.RunRunning? || status.RunAwaitingHitl?
  }

  /** A human question; run and call say which tool call of which run waits for it. */
  datatype Hitl = Hitl(run: Option<nat>, call: Option<nat>, resolved: bool)

  /** answered holds the (run, call) pairs that have a tool result in the run's history. */
  datatype Disk = Disk(
    store: Store,
    runs: map<nat, RunStatus>,
    hitls: map<nat, Hitl>,
    answered: set<(nat, nat)>,
    checkpoints: set<nat>)

  /** A run can go on if a bound question of it is pending, or resolved but not yet replayed
      into the history. */
  predicate Continues(d: Disk, h: Hitl, run: nat) {
    h.run == Some(run) && h.call.Some? && (h.resolved ==> (run, h.call.value) !in d.answered)
  }

  predicate Recoverable(d: Disk, run: nat) {
    exists h :: h in d.hitls && Continues(d, d.hitls[h], run)
  }

  function Fenced(d: Disk, run: nat, status: RunStatus): RunStatus {
    if !Live(status) then status
    else if Recoverable(d, run) then RunAwaitingHitl
    else RunIndeterminate
  }

  function Reconciled(d: Disk, summary: Text, code: Text): Disk {
    Disk(
      Restarted(d.store, summary, code),
      map r | r in d.runs :: Fenced(d, r, d.runs[r]),
      d.hitls, d.answered, {})
  }

  lemma FreedAmongGrows(s: Store, m: nat, done: set<nat>, a: nat)
    requires m in s.members && done <= s.assigns.Keys && a in s.assigns
    ensures FreedAmong(s, m, done + {a}) <==> FreedAmong(s, m, done) || FreedByAssign(s, m, a)
  {
  }

  /** The two member passes, in sequence, are one reset. */
  lemma PassesCompose(s: Store, mid: Store, m: nat)
    requires m in s.members && mid == s.(members := mid.members) && mid.members.Keys == s.members.Keys
    requires mid.members[m] == ResetIf(Idle(s, m), s.members[m])
    ensures ResetIf(FreedAmong(mid, m, mid.assigns.Keys), mid.members[m]) == ResetIf(Reset(s, m), s.members[m])
  {
    if !Idle(s, m) {
      assert forall a :: a in s.assigns ==> (FreedByAssign(mid, m, a) <==> FreedByAssign(s, m, a));
    }
  }

  /** The rest of the store's records, beside its members and assigns. */
  class RestartingStore {
    const store: WorkGroupStore
    var runs: map<nat, RunStatus>
    var hitls: map<nat, Hitl>
    var answered: set<(nat, nat)>
    var checkpoints: set<nat>

    function View(): Disk
      reads this, store
    {
      Disk(store.View(), runs, hitls, answered, checkpoints)
    }

    constructor (store: WorkGroupStore, d: Disk)
      requires d.store == store.View()
      ensures this.store == store && View() == d
    {
      this.store := store;
      runs, hitls, answered, checkpoints := d.runs, d.hitls, d.answered, d.checkpoints;
    }

    method RecoverableRuns() returns (recoverable: set<nat>)
      ensures forall r :: r in recoverable <==> Recoverable(View(), r)
    {
      recoverable := {};
      var todo := hitls.Keys;
      while todo != {}
        invariant todo <= hitls.Keys
        invariant forall r :: r in recoverable <==> exists h :: h in hitls.Keys - todo && Continues(View(), hitls[h], r)
        decreases |todo|
      {
        var h :| h in todo;
        var hitl := hitls[h];
        if hitl.run.Some? && hitl.call.Some? {
          if !hitl.resolved {
            recoverable := recoverable + {hitl.run.value};
          } else if (hitl.run.value, hitl.call.value) !in answered {
            recoverable := recoverable + {hitl.run.value};
          }
        }
        todo := todo - {h};
      }
    }

    method FenceRuns(recoverable: set<nat>)
      requires forall r :: r in recoverable <==> Recoverable(View(), r)
      modifies this`runs
      ensures runs == map r | r in old(runs) :: Fenced(old(View()), r, old(runs)[r])
    {
      ghost var d := View();
      var todo := runs.Keys;
      while todo != {}
        invariant todo <= runs.Keys == d.runs.Keys
        invariant forall r :: r in runs ==> runs[r] == if r in todo then d.runs[r] else Fenced(d, r, d.runs[r])
        decreases |todo|
      {
        var r :| r in todo;
        if Live(runs[r]) {
          runs := runs[r := if r in recoverable then RunAwaitingHitl else RunIndeterminate];
        }
        todo := todo - {r};
      }
    }

    method ReleaseIdleMembers()
      modifies store`members
      ensures store.members.Keys == old(store.members.Keys)
      ensures forall m :: m in store.members ==> store.members[m] == ResetIf(Idle(old(View()).store, m), old(store.members)[m])
    {
      ghost var s := store.View();
      var todo := store.members.Keys;
      while todo != {}
        invariant todo <= store.members.Keys == s.members.Keys
        invariant forall m :: m in store.members ==> store.members[m] == ResetIf(m !in todo && Idle(s, m), s.members[m])
        decreases |todo|
      {
        var m :| m in todo;
        var member := store.members[m];
        if member.status == Busy {
          var live := member.active.Some? && member.active.value in store.assigns && Active(store.assigns[member.active.value].status);
          if !live {
            store.members := store.members[m := Member(Ready, None)];
          }
        }
        todo := todo - {m};
      }
    }

    method AbandonAssigns(summary: Text, code: Text)
      modifies store`members, store`assigns
      ensures store.assigns == map a | a in old(store.assigns) :: Abandoned(old(store.assigns)[a], summary, code)
      ensures store.members.Keys == old(store.members.Keys)
      ensures forall m :: m in store.members ==>
        store.members[m] == ResetIf(FreedAmong(old(View()).store, m, old(store.assigns).Keys), old(store.members)[m])
    {
      ghost var s := store.View();
      ghost var done: set<nat> := {};
      var todo := store.assigns.Keys;
      while todo != {}
        invariant done + todo == store.assigns.Keys == s.assigns.Keys && done !! todo
        invariant store.members.Keys == s.members.Keys
        invariant forall a :: a in store.assigns ==>
          store.assigns[a] == if a in todo then s.assigns[a] else Abandoned(s.assigns[a], summary, code)
        invariant forall m :: m in store.members ==> store.members[m] == ResetIf(FreedAmong(s, m, done), s.members[m])
        decreases |todo|
      {
        var a :| a in todo;
        forall m | m in store.members ensures FreedAmong(s, m, done + {a}) <==> FreedAmong(s, m, done) || FreedByAssign(s, m, a) {
          FreedAmongGrows(s, m, done, a);
        }
        AbandonOne(a, summary, code);
        done := done + {a};
        todo := todo - {a};
      }
    }

    method AbandonOne(a: nat, summary: Text, code: Text)
      requires a in store.assigns
      modifies store`members, store`assigns
      ensures store.assigns == old(store.assigns)[a := Abandoned(old(store.assigns)[a], summary, code)]
      ensures store.members.Keys == old(store.members.Keys)
      ensures forall m :: m in store.members ==>
        store.members[m] == ResetIf(FreedByAssign(old(View()).store, m, a), old(store.members)[m])
    {
      var assign := store.assigns[a];
      if Active(assign.status) {
        store.assigns := store.assigns[a := Assign(assign.member, Indeterminate, Some(summary), Some(code))];
        var m := assign.member;
        if m in store.members {
          if store.members[m].active == Some(a) || store.members[m].status == Busy {
            store.members := store.members[m := Member(Ready, None)];
          }
        }
      }
    }

    method ReconcileInflightRuns(summary: Text, code: Text)
      modifies this, store
      ensures View() == Reconciled(old(View()), summary, code)
    {
      ghost var d := View();
      var recoverable := RecoverableRuns();
      checkpoints := {};
      FenceRuns(recoverable);
      ReleaseIdleMembers();
      ghost var mid := View().store;
      AbandonAssigns(summary, code);
      PassesReconcile(d, mid, store.members, summary, code);
    }
  }

  /** What the two member passes leave is what reconciliation resets. */
  lemma PassesReconcile(d: Disk, mid: Store, members: map<nat, Member>, summary: Text, code: Text)
    requires mid == d.store.(members := mid.members) && mid.members.Keys == members.Keys == d.store.members.Keys
    requires forall m :: m in mid.members ==> mid.members[m] == ResetIf(Idle(d.store, m), d.store.members[m])
    requires forall m :: m in members ==> members[m] == ResetIf(FreedAmong(mid, m, mid.assigns.Keys), mid.members[m])
    ensures members == Reconciled(d, summary, code).store.members
  {
    forall m | m in members ensures members[m] == ResetIf(Reset(d.store, m), d.store.members[m]) {
      PassesCompose(d.store, mid, m);
    }
  }

  // ------------------------------------------------------------------ results

  /** From any state with sound occupancy: afterwards nothing is active or occupied, no
      checkpoint is left, every live run waits for a question that can still continue it,
      and occupancy is sound again. */
  lemma ReconciliationFences(d: Disk, summary: Text, code: Text)
    requires Occupancy(d.store)
    ensures var d' := Reconciled(d, summary, code);
      && (forall a :: a in d'.store.assigns ==> !Active(d'.store.assigns[a].status))
      && (forall m :: m in d'.store.members ==> d'.store.members[m].active.None? && d'.store.members[m].status != Busy)
      && d'.checkpoints == {}
      && (forall r :: r in d'.runs ==> d'.runs[r] != RunRunning && (d'.runs[r] == RunAwaitingHitl ==> Recoverable(d', r)))
      && Occupancy(d'.store) && d'.hitls == d.hitls && d'.answered == d.answered && d'.runs.Keys == d.runs.Keys
  {
    var d' := Reconciled(d, summary, code);
    RestartKeepsInv(d.store, summary, code);
    forall r | Recoverable(d, r) ensures Recoverable(d', r) {
      var h :| h in d.hitls && Continues(d, d.hitls[h], r);
      assert Continues(d', d'.hitls[h], r);
    }
  }

  /** Runs that ended stay as they were, and a run is given up exactly when nothing can
      continue it. */
  lemma ReconciliationSparesRuns(d: Disk, summary: Text, code: Text, r: nat)
    requires r in d.runs
    ensures var d' := Reconciled(d, summary, code);
      if d.runs[r] in {RunRunning, RunAwaitingHitl}
      then d'.runs[r] == if Recoverable(d, r) then RunAwaitingHitl else RunIndeterminate
      else d'.runs[r] == d.runs[r]
  {
  }

  /** Which questions keep a run: one that waits for an answer to a call of it, and one whose
      answer is not yet in its history. A question bound to no call, or answered and replayed,
      does not. */
  lemma QuestionKeepsRun(d: Disk, h: nat, run: nat)
    requires h in d.hitls
    ensures var q := d.hitls[h];
      && (q.run == Some(run) && q.call.Some? && !q.resolved ==> Recoverable(d, run))
      && (q.run == Some(run) && q.call.Some? && (run, q.call.value) !in d.answered ==> Recoverable(d, run))
      && (d.hitls.Keys == {h} && Recoverable(d, run) ==>
            q.run == Some(run) && q.call.Some? && (!q.resolved || (run, q.call.value) !in d.answered))
  {
    if d.hitls[h].run == Some(run) && d.hitls[h].call.Some? && (!d.hitls[h].resolved || (run, d.hitls[h].call.value) !in d.answered) {
      assert Continues(d, d.hitls[h], run);
    }
  }

  /** A second pass changes nothing. */
  lemma ReconciliationIdempotent(d: Disk, summary: Text, code: Text)
    requires Occupancy(d.store)
    ensures Reconciled(Reconciled(d, summary, code), summary, code) == Reconciled(d, summary, code)
  {
    var d' := Reconciled(d, summary, code);
    var d'' := Reconciled(d', summary, code);
    ReconciliationFences(d, summary, code);
    forall m | m in d'.store.members ensures !Reset(d'.store, m) {
    }
    assert d''.store.members == d'.store.members;
    assert d''.store.assigns == d'.store.assigns;
    forall r | r in d'.runs ensures Fenced(d', r, d'.runs[r]) == d'.runs[r] {
    }
    assert d''.runs == d'.runs;
  }

  /** An archived member stays archived exactly when no assign occupied it. */
  lemma ArchiveSurvivesUnlessOccupied(d: Disk, summary: Text, code: Text, m: nat)
    requires Occupancy(d.store) && m in d.store.members && d.store.members[m].status == Archived
    ensures Reconciled(d, summary, code).store.members[m].status == Archived <==> d.store.members[m].active.None?
  {
    OccupiedMembersReset(d.store, m);
  }

  /** Archived while busy, ready after a restart. */
  lemma ArchivedMemberReturns(summary: Text, code: Text)
    ensures var s := Store(map[3 := Member(Archived, Some(0))], map[0 := Assign(3, Running, None, None)], [], 1);
      Occupancy(s) && Reconciled(Disk(s, map[], map[], {}, {}), summary, code).store.members[3] == Member(Ready, None)
  {
    var s := Store(map[3 := Member(Archived, Some(0))], map[0 := Assign(3, Running, None, None)], [], 1);
    OccupiedMembersReset(s, 3);
  }
}
