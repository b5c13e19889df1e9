/** All interleavings of submitters, turn workers, send-now requests and crashes on one lane
    (manage/workgroup/turn_kernel.py:367-402, 437-475, 541-559, 583-677, 1092-1219).

    A worker is named by the token of the claim that started it. Send-now takes the lock
    three times; its sections are separate steps. Appending the message to the Timeline and
    deleting its durable record are separate steps too. */
module HumanQueue {
  import opened Shared
  import opened TurnLane

  /** Fetching: the submitter won the turn but has not yet read its token back. */
  datatype Phase = Fetching | Ready | Committed | Cleared | Running

  datatype Worker = Worker(item: Item, token: Option<nat>, phase: Phase, fromQueue: bool)

  datatype Sender = Promoted(seen: Option<nat>) | Looked(seen: Option<nat>, live: bool)

  /** Where a message accepted into the queue is. */
  datatype Place = Queued | Held(token: nat) | Failed | Done(item: Item) | Cancelled

  datatype System = System(
    lane: Lane,
    workers: map<nat, Worker>,
    senders: map<nat, Sender>,
    timeline: seq<Item>,
    places: map<nat, Place>,
    leftover: set<nat>,
    used: set<nat>,
    recovering: bool)

  datatype Step =
    | Submit(item: Item)
    | Fetch(token: nat)
    | Commit(token: nat)
    | Clear(token: nat)
    | Begin(token: nat)
    | End(token: nat)
    | CancelItem(id: nat)
    | Promote(sender: nat, id: nat)
    | Look(sender: nat, busy: bool)
    | Force(sender: nat)
    | Crash(loaded: seq<Item>)
    | Resume

  const INIT := System(Lane(None, [], map[], 0), map[], map[], [], map[], {}, {}, false)

  predicate Unbegun(w: Worker) {
    w.phase != Running
  }

  predicate Covered(timeline: seq<Item>, item: Item) {
    exists k :: 0 <= k < |timeline| &&
      (timeline[k].id == item.id || (item.clientId.Some? && timeline[k].clientId == item.clientId))
  }

  /** The queue a restarted process loads: the durable records, sorted. */
  ghost predicate Reloads(loaded: seq<Item>, durable: map<nat, Item>) {
    Sorted(loaded) &&
    (forall k :: 0 <= k < |loaded| ==> loaded[k].id in durable && durable[loaded[k].id] == loaded[k]) &&
    (forall id :: id in durable ==> HasItem(loaded, id))
  }

  ghost predicate Enabled(s: System, step: Step) {
    match step
    case Submit(item) => item.id !in s.used
    case Fetch(t) => t in s.workers && s.workers[t].phase == Fetching
    case Commit(t) => t in s.workers && s.workers[t].phase == Ready
    case Clear(t) => t in s.workers && s.workers[t].phase == Committed
    case Begin(t) => t in s.workers && s.workers[t].phase == Cleared && s.workers[t].token.Some?
    case End(t) => t in s.workers && s.workers[t].phase != Fetching
    case CancelItem(id) => true
    case Promote(n, id) => n !in s.senders
    case Look(n, busy) => n in s.senders && s.senders[n].Promoted?
    case Force(n) => n in s.senders && s.senders[n].Looked?
    case Crash(loaded) => Reloads(loaded, s.lane.durable)
    case Resume => s.recovering
  }

  // ------------------------------------------------------------------ effects

  /** The next queued message, if any, gets a worker. lane is the lane before the claim. */
  function Claimed(s: System): System {
    if |s.lane.queue| == 0 then s
    else
      var item := s.lane.queue[0];
      var t := s.lane.nextToken;
      s.(lane := s.lane.ClaimNext(),
         workers := s.workers[t := Worker(item, Some(t), Ready, true)],
         places := s.places[item.id := Held(t)])
  }

  /** A message that runs at once never gets a durable record. */
  function Ran(s: System, item: Item): System {
    s.(lane := s.lane.ClaimOrEnqueue(item), used := s.used + {item.id},
       workers := s.workers[s.lane.nextToken := Worker(item, None, Fetching, false)])
  }

  function Joined(s: System, item: Item): System {
    s.(lane := s.lane.ClaimOrEnqueue(item), used := s.used + {item.id}, places := s.places[item.id := Queued])
  }

  /** A repeated client id: saved durably, not queued in memory. */
  function Hidden(s: System, item: Item): System {
    s.(lane := s.lane.ClaimOrEnqueue(item), used := s.used + {item.id}, leftover := s.leftover + {item.id})
  }

  function Submitted(s: System, item: Item): System {
    if !s.lane.Queues() then Ran(s, item)
    else if HasClient(s.lane.queue, item) then Hidden(s, item)
    else Joined(s, item)
  }

  function SetWorker(s: System, t: nat, w: Worker): System {
    s.(workers := s.workers[t := w])
  }

  function ActiveToken(l: Lane): Option<nat> {
    if l.active.Some? then Some(l.active.value.token) else None
  }

  /** Appending is idempotent on a client id. */
  function Appended(timeline: seq<Item>, item: Item): seq<Item> {
    if item.clientId.Some? && exists k :: 0 <= k < |timeline| && timeline[k].clientId == item.clientId
    then timeline else timeline + [item]
  }

  function CommittedBy(s: System, t: nat): System
    requires t in s.workers
  {
    var w := s.workers[t];
    s.(workers := s.workers[t := w.(phase := Committed)],
       timeline := Appended(s.timeline, w.item),
       places := if w.fromQueue then s.places[w.item.id := Done(w.item)] else s.places)
  }

  function ClearedBy(s: System, t: nat): System
    requires t in s.workers
  {
    var w := s.workers[t];
    s.(workers := s.workers[t := w.(phase := Cleared)],
       lane := s.lane.(durable := s.lane.durable - {w.item.id}))
  }

  /** A worker leaves: after a failure before commit its message stays durable; after one
      between commit and delete a stale record stays. */
  function Retired(s: System, t: nat): System
    requires t in s.workers
  {
    var w := s.workers[t];
    s.(workers := s.workers - {t},
       places := if w.fromQueue && w.phase == Ready then s.places[w.item.id := Failed] else s.places,
       leftover := if w.fromQueue && w.phase == Committed then s.leftover + {w.item.id} else s.leftover)
  }

  /** Ending with a stale token only retires the worker. */
  function Ended(s: System, t: nat): System
    requires t in s.workers
  {
    var token := s.workers[t].token;
    var s1 := Retired(s, t);
    if s.lane.active.Some? && token.Some? && s.lane.active.value.token != token.value then s1
    else Claimed(s1.(lane := s.lane.(active := None)))
  }

  function CancelledItem(s: System, id: nat): System {
    s.(lane := s.lane.CancelItem(id), places := s.places[id := Cancelled])
  }

  function Forced(s: System, n: nat): System
    requires n in s.senders && s.senders[n].Looked?
  {
    var s1 := s.(senders := s.senders - {n});
    if s.senders[n].live || (s.lane.active.Some? && s.senders[n].seen != ActiveToken(s.lane)) then s1
    else Claimed(s1.(lane := s.lane.(active := None)))
  }

  function AfterCrash(s: System, loaded: seq<Item>): System {
    s.(lane := s.lane.(active := None, queue := loaded),
       workers := map[], senders := map[], leftover := {}, recovering := true,
       places := map id | id in s.places.Keys + s.lane.durable.Keys ::
         if id in s.lane.durable then Queued else s.places[id])
  }

  function Resumed(s: System): System {
    var s1 := s.(recovering := false);
    if s.lane.active.Some? then s1 else Claimed(s1)
  }

  ghost function Apply(s: System, step: Step): System
    requires Enabled(s, step)
  {
    match step
    case Submit(item) => Submitted(s, item)
    case Fetch(t) => SetWorker(s, t, s.workers[t].(token := ActiveToken(s.lane), phase := Ready))
    case Commit(t) => CommittedBy(s, t)
    case Clear(t) => ClearedBy(s, t)
    case Begin(t) =>
      SetWorker(s, t, s.workers[t].(phase := Running)).(lane := s.lane.BeginTurn(s.workers[t].token.value))
    case End(t) => Ended(s, t)
    case CancelItem(id) =>
      if HasItem(s.lane.queue, id) then CancelledItem(s, id) else s
    case Promote(n, id) =>
      if HasItem(s.lane.queue, id)
      then s.(lane := s.lane.Promote(id), senders := s.senders[n := Promoted(ActiveToken(s.lane))]) else s
    case Look(n, busy) =>
      var live := s.lane.active.Some? && (s.lane.active.value.claiming || busy);
      s.(senders := s.senders[n := Looked(s.senders[n].seen, live)])
    case Force(n) => Forced(s, n)
    case Crash(loaded) => AfterCrash(s, loaded)
    case Resume => Resumed(s)
  }

  // ------------------------------------------------------------- turn tokens

  /** Each worker that has not begun its turn holds the current token; the current token
      always belongs to a live worker; a send-now that saw an idle turn did not see one that
      is still to begin. */
  ghost predicate Tokens(s: System) {
    && (forall t :: t in s.workers ==>
          t < s.lane.nextToken
          && (s.workers[t].phase != Fetching ==> s.workers[t].token == Some(t))
          && (Unbegun(s.workers[t]) ==> ActiveToken(s.lane) == Some(t)))
    && (s.lane.active.Some? ==>
          s.lane.active.value.token in s.workers
          && s.lane.active.value.claiming == Unbegun(s.workers[s.lane.active.value.token]))
    && (forall n :: n in s.senders ==> SeenIsOld(s, s.senders[n]))
  }

  predicate SeenIsOld(s: System, sender: Sender) {
    sender.seen.Some? ==>
      sender.seen.value < s.lane.nextToken
      && (sender.Looked? && !sender.live && sender.seen.value in s.workers ==> !Unbegun(s.workers[sender.seen.value]))
  }

  /** A queue that is not being recovered never waits without a turn in progress. */
  predicate NoStall(s: System) {
    |s.lane.queue| > 0 && !s.recovering ==> s.lane.active.Some?
  }

  lemma ClaimKeepsTokens(s: System)
    requires Tokens(s) && s.lane.active.None?
    ensures Tokens(Claimed(s)) && NoStall(Claimed(s))
  {
  }

  lemma RetireKeepsTokens(s: System, t: nat)
    requires Tokens(s) && t in s.workers && s.workers[t].phase != Fetching
    ensures ActiveToken(s.lane) != Some(t) ==> Tokens(Retired(s, t))
    ensures ActiveToken(s.lane) == Some(t) || s.lane.active.None? ==>
      Tokens(Retired(s, t).(lane := s.lane.(active := None)))
  {
  }

  lemma EndKeepsTokens(s: System, t: nat)
    requires Tokens(s) && NoStall(s) && Enabled(s, End(t))
    ensures Tokens(Ended(s, t)) && NoStall(Ended(s, t))
  {
    RetireKeepsTokens(s, t);
    if ActiveToken(s.lane) == Some(t) || s.lane.active.None? {
      ClaimKeepsTokens(Retired(s, t).(lane := s.lane.(active := None)));
    }
  }

  lemma AdvanceKeepsTokens(s: System, step: Step)
    requires Tokens(s) && NoStall(s) && Enabled(s, step)
    requires step.Fetch? || step.Commit? || step.Clear? || step.Begin?
    ensures Tokens(Apply(s, step)) && NoStall(Apply(s, step))
  {
  }

  lemma SubmitKeepsTokens(s: System, item: Item)
    requires Tokens(s) && NoStall(s)
    ensures Tokens(Submitted(s, item)) && NoStall(Submitted(s, item))
  {
    if !s.lane.Queues() {
      assert s.lane.active.None?;
      RunsKeepsTokens(s, item);
    }
  }

  lemma RunsKeepsTokens(s: System, item: Item)
    requires Tokens(s) && NoStall(s) && !s.lane.Queues()
    ensures Tokens(Ran(s, item)) && NoStall(Ran(s, item))
  {
  }

  lemma PromoteKeepsTokens(s: System, n: nat, id: nat)
    requires Tokens(s) && NoStall(s)
    ensures Tokens(Apply(s, CancelItem(id))) && NoStall(Apply(s, CancelItem(id)))
    ensures n !in s.senders ==> Tokens(Apply(s, Promote(n, id))) && NoStall(Apply(s, Promote(n, id)))
  {
  }

  lemma LookKeepsTokens(s: System, n: nat, busy: bool)
    requires Tokens(s) && NoStall(s) && Enabled(s, Look(n, busy))
    ensures Tokens(Apply(s, Look(n, busy))) && NoStall(Apply(s, Look(n, busy)))
  {
  }

  lemma StepKeepsTokens(s: System, step: Step)
    requires Tokens(s) && NoStall(s) && Enabled(s, step)
    ensures Tokens(Apply(s, step)) && NoStall(Apply(s, step))
  {
    if step.Fetch? || step.Commit? || step.Clear? || step.Begin? {
      AdvanceKeepsTokens(s, step);
    } else if step.End? {
      EndKeepsTokens(s, step.token);
    } else if step.Force? {
      ForceKeepsTokens(s, step.sender);
    } else if step.Resume? {
      RecoveryKeepsTokens(s, s.(recovering := false));
      if s.lane.active.None? {
        ClaimKeepsTokens(s.(recovering := false));
      }
    } else if step.Submit? {
      SubmitKeepsTokens(s, step.item);
    } else if step.Look? {
      LookKeepsTokens(s, step.sender, step.busy);
    } else if step.CancelItem? {
      PromoteKeepsTokens(s, 0, step.id);
    } else if step.Promote? {
      PromoteKeepsTokens(s, step.sender, step.id);
    }
  }

  lemma ForceKeepsTokens(s: System, n: nat)
    requires Tokens(s) && NoStall(s) && n in s.senders && s.senders[n].Looked?
    ensures Tokens(Forced(s, n)) && NoStall(Forced(s, n))
  {
    var sender := s.senders[n];
    var s1 := s.(senders := s.senders - {n});
    assert Tokens(s1);
    if !sender.live && (s.lane.active.None? || sender.seen == ActiveToken(s.lane)) {
      assert SeenIsOld(s, sender);
      ClaimKeepsTokens(s1.(lane := s.lane.(active := None)));
    }
  }

  /** Each step runs exactly the lock section of the kernel it stands for. */
  lemma StepsRunLockSections(s: System, step: Step)
    requires Tokens(s) && Enabled(s, step)
    ensures step.End? ==> Apply(s, step).lane == s.lane.EndTurn(s.workers[step.token].token)
    ensures step.Force? && !s.senders[step.sender].live ==>
      Apply(s, step).lane == s.lane.ForceClaim(s.senders[step.sender].seen)
    ensures step.Resume? ==> Apply(s, step).lane == s.lane.Resume()
  {
  }

  // ------------------------------------------------------------- the ledger

  ghost predicate QueueLedger(s: System) {
    && DistinctIds(s.lane.queue)
    && (forall i :: 0 <= i < |s.lane.queue| ==> Waits(s, s.lane.queue[i]))
    && (forall id :: id in s.places && s.places[id] == Queued ==> HasItem(s.lane.queue, id))
    && (forall id :: id in s.places || id in s.lane.durable ==> id in s.used)
  }

  predicate Waits(s: System, item: Item) {
    item.id in s.places && s.places[item.id] == Queued &&
    item.id in s.lane.durable && s.lane.durable[item.id] == item
  }

  ghost predicate WorkerLedger(s: System) {
    && (forall t :: t in s.workers ==> WorkerOk(s, t, s.workers[t]))
    && (forall id :: id in s.places && s.places[id].Held? ==>
          var t := s.places[id].token;
          t in s.workers && s.workers[t].fromQueue && s.workers[t].phase == Ready && s.workers[t].item.id == id)
  }

  predicate WorkerOk(s: System, t: nat, w: Worker) {
    w.item.id in s.used &&
    if !w.fromQueue then w.item.id !in s.places && w.item.id !in s.lane.durable
    else
      w.phase != Fetching && w.item.id in s.places &&
      (w.phase == Ready ==> s.places[w.item.id] == Held(t)) &&
      (w.phase != Ready ==> s.places[w.item.id] == Done(w.item)) &&
      (w.phase == Ready || w.phase == Committed ==>
         w.item.id in s.lane.durable && s.lane.durable[w.item.id] == w.item && w.item.id !in s.leftover)
  }

  /** The durable records are the messages that wait, those claimed and not yet committed,
      those whose turn failed first, and the stale ones. */
  ghost predicate DurableLedger(s: System) {
    && (forall id :: id in s.lane.durable ==>
          id in s.leftover || (id in s.places && Awaited(s.places[id])) || CommittedOnly(s, id))
    && (forall id :: id in s.leftover ==> id in s.lane.durable && (id in s.places ==> s.places[id].Done?))
    && (forall id :: id in s.places && Awaited(s.places[id]) ==> id in s.lane.durable)
    && (forall id :: id in s.places && s.places[id] == Cancelled ==> id !in s.lane.durable)
  }

  predicate Awaited(place: Place) {
    place.Queued? || place.Held? || place.Failed?
  }

  predicate CommittedOnly(s: System, id: nat) {
    exists t :: t in s.workers && s.workers[t].fromQueue && s.workers[t].phase == Committed && s.workers[t].item.id == id
  }

  /** Committed messages are on the Timeline, and no client id is there twice. */
  ghost predicate TimelineLedger(s: System) {
    && (forall id :: id in s.places && s.places[id].Done? ==>
          s.places[id].item.id == id && Covered(s.timeline, s.places[id].item))
    && OneEventPerClient(s.timeline)
  }

  predicate OneEventPerClient(timeline: seq<Item>) {
    forall i, j :: 0 <= i < j < |timeline| && timeline[i].clientId.Some? ==> timeline[i].clientId != timeline[j].clientId
  }

  ghost predicate Ledger(s: System) {
    QueueLedger(s) && WorkerLedger(s) && DurableLedger(s) && TimelineLedger(s)
  }

  ghost predicate Inv(s: System) {
    Tokens(s) && NoStall(s) && Ledger(s)
  }

  lemma ClaimKeepsQueueLedger(s: System)
    requires QueueLedger(s) && s.lane.active.None?
    ensures QueueLedger(Claimed(s))
  {
    if |s.lane.queue| > 0 {
      var s1 := Claimed(s);
      assert Waits(s, s.lane.queue[0]);
      forall i | 0 <= i < |s1.lane.queue| ensures Waits(s1, s1.lane.queue[i]) {
        assert s1.lane.queue[i] == s.lane.queue[i + 1];
      }
      forall id | id in s1.places && s1.places[id] == Queued ensures HasItem(s1.lane.queue, id) {
        var i :| 0 <= i < |s.lane.queue| && s.lane.queue[i].id == id;
        assert s1.lane.queue[i - 1].id == id;
      }
    }
  }

  lemma ClaimKeepsLedger(s: System)
    requires Tokens(s) && s.lane.active.None? && Ledger(s)
    ensures Ledger(Claimed(s))
  {
    ClaimKeepsQueueLedger(s);
    if |s.lane.queue| > 0 {
      assert Waits(s, s.lane.queue[0]);
    }
  }

  lemma {:induction false} RetireKeepsWorkers(s: System, t: nat)
    requires Tokens(s) && Ledger(s) && t in s.workers && s.workers[t].phase != Fetching
    ensures QueueLedger(Retired(s, t)) && WorkerLedger(Retired(s, t))
  {
    var s1 := Retired(s, t);
    assert WorkerOk(s, t, s.workers[t]);
    forall i | 0 <= i < |s.lane.queue| ensures Waits(s1, s.lane.queue[i]) {
      assert Waits(s, s.lane.queue[i]);
    }
    forall u | u in s1.workers ensures WorkerOk(s1, u, s1.workers[u]) {
      assert WorkerOk(s, u, s.workers[u]);
    }
  }

  lemma {:induction false} RetireKeepsDurable(s: System, t: nat)
    requires Tokens(s) && Ledger(s) && t in s.workers && s.workers[t].phase != Fetching
    ensures DurableLedger(Retired(s, t)) && TimelineLedger(Retired(s, t))
  {
    var s1 := Retired(s, t);
    assert WorkerOk(s, t, s.workers[t]);
    forall id | CommittedOnly(s, id) ensures CommittedOnly(s1, id) || id in s1.leftover {
      var u :| u in s.workers && s.workers[u].fromQueue && s.workers[u].phase == Committed && s.workers[u].item.id == id;
      assert u != t ==> s1.workers[u] == s.workers[u];
    }
  }

  lemma RetireKeepsLedger(s: System, t: nat)
    requires Tokens(s) && Ledger(s) && t in s.workers && s.workers[t].phase != Fetching
    ensures Ledger(Retired(s, t))
  {
    RetireKeepsWorkers(s, t);
    RetireKeepsDurable(s, t);
  }

  /** Steps that add at most a durable record and leave every worker alone. */
  lemma WorkersStay(s: System, s1: System)
    requires WorkerLedger(s)
    requires forall t :: t in s.workers ==> t in s1.workers && s1.workers[t] == s.workers[t] && WorkerOk(s1, t, s.workers[t])
    ensures forall id :: CommittedOnly(s, id) ==> CommittedOnly(s1, id)
  {
    forall id | CommittedOnly(s, id) ensures CommittedOnly(s1, id) {
      var t :| t in s.workers && s.workers[t].fromQueue && s.workers[t].phase == Committed && s.workers[t].item.id == id;
      assert t in s1.workers && s1.workers[t] == s.workers[t];
    }
  }

  lemma RanKeepsLedger(s: System, item: Item)
    requires Tokens(s) && Ledger(s) && item.id !in s.used && !s.lane.Queues()
    ensures Ledger(Ran(s, item))
  {
    var s1 := Ran(s, item);
    forall t | t in s.workers ensures WorkerOk(s1, t, s.workers[t]) {
      assert WorkerOk(s, t, s.workers[t]);
    }
    WorkersStay(s, s1);
  }

  lemma JoinedKeepsQueueLedger(s: System, item: Item)
    requires QueueLedger(s) && item.id !in s.used && s.lane.Queues() && !HasClient(s.lane.queue, item)
    ensures QueueLedger(Joined(s, item))
  {
    var s1 := Joined(s, item);
    forall i | 0 <= i < |s.lane.queue| ensures Waits(s1, s.lane.queue[i]) && s.lane.queue[i].id != item.id {
      assert Waits(s, s.lane.queue[i]);
    }
    forall id | id in s1.places && s1.places[id] == Queued ensures HasItem(s1.lane.queue, id) {
      if id == item.id {
        assert s1.lane.queue[|s.lane.queue|].id == id;
      } else {
        var i :| 0 <= i < |s.lane.queue| && s.lane.queue[i].id == id;
        assert s1.lane.queue[i].id == id;
      }
    }
  }

  lemma JoinedKeepsLedger(s: System, item: Item)
    requires Tokens(s) && Ledger(s) && item.id !in s.used && s.lane.Queues() && !HasClient(s.lane.queue, item)
    ensures Ledger(Joined(s, item))
  {
    var s1 := Joined(s, item);
    JoinedKeepsQueueLedger(s, item);
    forall t | t in s.workers ensures WorkerOk(s1, t, s.workers[t]) {
      assert WorkerOk(s, t, s.workers[t]);
    }
    WorkersStay(s, s1);
  }

  lemma HiddenKeepsLedger(s: System, item: Item)
    requires Tokens(s) && Ledger(s) && item.id !in s.used && s.lane.Queues() && HasClient(s.lane.queue, item)
    ensures Ledger(Hidden(s, item))
  {
    var s1 := Hidden(s, item);
    forall i | 0 <= i < |s.lane.queue| ensures Waits(s1, s.lane.queue[i]) {
      assert Waits(s, s.lane.queue[i]);
    }
    forall t | t in s.workers ensures WorkerOk(s1, t, s.workers[t]) {
      assert WorkerOk(s, t, s.workers[t]);
    }
    WorkersStay(s, s1);
  }

  lemma SubmitKeepsLedger(s: System, item: Item)
    requires Tokens(s) && Ledger(s) && item.id !in s.used
    ensures Ledger(Submitted(s, item))
  {
    if !s.lane.Queues() {
      RanKeepsLedger(s, item);
    } else if HasClient(s.lane.queue, item) {
      HiddenKeepsLedger(s, item);
    } else {
      JoinedKeepsLedger(s, item);
    }
  }

  lemma CoveredStays(timeline: seq<Item>, item: Item, other: Item)
    requires OneEventPerClient(timeline)
    ensures Covered(Appended(timeline, item), item) && OneEventPerClient(Appended(timeline, item))
    ensures Covered(timeline, other) ==> Covered(Appended(timeline, item), other)
  {
    var after := Appended(timeline, item);
    assert forall k :: 0 <= k < |timeline| ==> after[k] == timeline[k];
    if |after| > |timeline| {
      assert after[|timeline|] == item;
    }
  }

  /** While worker t has not begun, no other worker is between commit and begin. */
  lemma OneUnbegun(s: System, t: nat)
    requires Tokens(s) && t in s.workers && Unbegun(s.workers[t])
    ensures forall id :: CommittedOnly(s, id) ==> s.workers[t].phase == Committed && s.workers[t].item.id == id
  {
    forall u | u in s.workers && s.workers[u].phase == Committed ensures u == t {
      assert Unbegun(s.workers[u]);
    }
  }

  /** At most one worker has not begun, so a commit or a delete disturbs no other worker. */
  lemma CommitKeepsLedger(s: System, t: nat)
    requires Tokens(s) && Ledger(s) && t in s.workers && s.workers[t].phase == Ready
    ensures Ledger(CommittedBy(s, t))
  {
    var w, s1 := s.workers[t], CommittedBy(s, t);
    assert WorkerOk(s, t, w);
    forall i | 0 <= i < |s.lane.queue| ensures Waits(s1, s.lane.queue[i]) {
      assert Waits(s, s.lane.queue[i]);
    }
    forall u | u in s1.workers ensures WorkerOk(s1, u, s1.workers[u]) {
      assert WorkerOk(s, u, s.workers[u]);
    }
    OneUnbegun(s, t);
    assert w.fromQueue ==> CommittedOnly(s1, w.item.id) by {
      assert s1.workers[t].phase == Committed;
    }
    CoveredStays(s.timeline, w.item, w.item);
    forall id | id in s1.places && s1.places[id].Done?
      ensures s1.places[id].item.id == id && Covered(s1.timeline, s1.places[id].item)
    {
      CoveredStays(s.timeline, w.item, s1.places[id].item);
    }
  }

  lemma ClearKeepsLedger(s: System, t: nat)
    requires Tokens(s) && Ledger(s) && t in s.workers && s.workers[t].phase == Committed
    ensures Ledger(ClearedBy(s, t))
  {
    var w, s1 := s.workers[t], ClearedBy(s, t);
    assert WorkerOk(s, t, w);
    forall i | 0 <= i < |s.lane.queue| ensures Waits(s1, s.lane.queue[i]) {
      assert Waits(s, s.lane.queue[i]);
    }
    forall u | u in s1.workers ensures WorkerOk(s1, u, s1.workers[u]) {
      assert WorkerOk(s, u, s.workers[u]);
      assert u != t ==> s.workers[u].phase == Running;
    }
    OneUnbegun(s, t);
  }

  /** Steps that only move a worker along, among phases the ledger treats alike. */
  lemma MoveKeepsLedger(s: System, t: nat, w: Worker, active: Option<Turn>)
    requires Tokens(s) && Ledger(s) && t in s.workers
    requires w.item == s.workers[t].item && w.fromQueue == s.workers[t].fromQueue
    requires (s.workers[t].phase == Fetching && w.phase == Ready) || (s.workers[t].phase == Cleared && w.phase == Running)
    ensures Ledger(SetWorker(s, t, w).(lane := s.lane.(active := active)))
  {
    var s1 := SetWorker(s, t, w).(lane := s.lane.(active := active));
    assert WorkerOk(s, t, s.workers[t]);
    forall i | 0 <= i < |s.lane.queue| ensures Waits(s1, s.lane.queue[i]) {
      assert Waits(s, s.lane.queue[i]);
    }
    forall u | u in s1.workers ensures WorkerOk(s1, u, s1.workers[u]) {
      assert WorkerOk(s, u, s.workers[u]);
    }
    OneUnbegun(s, t);
  }

  lemma {:induction false} WithoutKeepsDistinct(queue: seq<Item>, id: nat)
    requires DistinctIds(queue)
    ensures DistinctIds(Without(queue, id))
  {
    if |queue| > 0 {
      WithoutKeepsDistinct(queue[1..], id);
      var rest := Without(queue[1..], id);
      forall i | 0 <= i < |rest| ensures rest[i].id != queue[0].id {
        assert rest[i] in queue[1..];
      }
    }
  }

  lemma HasItemByMembership(a: seq<Item>, b: seq<Item>, x: Item)
    requires x in b
    ensures HasItem(b, x.id)
  {
    var k :| 0 <= k < |b| && b[k] == x;
    assert b[k].id == x.id;
  }

  /** Only waiting messages and their records change; each still waits or is cancelled. */
  ghost predicate Requeued(s: System, s1: System) {
    && s1.workers == s.workers && s1.timeline == s.timeline && s1.leftover == s.leftover && s1.used == s.used
    && s1.places.Keys == s.places.Keys && s1.lane.durable.Keys <= s.lane.durable.Keys
    && (forall id :: id in s.places && s.places[id] != Queued ==> s1.places[id] == s.places[id])
    && (forall id :: id in s.places && s.places[id] == Queued ==>
          (s1.places[id] == Queued && id in s1.lane.durable) || (s1.places[id] == Cancelled && id !in s1.lane.durable))
    && (forall id :: id in s.lane.durable && (id in s.places ==> s.places[id] != Queued) ==>
          id in s1.lane.durable && s1.lane.durable[id] == s.lane.durable[id])
  }

  /** The queue may be changed into any queue that holds exactly the waiting messages. */
  lemma {:induction false} RequeueKeepsLedger(s: System, s1: System)
    requires Ledger(s) && Requeued(s, s1)
    requires DistinctIds(s1.lane.queue) && forall x :: x in s1.lane.queue ==> Waits(s1, x)
    requires forall id :: id in s1.places && s1.places[id] == Queued ==> HasItem(s1.lane.queue, id)
    ensures Ledger(s1)
  {
    RequeueKeepsWorkers(s, s1);
    RequeueKeepsDurable(s, s1);
    assert forall i :: 0 <= i < |s1.lane.queue| ==> s1.lane.queue[i] in s1.lane.queue;
  }

  lemma {:induction false} RequeueKeepsWorkers(s: System, s1: System)
    requires Ledger(s) && Requeued(s, s1)
    ensures WorkerLedger(s1)
  {
    forall u | u in s1.workers ensures WorkerOk(s1, u, s1.workers[u]) {
      assert WorkerOk(s, u, s.workers[u]);
    }
  }

  lemma {:induction false} RequeueKeepsDurable(s: System, s1: System)
    requires Ledger(s) && Requeued(s, s1)
    ensures DurableLedger(s1) && TimelineLedger(s1)
  {
    forall id | CommittedOnly(s, id) ensures CommittedOnly(s1, id) {
      var u :| u in s.workers && s.workers[u].fromQueue && s.workers[u].phase == Committed && s.workers[u].item.id == id;
      assert s1.workers[u] == s.workers[u];
    }
  }

  lemma {:induction false} CancelKeepsLedger(s: System, id: nat)
    requires Ledger(s) && HasItem(s.lane.queue, id)
    ensures Ledger(CancelledItem(s, id))
  {
    var s1 := CancelledItem(s, id);
    var k :| 0 <= k < |s.lane.queue| && s.lane.queue[k].id == id;
    assert Waits(s, s.lane.queue[k]);
    WithoutKeepsDistinct(s.lane.queue, id);
    forall x | x in s1.lane.queue ensures Waits(s1, x) {
      var i :| 0 <= i < |s.lane.queue| && s.lane.queue[i] == x;
      assert Waits(s, s.lane.queue[i]);
    }
    forall q | q in s1.places && s1.places[q] == Queued ensures HasItem(s1.lane.queue, q) {
      var i :| 0 <= i < |s.lane.queue| && s.lane.queue[i].id == q;
      HasItemByMembership(s.lane.queue, s1.lane.queue, s.lane.queue[i]);
    }
    RequeueKeepsLedger(s, s1);
  }

  lemma SortedDistinctIds(before: seq<Item>, after: seq<Item>)
    requires DistinctIds(before) && SameItems(after, before) && Sorted(after)
    ensures DistinctIds(after)
  {
    forall i, j | 0 <= i < j < |after| ensures after[i].id != after[j].id {
      assert after[i] in before && after[j] in before;
      var a :| 0 <= a < |before| && before[a] == after[i];
      var b :| 0 <= b < |before| && before[b] == after[j];
      assert Before(after[i], after[j]);
    }
  }

  lemma PromotedQueue(queue: seq<Item>, at: nat, item: Item, q: nat)
    requires DistinctIds(queue) && at < |queue| && item.id == queue[at].id
    ensures Sorted(SortItems(queue[at := item])) && DistinctIds(SortItems(queue[at := item]))
    ensures forall x :: x in SortItems(queue[at := item]) ==> x == item || (x in queue && x.id != item.id)
    ensures HasItem(queue, q) ==> HasItem(SortItems(queue[at := item]), q)
  {
    var raised := queue[at := item];
    SortItemsSorts(raised);
    SortedDistinctIds(raised, SortItems(raised));
    if HasItem(queue, q) {
      var i :| 0 <= i < |queue| && queue[i].id == q;
      assert raised[i].id == q && raised[i] in raised;
      HasItemByMembership(raised, SortItems(raised), raised[i]);
    }
  }

  lemma PromoteKeepsLedger(s: System, n: nat, id: nat)
    requires Ledger(s) && n !in s.senders && HasItem(s.lane.queue, id)
    ensures Ledger(Apply(s, Promote(n, id)))
  {
    var s1 := Apply(s, Promote(n, id));
    var at := Find(s.lane.queue, id);
    PromotedQueue(s.lane.queue, at, s.lane.Promoted(id), id);
    assert Waits(s, s.lane.queue[at]);
    forall x | x in s1.lane.queue ensures Waits(s1, x) {
      if x.id != id {
        var i :| 0 <= i < |s.lane.queue| && s.lane.queue[i] == x;
        assert Waits(s, s.lane.queue[i]);
      }
    }
    forall q | q in s1.places && s1.places[q] == Queued ensures HasItem(s1.lane.queue, q) {
      PromotedQueue(s.lane.queue, at, s.lane.Promoted(id), q);
    }
    RequeueKeepsLedger(s, s1);
  }

  lemma ReloadedIsDistinct(loaded: seq<Item>, durable: map<nat, Item>)
    requires Reloads(loaded, durable)
    ensures DistinctIds(loaded)
  {
    forall i, j | 0 <= i < j < |loaded| ensures loaded[i].id != loaded[j].id {
      assert Before(loaded[i], loaded[j]);
    }
  }

  lemma CrashKeepsLedger(s: System, loaded: seq<Item>)
    requires Ledger(s) && Reloads(loaded, s.lane.durable)
    ensures Ledger(AfterCrash(s, loaded))
  {
    ReloadedIsDistinct(loaded, s.lane.durable);
  }

  // ------------------------------------------------------------ main results

  lemma StepKeepsLedger(s: System, step: Step)
    requires Inv(s) && Enabled(s, step)
    ensures Ledger(Apply(s, step))
  {
    match step {
      case Submit(item) => SubmitKeepsLedger(s, item);
      case Fetch(t) =>
        MoveKeepsLedger(s, t, s.workers[t].(token := ActiveToken(s.lane), phase := Ready), s.lane.active);
      case Commit(t) => CommitKeepsLedger(s, t);
      case Clear(t) => ClearKeepsLedger(s, t);
      case Begin(t) =>
        MoveKeepsLedger(s, t, s.workers[t].(phase := Running), s.lane.BeginTurn(s.workers[t].token.value).active);
      case End(t) => EndKeepsLedger(s, t);
      case CancelItem(id) => if HasItem(s.lane.queue, id) { CancelKeepsLedger(s, id); }
      case Promote(n, id) => if HasItem(s.lane.queue, id) { PromoteKeepsLedger(s, n, id); }
      case Look(n, busy) => OnlySendersChange(s, Apply(s, step), s.lane.active);
      case Force(n) => ForceKeepsLedger(s, n);
      case Crash(loaded) => CrashKeepsLedger(s, loaded);
      case Resume => ResumeKeepsLedger(s);
    }
  }

  lemma OnlySendersChange(s: System, s1: System, active: Option<Turn>)
    requires Ledger(s)
    requires s1 == s.(senders := s1.senders, recovering := s1.recovering, lane := s.lane.(active := active))
    ensures Ledger(s1)
  {
    forall i | 0 <= i < |s.lane.queue| ensures Waits(s1, s.lane.queue[i]) {
      assert Waits(s, s.lane.queue[i]);
    }
    forall u | u in s1.workers ensures WorkerOk(s1, u, s1.workers[u]) {
      assert WorkerOk(s, u, s.workers[u]);
    }
    forall id | CommittedOnly(s, id) ensures CommittedOnly(s1, id) {
    }
  }

  lemma EndKeepsLedger(s: System, t: nat)
    requires Inv(s) && Enabled(s, End(t))
    ensures Ledger(Ended(s, t))
  {
    RetireKeepsLedger(s, t);
    OnlySendersChange(Retired(s, t), Retired(s, t).(lane := s.lane.(active := None)), None);
    RetireKeepsTokens(s, t);
    if ActiveToken(s.lane) == Some(t) || s.lane.active.None? {
      ClaimKeepsLedger(Retired(s, t).(lane := s.lane.(active := None)));
    }
  }

  lemma ForceKeepsLedger(s: System, n: nat)
    requires Inv(s) && Enabled(s, Force(n))
    ensures Ledger(Forced(s, n))
  {
    var s1 := s.(senders := s.senders - {n});
    OnlySendersChange(s, s1, s.lane.active);
    var s2 := s1.(lane := s.lane.(active := None));
    OnlySendersChange(s, s2, None);
    if !s.senders[n].live && (s.lane.active.None? || s.senders[n].seen == ActiveToken(s.lane)) {
      assert SeenIsOld(s, s.senders[n]);
      assert Tokens(s2);
      ClaimKeepsLedger(s2);
    }
  }

  lemma ResumeKeepsLedger(s: System)
    requires Inv(s) && s.recovering
    ensures Ledger(Resumed(s))
  {
    var s1 := s.(recovering := false);
    OnlySendersChange(s, s1, s.lane.active);
    if s.lane.active.None? {
      RecoveryKeepsTokens(s, s1);
      ClaimKeepsLedger(s1);
    }
  }

  lemma RecoveryKeepsTokens(s: System, s1: System)
    requires Tokens(s) && s1 == s.(recovering := false)
    ensures Tokens(s1)
  {
  }

  /** A run: states linked by enabled steps, from the empty lane. */
  ghost predicate Run(states: seq<System>, steps: seq<Step>) {
    |states| == |steps| + 1 && states[0] == INIT &&
    forall i :: 0 <= i < |steps| ==> Enabled(states[i], steps[i]) && states[i + 1] == Apply(states[i], steps[i])
  }

  lemma {:induction false} RunKeepsInv(states: seq<System>, steps: seq<Step>, n: nat)
    requires Run(states, steps) && n < |states|
    ensures Inv(states[n])
  {
    if n > 0 {
      RunKeepsInv(states, steps, n - 1);
      StepKeepsTokens(states[n - 1], steps[n - 1]);
      StepKeepsLedger(states[n - 1], steps[n - 1]);
    }
  }

  /** In every reachable state: a waiting queue has a turn in progress, owned by a live
      worker that will end it; a worker that has yet to begin still owns the turn, so none
      begins a turn that was taken from it. */
  lemma QueueNeverStalls(states: seq<System>, steps: seq<Step>, n: nat)
    requires Run(states, steps) && n < |states|
    ensures var s := states[n];
      (|s.lane.queue| > 0 && !s.recovering ==> s.lane.active.Some? && s.lane.active.value.token in s.workers) &&
      (forall t :: t in s.workers && Unbegun(s.workers[t]) ==> ActiveToken(s.lane) == Some(t))
  {
    RunKeepsInv(states, steps, n);
  }

  /** A worker whose token is not current ends without touching turn, queue or records. */
  lemma StaleWorkerChangesNothing(states: seq<System>, steps: seq<Step>, n: nat, t: nat)
    requires Run(states, steps) && n < |states| && Enabled(states[n], End(t))
    requires states[n].lane.active.Some? && states[n].lane.active.value.token != t
    ensures Apply(states[n], End(t)).lane == states[n].lane
    ensures states[n].workers[t].phase == Running
  {
    RunKeepsInv(states, steps, n);
  }

  /** If memory is in key order, a crash keeps the order of the messages that wait. Arrival
      keeps memory in key order exactly when the new key is after the last. */
  lemma CrashKeepsOrder(states: seq<System>, steps: seq<Step>, n: nat, loaded: seq<Item>, i: nat, j: nat)
    requires Run(states, steps) && n < |states| && Enabled(states[n], Crash(loaded))
    requires Sorted(states[n].lane.queue) && i < j < |states[n].lane.queue|
    ensures var q := states[n].lane.queue;
      HasItem(loaded, q[i].id) && HasItem(loaded, q[j].id) && Find(loaded, q[i].id) < Find(loaded, q[j].id)
  {
    RunKeepsInv(states, steps, n);
    var q := states[n].lane.queue;
    assert Waits(states[n], q[i]) && Waits(states[n], q[j]);
    SameOrder(q, i, j, loaded, Find(loaded, q[i].id), Find(loaded, q[j].id));
  }

  lemma SameOrder(q: seq<Item>, i: nat, j: nat, loaded: seq<Item>, a: nat, b: nat)
    requires Sorted(q) && i < j < |q| && Sorted(loaded) && a < |loaded| && b < |loaded|
    requires loaded[a] == q[i] && loaded[b] == q[j]
    ensures a < b
  {
    Asymmetric(q[i], q[j]);
  }

  lemma Asymmetric(x: Item, y: Item)
    ensures !(Before(x, y) && Before(y, x))
  {
  }

  lemma ArrivalOrder(queue: seq<Item>, item: Item)
    requires Sorted(queue)
    ensures Sorted(queue + [item]) <==> |queue| == 0 || Before(queue[|queue| - 1], item)
  {
    var q := queue + [item];
    if |queue| > 0 && Before(queue[|queue| - 1], item) {
      forall i | 0 <= i < |queue| ensures Before(q[i], item) {
        assert i < |queue| - 1 ==> Before(queue[i], queue[|queue| - 1]);
      }
    }
    if Sorted(q) && |queue| > 0 {
      assert Before(q[|queue| - 1], q[|queue|]);
    }
  }

  /** Two messages of one second whose ids are not in order. */
  lemma SameSecondExample(x: Item, y: Item)
    requires x == Item(2, None, 0, 7) && y == Item(1, None, 0, 7)
    ensures Sorted([x]) && !Sorted([x, y]) && SortItems([x, y]) == [y, x]
  {
    assert [x, y][1..] == [y] && [y][1..] == [];
    assert SortItems([y]) == [y];
    assert Slot(x, [y]) == 1;
    ArrivalOrder([x], y);
    assert [x] + [y] == [x, y];
  }

  /** A send-now that finds the turn idle and takes it over at once starts its own message. */
  lemma {:induction false} SendNowStarts(s: System, n: nat, id: nat, busy: bool)
    requires Inv(s) && Enabled(s, Promote(n, id)) && HasItem(s.lane.queue, id)
    ensures var s1 := Apply(s, Promote(n, id));
      Enabled(s1, Look(n, busy)) &&
      var s2 := Apply(s1, Look(n, busy));
      Enabled(s2, Force(n)) &&
      var s3, t := Apply(s2, Force(n)), s.lane.nextToken;
      if s.lane.active.Some? && (s.lane.active.value.claiming || busy) then s3.lane == s2.lane && s3.workers == s2.workers
      else
        ActiveToken(s3.lane) == Some(t) && t in s3.workers && s3.workers[t].item.id == id &&
        id in s3.places && s3.places[id] == Held(t)
  {
    PromotedToHead(s.lane, id);
  }

  /** A crash leaves no worker, no send-now and no turn; the recovery that follows ends with a
      turn for the head of the queue, if there is one. */
  lemma CrashAndRecovery(s: System, loaded: seq<Item>)
    requires Inv(s) && Enabled(s, Crash(loaded))
    ensures var s1 := Apply(s, Crash(loaded));
      s1.workers == map[] && s1.senders == map[] && s1.lane.active.None? && s1.lane.queue == loaded && Enabled(s1, Resume) &&
      var s2 := Apply(s1, Resume);
      !s2.recovering && (loaded != [] <==> s2.lane.active.Some?) &&
      (loaded != [] ==> s2.lane.queue == loaded[1..] && s2.workers == map[s.lane.nextToken := Worker(loaded[0], Some(s.lane.nextToken), Ready, true)])
  {
  }

  /** Cancelling a waiting message takes it out of the queue and its record away; cancelling
      any other changes nothing. */
  lemma CancelTakesOut(s: System, id: nat)
    ensures HasItem(s.lane.queue, id) ==>
      var s1 := Apply(s, CancelItem(id));
      !HasItem(s1.lane.queue, id) && id !in s1.lane.durable && id in s1.places && s1.places[id] == Cancelled
      && s1.workers == s.workers && s1.timeline == s.timeline && s1.lane.active == s.lane.active
    ensures !HasItem(s.lane.queue, id) ==> Apply(s, CancelItem(id)) == s
  {
    CancelsExactly(s.lane, id);
  }
}
