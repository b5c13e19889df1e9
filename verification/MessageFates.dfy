/** What becomes of a human message over a whole run of one lane
    (manage/workgroup/turn_kernel.py:367-402, 541-557, 640-677, 1092-1135): where an accepted
    message is, which are stranded, lost or committed twice, and exactly when. */
module MessageFates {
  import opened HumanQueue
  import opened Shared
  import opened TurnLane

  // -------------------------------------------------------- accepted messages

  /** Step i puts a message into the queue, or only saves it because its client id waits. */
  predicate Accepts(states: seq<System>, steps: seq<Step>, i: nat, item: Item)
    requires i < |steps| && i < |states|
  {
    steps[i] == Submit(item) && states[i].lane.Queues()
  }

  predicate HoldsMessage(s: System, t: nat, id: nat) {
    t in s.workers && s.workers[t].fromQueue && s.workers[t].phase == Ready && s.workers[t].item.id == id
  }

  /** The place recorded for a message is the place it has. */
  ghost predicate PlaceIsReal(s: System, id: nat)
    requires id in s.places
  {
    var place, queued := s.places[id], HasItem(s.lane.queue, id);
    && (queued <==> place == Queued)
    && (forall t :: HoldsMessage(s, t, id) <==> place == Held(t))
    && (place.Done? ==> place.item.id == id && Covered(s.timeline, place.item))
    && (place == Cancelled ==> id !in s.lane.durable)
    && (place.Queued? || place.Held? || place.Failed? ==> id in s.lane.durable)
    && (id in s.lane.durable && place.Done? ==> CommittedOnly(s, id) || id in s.leftover)
  }

  lemma StepKeepsPlaces(s: System, step: Step, id: nat)
    requires Enabled(s, step) && id in s.places
    ensures id in Apply(s, step).places
  {
  }

  lemma {:induction false} PlacesStay(states: seq<System>, steps: seq<Step>, m: nat, n: nat, id: nat)
    requires Run(states, steps) && m <= n < |states| && id in states[m].places
    ensures id in states[n].places
    decreases n
  {
    if m < n {
      PlacesStay(states, steps, m, n - 1, id);
      StepKeepsPlaces(states[n - 1], steps[n - 1], id);
    }
  }

  lemma InvMakesPlacesReal(s: System, id: nat)
    requires Inv(s) && id in s.places
    ensures PlaceIsReal(s, id)
  {
    if HasItem(s.lane.queue, id) {
      var i :| 0 <= i < |s.lane.queue| && s.lane.queue[i].id == id;
      assert Waits(s, s.lane.queue[i]);
    }
    forall t | t in s.workers ensures WorkerOk(s, t, s.workers[t]) {
    }
  }

  /** Without a crash no step forgets a stale record, and only a submission adds a place. */
  lemma CalmStep(s: System, step: Step, id: nat)
    requires Inv(s) && Enabled(s, step) && !step.Crash?
    ensures id in Apply(s, step).places ==> id in s.places || (step.Submit? && step.item.id == id)
    ensures id in s.leftover ==> id in Apply(s, step).leftover
  {
    assert |s.lane.queue| > 0 ==> Waits(s, s.lane.queue[0]);
    if step.Commit? || step.End? {
      assert WorkerOk(s, step.token, s.workers[step.token]);
    } else if step.CancelItem? && HasItem(s.lane.queue, step.id) {
      assert Waits(s, s.lane.queue[Find(s.lane.queue, step.id)]);
    }
  }

  /** A message saved under a waiting client id, until a crash brings it into the queue. */
  predicate Shadowed(s: System, id: nat) {
    id in s.leftover && id !in s.places && id in s.used
  }

  lemma StepKeepsShadowed(s: System, step: Step, id: nat)
    requires Inv(s) && Enabled(s, step) && Shadowed(s, id)
    ensures id in Apply(s, step).places || Shadowed(Apply(s, step), id)
  {
    if !step.Crash? {
      CalmStep(s, step, id);
      UsedStays(s, step, id);
    }
  }

  lemma UsedStays(s: System, step: Step, id: nat)
    requires Enabled(s, step) && id in s.used
    ensures id in Apply(s, step).used
  {
  }

  lemma {:induction false} ShadowedStays(states: seq<System>, steps: seq<Step>, m: nat, n: nat, id: nat)
    requires Run(states, steps) && m <= n < |states| && Shadowed(states[m], id)
    ensures id in states[n].places || Shadowed(states[n], id)
    decreases n
  {
    if m < n {
      ShadowedStays(states, steps, m, n - 1, id);
      RunKeepsInv(states, steps, n - 1);
      if id in states[n - 1].places {
        StepKeepsPlaces(states[n - 1], steps[n - 1], id);
      } else {
        StepKeepsShadowed(states[n - 1], steps[n - 1], id);
      }
    }
  }

  lemma SubmissionPlaces(s: System, item: Item)
    requires Enabled(s, Submit(item)) && s.lane.Queues()
    ensures if HasClient(s.lane.queue, item) then item.id in Submitted(s, item).leftover && item.id in Submitted(s, item).used
            else item.id in Submitted(s, item).places
  {
  }

  /** Every accepted message is, in every later state, in exactly one recorded place, and the
      place is real: queued, held by its worker, failed with its record kept, on the Timeline,
      or cancelled without a record. One whose client id was waiting has its durable record
      until a crash, and from then on a place. */
  lemma EveryMessageAccountedFor(states: seq<System>, steps: seq<Step>, i: nat, n: nat, item: Item)
    requires Run(states, steps) && i < n < |states| && Accepts(states, steps, i, item)
    ensures var s := states[n];
      if item.id in s.places then PlaceIsReal(s, item.id)
      else HasClient(states[i].lane.queue, item) && item.id in s.lane.durable && !HasItem(s.lane.queue, item.id)
  {
    SubmissionPlaces(states[i], item);
    RunKeepsInv(states, steps, n);
    RunKeepsInv(states, steps, i);
    if item.id in states[i + 1].places {
      PlacesStay(states, steps, i + 1, n, item.id);
    } else {
      ShadowedStays(states, steps, i + 1, n, item.id);
    }
    if item.id in states[n].places {
      InvMakesPlacesReal(states[n], item.id);
    } else {
      NoPlaceNotQueued(states[n], item.id);
    }
  }

  lemma NoPlaceNotQueued(s: System, id: nat)
    requires Inv(s) && id !in s.places
    ensures !HasItem(s.lane.queue, id) && (id in s.leftover ==> id in s.lane.durable)
  {
    forall i | 0 <= i < |s.lane.queue| ensures s.lane.queue[i].id != id {
      assert Waits(s, s.lane.queue[i]);
    }
  }

  /** No client id is on the Timeline twice, in any reachable state. */
  lemma OneEventPerClientId(states: seq<System>, steps: seq<Step>, n: nat)
    requires Run(states, steps) && n < |states|
    ensures OneEventPerClient(states[n].timeline)
  {
    RunKeepsInv(states, steps, n);
  }

  // ---------------------------------------------------- memory against durable copy

  /** Right after a submission memory and durable copy disagree on the message exactly when
      it had to wait and its client id was waiting already. */
  lemma CopiesPartAtSubmission(states: seq<System>, steps: seq<Step>, i: nat, item: Item)
    requires Run(states, steps) && i < |steps| && steps[i] == Submit(item)
    ensures var s, s1 := states[i], states[i + 1];
      (item.id in s1.lane.durable) != HasItem(s1.lane.queue, item.id)
      <==> s.lane.Queues() && HasClient(s.lane.queue, item)
  {
    var s, s1 := states[i], states[i + 1];
    RunKeepsInv(states, steps, i);
    assert item.id !in s.used;
    NoPlaceNotQueued(s, item.id);
    if s1.lane.queue == s.lane.queue + [item] {
      assert s1.lane.queue[|s.lane.queue|] == item;
    }
  }

  // ------------------------------------------------------------ failed messages

  /** A worker leaves with its message uncommitted. */
  predicate Strands(s: System, step: Step, id: nat) {
    step.End? && HoldsMessage(s, step.token, id)
  }

  predicate IsFailed(s: System, id: nat) {
    id in s.places && s.places[id] == Failed
  }

  lemma StepStrands(s: System, step: Step, id: nat)
    requires Inv(s) && Enabled(s, step) && !step.Crash?
    ensures IsFailed(Apply(s, step), id) <==> IsFailed(s, id) || Strands(s, step, id)
  {
    if step.End? {
      EndStrands(s, step.token, id);
    } else if step.Force? {
      ClaimStrandsNone(s, s.(senders := s.senders - {step.sender}, lane := s.lane.(active := None)), id);
    } else if step.Resume? {
      ClaimStrandsNone(s, s.(recovering := false), id);
    } else {
      QuietStrandsNone(s, step, id);
    }
  }

  lemma QuietStrandsNone(s: System, step: Step, id: nat)
    requires Inv(s) && Enabled(s, step) && !step.Crash? && !step.End? && !step.Force? && !step.Resume?
    ensures IsFailed(Apply(s, step), id) <==> IsFailed(s, id)
  {
    if step.Commit? {
      assert WorkerOk(s, step.token, s.workers[step.token]);
    } else if step.CancelItem? && HasItem(s.lane.queue, step.id) {
      assert Waits(s, s.lane.queue[Find(s.lane.queue, step.id)]);
    }
  }

  lemma ClaimStrandsNone(s: System, s1: System, id: nat)
    requires Inv(s) && s1.places == s.places && s1.lane.queue == s.lane.queue
    ensures IsFailed(Claimed(s1), id) <==> IsFailed(s, id)
  {
    assert |s.lane.queue| > 0 ==> Waits(s, s.lane.queue[0]);
  }

  lemma EndStrands(s: System, t: nat, id: nat)
    requires Inv(s) && Enabled(s, End(t))
    ensures IsFailed(Ended(s, t), id) <==> IsFailed(s, id) || Strands(s, End(t), id)
  {
    assert |s.lane.queue| > 0 ==> Waits(s, s.lane.queue[0]);
    assert WorkerOk(s, t, s.workers[t]);
    var s1 := Retired(s, t);
    assert IsFailed(s1, id) <==> IsFailed(s, id) || Strands(s, End(t), id);
  }

  ghost predicate StrandedBetween(states: seq<System>, steps: seq<Step>, m: nat, n: nat, id: nat)
    requires n < |states| && |states| == |steps| + 1
  {
    exists k :: m <= k < n && Strands(states[k], steps[k], id)
  }

  lemma StrandedGrows(states: seq<System>, steps: seq<Step>, m: nat, n: nat, id: nat)
    requires m < n < |states| && |states| == |steps| + 1
    ensures StrandedBetween(states, steps, m, n, id) <==>
            StrandedBetween(states, steps, m, n - 1, id) || Strands(states[n - 1], steps[n - 1], id)
  {
    if StrandedBetween(states, steps, m, n, id) {
      var k :| m <= k < n && Strands(states[k], steps[k], id);
      assert k < n - 1 || k == n - 1;
    }
  }

  /** Between crashes a message is failed exactly if it was, or a worker that held it left
      before committing it. */
  lemma {:induction false} FailedExactly(states: seq<System>, steps: seq<Step>, m: nat, n: nat, id: nat)
    requires Run(states, steps) && m <= n < |states| && NoCrash(steps, m, n)
    ensures IsFailed(states[n], id) <==> IsFailed(states[m], id) || StrandedBetween(states, steps, m, n, id)
    decreases n
  {
    if m < n {
      NoCrashBefore(steps, m, n);
      FailedExactly(states, steps, m, n - 1, id);
      StrandedGrows(states, steps, m, n, id);
      RunStrands(states, steps, n - 1, id);
    } else {
      assert !StrandedBetween(states, steps, m, n, id);
    }
  }

  predicate NoCrash(steps: seq<Step>, m: nat, n: nat)
    requires n <= |steps|
  {
    forall k :: m <= k < n ==> !steps[k].Crash?
  }

  lemma NoCrashBefore(steps: seq<Step>, m: nat, n: nat)
    requires m < n <= |steps| && NoCrash(steps, m, n)
    ensures NoCrash(steps, m, n - 1) && !steps[n - 1].Crash?
  {
  }

  lemma RunStrands(states: seq<System>, steps: seq<Step>, k: nat, id: nat)
    requires Run(states, steps) && k < |steps| && !steps[k].Crash?
    ensures IsFailed(states[k + 1], id) <==> IsFailed(states[k], id) || Strands(states[k], steps[k], id)
  {
    RunKeepsInv(states, steps, k);
    StepStrands(states[k], steps[k], id);
  }

  /** A crash leaves nothing failed. */
  lemma CrashClearsFailed(states: seq<System>, steps: seq<Step>, n: nat, loaded: seq<Item>, id: nat)
    requires Run(states, steps) && n < |states| && Enabled(states[n], Crash(loaded))
    ensures !IsFailed(Apply(states[n], Crash(loaded)), id)
  {
    RunKeepsInv(states, steps, n);
  }

  // -------------------------------------------------------------------- crashes

  /** After a crash exactly the messages with a durable record are queued again. That takes
      in committed ones whose record was not yet deleted, or was left stale. */
  lemma CrashRequeues(states: seq<System>, steps: seq<Step>, n: nat, loaded: seq<Item>, id: nat)
    requires Run(states, steps) && n < |states| && Enabled(states[n], Crash(loaded))
    ensures var s, s1 := states[n], Apply(states[n], Crash(loaded));
      && (HasItem(s1.lane.queue, id) <==> id in s.lane.durable)
      && (HasItem(s1.lane.queue, id) ==> s1.places[id] == Queued && s1.lane.queue[Find(s1.lane.queue, id)] == s.lane.durable[id])
      && (id in s.places && s.places[id].Done? ==>
            (HasItem(s1.lane.queue, id) <==> CommittedOnly(s, id) || id in s.leftover))
  {
    var s, s1 := states[n], Apply(states[n], Crash(loaded));
    RunKeepsInv(states, steps, n);
    CrashKeepsLedger(s, loaded);
    forall t | t in s.workers ensures WorkerOk(s, t, s.workers[t]) {
    }
  }

  /** The step commits the message, or takes it out of the queue. */
  predicate Settles(s: System, step: Step, id: nat) {
    (step.Commit? && step.token in s.workers && s.workers[step.token].item.id == id) ||
    (step.CancelItem? && step.id == id && HasItem(s.lane.queue, id))
  }

  /** The record is there, and no worker has committed the message. */
  ghost predicate Safe(s: System, id: nat) {
    id in s.lane.durable && id in s.used &&
    forall t :: t in s.workers && s.workers[t].item.id == id ==> s.workers[t].phase in {Fetching, Ready}
  }

  /** The message has no copy but its worker's. */
  predicate Fleeting(s: System, id: nat) {
    id in s.used && id !in s.lane.durable && id !in s.places
  }

  lemma ClaimKeepsSafe(s: System, id: nat)
    requires Safe(s, id)
    ensures Safe(Claimed(s), id)
  {
  }

  lemma EndKeepsSafe(s: System, t: nat, id: nat)
    requires Safe(s, id) && Enabled(s, End(t))
    ensures Safe(Ended(s, t), id)
  {
    var s1 := Retired(s, t);
    assert Safe(s1, id);
    ClaimKeepsSafe(s1.(lane := s.lane.(active := None)), id);
  }

  lemma ForceKeepsSafe(s: System, n: nat, id: nat)
    requires Safe(s, id) && Enabled(s, Force(n))
    ensures Safe(Forced(s, n), id)
  {
    ClaimKeepsSafe(s.(senders := s.senders - {n}, lane := s.lane.(active := None)), id);
  }

  lemma StepKeepsSafe(s: System, step: Step, id: nat)
    requires Enabled(s, step) && Safe(s, id) && !Settles(s, step, id)
    ensures Safe(Apply(s, step), id)
  {
    if step.End? {
      EndKeepsSafe(s, step.token, id);
    } else if step.Force? {
      ForceKeepsSafe(s, step.sender, id);
    } else if step.Resume? {
      ClaimKeepsSafe(s.(recovering := false), id);
    }
  }

  lemma StepKeepsFleeting(s: System, step: Step, id: nat)
    requires Inv(s) && Enabled(s, step) && Fleeting(s, id)
    ensures Fleeting(Apply(s, step), id)
  {
    NoPlaceNotQueued(s, id);
    UsedStays(s, step, id);
    if !step.Crash? {
      CalmStep(s, step, id);
    }
  }

  /** Nothing commits or takes out the message between its submission and state n. */
  ghost predicate Unsettled(states: seq<System>, steps: seq<Step>, i: nat, n: nat, id: nat)
    requires n < |states| && |states| == |steps| + 1
  {
    forall k :: i < k < n ==> !Settles(states[k], steps[k], id)
  }

  lemma {:induction false} SafeStays(states: seq<System>, steps: seq<Step>, i: nat, n: nat, id: nat)
    requires Run(states, steps) && i < n < |states| && Safe(states[i + 1], id) && Unsettled(states, steps, i, n, id)
    ensures Safe(states[n], id)
    decreases n
  {
    if i + 1 < n {
      SafeStays(states, steps, i, n - 1, id);
      assert !Settles(states[n - 1], steps[n - 1], id);
      StepKeepsSafe(states[n - 1], steps[n - 1], id);
    }
  }

  lemma {:induction false} FleetingStays(states: seq<System>, steps: seq<Step>, m: nat, n: nat, id: nat)
    requires Run(states, steps) && m <= n < |states| && Fleeting(states[m], id)
    ensures Fleeting(states[n], id)
    decreases n
  {
    if m < n {
      FleetingStays(states, steps, m, n - 1, id);
      RunKeepsInv(states, steps, n - 1);
      StepKeepsFleeting(states[n - 1], steps[n - 1], id);
    }
  }

  lemma SubmissionIsSafe(s: System, item: Item)
    requires Inv(s) && Enabled(s, Submit(item))
    ensures if s.lane.Queues() then Safe(Submitted(s, item), item.id) else Fleeting(Submitted(s, item), item.id)
  {
    forall t | t in s.workers ensures s.workers[t].item.id != item.id {
      assert WorkerOk(s, t, s.workers[t]);
    }
  }

  /** A crash loses a submitted message that was neither committed nor cancelled exactly when
      it had been run at once. */
  lemma CrashLosesExactly(states: seq<System>, steps: seq<Step>, i: nat, n: nat, item: Item, loaded: seq<Item>)
    requires Run(states, steps) && i < n < |states| && steps[i] == Submit(item)
    requires Unsettled(states, steps, i, n, item.id) && Enabled(states[n], Crash(loaded))
    ensures !HasItem(Apply(states[n], Crash(loaded)).lane.queue, item.id) <==> !states[i].lane.Queues()
  {
    RunKeepsInv(states, steps, i);
    SubmissionIsSafe(states[i], item);
    if states[i].lane.Queues() {
      SafeStays(states, steps, i, n, item.id);
    } else {
      FleetingStays(states, steps, i + 1, n, item.id);
    }
    CrashRequeues(states, steps, n, loaded, item.id);
  }

  // ------------------------------------------------------- committed a second time

  predicate Appears(timeline: seq<Item>, id: nat) {
    exists k :: 0 <= k < |timeline| && timeline[k].id == id
  }

  /** Everywhere the message has the client id it was submitted with. */
  ghost predicate CarriesClient(s: System, id: nat, clientId: Option<nat>) {
    id in s.used
    && (forall k :: 0 <= k < |s.lane.queue| && s.lane.queue[k].id == id ==> s.lane.queue[k].clientId == clientId)
    && (id in s.lane.durable ==> s.lane.durable[id].clientId == clientId && s.lane.durable[id].id == id)
    && (forall t :: t in s.workers && s.workers[t].item.id == id ==> s.workers[t].item.clientId == clientId)
    && (forall k :: 0 <= k < |s.timeline| && s.timeline[k].id == id ==> s.timeline[k].clientId == clientId)
  }

  lemma ClaimKeepsClient(s: System, id: nat, clientId: Option<nat>)
    requires CarriesClient(s, id, clientId)
    ensures CarriesClient(Claimed(s), id, clientId)
  {
  }

  lemma CrashKeepsClient(s: System, loaded: seq<Item>, id: nat, clientId: Option<nat>)
    requires CarriesClient(s, id, clientId) && Enabled(s, Crash(loaded))
    ensures CarriesClient(AfterCrash(s, loaded), id, clientId)
  {
  }

  lemma SubmitKeepsClient(s: System, item: Item, id: nat, clientId: Option<nat>)
    requires Enabled(s, Submit(item)) && CarriesClient(s, id, clientId)
    ensures CarriesClient(Submitted(s, item), id, clientId)
  {
    assert item.id != id;
  }

  lemma CancelKeepsClient(s: System, qid: nat, id: nat, clientId: Option<nat>)
    requires CarriesClient(s, id, clientId) && HasItem(s.lane.queue, qid)
    ensures CarriesClient(CancelledItem(s, qid), id, clientId)
  {
    var rest := Without(s.lane.queue, qid);
    forall k | 0 <= k < |rest| && rest[k].id == id ensures rest[k].clientId == clientId {
      assert rest[k] in s.lane.queue;
    }
  }

  lemma PromoteKeepsClient(s: System, n: nat, qid: nat, id: nat, clientId: Option<nat>)
    requires DistinctIds(s.lane.queue) && n !in s.senders
    requires CarriesClient(s, id, clientId) && HasItem(s.lane.queue, qid)
    ensures CarriesClient(Apply(s, Promote(n, qid)), id, clientId)
  {
    var at, item := Find(s.lane.queue, qid), s.lane.Promoted(qid);
    PromotedQueue(s.lane.queue, at, item, id);
    var sorted := SortItems(s.lane.queue[at := item]);
    forall k | 0 <= k < |sorted| && sorted[k].id == id ensures sorted[k].clientId == clientId {
      assert sorted[k] in sorted;
    }
  }

  lemma WorkerStepKeepsClient(s: System, step: Step, id: nat, clientId: Option<nat>)
    requires Enabled(s, step) && CarriesClient(s, id, clientId)
    requires step.Fetch? || step.Commit? || step.Clear? || step.Begin?
    ensures CarriesClient(Apply(s, step), id, clientId)
  {
  }

  lemma EndKeepsClient(s: System, t: nat, id: nat, clientId: Option<nat>)
    requires Enabled(s, End(t)) && CarriesClient(s, id, clientId)
    ensures CarriesClient(Ended(s, t), id, clientId)
  {
    assert CarriesClient(Retired(s, t), id, clientId);
    ClaimKeepsClient(Retired(s, t).(lane := s.lane.(active := None)), id, clientId);
  }

  lemma StepKeepsClient(s: System, step: Step, id: nat, clientId: Option<nat>)
    requires Inv(s) && Enabled(s, step) && CarriesClient(s, id, clientId)
    ensures CarriesClient(Apply(s, step), id, clientId)
  {
    match step
    case Crash(loaded) => CrashKeepsClient(s, loaded, id, clientId);
    case Promote(n, qid) => if HasItem(s.lane.queue, qid) { PromoteKeepsClient(s, n, qid, id, clientId); }
    case Submit(item) => SubmitKeepsClient(s, item, id, clientId);
    case CancelItem(qid) => if HasItem(s.lane.queue, qid) { CancelKeepsClient(s, qid, id, clientId); }
    case Look(_, _) =>
    case End(t) => EndKeepsClient(s, t, id, clientId);
    case Force(n) => ClaimKeepsClient(s.(senders := s.senders - {n}, lane := s.lane.(active := None)), id, clientId);
    case Resume => ClaimKeepsClient(s.(recovering := false), id, clientId);
    case _ => WorkerStepKeepsClient(s, step, id, clientId);
  }

  ghost predicate TimelineUsed(s: System) {
    forall k :: 0 <= k < |s.timeline| ==> s.timeline[k].id in s.used
  }

  lemma {:induction false} RunTimelineUsed(states: seq<System>, steps: seq<Step>, n: nat)
    requires Run(states, steps) && n < |states|
    ensures TimelineUsed(states[n])
  {
    if n > 0 {
      RunTimelineUsed(states, steps, n - 1);
      RunKeepsInv(states, steps, n - 1);
      StepKeepsTimelineUsed(states[n - 1], steps[n - 1]);
    }
  }

  lemma StepKeepsTimelineUsed(s: System, step: Step)
    requires Inv(s) && Enabled(s, step) && TimelineUsed(s)
    ensures TimelineUsed(Apply(s, step))
  {
    if step.Commit? {
      assert WorkerOk(s, step.token, s.workers[step.token]);
    }
  }

  lemma SubmissionCarriesClient(s: System, item: Item)
    requires Inv(s) && TimelineUsed(s) && Enabled(s, Submit(item))
    ensures CarriesClient(Submitted(s, item), item.id, item.clientId)
  {
    NoPlaceNotQueued(s, item.id);
    forall t | t in s.workers ensures s.workers[t].item.id != item.id {
      assert WorkerOk(s, t, s.workers[t]);
    }
  }

  lemma {:induction false} ClientStays(states: seq<System>, steps: seq<Step>, i: nat, n: nat, item: Item)
    requires Run(states, steps) && i < n < |states| && steps[i] == Submit(item)
    ensures CarriesClient(states[n], item.id, item.clientId)
    decreases n
  {
    RunKeepsInv(states, steps, n - 1);
    if i + 1 < n {
      ClientStays(states, steps, i, n - 1, item);
      StepKeepsClient(states[n - 1], steps[n - 1], item.id, item.clientId);
    } else {
      RunTimelineUsed(states, steps, i);
      SubmissionCarriesClient(states[i], item);
    }
  }

  /** A message that is on the Timeline and is committed again is put there a second time
      exactly when it was submitted without a client id. */
  lemma SecondCommitRepeats(states: seq<System>, steps: seq<Step>, i: nat, n: nat, item: Item, t: nat)
    requires Run(states, steps) && i < n < |states| && steps[i] == Submit(item)
    requires Enabled(states[n], Commit(t)) && states[n].workers[t].item.id == item.id
    requires Appears(states[n].timeline, item.id)
    ensures |Apply(states[n], Commit(t)).timeline| > |states[n].timeline| <==> item.clientId.None?
  {
    ClientStays(states, steps, i, n, item);
    var k :| 0 <= k < |states[n].timeline| && states[n].timeline[k].id == item.id;
    assert states[n].timeline[k].clientId == item.clientId;
  }

  /** Only a crash makes a committed message uncommitted. */
  lemma CommittedStays(states: seq<System>, steps: seq<Step>, n: nat, id: nat)
    requires Run(states, steps) && n < |steps| && !steps[n].Crash?
    requires id in states[n].places && states[n].places[id].Done?
    ensures id in states[n + 1].places && states[n + 1].places[id] == states[n].places[id]
  {
    RunKeepsInv(states, steps, n);
    DoneStays(states[n], steps[n], id);
  }

  predicate IsDone(s: System, id: nat, place: Place) {
    place.Done? && id in s.places && s.places[id] == place
  }

  lemma DoneStays(s: System, step: Step, id: nat)
    requires Inv(s) && Enabled(s, step) && !step.Crash? && id in s.places && s.places[id].Done?
    ensures IsDone(Apply(s, step), id, s.places[id])
  {
    if step.End? {
      assert WorkerOk(s, step.token, s.workers[step.token]);
      ClaimKeepsDone(s, Retired(s, step.token).(lane := s.lane.(active := None)), id);
    } else if step.Force? {
      ClaimKeepsDone(s, s.(senders := s.senders - {step.sender}, lane := s.lane.(active := None)), id);
    } else if step.Resume? {
      ClaimKeepsDone(s, s.(recovering := false), id);
    } else {
      QuietKeepsDone(s, step, id);
    }
  }

  lemma ClaimKeepsDone(s: System, s1: System, id: nat)
    requires Inv(s) && s1.lane.queue == s.lane.queue && id in s.places && s.places[id].Done? && IsDone(s1, id, s.places[id])
    ensures IsDone(Claimed(s1), id, s.places[id])
  {
    assert |s.lane.queue| > 0 ==> Waits(s, s.lane.queue[0]);
  }

  lemma QuietKeepsDone(s: System, step: Step, id: nat)
    requires Inv(s) && Enabled(s, step) && !step.Crash? && !step.End? && !step.Force? && !step.Resume?
    requires id in s.places && s.places[id].Done?
    ensures IsDone(Apply(s, step), id, s.places[id])
  {
    if step.Commit? {
      assert WorkerOk(s, step.token, s.workers[step.token]);
    } else if step.CancelItem? && HasItem(s.lane.queue, step.id) {
      assert Waits(s, s.lane.queue[Find(s.lane.queue, step.id)]);
    }
  }

  // ------------------------------------------------------------------ two runs

  /** One more step. */
  lemma {:induction false} Extend(states: seq<System>, steps: seq<Step>, step: Step) returns (states1: seq<System>, steps1: seq<Step>, s: System)
    requires Run(states, steps) && Enabled(states[|states| - 1], step)
    ensures Run(states1, steps1) && |states1| == |states| + 1 && s == states1[|states|] == Apply(states[|states| - 1], step)
  {
    var n := |steps|;
    s := Apply(states[n], step);
    states1, steps1 := states + [s], steps + [step];
    forall i | 0 <= i <= n ensures Enabled(states1[i], steps1[i]) && states1[i + 1] == Apply(states1[i], steps1[i]) {
      assert i < n ==> steps1[i] == steps[i];
    }
  }

  /** The first message runs at once, the second waits. Neither has a client id. */
  lemma SecondWaits() returns (states: seq<System>, steps: seq<Step>, s: System)
    ensures Run(states, steps) && |states| > 0 && s == states[|states| - 1]
    ensures s == System(
      Lane(Some(Turn(0, true)), [Item(2, None, 0, 2)], map[2 := Item(2, None, 0, 2)], 1),
      map[0 := Worker(Item(1, None, 0, 1), None, Fetching, false)], map[], [], map[2 := Queued], {}, {1, 2}, false)
  {
    var a, b := Item(1, None, 0, 1), Item(2, None, 0, 2);
    states, steps := [INIT], [];
    states, steps, s := Extend(states, steps, Submit(a));
    assert s.workers == map[0 := Worker(a, None, Fetching, false)] && s.lane == Lane(Some(Turn(0, true)), [], map[], 1);
    states, steps, s := Extend(states, steps, Submit(b));
    assert s.lane == Lane(Some(Turn(0, true)), [b], map[2 := b], 1) && s.places == map[2 := Queued];
  }

  /** When the first worker ends, the second message is claimed. */
  lemma SecondClaimed() returns (states: seq<System>, steps: seq<Step>, s: System)
    ensures Run(states, steps) && |states| > 0 && s == states[|states| - 1]
    ensures s.workers == map[1 := Worker(Item(2, None, 0, 2), Some(1), Ready, true)]
    ensures s.lane == Lane(Some(Turn(1, true)), [], map[2 := Item(2, None, 0, 2)], 2)
    ensures s.places == map[2 := Held(1)] && s.timeline == [] && !s.recovering
  {
    states, steps, s := SecondWaits();
    states, steps, s := Extend(states, steps, Fetch(0));
    assert s.workers == map[0 := Worker(Item(1, None, 0, 1), Some(0), Ready, false)];
    states, steps, s := Extend(states, steps, End(0));
    assert s.lane.queue == [] && s.workers == map[1 := Worker(Item(2, None, 0, 2), Some(1), Ready, true)];
  }

  /** A worker that fails before it commits strands its message: it waits nowhere, no worker
      has it, and only the durable record is left. */
  lemma FailureStrandsMessage() returns (states: seq<System>, steps: seq<Step>)
    ensures Run(states, steps)
    ensures var s := states[|states| - 1];
      IsFailed(s, 2) && s.lane.queue == [] && s.workers == map[] && 2 in s.lane.durable && s.timeline == [] && !s.recovering
  {
    var s: System;
    states, steps, s := SecondClaimed();
    states, steps, s := Extend(states, steps, End(1));
    assert s.workers == map[];
  }

  /** A message is committed, and the process crashes before its record is deleted. */
  lemma CommittedRequeued() returns (states: seq<System>, steps: seq<Step>, s: System)
    ensures Run(states, steps) && |states| > 0 && s == states[|states| - 1]
    ensures var b := Item(2, None, 0, 2);
      s.lane == Lane(None, [b], map[2 := b], 2) && s.workers == map[] && s.timeline == [b] && s.recovering
  {
    var b := Item(2, None, 0, 2);
    states, steps, s := SecondClaimed();
    states, steps, s := Extend(states, steps, Commit(1));
    assert s.timeline == [b] && s.lane.durable == map[2 := b];
    assert Reloads([b], s.lane.durable) by {
      assert [b][0].id == 2;
    }
    states, steps, s := Extend(states, steps, Crash([b]));
  }

  /** A crash between commit and delete makes a message without a client id appear twice. */
  lemma CrashRepeatsMessage() returns (states: seq<System>, steps: seq<Step>)
    ensures Run(states, steps)
    ensures states[|states| - 1].timeline == [Item(2, None, 0, 2), Item(2, None, 0, 2)]
  {
    var s: System;
    states, steps, s := CommittedRequeued();
    states, steps, s := Extend(states, steps, Resume);
    assert s.workers == map[2 := Worker(Item(2, None, 0, 2), Some(2), Ready, true)];
    states, steps, s := Extend(states, steps, Commit(2));
  }

  /** A message that ran at once, and the process crashes before it is committed: it is in no
      queue, in no record and not on the Timeline. */
  lemma RunningMessageLost() returns (states: seq<System>, steps: seq<Step>)
    ensures Run(states, steps)
    ensures var s := states[|states| - 1];
      1 in s.used && s.lane.queue == [] && s.lane.durable == map[] && s.workers == map[] && s.timeline == []
  {
    var a, s := Item(1, None, 0, 1), INIT;
    states, steps := [INIT], [];
    states, steps, s := Extend(states, steps, Submit(a));
    assert s.lane == Lane(Some(Turn(0, true)), [], map[], 1) && s.timeline == [];
    states, steps, s := Extend(states, steps, Crash([]));
  }

  /** Two waiting messages with one client id: the second is saved and not queued. */
  lemma RepeatedClientHidden() returns (states: seq<System>, steps: seq<Step>)
    ensures Run(states, steps)
    ensures var s := states[|states| - 1];
      3 in s.lane.durable && !HasItem(s.lane.queue, 3)
  {
    var a, b, c, s := Item(1, None, 0, 1), Item(2, Some(9), 0, 2), Item(3, Some(9), 0, 3), INIT;
    states, steps := [INIT], [];
    states, steps, s := Extend(states, steps, Submit(a));
    assert s.lane == Lane(Some(Turn(0, true)), [], map[], 1);
    states, steps, s := Extend(states, steps, Submit(b));
    assert s.lane == Lane(Some(Turn(0, true)), [b], map[2 := b], 1);
    assert s.used == {1, 2} && HasClient(s.lane.queue, c) by {
      assert s.lane.queue[0].clientId == c.clientId;
    }
    states, steps, s := Extend(states, steps, Submit(c));
    assert s.lane == Lane(Some(Turn(0, true)), [b], map[2 := b, 3 := c], 1);
  }
}
