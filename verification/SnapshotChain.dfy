/** The chain of context snapshots of one run (manage/workgroup/context_compression.py:190-230,
    manage/workgroup/turn_kernel.py:943-1009).

    A summary task is computed from a frozen copy of the history, read some time before, and
    the snapshot known when it is scheduled. Tasks may finish in any order and be harvested at
    any later time. Harvesting one task is a single step here.

    Two loops on one run may save a snapshot between the reading of the history and that of
    the snapshot (manage/workgroup/turn_kernel.py:855-864, 1465-1479), so a task's snapshot
    may cover more than its history. Such a task starts from the beginning again. */
module SnapshotChain {
  import opened Compression
  import opened History
  import opened Seqs
  import opened Shared

  datatype Task = Task(
    frozen: seq<Message>,
    previous: Option<Snapshot>,
    weight: Weight,
    trigger: int,
    keep: nat,
    plan: Plan)

  function MakeSnapshot(t: Task, blank: bool): Snapshot {
    Snapshot(if t.previous.Some? then t.previous.value.epoch + 1 else 1, t.plan.end, blank, t.plan.sourceHash)
  }

  function Flatten(chunks: seq<seq<Message>>): seq<Message> {
    if |chunks| == 0 then [] else Flatten(chunks[..|chunks| - 1]) + chunks[|chunks| - 1]
  }

  function Latest(saved: seq<Snapshot>): Option<Snapshot> {
    if |saved| == 0 then None else Some(saved[|saved| - 1])
  }

  function Until(saved: seq<Snapshot>): nat {
    if |saved| == 0 then 0 else saved[|saved| - 1].until
  }

  /** Every snapshot ever saved is still current, and epochs count from 1. */
  ghost predicate Chain(hash: Hash, history: seq<Message>, saved: seq<Snapshot>) {
    forall i :: 0 <= i < |saved| ==> saved[i].epoch == i + 1 && Current(hash, Some(saved[i]), history)
  }

  /** The covered prefix only grows. */
  predicate Rising(saved: seq<Snapshot>) {
    forall i, j :: 0 <= i < j < |saved| ==> saved[i].until < saved[j].until
  }

  /** The chunks summarised since the last start from the beginning are exactly the covered
      prefix. */
  ghost predicate Covers(history: seq<Message>, saved: seq<Snapshot>, chunks: seq<seq<Message>>) {
    |chunks| <= |saved| && Until(saved) <= |history| && Flatten(chunks) == history[..Until(saved)]
  }

  /** A task started earlier in this run. */
  ghost predicate Scheduled(hash: Hash, history: seq<Message>, saved: seq<Snapshot>, t: Task) {
    && t.frozen <= history
    && (t.previous.Some? ==> t.previous.value in saved)
    && BestPlan(t.weight, hash, t.frozen, t.previous, t.trigger, t.keep, Some(t.plan))
  }

  /** The task's history reaches as far as its snapshot. */
  predicate Reaches(t: Task) {
    t.previous.Some? ==> t.previous.value.until <= |t.frozen|
  }

  function ChunksAfter(chunks: seq<seq<Message>>, t: Task): seq<seq<Message>>
    requires t.plan.start <= t.plan.end <= |t.frozen|
  {
    var chunk := t.frozen[t.plan.start..t.plan.end];
    if Reaches(t) then chunks + [chunk] else [chunk]
  }

  lemma CurrentUnderAppend(hash: Hash, s: Snapshot, history: seq<Message>, more: seq<Message>)
    requires Current(hash, Some(s), history)
    ensures Current(hash, Some(s), history + more)
  {
    SliceConcat(history, more, 0, s.until);
  }

  /** With an injective hash, a snapshot of one history is current for another exactly when
      both begin with the same summarised prefix. */
  lemma CurrentMeansSamePrefix(hash: Hash, s: Snapshot, history: seq<Message>, other: seq<Message>)
    requires forall a, b :: hash(a) == hash(b) ==> a == b
    requires Current(hash, Some(s), history)
    ensures Current(hash, Some(s), other) <==> s.until <= |other| && other[..s.until] == history[..s.until]
  {
  }

  lemma CurrentInPrefix(hash: Hash, s: Snapshot, prefix: seq<Message>, history: seq<Message>)
    requires prefix <= history && s.until <= |prefix|
    requires Current(hash, Some(s), history)
    ensures Current(hash, Some(s), prefix)
  {
    assert prefix[..s.until] == history[..s.until];
  }

  /** A scheduled task's candidate is current for the history of the day it is harvested,
      whatever its snapshot; it starts where that snapshot ends if the task's history reaches
      so far, and from the beginning otherwise. */
  lemma CandidateCurrent(hash: Hash, history: seq<Message>, saved: seq<Snapshot>, t: Task)
    requires Chain(hash, history, saved) && Scheduled(hash, history, saved, t)
    ensures Current(hash, Some(MakeSnapshot(t, false)), history)
    ensures t.plan.start == if t.previous.Some? && Reaches(t) then t.previous.value.until else 0
    ensures t.plan.start < t.plan.end < |t.frozen| <= |history|
    ensures t.frozen[t.plan.start..t.plan.end] == history[t.plan.start..t.plan.end]
  {
    PlanKeepsTail(t.weight, hash, t.frozen, t.previous, t.trigger, t.keep, t.plan);
    assert t.frozen[..t.plan.end] == history[..t.plan.end];
    if t.previous.Some? && Reaches(t) {
      CurrentInPrefix(hash, t.previous.value, t.frozen, history);
    }
  }

  lemma FlattenGrows(chunks: seq<seq<Message>>, chunk: seq<Message>)
    ensures Flatten(chunks + [chunk]) == Flatten(chunks) + chunk
  {
    assert (chunks + [chunk])[..|chunks|] == chunks;
  }

  lemma CoversGrows(history: seq<Message>, saved: seq<Snapshot>, chunks: seq<seq<Message>>, s: Snapshot)
    requires Covers(history, saved, chunks)
    requires Until(saved) <= s.until <= |history|
    ensures Covers(history, saved + [s], chunks + [history[Until(saved)..s.until]])
  {
    FlattenGrows(chunks, history[Until(saved)..s.until]);
    assert history[..s.until] == history[..Until(saved)] + history[Until(saved)..s.until];
  }

  lemma CoversAnew(history: seq<Message>, saved: seq<Snapshot>, s: Snapshot)
    requires s.until <= |history|
    ensures Covers(history, saved + [s], [history[0..s.until]])
  {
    FlattenGrows([], history[0..s.until]);
    EmptyLeft([history[0..s.until]]);
  }

  /** Saving a task made from the latest snapshot keeps every saved snapshot current and the
      chunks in step. The covered prefix grows exactly if the task's history reached as far
      as its snapshot; otherwise it shrinks, and its messages are shown raw again. */
  lemma SavingKeepsChain(hash: Hash, history: seq<Message>, saved: seq<Snapshot>, chunks: seq<seq<Message>>, t: Task)
    requires Chain(hash, history, saved) && Covers(history, saved, chunks) && Scheduled(hash, history, saved, t)
    requires t.previous == Latest(saved)
    ensures t.plan.start < t.plan.end <= |t.frozen|
    ensures Chain(hash, history, saved + [MakeSnapshot(t, false)])
    ensures Covers(history, saved + [MakeSnapshot(t, false)], ChunksAfter(chunks, t))
    ensures MakeSnapshot(t, false).until > Until(saved) <==> Until(saved) <= |t.frozen|
    ensures Rising(saved + [MakeSnapshot(t, false)]) <==> Rising(saved) && Until(saved) <= |t.frozen|
  {
    var s := MakeSnapshot(t, false);
    CandidateCurrent(hash, history, saved, t);
    if Reaches(t) {
      CoversGrows(history, saved, chunks, s);
    } else {
      CoversAnew(history, saved, s);
    }
    RisingGrows(saved, s);
  }

  lemma RisingGrows(saved: seq<Snapshot>, s: Snapshot)
    requires s.until > 0
    ensures Rising(saved + [s]) <==> Rising(saved) && s.until > Until(saved)
  {
    var grown := saved + [s];
    if Rising(grown) {
      forall i, j | 0 <= i < j < |saved| ensures saved[i].until < saved[j].until {
        assert grown[i].until < grown[j].until;
      }
      assert |saved| > 0 ==> grown[|saved| - 1].until < grown[|saved|].until;
    }
  }

  class ContextSnapshots {
    var history: seq<Message>
    var snapshot: Option<Snapshot>
    const hash: Hash
    ghost var saved: seq<Snapshot>
    ghost var chunks: seq<seq<Message>>

    ghost predicate Valid()
      reads this
    {
      && snapshot == Latest(saved)
      && Chain(hash, history, saved)
      && Covers(history, saved, chunks)
    }

    constructor (hash: Hash)
      ensures Valid() && history == [] && saved == [] && this.hash == hash
    {
      history, snapshot, this.hash := [], None, hash;
      saved, chunks := [], [];
    }

    /** The history only grows; nothing saved becomes stale. */
    method Append(messages: seq<Message>)
      requires Valid()
      modifies this
      ensures Valid()
      ensures history == old(history) + messages
      ensures snapshot == old(snapshot) && saved == old(saved) && chunks == old(chunks)
    {
      forall i | 0 <= i < |saved| ensures Current(hash, Some(saved[i]), history + messages) {
        CurrentUnderAppend(hash, saved[i], history, messages);
      }
      SliceConcat(history, messages, 0, Until(saved));
      history := history + messages;
    }

    /** read is the history as the loop read it, before the snapshot. */
    method Schedule(read: seq<Message>, weight: Weight, trigger: int, keep: nat) returns (task: Option<Task>)
      requires Valid() && read <= history
      ensures task.Some? ==>
        Scheduled(hash, history, saved, task.value) && task.value.frozen == read && task.value.previous == snapshot
      ensures BestPlan(weight, hash, read, snapshot, trigger, keep, if task.Some? then Some(task.value.plan) else None)
    {
      var plan := BuildCompressionPlan(weight, hash, read, snapshot, trigger, keep);
      task := None;
      if plan.Some? {
        task := Some(Task(read, snapshot, weight, trigger, keep, plan.value));
      }
    }

    /** Saves a finished task's snapshot, exactly when its summary is not blank and it was
        computed from the snapshot that is still the latest. Saving raises the epoch by one,
        and the covered prefix exactly if the task's history reached so far. */
    method Harvest(t: Task, blank: bool)
      requires Valid() && Scheduled(hash, history, saved, t)
      modifies this
      ensures Valid() && history == old(history)
      ensures if !blank && t.previous == old(snapshot)
              then saved == old(saved) + [MakeSnapshot(t, false)] &&
                   snapshot == Some(MakeSnapshot(t, false)) &&
                   (Until(saved) > Until(old(saved)) <==> Until(old(saved)) <= |t.frozen|) &&
                   t.plan.start <= t.plan.end <= |t.frozen| && chunks == ChunksAfter(old(chunks), t)
              else snapshot == old(snapshot) && saved == old(saved) && chunks == old(chunks)
    {
      if blank {
        return;
      }
      var candidate := MakeSnapshot(t, false);
      CandidateCurrent(hash, history, saved, t);
      EpochDecides(hash, history, saved, t);
      if !Current(hash, Some(candidate), history) {
        return;
      }
      if snapshot.Some? && snapshot.value.epoch >= candidate.epoch {
        return;
      }
      SavingKeepsChain(hash, history, saved, chunks, t);
      snapshot := Some(candidate);
      chunks := ChunksAfter(chunks, t);
      saved := saved + [candidate];
    }
  }

  /** The epoch comparison of the source tells whether the task started from the latest
      snapshot, because epochs are never reused. */
  lemma EpochDecides(hash: Hash, history: seq<Message>, saved: seq<Snapshot>, t: Task)
    requires Chain(hash, history, saved) && Scheduled(hash, history, saved, t)
    ensures t.previous == Latest(saved) <==>
            (Latest(saved).Some? ==> Latest(saved).value.epoch < MakeSnapshot(t, false).epoch)
  {
    if t.previous.Some? {
      var i :| 0 <= i < |saved| && saved[i] == t.previous.value;
      assert saved[i].epoch == i + 1;
    }
  }

  /** Tasks stay harvestable while the history grows and other tasks are saved. */
  lemma ScheduledStays(hash: Hash, history: seq<Message>, more: seq<Message>,
                       saved: seq<Snapshot>, later: seq<Snapshot>, t: Task)
    requires Scheduled(hash, history, saved, t)
    ensures Scheduled(hash, history + more, saved + later, t)
  {
    assert forall s :: s in saved ==> s in saved + later;
  }

  /** Nothing is lost: those chunks followed by the raw tail are the history. */
  lemma ChunksAndTailRebuild(history: seq<Message>, saved: seq<Snapshot>, chunks: seq<seq<Message>>)
    requires Covers(history, saved, chunks)
    ensures Flatten(chunks) + history[Until(saved)..] == history
  {
    SplitAt(history, Until(saved));
  }

  predicate AllPlain(history: seq<Message>) {
    forall k :: 0 <= k < |history| ==> history[k].role == User
  }

  /** A long history of plain messages with nothing to keep is cut before its last message. */
  lemma PlainPlan(weight: Weight, hash: Hash, history: seq<Message>, snapshot: Option<Snapshot>)
    requires AllPlain(history) && |history| >= 2 && !Current(hash, snapshot, history)
    ensures BestPlan(weight, hash, history, snapshot, 1, 0, Some(Plan(0, |history| - 1, hash(history[..|history| - 1]))))
  {
    var end := |history| - 1;
    ToolsCallNothing(history);
    ToolsCallNothing(history[..end]);
    assert history[0..] == history && history[0..end] + history[end..] == history;
    EstimateMonotone(weight, history[0..end], history[end..]);
    assert Admissible(weight, history, 0, 0, end);
  }

  /** The first task saw five messages and covers four. The second read the history when it
      had three, and the snapshot after the first was saved: both pass the checks, and the
      covered prefix falls back to two. */
  lemma ShortHistoryFallsBack(weight: Weight, hash: Hash, history: seq<Message>) returns (first: Task, second: Task)
    requires AllPlain(history) && |history| == 5
    ensures Scheduled(hash, history, [], first) && first.previous == None
    ensures var saved := [MakeSnapshot(first, false)];
      && Chain(hash, history, saved) && Scheduled(hash, history, saved, second) && second.previous == Latest(saved)
      && Until(saved) == 4 && second.frozen == history[..3]
      && MakeSnapshot(second, false).until == 2 && MakeSnapshot(second, false).epoch == 2
  {
    PlainPlan(weight, hash, history, None);
    first := Task(history, None, weight, 1, 0, Plan(0, 4, hash(history[..4])));
    var s := MakeSnapshot(first, false);
    PlainPlan(weight, hash, history[..3], Some(s));
    second := Task(history[..3], Some(s), weight, 1, 0, Plan(0, 2, hash(history[..3][..2])));
  }
}
