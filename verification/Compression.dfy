/** Context compression (manage/workgroup/context_compression.py): which closed prefix of a
    run history to summarise, and the chain of snapshots that results.

    weight gives the encoded size of one message in tenths of a token; hash stands for the
    SHA-256 of the encoded prefix. Both are arbitrary functions. */
module Compression {
  import opened History
  import opened Seqs
  import opened Shared

  datatype Plan = Plan(start: nat, end: nat, sourceHash: Text)

  datatype Snapshot = Snapshot(epoch: nat, until: nat, blank: bool, sourceHash: Text)

  type Hash = seq<Message> -> Text
  type Weight = Message -> nat

  // ----------------------------------------------------------------- estimates

  function Weigh(weight: Weight, messages: seq<Message>): nat {
    if messages == [] then 0 else weight(messages[0]) + Weigh(weight, messages[1..])
  }

  /** The encoding is a list: two brackets and a comma between messages, 0.3 tokens each. */
  function Tenths(weight: Weight, messages: seq<Message>): nat
    requires messages != []
  {
    6 + Weigh(weight, messages) + 3 * (|messages| - 1)
  }

  function Estimate(weight: Weight, messages: seq<Message>): nat {
    if messages == [] then 0
    else if Tenths(weight, messages) < 10 then 1
    else Tenths(weight, messages) / 10
  }

  lemma {:induction false} WeighConcat(weight: Weight, a: seq<Message>, b: seq<Message>)
    ensures Weigh(weight, a + b) == Weigh(weight, a) + Weigh(weight, b)
  {
    if a == [] {
      EmptyLeft(b);
    } else {
      WeighConcat(weight, a[1..], b);
      DropConcat(a, b, 1);
    }
  }

  lemma EstimateMonotone(weight: Weight, a: seq<Message>, b: seq<Message>)
    ensures Estimate(weight, a) <= Estimate(weight, a + b)
  {
    WeighConcat(weight, a, b);
  }

  /** The estimate counts the weights: it is a tenth of the encoded size, rounded down but at
      least one token. A message adds its weight and a comma. */
  lemma EstimateCountsWeights(weight: Weight, messages: seq<Message>)
    requires messages != []
    ensures Estimate(weight, messages) > 1 ==> 10 * Estimate(weight, messages) <= Weigh(weight, messages) + 3 * |messages| + 3
    ensures Estimate(weight, messages) >= 1
    ensures Weigh(weight, messages) + 3 * |messages| + 3 < 10 * Estimate(weight, messages) + 10
  {
  }

  lemma EstimateOne(weight: Weight, m: Message)
    ensures Weigh(weight, [m]) == weight(m) && Estimate(weight, []) == 0
  {
  }

  /** Twenty tenths more are seen, and two lists weigh no less apart than together. */
  lemma EstimateGrows(weight: Weight, a: seq<Message>, b: seq<Message>)
    ensures a != [] && Weigh(weight, b) >= 20 ==> Estimate(weight, a + b) > Estimate(weight, a)
    ensures Estimate(weight, a + b) <= Estimate(weight, a) + Estimate(weight, b) + 1
  {
    WeighConcat(weight, a, b);
    EmptyLeft(b);
    EmptyRight(a);
  }

  /** Cutting a list in two costs one bracket pair and saves one comma, so the kept part
      weighs at least what the removed part leaves of the budget, less one token. */
  lemma CutKeeps(weight: Weight, removed: seq<Message>, kept: seq<Message>, keep: nat)
    requires removed != [] && kept != []
    requires Estimate(weight, removed) + keep <= Estimate(weight, removed + kept)
    ensures keep <= Estimate(weight, kept) + 1
  {
    WeighConcat(weight, removed, kept);
  }

  // ---------------------------------------------------------------- the plan

  predicate Current(hash: Hash, snapshot: Option<Snapshot>, history: seq<Message>) {
    snapshot.Some? &&
    0 < snapshot.value.until <= |history| && !snapshot.value.blank &&
    hash(history[..snapshot.value.until]) == snapshot.value.sourceHash
  }

  function Start(hash: Hash, snapshot: Option<Snapshot>, history: seq<Message>): (start: nat)
    ensures start <= |history|
  {
    if Current(hash, snapshot, history) then snapshot.value.until else 0
  }

  predicate ClosedAt(history: seq<Message>, end: nat) {
    end <= |history| && OpenIds(history[..end]) == []
  }

  /** A cut that removes history[start..end]: closed, non-empty, sparing the last message,
      and within the budget that leaves keep tokens. */
  predicate Admissible(weight: Weight, history: seq<Message>, start: nat, keep: nat, end: nat) {
    start < end < |history| && ClosedAt(history, end) &&
    Estimate(weight, history[start..end]) + keep <= Estimate(weight, history[start..])
  }

  /** When compression is attempted at all. */
  predicate Triggered(weight: Weight, history: seq<Message>, start: nat, trigger: int, keep: int)
    requires start <= |history|
  {
    && trigger > 0 && keep >= 0
    && OpenIds(history) == []
    && Estimate(weight, history[start..]) >= trigger
    && Estimate(weight, history[start..]) > keep
  }

  /** plan is the largest admissible cut, or absent if there is none. */
  ghost predicate BestPlan(weight: Weight, hash: Hash, history: seq<Message>, snapshot: Option<Snapshot>,
                           trigger: int, keep: int, plan: Option<Plan>)
  {
    var start := Start(hash, snapshot, history);
    if plan.None? then
      Triggered(weight, history, start, trigger, keep) ==>
        forall end: nat :: !Admissible(weight, history, start, keep, end)
    else
      Triggered(weight, history, start, trigger, keep) &&
      plan.value.start == start &&
      Admissible(weight, history, start, keep, plan.value.end) &&
      (forall end: nat :: Admissible(weight, history, start, keep, end) ==> end <= plan.value.end) &&
      plan.value.sourceHash == hash(history[..plan.value.end])
  }

  method CheckClosedAt(history: seq<Message>, end: nat) returns (closed: bool)
    requires end <= |history|
    ensures closed == ClosedAt(history, end)
  {
    var open := OpenToolCallIds(history[..end]);
    closed := open == [];
  }

  /** ends lists, in increasing order, exactly the closed ends after start and before stop. */
  ghost predicate ListsClosedEnds(history: seq<Message>, start: nat, stop: int, ends: seq<nat>) {
    (forall i, j :: 0 <= i < j < |ends| ==> ends[i] < ends[j]) &&
    (forall end: nat {:trigger end in ends} {:trigger ClosedAt(history, end)} ::
      end in ends <==> start < end < stop && ClosedAt(history, end))
  }

  lemma {:induction false} NextClosedEnd(history: seq<Message>, start: nat, end: nat, ends: seq<nat>)
    requires start < end && ListsClosedEnds(history, start, end, ends)
    ensures ListsClosedEnds(history, start, end + 1, if ClosedAt(history, end) then ends + [end] else ends)
  {
    if ClosedAt(history, end) {
      var grown := ends + [end];
      forall e: nat ensures e in grown <==> e in ends || e == end {
      }
      forall i, j | 0 <= i < j < |grown| ensures grown[i] < grown[j] {
        assert ends[i] in ends;
      }
    }
  }

  method ClosedPrefixEnds(history: seq<Message>, start: nat, maxEnd: int) returns (ends: seq<nat>)
    ensures ListsClosedEnds(history, start, maxEnd + 1, ends)
  {
    ends := [];
    var stop := (if |history| < maxEnd then |history| else maxEnd) + 1;
    var end := start + 1;
    while end < stop
      invariant start < end && (end > start + 1 ==> end <= stop)
      invariant ListsClosedEnds(history, start, end, ends)
    {
      var closed := CheckClosedAt(history, end);
      NextClosedEnd(history, start, end, ends);
      if closed {
        ends := ends + [end];
      }
      end := end + 1;
    }
  }

  lemma LargerCutRemovesMore(weight: Weight, history: seq<Message>, start: nat, end: nat, later: nat)
    requires start <= end <= later <= |history|
    ensures Estimate(weight, history[start..end]) <= Estimate(weight, history[start..later])
  {
    assert history[start..later] == history[start..end] + history[end..later];
    EstimateMonotone(weight, history[start..end], history[end..later]);
  }

  /** The greedy scan: candidates in increasing order, stopping at the first over budget.
      Stopping early is harmless because a longer cut never weighs less. */
  method LargestWithin(weight: Weight, history: seq<Message>, start: nat, target: nat, candidates: seq<nat>)
    returns (chosen: Option<nat>)
    requires forall i, j :: 0 <= i < j < |candidates| ==> candidates[i] < candidates[j]
    requires start <= |history| && forall k :: 0 <= k < |candidates| ==> start < candidates[k] <= |history|
    ensures chosen.Some? ==> chosen.value in candidates && start <= chosen.value <= |history|
    ensures chosen.Some? ==> Estimate(weight, history[start..chosen.value]) <= target
    ensures forall k :: 0 <= k < |candidates| && Estimate(weight, history[start..candidates[k]]) <= target ==>
      chosen.Some? && candidates[k] <= chosen.value
  {
    chosen := None;
    for i := 0 to |candidates|
      invariant i == 0 ==> chosen == None
      invariant i > 0 ==> chosen == Some(candidates[i - 1])
      invariant chosen.Some? ==> start <= chosen.value <= |history|
      invariant chosen.Some? ==> Estimate(weight, history[start..chosen.value]) <= target
    {
      var end := candidates[i];
      var removed := Estimate(weight, history[start..end]);
      if removed > target {
        forall k | 0 <= k < |candidates| && Estimate(weight, history[start..candidates[k]]) <= target ensures k < i {
          if k >= i {
            LargerCutRemovesMore(weight, history, start, end, candidates[k]);
          }
        }
        return;
      }
      chosen := Some(end);
    }
  }

  method BuildCompressionPlan(weight: Weight, hash: Hash, history: seq<Message>, snapshot: Option<Snapshot>,
                              trigger: int, keep: int) returns (plan: Option<Plan>)
    ensures BestPlan(weight, hash, history, snapshot, trigger, keep, plan)
  {
    plan := None;
    if trigger <= 0 || keep < 0 || |history| == 0 {
      return;
    }
    var open := OpenToolCallIds(history);
    if open != [] {
      return;
    }
    var start := Start(hash, snapshot, history);
    var total := Estimate(weight, history[start..]);
    if total < trigger || total <= keep {
      return;
    }
    var candidates := ClosedPrefixEnds(history, start, |history| - 1);
    assert forall k :: 0 <= k < |candidates| ==> candidates[k] in candidates;
    var chosen := LargestWithin(weight, history, start, total - keep, candidates);
    if chosen.Some? {
      plan := Some(Plan(start, chosen.value, hash(history[..chosen.value])));
    }
  }

  // --------------------------------------------------- what a plan guarantees

  /** A plan strictly extends the current snapshot, leaves at least one message, and keeps
      at least keep - 1 estimated tokens. */
  lemma {:induction false} PlanKeepsTail(weight: Weight, hash: Hash, history: seq<Message>, snapshot: Option<Snapshot>,
                      trigger: int, keep: nat, plan: Plan)
    requires BestPlan(weight, hash, history, snapshot, trigger, keep, Some(plan))
    ensures Current(hash, snapshot, history) ==> snapshot.value.until == plan.start
    ensures plan.start < plan.end < |history|
    ensures keep <= Estimate(weight, history[plan.end..]) + 1
  {
    var start := Start(hash, snapshot, history);
    assert Admissible(weight, history, start, keep, plan.end);
    AdmissibleKeeps(weight, history, start, keep, plan.end);
  }

  lemma {:induction false} AdmissibleKeeps(weight: Weight, history: seq<Message>, start: nat, keep: nat, end: nat)
    requires Admissible(weight, history, start, keep, end)
    ensures keep <= Estimate(weight, history[end..]) + 1
  {
    var removed, kept := history[start..end], history[end..];
    assert history[start..] == removed + kept;
    CutKeeps(weight, removed, kept, keep);
  }

  /** No plan is made without a trigger, while a call is open, or below the trigger; and a
      plan leaves more than what is kept to begin with. */
  lemma PlanIsDue(weight: Weight, hash: Hash, history: seq<Message>, snapshot: Option<Snapshot>,
                  trigger: int, keep: int, plan: Option<Plan>)
    requires BestPlan(weight, hash, history, snapshot, trigger, keep, plan) && plan.Some?
    ensures trigger > 0 && keep >= 0 && OpenIds(history) == []
    ensures Estimate(weight, history[Start(hash, snapshot, history)..]) >= trigger
    ensures Estimate(weight, history[Start(hash, snapshot, history)..]) > keep
  {
  }

  /** A snapshot is current for the very prefix it summarises, unless it is blank or empty. */
  lemma CurrentForItsPrefix(hash: Hash, snapshot: Snapshot, prefix: seq<Message>)
    requires snapshot.until == |prefix| && snapshot.sourceHash == hash(prefix)
    ensures Current(hash, Some(snapshot), prefix) <==> prefix != [] && !snapshot.blank
    ensures !Current(hash, None, prefix)
  {
    assert prefix[..|prefix|] == prefix;
  }

  lemma WholeIsClosed(history: seq<Message>)
    ensures ClosedAt(history, |history|) <==> OpenIds(history) == []
  {
    assert history[..|history|] == history;
  }

  /** A closed history that weighs enough is compressed: if its unsummarised part has the
      weight of the trigger, and of what is kept and one token more, and some closed cut
      leaves the weight of what is kept behind it, there is a plan. */
  lemma {:induction false} HeavyHistoryIsCut(weight: Weight, hash: Hash, history: seq<Message>, snapshot: Option<Snapshot>,
                          trigger: int, keep: nat, plan: Option<Plan>, end: nat)
    requires BestPlan(weight, hash, history, snapshot, trigger, keep, plan) && OpenIds(history) == []
    requires var start := Start(hash, snapshot, history);
      && start < end < |history| && ClosedAt(history, end) && trigger > 0
      && Weigh(weight, history[start..]) >= 10 * trigger
      && Weigh(weight, history[end..]) >= 10 * keep + 20
    ensures plan.Some? && end <= plan.value.end
  {
    var start := Start(hash, snapshot, history);
    HeavyCut(weight, history, start, trigger, keep, end);
    assert Triggered(weight, history, start, trigger, keep) && Admissible(weight, history, start, keep, end);
  }

  lemma {:induction false} HeavyCut(weight: Weight, history: seq<Message>, start: nat, trigger: int, keep: nat, end: nat)
    requires start < end < |history| && trigger > 0
    requires Weigh(weight, history[start..]) >= 10 * trigger && Weigh(weight, history[end..]) >= 10 * keep + 20
    ensures Estimate(weight, history[start..]) >= trigger && Estimate(weight, history[start..]) > keep
    ensures Estimate(weight, history[start..end]) + keep <= Estimate(weight, history[start..])
  {
    var removed, kept := history[start..end], history[end..];
    assert history[start..] == removed + kept;
    HeavyTail(weight, removed, kept, keep);
    HeavyIsDue(weight, removed + kept, trigger);
    assert Estimate(weight, removed) > 0;
  }

  lemma {:induction false} HeavyIsDue(weight: Weight, messages: seq<Message>, trigger: int)
    requires messages != [] && Weigh(weight, messages) >= 10 * trigger
    ensures Estimate(weight, messages) >= trigger
  {
    EstimateCountsWeights(weight, messages);
  }

  /** A tail of that weight stays outside the budget of the cut. */
  lemma {:induction false} HeavyTail(weight: Weight, removed: seq<Message>, kept: seq<Message>, keep: nat)
    requires removed != [] && Weigh(weight, kept) >= 10 * keep + 20
    ensures Estimate(weight, removed) + keep <= Estimate(weight, removed + kept)
  {
    WeighConcat(weight, removed, kept);
    EstimateCountsWeights(weight, removed);
    EstimateCountsWeights(weight, removed + kept);
  }

  // ------------------------------------------------- cuts and batches

  /** In a well-paired history only calls are answered. */
  lemma {:induction false} PairedAnswersOnlyCalls(history: seq<Message>, id: CallId)
    requires Paired(history) && Answered(history, id)
    ensures id in CallIds(history)
  {
    var m := history[0];
    var n := if IsBatch(m) then 1 + |m.calls| else 1;
    var head, rest := history[..n], history[n..];
    SplitAt(history, n);
    CallIdsConcat(head, rest);
    AnsweredConcat(head, rest, id);
    if Answered(rest, id) {
      PairedAnswersOnlyCalls(rest, id);
    } else {
      assert IsBatch(m);
      FirstIds(head);
      EarlyAnswers(history, n, id);
    }
  }

  /** A batch and the first of its results answer only the earlier calls of the batch. */
  lemma EarlyAnswers(history: seq<Message>, end: nat, id: CallId)
    requires Paired(history) && |history| > 0 && IsBatch(history[0]) && 0 < end <= 1 + |history[0].calls|
    requires Answered(history[..end], id)
    ensures exists k :: 0 <= k < end - 1 && Ids(history[0].calls)[k] == id
  {
    var cut, n := history[..end], |history[0].calls|;
    var i :| 0 <= i < |cut| && Answers(cut[i], id);
    assert i > 0 && cut[i] == history[1..1 + n][i - 1];
    assert Ids(history[0].calls)[i - 1] == id;
  }

  lemma FirstIds(history: seq<Message>)
    requires |history| > 0 && IsBatch(history[0])
    ensures var ids := Ids(history[0].calls);
      |ids| <= |CallIds(history)| && CallIds(history)[..|ids|] == ids
  {
    SplitAt(history, 1);
    CallIdsConcat(history[..1], history[1..]);
    assert CallIds(history[..1]) == Ids(history[0].calls);
  }

  /** The cut falls inside the batch at b: its last result lies beyond the cut. */
  predicate CutsBatch(history: seq<Message>, end: nat, b: nat) {
    b < |history| && IsBatch(history[b]) && b < end <= b + |history[b].calls|
  }

  /** Every call of that batch whose result lies beyond the cut has an answered id already. */
  predicate AnsweredBefore(history: seq<Message>, end: nat, b: nat)
    requires CutsBatch(history, end, b) && end <= |history|
  {
    forall k :: end - b - 1 <= k < |history[b].calls| ==> Answered(history[..end], history[b].calls[k].id)
  }

  ghost predicate CutsAnsweredBatch(history: seq<Message>, end: nat)
    requires end <= |history|
  {
    exists b :: CutsBatch(history, end, b) && AnsweredBefore(history, end, b)
  }

  /** The last boundary between groups at or before end: end itself, or the start of the
      batch that end falls into. */
  lemma {:induction false} LastBoundary(history: seq<Message>, end: nat) returns (b: nat)
    requires Paired(history) && end <= |history|
    ensures b <= end && Paired(history[..b]) && Paired(history[b..])
    ensures b < end ==> CutsBatch(history, end, b)
  {
    if end == 0 {
      b := 0;
    } else {
      var n := if IsBatch(history[0]) then 1 + |history[0].calls| else 1;
      PairedHead(history, n);
      if end < n {
        b := 0;
      } else {
        var c := LastBoundary(history[n..], end - n);
        b := n + c;
        PairedCut(history[..n], history[n..][..c]);
        CutBehindHead(history, n, b);
      }
    }
  }

  lemma CutBehindHead<T>(s: seq<T>, n: nat, end: nat)
    requires n <= end <= |s|
    ensures s[..end] == s[..n] + s[n..][..end - n] && s[end..] == s[n..][end - n..]
  {
  }

  lemma PairedHead(history: seq<Message>, n: nat)
    requires Paired(history) && |history| > 0
    requires n == if IsBatch(history[0]) then 1 + |history[0].calls| else 1
    ensures n <= |history| && Paired(history[..n]) && Paired(history[n..])
    ensures forall k :: 1 <= k < n ==> history[k].role == Tool
  {
    var m := history[0];
    if IsBatch(m) {
      PairedBatch(m, history[1..n]);
      assert forall k :: 1 <= k < n ==> history[k] == history[1..n][k - 1];
      assert history[..n] == [m] + history[1..n];
    }
  }

  /** A well-paired history holds all results of each of its batches. */
  lemma {:induction false} PairedHoldsResults(history: seq<Message>, c: nat)
    requires Paired(history) && c < |history| && IsBatch(history[c])
    ensures c + |history[c].calls| < |history|
  {
    var n := if IsBatch(history[0]) then 1 + |history[0].calls| else 1;
    PairedHead(history, n);
    if c >= n {
      PairedHoldsResults(history[n..], c - n);
    }
  }

  /** The message at a cut inside a batch is one of its results. */
  lemma ResultAtCut(history: seq<Message>, end: nat, b: nat)
    requires CutsBatch(history, end, b) && Paired(history[b..])
    ensures end < |history| && history[end].role == Tool && !Paired(history[end..])
    ensures forall c :: b < c < end ==> !IsBatch(history[c])
  {
    var n := |history[b].calls|;
    var results := history[b..][1..1 + n];
    assert forall c :: b < c <= b + n ==> history[c] == results[c - b - 1];
  }

  /** Both sides of a cut are well paired exactly when it falls into no batch, and it can
      only fall into one. */
  lemma CutIsBoundary(history: seq<Message>, end: nat) returns (b: nat)
    requires Paired(history) && end <= |history|
    ensures b <= end && Paired(history[..b]) && Paired(history[b..])
    ensures forall c :: CutsBatch(history, end, c) <==> c == b < end
    ensures Paired(history[end..]) <==> b == end
  {
    b := LastBoundary(history, end);
    if b < end {
      ResultAtCut(history, end, b);
    }
    forall c: nat | CutsBatch(history, end, c) ensures c >= b {
      if c < b {
        PairedHoldsResults(history[..b], c);
      }
    }
  }

  /** What a cut leaves open: calls of the batch it falls into. */
  lemma {:induction false} ClosedInsideBatch(history: seq<Message>, end: nat, b: nat)
    requires end <= |history| && CutsBatch(history, end, b) && Paired(history[..b]) && Paired(history[b..])
    ensures ClosedAt(history, end) <==> NoId !in CallIds(history[..end]) && AnsweredBefore(history, end, b)
  {
    var cut, ids := history[..end], Ids(history[b].calls);
    IdsUpToCut(history, end, b);
    AllAnsweredIff(CallIds(cut), cut);
    if ClosedAt(history, end) {
      assert forall k :: 0 <= k < |ids| ==> ids[k] in CallIds(cut);
    } else if NoId !in CallIds(cut) && AnsweredBefore(history, end, b) {
      forall id | id in CallIds(cut) ensures Answered(cut, id) {
        AnsweredUpToCut(history, end, b, id);
      }
    }
  }

  lemma {:induction false} AnsweredUpToCut(history: seq<Message>, end: nat, b: nat, id: CallId)
    requires end <= |history| && CutsBatch(history, end, b) && Paired(history[..b]) && Paired(history[b..])
    requires id in CallIds(history[..b]) + Ids(history[b].calls) && id != NoId && AnsweredBefore(history, end, b)
    ensures Answered(history[..end], id)
  {
    var cut := history[..end];
    if id in CallIds(history[..b]) {
      PairedAnswersCalls(history[..b], id);
      SplitAt(cut, b);
      assert cut[..b] == history[..b];
      AnsweredConcat(cut[..b], cut[b..], id);
    } else {
      var k :| 0 <= k < |history[b].calls| && Ids(history[b].calls)[k] == id;
      if k < end - b - 1 {
        ResultBeforeCut(history, end, b, k);
      }
    }
  }

  lemma ResultBeforeCut(history: seq<Message>, end: nat, b: nat, k: nat)
    requires end <= |history| && CutsBatch(history, end, b) && Paired(history[b..]) && k < end - b - 1
    requires history[b].calls[k].id != NoId
    ensures Answered(history[..end], history[b].calls[k].id)
  {
    var results := history[b..][1..1 + |history[b].calls|];
    assert results[k] == history[b + 1 + k] == history[..end][b + 1 + k];
    assert Answers(history[..end][b + 1 + k], history[b].calls[k].id);
  }

  lemma IdsUpToCut(history: seq<Message>, end: nat, b: nat)
    requires end <= |history| && CutsBatch(history, end, b) && Paired(history[b..])
    ensures CallIds(history[..end]) == CallIds(history[..b]) + Ids(history[b].calls)
  {
    var cut := history[..end];
    ResultAtCut(history, end, b);
    SliceAround(cut, 0, b, end);
    assert cut[0..end] == cut && cut[0..b] == history[..b];
    ToolsCallNothing(cut[b + 1..end]);
    CallIdsConcat(cut[0..b] + [cut[b]], cut[b + 1..end]);
    CallIdsConcat(cut[0..b], [cut[b]]);
    assert CallIds([cut[b]]) == Ids(history[b].calls);
    EmptyRight(CallIds(history[..b]) + Ids(history[b].calls));
  }

  /** A cut of a well-paired history is closed and yet splits a batch exactly when it falls
      into a batch all of whose calls with results beyond the cut were answered before, and
      no id up to there is empty. */
  lemma ClosedCutSplitsBatch(history: seq<Message>, end: nat)
    requires Paired(history) && end <= |history|
    ensures ClosedAt(history, end) && !Paired(history[end..]) <==>
            NoId !in CallIds(history[..end]) && CutsAnsweredBatch(history, end)
  {
    var b := CutIsBoundary(history, end);
    if b < end {
      ClosedInsideBatch(history, end, b);
    }
  }

  /** A closed cut leaves both sides well paired exactly when it splits no such batch. */
  lemma ClosedCutIsBoundary(history: seq<Message>, end: nat)
    requires Paired(history) && ClosedAt(history, end)
    ensures Paired(history[..end]) && Paired(history[end..]) <==> !CutsAnsweredBatch(history, end)
  {
    var b := CutIsBoundary(history, end);
    if b < end {
      ClosedInsideBatch(history, end, b);
    }
  }

  /** Ids used once leave no such batch. */
  lemma UniqueIdsNeverSplit(history: seq<Message>, end: nat)
    requires Paired(history) && end <= |history| && Distinct(CallIds(history))
    ensures !CutsAnsweredBatch(history, end)
  {
    var b := CutIsBoundary(history, end);
    if b < end {
      LastCallUnanswered(history, end, b);
    }
  }

  lemma {:induction false} LastCallUnanswered(history: seq<Message>, end: nat, b: nat)
    requires end <= |history| && CutsBatch(history, end, b) && Paired(history[..b]) && Paired(history[b..])
    requires Distinct(CallIds(history))
    ensures !AnsweredBefore(history, end, b)
  {
    var before, rest := history[..b], history[b..];
    var last := history[b].calls[|history[b].calls| - 1].id;
    LastIdApart(history, b);
    SplitAt(history[..end], b);
    assert history[..end][..b] == before && history[..end][b..] == rest[..end - b];
    AnsweredConcat(before, rest[..end - b], last);
    if Answered(before, last) {
      PairedAnswersOnlyCalls(before, last);
    }
    if Answered(rest[..end - b], last) {
      EarlyAnswers(rest, end - b, last);
    }
  }

  /** With unique ids the last id of a batch is called nowhere before. */
  lemma LastIdApart(history: seq<Message>, b: nat)
    requires b < |history| && IsBatch(history[b]) && Distinct(CallIds(history))
    ensures var ids := Ids(history[b].calls); var last := ids[|ids| - 1];
      last !in CallIds(history[..b]) && forall k :: 0 <= k < |ids| - 1 ==> ids[k] != last
  {
    var ids, inner := Ids(history[b].calls), CallIds(history[b..]);
    SplitAt(history, b);
    CallIdsConcat(history[..b], history[b..]);
    FirstIds(history[b..]);
    DistinctConcat(CallIds(history[..b]), inner);
    assert forall k :: 0 <= k < |ids| ==> inner[k] == ids[k];
    assert inner[|ids| - 1] in inner;
  }

  lemma DistinctConcat(a: seq<CallId>, b: seq<CallId>)
    requires Distinct(a + b)
    ensures Distinct(b) && forall id :: id in a ==> id !in b
  {
    forall i, j | 0 <= i < j < |b| ensures b[i] != b[j] {
      assert (a + b)[|a| + i] != (a + b)[|a| + j];
    }
    forall i, j | 0 <= i < |a| && 0 <= j < |b| ensures a[i] != b[j] {
      assert (a + b)[i] != (a + b)[|a| + j];
    }
  }

  /** Two replies with the same call id, each answered: the largest admissible cut falls
      between the second call and its result. */
  lemma ReusedIdSplitsBatch(weight: Weight, hash: Hash, call0: Text, name: ToolName, text: Text, plan: Option<Plan>)
    requires var batch := AssistantMessage(text, [ToolCall(Id(call0), name, text)]);
      var result := ToolMessage(Id(call0), name, text);
      BestPlan(weight, hash, [batch, result, batch, result], None, 1, 0, plan)
    ensures var batch := AssistantMessage(text, [ToolCall(Id(call0), name, text)]);
      var result := ToolMessage(Id(call0), name, text);
      var h := [batch, result, batch, result];
      Paired(h) && plan.Some? && plan.value.end == 3 && CutsAnsweredBatch(h, 3) && !Paired(h[3..])
  {
    var batch := AssistantMessage(text, [ToolCall(Id(call0), name, text)]);
    var result := ToolMessage(Id(call0), name, text);
    var h := [batch, result, batch, result];
    ReusedIdHistory(batch, result);
    assert h[0..3] + h[3..] == h[0..];
    EstimateMonotone(weight, h[0..3], h[3..]);
    assert h[0..] == h && h[0..3] == h[..3];
    assert Admissible(weight, h, 0, 0, 3);
    assert CutsBatch(h, 3, 2);
    ClosedCutSplitsBatch(h, 3);
    assert h[3..] == [result];
    assert !Paired(h[3..]);
  }

  lemma ReusedIdHistory(batch: Message, result: Message)
    requires IsBatch(batch) && |batch.calls| == 1 && batch.calls[0].id != NoId
    requires result.role == Tool && result.callId == batch.calls[0].id
    ensures var h := [batch, result, batch, result];
      Paired(h) && OpenIds(h) == [] && OpenIds(h[..3]) == []
  {
    var h, id := [batch, result, batch, result], batch.calls[0].id;
    PairedBatch(batch, [result]);
    assert [batch, result] + [batch, result] == h && [batch] + [result] == [batch, result];
    PairedCut([batch, result], [batch, result]);
    assert h[..3] == [batch, result] + [batch] && Ids(batch.calls) == [id];
    CallIdsConcat([batch, result], [batch]);
    CallIdsConcat([batch, result], [batch, result]);
    CallIdsConcat([batch], [result]);
    assert CallIds([batch]) == [id] && CallIds([result]) == [];
    assert Answers(h[1], id) && Answers(h[..3][1], id);
    AllAnsweredIff(CallIds(h), h);
    AllAnsweredIff(CallIds(h[..3]), h[..3]);
  }

  // --------------------------------------------- kept results, in any history

  /** A result comes after a call of its id. */
  predicate FollowsCall(history: seq<Message>, i: nat)
    requires i < |history|
  {
    history[i].role == Tool && history[i].callId != NoId ==> history[i].callId in CallIds(history[..i])
  }

  ghost predicate AnswersFollowCalls(history: seq<Message>) {
    forall i :: 0 <= i < |history| ==> FollowsCall(history, i)
  }

  /** In a well-paired history every result follows its call. */
  lemma {:induction false} PairedAnswersFollow(history: seq<Message>)
    requires Paired(history)
    ensures AnswersFollowCalls(history)
  {
    forall i | 0 <= i < |history| ensures FollowsCall(history, i) {
      if history[i].role == Tool {
        var b := LastBoundary(history, i);
        assert b < i;
        BatchCallsResult(history, b, i);
      }
    }
  }

  lemma {:induction false} BatchCallsResult(history: seq<Message>, b: nat, i: nat)
    requires CutsBatch(history, i, b) && i < |history| && Paired(history[b..])
    ensures history[i].callId in CallIds(history[..i])
  {
    var m, n := history[b], |history[b].calls|;
    var k := i - b - 1;
    PairedUnfolds(history[b..]);
    assert history[b..][1..1 + n][k] == history[i];
    assert Ids(m.calls)[k] == history[i].callId;
    SliceAround(history, 0, b, i);
    assert history[..i] == history[..b] + ([m] + history[b + 1..i]);
    CallIdsConcat(history[..b], [m] + history[b + 1..i]);
    CallIdsConcat([m], history[b + 1..i]);
    assert CallIds([m]) == Ids(m.calls);
  }

  /** The kept result at i answers an id that was answered before the cut and is not called
      again between the cut and i. */
  predicate RepeatsAnswer(history: seq<Message>, end: nat, i: nat)
    requires end <= i < |history|
  {
    history[i].role == Tool && Answered(history[..end], history[i].callId) &&
    history[i].callId !in CallIds(history[end..i])
  }

  lemma {:induction false} KeptResultKeepsCall(history: seq<Message>, end: nat, i: nat)
    requires ClosedAt(history, end) && end <= i < |history| && FollowsCall(history, i)
    ensures FollowsCall(history[end..], i - end) <==> !RepeatsAnswer(history, end, i)
  {
    var before, between := history[..end], history[end..i];
    assert history[..i] == before + between && history[end..][..i - end] == between;
    CallIdsConcat(before, between);
    AllAnsweredIff(CallIds(before), before);
  }

  /** In any history whose results come after their calls, a closed cut leaves every kept
      result with a kept call exactly when none repeats an answer given before the cut. */
  lemma {:induction false} KeptResultsKeepCalls(history: seq<Message>, end: nat)
    requires ClosedAt(history, end) && AnswersFollowCalls(history)
    ensures AnswersFollowCalls(history[end..]) <==>
            forall i :: end <= i < |history| ==> !RepeatsAnswer(history, end, i)
  {
    var kept := history[end..];
    forall k | 0 <= k < |kept| ensures FollowsCall(kept, k) <==> !RepeatsAnswer(history, end, end + k) {
      KeptResultKeepsCall(history, end, end + k);
    }
    assert forall i :: end <= i < |history| ==> (FollowsCall(kept, i - end) <==> !RepeatsAnswer(history, end, i));
  }

  predicate AnsweredOnce(history: seq<Message>) {
    forall i, j :: 0 <= i < j < |history| && history[i].role == Tool && history[j].role == Tool ==>
      history[i].callId == NoId || history[i].callId != history[j].callId
  }

  /** So if each id is answered once, after its call, no kept result loses its call, whether
      or not the history is well paired. */
  lemma AnsweredOnceKeepsCalls(history: seq<Message>, end: nat)
    requires ClosedAt(history, end) && AnswersFollowCalls(history) && AnsweredOnce(history)
    ensures AnswersFollowCalls(history[end..])
  {
    KeptResultsKeepCalls(history, end);
    forall i | end <= i < |history| ensures !RepeatsAnswer(history, end, i) {
      assert forall j :: 0 <= j < end ==> history[..end][j] == history[j];
    }
  }

  /** A cancel stored a failure before the result, so the one id is answered twice: the
      largest admissible cut falls between the two, and the kept result has no call. */
  lemma LateResultLosesCall(weight: Weight, hash: Hash, call: ToolCall, text: Text, late: Text, plan: Option<Plan>)
    requires call.id != NoId
    requires BestPlan(weight, hash, [AssistantMessage(text, [call]), ToolMessage(call.id, call.name, text),
                                     ToolMessage(call.id, call.name, late)], None, 1, 0, plan)
    ensures var h := [AssistantMessage(text, [call]), ToolMessage(call.id, call.name, text), ToolMessage(call.id, call.name, late)];
      plan.Some? && plan.value.end == 2 && RepeatsAnswer(h, 2, 2) && !AnswersFollowCalls(h[2..])
  {
    var batch, failure, result := AssistantMessage(text, [call]), ToolMessage(call.id, call.name, text), ToolMessage(call.id, call.name, late);
    var h := [batch, failure, result];
    AnsweredTwice(batch, failure, result);
    assert h[0..2] + h[2..] == h[0..];
    EstimateMonotone(weight, h[0..2], h[2..]);
    assert h[0..] == h && h[0..2] == h[..2];
    assert Admissible(weight, h, 0, 0, 2);
    assert h[2..2] == [] && h[2..] == [result];
    assert !FollowsCall([result], 0);
  }

  lemma AnsweredTwice(batch: Message, failure: Message, result: Message)
    requires IsBatch(batch) && |batch.calls| == 1 && batch.calls[0].id != NoId
    requires failure.role == result.role == Tool && failure.callId == result.callId == batch.calls[0].id
    ensures var h := [batch, failure, result];
      OpenIds(h) == [] && OpenIds(h[..2]) == [] && Answered(h[..2], result.callId)
  {
    var h, id := [batch, failure, result], batch.calls[0].id;
    assert h == [batch] + [failure, result] && h[..2] == [batch] + [failure];
    CallIdsConcat([batch], [failure, result]);
    CallIdsConcat([batch], [failure]);
    ToolsCallNothing([failure, result]);
    ToolsCallNothing([failure]);
    assert CallIds([batch]) == Ids(batch.calls) == [id];
    assert Answers(h[1], id) && Answers(h[..2][1], id);
    AllAnsweredIff(CallIds(h), h);
    AllAnsweredIff(CallIds(h[..2]), h[..2]);
  }

  /** Healing keeps a history with ids of its own in that shape, a resumed question included. */
  lemma HealKeepsAnswers(history: seq<Message>, reason: Text)
    requires AnswersFollowCalls(history) && AnsweredOnce(history) && Distinct(CallIds(history))
    ensures AnswersFollowCalls(Healed(history, reason)) && AnsweredOnce(Healed(history, reason))
  {
    var open := OpenIds(history);
    var fix := Failures(open, AllCalls(history), reason);
    var h := history + fix;
    UnansweredDistinct(CallIds(history), history);
    forall i | 0 <= i < |h| ensures FollowsCall(h, i) {
      if i < |history| {
        assert h[..i] == history[..i] && FollowsCall(history, i);
      } else {
        assert h[..i] == history + fix[..i - |history|];
        CallIdsConcat(history, fix[..i - |history|]);
        assert open[i - |history|] in open;
      }
    }
    forall i, j | 0 <= i < j < |h| && h[i].role == Tool && h[j].role == Tool && h[i].callId != NoId
      ensures h[i].callId != h[j].callId
    {
      if i < |history| <= j {
        assert open[j - |history|] in open;
        assert Answers(history[i], h[i].callId);
      }
    }
  }

  lemma AnswersElse(history: seq<Message>, i: nat, id: CallId)
    requires i < |history| && !Answered(history, id)
    ensures !Answers(history[i], id)
  {
  }

  /** The answer to a question of a new batch, given before its sister calls are healed,
      keeps the shape too. */
  lemma ResumedAnswerKeepsAnswers(history: seq<Message>, m: Message, reply: Message)
    requires AnswersFollowCalls(history) && AnsweredOnce(history) && IsBatch(m)
    requires reply.role == Tool && reply.callId in Ids(m.calls) && !Answered(history, reply.callId)
    ensures AnswersFollowCalls(history + [m, reply]) && AnsweredOnce(history + [m, reply])
  {
    var h, n := history + [m, reply], |history|;
    forall i | 0 <= i < |h| ensures FollowsCall(h, i) {
      if i < n {
        assert h[..i] == history[..i] && FollowsCall(history, i);
      } else if i > n {
        assert h[..i] == history + [m];
        CallIdsConcat(history, [m]);
        assert CallIds([m]) == Ids(m.calls);
      }
    }
    forall i, j | 0 <= i < j < |h| && h[i].role == Tool && h[j].role == Tool
      ensures h[i].callId == NoId || h[i].callId != h[j].callId
    {
      if i < n {
        AnswersElse(history, i, reply.callId);
      }
    }
  }

  lemma {:induction false} UnansweredDistinct(ids: seq<CallId>, history: seq<Message>)
    requires Distinct(ids)
    ensures Distinct(Unanswered(ids, history))
  {
    if |ids| > 0 {
      UnansweredDistinct(ids[1..], history);
      var rest := Unanswered(ids[1..], history);
      assert forall k :: 0 <= k < |rest| ==> rest[k] in rest;
      assert forall k :: 0 < k < |ids| ==> ids[0] != ids[k];
    }
  }
}
