/** The human queue of one workgroup (manage/workgroup/turn_kernel.py:367-402, 437-475,
    541-559, 583-677): the held turn, the in-memory queue and its durable copy. Each function
    is one section under the turn lock; the class runs them on its fields. Other workgroups
    have lanes of their own. */
module TurnLane {
  import opened Shared

  datatype Item = Item(id: nat, clientId: Option<nat>, priority: nat, createdAt: nat)

  /** claiming is true until the turn's worker has begun it. */
  datatype Turn = Turn(token: nat, claiming: bool)

  function HasItem(queue: seq<Item>, id: nat): bool {
    exists i :: 0 <= i < |queue| && queue[i].id == id
  }

  function HasClient(queue: seq<Item>, item: Item): bool {
    item.clientId.Some? && exists i :: 0 <= i < |queue| && queue[i].clientId == item.clientId
  }

  // -------------------------------------------------------------- queue order

  /** The sort key of the source: higher priority first, then older, then smaller id. */
  predicate Before(a: Item, b: Item) {
    a.priority > b.priority ||
    (a.priority == b.priority && (a.createdAt < b.createdAt || (a.createdAt == b.createdAt && a.id < b.id)))
  }

  predicate Sorted(queue: seq<Item>) {
    forall i, j :: 0 <= i < j < |queue| ==> Before(queue[i], queue[j])
  }

  predicate DistinctIds(queue: seq<Item>) {
    forall i, j :: 0 <= i < j < |queue| ==> queue[i].id != queue[j].id
  }

  ghost predicate SameItems(a: seq<Item>, b: seq<Item>) {
    |a| == |b| && (forall x :: x in a <==> x in b)
  }

  /** Where x goes in a sorted queue. */
  function Slot(x: Item, queue: seq<Item>): (k: nat)
    ensures k <= |queue|
    ensures forall i :: 0 <= i < k ==> Before(queue[i], x)
    ensures k < |queue| ==> !Before(queue[k], x)
  {
    if |queue| == 0 || !Before(queue[0], x) then 0 else 1 + Slot(x, queue[1..])
  }

  function SortItems(queue: seq<Item>): (sorted: seq<Item>)
    ensures |sorted| == |queue|
  {
    if |queue| == 0 then []
    else
      var rest := SortItems(queue[1..]);
      var k := Slot(queue[0], rest);
      rest[..k] + [queue[0]] + rest[k..]
  }

  lemma InsertSorted(x: Item, rest: seq<Item>, k: nat)
    requires Sorted(rest) && k == Slot(x, rest) && !HasItem(rest, x.id)
    ensures Sorted(rest[..k] + [x] + rest[k..])
    ensures forall y :: y in rest[..k] + [x] + rest[k..] <==> y == x || y in rest
  {
    var q := rest[..k] + [x] + rest[k..];
    forall i | k <= i < |rest| ensures Before(x, rest[i]) {
      if i > k {
        assert Before(rest[k], rest[i]);
      }
    }
    assert forall i :: 0 <= i < |q| ==> q[i] == if i < k then rest[i] else if i == k then x else rest[i - 1];
    forall y | y in rest ensures y in q {
      var i :| 0 <= i < |rest| && rest[i] == y;
      assert q[if i < k then i else i + 1] == y;
    }
    assert q[k] == x;
  }

  lemma {:induction false} SortItemsSorts(queue: seq<Item>)
    requires DistinctIds(queue)
    ensures Sorted(SortItems(queue)) && SameItems(SortItems(queue), queue)
  {
    if |queue| > 0 {
      SortItemsSorts(queue[1..]);
      var rest := SortItems(queue[1..]);
      forall i | 0 <= i < |rest| ensures rest[i].id != queue[0].id {
        assert rest[i] in queue[1..];
      }
      InsertSorted(queue[0], rest, Slot(queue[0], rest));
      assert forall y :: y in queue <==> y == queue[0] || y in queue[1..];
    }
  }

  function Without(queue: seq<Item>, id: nat): (rest: seq<Item>)
    ensures forall x :: x in rest <==> x in queue && x.id != id
    ensures |rest| <= |queue|
  {
    if |queue| == 0 then []
    else if queue[0].id == id then Without(queue[1..], id)
    else [queue[0]] + Without(queue[1..], id)
  }

  function MaxPriority(queue: seq<Item>): (m: nat)
    ensures forall x :: x in queue ==> x.priority <= m
  {
    if |queue| == 0 then 0
    else
      var m := MaxPriority(queue[1..]);
      if queue[0].priority > m then queue[0].priority else m
  }

  function Find(queue: seq<Item>, id: nat): (i: nat)
    requires HasItem(queue, id)
    ensures i < |queue| && queue[i].id == id
    ensures forall j :: 0 <= j < i ==> queue[j].id != id
  {
    if queue[0].id == id then 0 else 1 + Find(queue[1..], id)
  }

  // ----------------------------------------------------------- lock sections

  datatype Lane = Lane(active: Option<Turn>, queue: seq<Item>, durable: map<nat, Item>, nextToken: nat) {

    function ClaimNext(): Lane {
      if |queue| == 0 then this
      else this.(active := Some(Turn(nextToken, true)), queue := queue[1..], nextToken := nextToken + 1)
    }

    /** A worker holding another token than the current one changes nothing. */
    function EndTurn(token: Option<nat>): Lane {
      if active.Some? && token.Some? && active.value.token != token.value then this
      else this.(active := None).ClaimNext()
    }

    function BeginTurn(token: nat): Lane {
      this.(active := Some(Turn(token, false)))
    }

    predicate Queues() {
      active.Some? || |queue| > 0
    }

    /** A message that must wait is saved durably even when an equal client id hides it from
        the in-memory queue. */
    function ClaimOrEnqueue(item: Item): Lane {
      if Queues() then
        this.(queue := if HasClient(queue, item) then queue else queue + [item],
              durable := durable[item.id := item])
      else this.(active := Some(Turn(nextToken, true)), nextToken := nextToken + 1)
    }

    function CancelItem(id: nat): Lane {
      if HasItem(queue, id) then this.(queue := Without(queue, id), durable := durable - {id}) else this
    }

    function Promoted(id: nat): Item
      requires HasItem(queue, id)
    {
      queue[Find(queue, id)].(priority := MaxPriority(queue) + 1)
    }

    /** First section of send-now: the item goes to the head, in memory and durably. */
    function Promote(id: nat): Lane {
      if !HasItem(queue, id) then this
      else this.(queue := SortItems(queue[Find(queue, id) := Promoted(id)]), durable := durable[id := Promoted(id)])
    }

    /** Last section of send-now: take the turn over, if it is still the one seen first. */
    function ForceClaim(seen: Option<nat>): Lane {
      if active.Some? && seen != Some(active.value.token) then this
      else this.(active := None).ClaimNext()
    }

    function Resume(): Lane {
      if active.Some? then this else ClaimNext()
    }
  }

  /** The returned item is the one the section took off the queue, if it took one. */
  predicate Claims(before: Lane, after: Lane, item: Option<Item>) {
    if after.nextToken == before.nextToken
    then item.None? && after.queue == before.queue
    else item.Some? && before.queue == [item.value] + after.queue && after.active == Some(Turn(before.nextToken, true))
  }

  class TurnKernel {
    var active: Option<Turn>
    var queue: seq<Item>
    var durable: map<nat, Item>
    var nextToken: nat

    function View(): Lane
      reads this
    {
      Lane(active, queue, durable, nextToken)
    }

    /** A new process: the queue is reloaded from the durable records, no turn is held. */
    constructor (durable: map<nat, Item>, loaded: seq<Item>)
      ensures View() == Lane(None, loaded, durable, 0)
    {
      active, queue, this.durable, nextToken := None, loaded, durable, 0;
    }

    method ClaimNextHuman() returns (item: Option<Item>)
      modifies this
      ensures View() == old(View()).ClaimNext()
      ensures item == if |old(queue)| > 0 then Some(old(queue)[0]) else None
    {
      if |queue| == 0 {
        item := None;
      } else {
        item := Some(queue[0]);
        queue := queue[1..];
        active := Some(Turn(nextToken, true));
        nextToken := nextToken + 1;
      }
    }

    method EndTurn(token: Option<nat>) returns (item: Option<Item>)
      modifies this
      ensures View() == old(View()).EndTurn(token)
      ensures Claims(old(View()), View(), item)
    {
      if active.Some? {
        if token.Some? && active.value.token != token.value {
          return None;
        }
        active := None;
      }
      item := ClaimNextHuman();
    }

    method BeginTurn(token: nat)
      modifies this
      ensures View() == old(View()).BeginTurn(token)
    {
      active := Some(Turn(token, false));
    }

    /** position is the 1-based place of the message, or of the queued message with the same
        client id. */
    method Enqueue(item: Item) returns (position: nat)
      modifies this`queue
      ensures queue == if HasClient(old(queue), item) then old(queue) else old(queue) + [item]
      ensures 1 <= position <= |queue|
      ensures queue[position - 1] == item || (item.clientId.Some? && queue[position - 1].clientId == item.clientId)
    {
      if item.clientId.Some? {
        for i := 0 to |queue|
          invariant forall k :: 0 <= k < i ==> queue[k].clientId != item.clientId
        {
          if queue[i].clientId == item.clientId {
            return i + 1;
          }
        }
      }
      queue := queue + [item];
      return |queue|;
    }

    method ClaimOrEnqueue(item: Item) returns (ran: bool, position: nat)
      modifies this
      ensures View() == old(View()).ClaimOrEnqueue(item)
      ensures ran == !old(View()).Queues()
    {
      var busy := active.Some?;
      if busy || |queue| > 0 {
        position := Enqueue(item);
        durable := durable[item.id := item];
        return false, position;
      }
      active := Some(Turn(nextToken, true));
      nextToken := nextToken + 1;
      return true, 0;
    }

    method FindItem(id: nat) returns (at: Option<nat>)
      ensures at.Some? <==> HasItem(queue, id)
      ensures at.Some? ==> at.value == Find(queue, id)
    {
      for i := 0 to |queue|
        invariant forall k :: 0 <= k < i ==> queue[k].id != id
      {
        if queue[i].id == id {
          FindIsFirst(queue, id, i);
          return Some(i);
        }
      }
      return None;
    }

    method CancelItem(id: nat) returns (found: bool)
      requires DistinctIds(queue)
      modifies this
      ensures View() == old(View()).CancelItem(id)
      ensures found == HasItem(old(queue), id)
    {
      var at := FindItem(id);
      if at.None? {
        return false;
      }
      WithoutDistinct(queue, id, at.value);
      queue := queue[..at.value] + queue[at.value + 1..];
      durable := durable - {id};
      return true;
    }

    method TopPriority() returns (top: nat)
      ensures top == MaxPriority(queue)
    {
      top := 0;
      for i := |queue| downto 0
        invariant top == MaxPriority(queue[i..])
      {
        assert queue[i..][1..] == queue[i + 1..];
        if queue[i].priority > top {
          top := queue[i].priority;
        }
      }
      assert queue[0..] == queue;
    }

    method PromoteItem(id: nat) returns (found: bool, seen: Option<nat>)
      modifies this
      ensures View() == old(View()).Promote(id)
      ensures found == HasItem(old(queue), id)
      ensures seen == if active.Some? then Some(active.value.token) else None
      ensures found && DistinctIds(old(queue)) ==> queue[0].id == id
    {
      PromotedToHead(View(), id);
      seen := if active.Some? then Some(active.value.token) else None;
      var at := FindItem(id);
      if at.None? {
        return false, seen;
      }
      var top := TopPriority();
      var item := queue[at.value].(priority := top + 1);
      assert item == View().Promoted(id);
      queue := SortItems(queue[at.value := item]);
      durable := durable[id := item];
      return true, seen;
    }

    method ForceClaim(seen: Option<nat>) returns (item: Option<Item>)
      modifies this
      ensures View() == old(View()).ForceClaim(seen) && Claims(old(View()), View(), item)
    {
      item := None;
      if active.None? || seen == Some(active.value.token) {
        active := None;
        item := ClaimNextHuman();
      }
    }

    method ResumePersisted() returns (item: Option<Item>)
      modifies this
      ensures View() == old(View()).Resume() && Claims(old(View()), View(), item)
    {
      item := None;
      if active.None? {
        item := ClaimNextHuman();
      }
    }
  }

  lemma {:induction false} SortedRaised(queue: seq<Item>, at: nat, item: Item)
    requires DistinctIds(queue) && at < |queue| && item.id == queue[at].id
    ensures DistinctIds(queue[at := item])
    ensures Sorted(SortItems(queue[at := item])) && SameItems(SortItems(queue[at := item]), queue[at := item])
  {
    SortItemsSorts(queue[at := item]);
  }

  /** Send-now puts the item at the head of the queue, on any lane. */
  lemma {:induction false} PromotedToHead(l: Lane, id: nat)
    ensures DistinctIds(l.queue) && HasItem(l.queue, id) ==>
      |l.Promote(id).queue| > 0 && l.Promote(id).queue[0].id == id
  {
    if DistinctIds(l.queue) && HasItem(l.queue, id) {
      var at, item := Find(l.queue, id), l.Promoted(id);
      var raised := l.queue[at := item];
      SortedRaised(l.queue, at, item);
      assert raised[at] == item && item in raised;
      forall x | x in raised && x != item ensures x.priority < item.priority {
        var k :| 0 <= k < |raised| && raised[k] == x;
        assert l.queue[k] in l.queue;
      }
      var sorted := SortItems(raised);
      assert item in sorted;
      var k :| 0 <= k < |sorted| && sorted[k] == item;
      assert sorted[0] in sorted;
      assert k > 0 ==> Before(sorted[0], sorted[k]);
    }
  }

  /** Its priority is one more than the greatest. */
  lemma PromotedPriority(l: Lane, id: nat)
    requires HasItem(l.queue, id)
    ensures forall x :: x in l.queue ==> x.priority < l.Promoted(id).priority
    ensures exists x :: x in l.queue && x.priority + 1 == l.Promoted(id).priority
  {
    MaxAttained(l.queue);
  }

  lemma {:induction false} MaxAttained(queue: seq<Item>)
    requires |queue| > 0
    ensures exists x :: x in queue && x.priority == MaxPriority(queue)
  {
    var first, rest := queue[0], queue[1..];
    assert first in queue;
    if |rest| == 0 {
      assert MaxPriority(rest) == 0;
    } else {
      MaxAttained(rest);
      var x :| x in rest && x.priority == MaxPriority(rest);
      assert x in queue;
    }
  }

  /** A message runs at once exactly on a free lane with an empty queue; otherwise it is saved,
      and waits at the end unless its client id waits already. */
  lemma RunsAtOnceExactly(l: Lane, item: Item)
    ensures var l1 := l.ClaimOrEnqueue(item);
      if l.active.None? && l.queue == []
      then l1 == Lane(Some(Turn(l.nextToken, true)), [], l.durable, l1.nextToken) && l1.nextToken > l.nextToken
      else
        l1 == Lane(l.active, if HasClient(l.queue, item) then l.queue else l.queue + [item], l.durable[item.id := item], l.nextToken)
  {
  }

  /** Cancelling takes exactly the item out of queue and records; an item that does not wait
      in memory keeps its record. */
  lemma CancelsExactly(l: Lane, id: nat)
    ensures var l1 := l.CancelItem(id);
      && !HasItem(l1.queue, id) && l1.active == l.active && l1.nextToken == l.nextToken
      && (HasItem(l.queue, id) ==> l1.durable == l.durable - {id})
      && (!HasItem(l.queue, id) ==> l1 == l)
      && forall x :: x in l1.queue <==> x in l.queue && x.id != id
  {
    if HasItem(l.queue, id) {
      assert forall i :: 0 <= i < |l.CancelItem(id).queue| ==> l.CancelItem(id).queue[i] in l.CancelItem(id).queue;
    } else {
      assert forall i :: 0 <= i < |l.queue| ==> l.queue[i].id != id;
    }
  }

  /** So a turn taken over right after, by the sender that saw the turn of that moment, is
      the promoted message's. */
  lemma PromotedIsClaimed(l: Lane, id: nat)
    requires DistinctIds(l.queue) && HasItem(l.queue, id)
    ensures var p := l.Promote(id);
      var f := p.ForceClaim(if l.active.Some? then Some(l.active.value.token) else None);
      f.active == Some(Turn(l.nextToken, true)) && p.queue[0].id == id && f.queue == p.queue[1..]
  {
    PromotedToHead(l, id);
  }

  lemma FindIsFirst(queue: seq<Item>, id: nat, i: nat)
    requires i < |queue| && queue[i].id == id && forall k :: 0 <= k < i ==> queue[k].id != id
    ensures HasItem(queue, id) && Find(queue, id) == i
  {
  }

  lemma {:induction false} WithoutDistinct(queue: seq<Item>, id: nat, i: nat)
    requires DistinctIds(queue) && i < |queue| && queue[i].id == id
    ensures Without(queue, id) == queue[..i] + queue[i + 1..]
  {
    if i == 0 {
      WithoutAbsent(queue[1..], id);
    } else {
      WithoutDistinct(queue[1..], id, i - 1);
    }
  }

  lemma {:induction false} WithoutAbsent(queue: seq<Item>, id: nat)
    requires !HasItem(queue, id)
    ensures Without(queue, id) == queue
  {
    if |queue| > 0 {
      assert queue[0].id != id;
      forall k | 0 <= k < |queue[1..]| ensures queue[1..][k].id != id {
        assert queue[1..][k] == queue[k + 1];
      }
      WithoutAbsent(queue[1..], id);
    }
  }
}
