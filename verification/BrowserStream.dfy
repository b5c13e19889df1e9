/** Browser event streams (manage/workgroup/ws_hub.py:31-73, 385-411, 486-520;
    manage/workgroup/store.py:1298-1302).

    Committing an event and publishing it are separate steps, and events may be published out
    of order. Each browser has a replay, taken when it subscribes, and a bounded live queue. */
module BrowserStream {

  /** Other stands for queue and HITL messages, End for the end-of-stream sentinel. */
  datatype Message = Event(number: nat) | Other | Resync | End

  const CAPACITY: nat := 256

  /** One browser connection: the class of the source, with its queue as a field. */
  class BrowserConnection {
    var queue: seq<Message>
    var closed: bool

    constructor ()
      ensures queue == [] && !closed
    {
      queue, closed := [], false;
    }

    /** A full queue is dropped, and the browser told to start over. */
    method Enqueue(m: Message) returns (ok: bool)
      requires |queue| <= CAPACITY
      modifies this
      ensures ok == (!old(closed) && |old(queue)| < CAPACITY)
      ensures View() == Enqueued(old(View()), m)
    {
      if closed {
        return false;
      }
      if |queue| < CAPACITY {
        queue := queue + [m];
        return true;
      }
      closed := true;
      while |queue| > 0
        invariant closed
        decreases |queue|
      {
        queue := queue[1..];
      }
      queue := queue + [Resync];
      return false;
    }

    method Close()
      requires |queue| <= CAPACITY
      modifies this
      ensures View() == Closed(old(View()))
    {
      closed := true;
      if |queue| < CAPACITY {
        queue := queue + [End];
      }
    }

    function View(): Channel
      reads this
    {
      Channel(queue, closed)
    }
  }

  datatype Channel = Channel(queue: seq<Message>, closed: bool)

  function Enqueued(c: Channel, m: Message): Channel {
    if c.closed then c
    else if |c.queue| < CAPACITY then c.(queue := c.queue + [m])
    else Channel([Resync], true)
  }

  function Closed(c: Channel): Channel {
    Channel(if |c.queue| < CAPACITY then c.queue + [End] else c.queue, true)
  }

  // ------------------------------------------------------------- the hub

  /** The replay of a browser is every event after cursor, up to cut. before are the events
      that were published before it subscribed. */
  datatype Browser = Browser(
    cursor: nat, cut: nat, before: set<nat>, consumed: seq<Message>, channel: Channel, overflowed: bool)

  /** Events 1..committed are durable; published are those handed to the listener.
      listening are the browsers registered with the hub, leaving those unregistered and not
      yet closed. */
  datatype Stream = Stream(committed: nat, published: set<nat>, browsers: map<nat, Browser>,
                           listening: set<nat>, leaving: set<nat>)

  datatype Step =
    | Commit
    | Publish(number: nat)
    | PushOther
    | Subscribe(browser: nat, cursor: nat)
    | Consume(browser: nat)
    | Unregister(browser: nat)
    | Close(browser: nat)

  predicate Enabled(s: Stream, step: Step) {
    match step
    case Commit => true
    case Publish(n) => 1 <= n <= s.committed && n !in s.published
    case PushOther => true
    case Subscribe(b, _) => b !in s.browsers
    case Consume(b) => b in s.browsers && |s.browsers[b].channel.queue| > 0
    case Unregister(b) => b in s.listening
    case Close(b) => b in s.leaving && b in s.browsers
  }

  function Offer(b: Browser, m: Message): Browser {
    b.(channel := Enqueued(b.channel, m),
       overflowed := b.overflowed || (!b.channel.closed && |b.channel.queue| >= CAPACITY))
  }

  function Broadcast(s: Stream, m: Message): Stream {
    s.(browsers := map b | b in s.browsers :: if b in s.listening then Offer(s.browsers[b], m) else s.browsers[b])
  }

  function Apply(s: Stream, step: Step): Stream
    requires Enabled(s, step)
  {
    match step
    case Commit => s.(committed := s.committed + 1)
    case Publish(n) => Broadcast(s, Event(n)).(published := s.published + {n})
    case PushOther => Broadcast(s, Other)
    case Subscribe(b, cursor) =>
      s.(browsers := s.browsers[b := Browser(cursor, s.committed, s.published, [], Channel([], false), false)],
         listening := s.listening + {b})
    case Consume(b) =>
      var w := s.browsers[b];
      s.(browsers := s.browsers[b := w.(consumed := w.consumed + [w.channel.queue[0]],
                                        channel := w.channel.(queue := w.channel.queue[1..]))])
    case Unregister(b) => s.(listening := s.listening - {b}, leaving := s.leaving + {b})
    case Close(b) => s.(leaving := s.leaving - {b}, browsers := s.browsers[b := s.browsers[b].(channel := Closed(s.browsers[b].channel))])
  }

  /** A message reaches every listening browser that is open and has room, at the end of its
      queue, and nobody else. */
  lemma Delivered(s: Stream, m: Message, id: nat)
    requires id in s.browsers && id in Broadcast(s, m).browsers
    ensures var b, b1 := s.browsers[id], Broadcast(s, m).browsers[id];
      if id !in s.listening || b.channel.closed then b1 == b
      else if |b.channel.queue| < 256 then
        b1 == b.(channel := Channel(b.channel.queue + [m], false))
      else b1 == b.(channel := Channel([Resync], true), overflowed := true)
    ensures Apply(s, PushOther).browsers == Broadcast(s, Other).browsers
  {
  }

  /** A closed browser gets nothing more but, if there is room, the end marker. */
  lemma ClosingEnds(s: Stream, id: nat)
    requires Enabled(s, Close(id))
    ensures var c, c1 := s.browsers[id].channel, Apply(s, Close(id)).browsers[id].channel;
      && c1.closed && (|c.queue| < 256 ==> c1.queue == c.queue + [End]) && (|c.queue| >= 256 ==> c1.queue == c.queue)
      && forall m :: Enqueued(c1, m) == c1
  {
  }

  /** What a browser consumes is the head of its queue. */
  lemma ConsumesHead(s: Stream, id: nat)
    requires Enabled(s, Consume(id))
    ensures var b, b1 := s.browsers[id], Apply(s, Consume(id)).browsers[id];
      [b1.consumed[|b.consumed|]] + b1.channel.queue == b.channel.queue && b1.consumed[..|b.consumed|] == b.consumed
  {
  }

  predicate Replayed(b: Browser, n: nat) {
    b.cursor < n <= b.cut
  }

  /** The event is in the browser's replay, was consumed, or is still queued. */
  predicate Reached(b: Browser, n: nat) {
    Replayed(b, n) || Event(n) in b.consumed || Event(n) in b.channel.queue
  }

  function Received(b: Browser): seq<Message> {
    b.consumed + b.channel.queue
  }

  /** Nothing follows the resync marker but the sentinel of a later close. */
  predicate EndsInResync(messages: seq<Message>, closed: bool) {
    var n := |messages|;
    (n > 0 && messages[n - 1] == Resync) ||
    (closed && n > 1 && messages[n - 2] == Resync && messages[n - 1] == End)
  }

  ghost predicate BrowserOk(s: Stream, id: nat, b: Browser) {
    && |b.channel.queue| <= CAPACITY
    && b.cut <= s.committed
    && (b.overflowed ==> b.channel.closed && EndsInResync(Received(b), id !in s.listening && id !in s.leaving))
    && ((id in s.listening || id in s.leaving) && b.channel.closed ==> b.overflowed)
    && (forall n :: n in b.before ==> n in s.published && n <= b.cut)
    && (forall n :: Offered(b, n) ==> n in s.published && n !in b.before)
    && (id in s.listening && !b.overflowed ==> forall n :: n in s.published ==> n in b.before || Offered(b, n))
  }

  /** The event came to the browser live. */
  predicate Offered(b: Browser, n: nat) {
    Event(n) in b.consumed || Event(n) in b.channel.queue
  }

  ghost predicate Inv(s: Stream) {
    && (forall n :: n in s.published ==> 1 <= n <= s.committed)
    && s.listening <= s.browsers.Keys && s.leaving <= s.browsers.Keys && s.listening !! s.leaving
    && (forall id :: id in s.browsers ==> BrowserOk(s, id, s.browsers[id]))
  }

  lemma OfferKeepsOk(s: Stream, s1: Stream, id: nat, m: Message)
    requires id in s.listening && id in s.browsers && BrowserOk(s, id, s.browsers[id])
    requires s1.listening == s.listening && s1.committed == s.committed
    requires m.Event? ==> m.number !in s.published
    requires s1.published == if m.Event? then s.published + {m.number} else s.published
    ensures BrowserOk(s1, id, Offer(s.browsers[id], m))
  {
    var b, b1 := s.browsers[id], Offer(s.browsers[id], m);
    if !b.overflowed && b1.overflowed {
      assert Received(b1)[|b1.consumed|] == Resync;
    }
    if !b1.overflowed && !b1.channel.closed {
      assert b1.channel.queue == b.channel.queue + [m];
    }
  }

  lemma ConsumeKeepsOk(s: Stream, id: nat)
    requires id in s.browsers && BrowserOk(s, id, s.browsers[id]) && |s.browsers[id].channel.queue| > 0
    ensures BrowserOk(Apply(s, Consume(id)), id, Apply(s, Consume(id)).browsers[id])
  {
    var b, b1 := s.browsers[id], Apply(s, Consume(id)).browsers[id];
    assert Received(b1) == Received(b);
    assert b.channel.queue == [b.channel.queue[0]] + b1.channel.queue;
    forall n ensures Offered(b1, n) <==> Offered(b, n) {
    }
  }

  lemma CloseKeepsOk(s: Stream, id: nat)
    requires Inv(s) && Enabled(s, Close(id))
    ensures BrowserOk(Apply(s, Close(id)), id, Apply(s, Close(id)).browsers[id])
  {
    var b, b1 := s.browsers[id], Apply(s, Close(id)).browsers[id];
    assert BrowserOk(s, id, b);
    assert Received(b1) == if |b.channel.queue| < CAPACITY then Received(b) + [End] else Received(b);
  }

  lemma BroadcastKeepsInv(s: Stream, s1: Stream, m: Message)
    requires Inv(s) && (m.Event? ==> 1 <= m.number <= s.committed && m.number !in s.published)
    requires s1 == Broadcast(s, m).(published := if m.Event? then s.published + {m.number} else s.published)
    ensures Inv(s1)
  {
    forall id | id in s1.browsers ensures BrowserOk(s1, id, s1.browsers[id]) {
      assert BrowserOk(s, id, s.browsers[id]);
      if id in s.listening {
        OfferKeepsOk(s, s1, id, m);
      }
    }
  }

  lemma StepKeepsInv(s: Stream, step: Step)
    requires Inv(s) && Enabled(s, step)
    ensures Inv(Apply(s, step))
  {
    match step {
      case Publish(n) => BroadcastKeepsInv(s, Apply(s, step), Event(n));
      case PushOther => BroadcastKeepsInv(s, Apply(s, step), Other);
      case Consume(b) => QuietStepKeepsInv(s, step);
        ConsumeKeepsOk(s, b);
      case Close(b) => QuietStepKeepsInv(s, step);
        CloseKeepsOk(s, b);
      case _ => QuietStepKeepsInv(s, step);
    }
  }

  /** Steps that offer nothing leave the browsers they do not touch in order. */
  lemma QuietStepKeepsInv(s: Stream, step: Step)
    requires Inv(s) && Enabled(s, step) && !step.Publish? && !step.PushOther?
    ensures forall id :: id in Apply(s, step).browsers && !((step.Consume? || step.Close?) && step.browser == id) ==>
      BrowserOk(Apply(s, step), id, Apply(s, step).browsers[id])
    ensures Apply(s, step).listening <= Apply(s, step).browsers.Keys
    ensures Apply(s, step).leaving <= Apply(s, step).browsers.Keys && Apply(s, step).listening !! Apply(s, step).leaving
  {
    var s1 := Apply(s, step);
    forall id | id in s1.browsers && !((step.Consume? || step.Close?) && step.browser == id)
      ensures BrowserOk(s1, id, s1.browsers[id])
    {
      if id in s.browsers {
        assert BrowserOk(s, id, s.browsers[id]);
      }
    }
  }

  const INIT := Stream(0, {}, map[], {}, {})

  ghost predicate Run(states: seq<Stream>, steps: seq<Step>) {
    |states| == |steps| + 1 && states[0] == INIT &&
    forall i :: 0 <= i < |steps| ==> Enabled(states[i], steps[i]) && states[i + 1] == Apply(states[i], steps[i])
  }

  lemma {:induction false} RunKeepsInv(states: seq<Stream>, steps: seq<Step>, k: nat)
    requires Run(states, steps) && k < |states|
    ensures Inv(states[k])
  {
    if k > 0 {
      RunKeepsInv(states, steps, k - 1);
      StepKeepsInv(states[k - 1], steps[k - 1]);
    }
  }

  /** In every reachable state no queue exceeds its bound; a registered browser that kept up
      reaches every published event above its cursor; one that did not keep up ends in the
      resync marker. */
  lemma StreamsAreComplete(states: seq<Stream>, steps: seq<Step>, k: nat, id: nat, n: nat)
    requires Run(states, steps) && k < |states| && id in states[k].browsers
    ensures var s, b := states[k], states[k].browsers[id];
      && |b.channel.queue| <= 256
      && (id in s.listening && !b.overflowed && n in s.published && n > b.cursor ==> Reached(b, n))
      && (id in s.listening && b.overflowed ==> Received(b) != [] && Received(b)[|Received(b)| - 1] == Resync)
  {
    RunKeepsInv(states, steps, k);
    assert BrowserOk(states[k], id, states[k].browsers[id]);
    if id in states[k].listening && !states[k].browsers[id].overflowed && n in states[k].published {
      assert n in states[k].browsers[id].before || Offered(states[k].browsers[id], n);
    }
  }

  // ---------------------------------------------------------------- coming back

  /** The browser was given the event: in its replay, or live and consumed. */
  predicate Seen(b: Browser, n: nat) {
    Replayed(b, n) || Event(n) in b.consumed
  }

  lemma SubscriptionStays(s: Stream, step: Step, id: nat)
    requires Enabled(s, step) && id in s.browsers
    ensures id in Apply(s, step).browsers
    ensures var b, b1 := s.browsers[id], Apply(s, step).browsers[id];
      b1.cursor == b.cursor && b1.cut == b.cut && b1.before == b.before
    ensures s.published <= Apply(s, step).published
  {
  }

  lemma {:induction false} RunKeepsSubscription(states: seq<Stream>, steps: seq<Step>, j: nat, m: nat, id: nat)
    requires Run(states, steps) && j <= m < |states| && id in states[j].browsers
    ensures id in states[m].browsers && states[j].published <= states[m].published
    ensures var b, b1 := states[j].browsers[id], states[m].browsers[id];
      b1.cursor == b.cursor && b1.cut == b.cut && b1.before == b.before
    decreases m
  {
    if j < m {
      RunKeepsSubscription(states, steps, j, m - 1, id);
      SubscriptionStays(states[m - 1], steps[m - 1], id);
    }
  }

  /** The published event n, after the old cursor, was given neither to the browser that left
      nor to the one that came back. */
  predicate Missed(left: Browser, back: Browser, published: set<nat>, n: nat) {
    n in published && n > left.cursor && !Seen(left, n) && !Reached(back, n)
  }

  /** The event was unpublished, or still queued to the browser. */
  predicate Pending(left: Browser, published: set<nat>, n: nat) {
    n !in published || (Event(n) in left.channel.queue && Event(n) !in left.consumed)
  }

  /** What a browser that kept up knows when it leaves. */
  lemma LeavingKnows(s: Stream, id: nat, n: nat)
    requires Inv(s) && id in s.listening && id in s.browsers && !s.browsers[id].overflowed
    requires n > s.browsers[id].cursor
    ensures !Seen(s.browsers[id], n) <==> !Replayed(s.browsers[id], n) && Pending(s.browsers[id], s.published, n)
  {
    var b := s.browsers[id];
    assert BrowserOk(s, id, b);
    assert Offered(b, n) ==> n in s.published;
    assert n in s.published ==> n in b.before || Offered(b, n);
  }

  /** What a registered browser that keeps up misses: old events its cursor skips. */
  lemma BackMisses(s: Stream, id: nat, n: nat)
    requires Inv(s) && id in s.listening && id in s.browsers && !s.browsers[id].overflowed && n in s.published
    ensures !Reached(s.browsers[id], n) <==> n in s.browsers[id].before && n <= s.browsers[id].cursor
  {
    var b := s.browsers[id];
    assert BrowserOk(s, id, b);
    assert n in b.before || Offered(b, n);
    assert Offered(b, n) ==> n !in b.before;
  }

  /** A browser that kept up leaves in step k, comes back in step j with the cursor c, and
      keeps up again. An event after its old cursor is missed exactly when it is not after c,
      was published before the browser was back, was not replayed to it, and was unpublished
      or still queued to it when it left. */
  lemma RejoinMisses(states: seq<Stream>, steps: seq<Step>, k: nat, j: nat, m: nat, id: nat, back: nat, c: nat, n: nat)
    requires Run(states, steps) && k < j < m < |states|
    requires steps[k] == Unregister(id) && steps[j] == Subscribe(back, c)
    requires id in states[k].browsers && !states[k].browsers[id].overflowed
    requires back in states[m].listening && back in states[m].browsers && !states[m].browsers[back].overflowed
    ensures var left := states[k].browsers[id];
      Missed(left, states[m].browsers[back], states[m].published, n) <==>
      left.cursor < n <= c && n in states[j].published && !Replayed(left, n) && Pending(left, states[k].published, n)
  {
    var left := states[k].browsers[id];
    RunKeepsInv(states, steps, k);
    RunKeepsInv(states, steps, m);
    RunKeepsSubscription(states, steps, j + 1, m, back);
    assert states[j + 1].published == states[j].published;
    if n > left.cursor {
      LeavingKnows(states[k], id, n);
    }
    if n in states[m].published {
      BackMisses(states[m], back, n);
    }
  }

  // ------------------------------------------------- back after an overflow

  /** The browser overflows in step o: from then on it is given nothing but the marker. */
  predicate Overflows(states: seq<Stream>, o: nat, id: nat) {
    o + 1 < |states| && id in states[o].browsers && id in states[o + 1].browsers &&
    !states[o].browsers[id].overflowed && states[o + 1].browsers[id].overflowed
  }

  /** An overflowed browser overflowed in some step. */
  lemma {:induction false} OverflowStep(states: seq<Stream>, steps: seq<Step>, k: nat, id: nat) returns (o: nat)
    requires Run(states, steps) && k < |states| && id in states[k].browsers && states[k].browsers[id].overflowed
    ensures o < k && Overflows(states, o, id)
  {
    assert k > 0;
    if id in states[k - 1].browsers && states[k - 1].browsers[id].overflowed {
      o := OverflowStep(states, steps, k - 1, id);
    } else {
      o := k - 1;
    }
  }

  predicate NoEvents(messages: seq<Message>) {
    forall i :: 0 <= i < |messages| ==> !messages[i].Event?
  }

  /** A closed queue without events stays so, and the events consumed stay the same. */
  ghost predicate Settled(b: Browser, old1: Browser) {
    b.channel.closed && NoEvents(b.channel.queue) && forall n :: Event(n) in b.consumed <==> Event(n) in old1.consumed
  }

  lemma {:induction false} StepKeepsSettled(s: Stream, step: Step, id: nat, old1: Browser)
    requires Enabled(s, step) && id in s.browsers && Settled(s.browsers[id], old1)
    ensures id in Apply(s, step).browsers && Settled(Apply(s, step).browsers[id], old1)
  {
  }

  lemma {:induction false} OverflowSettles(s: Stream, step: Step, id: nat)
    requires Enabled(s, step) && id in s.browsers && id in Apply(s, step).browsers
    requires !s.browsers[id].overflowed && Apply(s, step).browsers[id].overflowed
    ensures Settled(Apply(s, step).browsers[id], s.browsers[id]) && id in s.listening
  {
  }

  lemma {:induction false} SettledStays(states: seq<Stream>, steps: seq<Step>, o: nat, k: nat, id: nat)
    requires Run(states, steps) && o < k < |states| && Overflows(states, o, id)
    ensures id in states[k].browsers && Settled(states[k].browsers[id], states[o].browsers[id])
    decreases k
  {
    if o + 1 < k {
      SettledStays(states, steps, o, k - 1, id);
      StepKeepsSettled(states[k - 1], steps[k - 1], id, states[o].browsers[id]);
    } else {
      OverflowSettles(states[o], steps[o], id);
    }
  }

  /** A browser overflows in step o, leaves in step k, comes back in step j with the cursor c
      and keeps up. An event after its old cursor is missed exactly when it is not after c,
      was published before the browser was back, was not replayed to it, and was unpublished
      or still queued to it when it overflowed: what the dropped queue held is lost unless the
      cursor lies below it. */
  lemma OverflowRejoinMisses(states: seq<Stream>, steps: seq<Step>, o: nat, k: nat, j: nat, m: nat,
                             id: nat, back: nat, c: nat, n: nat)
    requires Run(states, steps) && o < k < j < m < |states| && Overflows(states, o, id)
    requires steps[k] == Unregister(id) && steps[j] == Subscribe(back, c) && id in states[k].browsers
    requires back in states[m].listening && back in states[m].browsers && !states[m].browsers[back].overflowed
    ensures var left := states[k].browsers[id];
      Missed(left, states[m].browsers[back], states[m].published, n) <==>
      left.cursor < n <= c && n in states[j].published && !Replayed(left, n) &&
      Pending(states[o].browsers[id], states[o].published, n)
  {
    var left, full := states[k].browsers[id], states[o].browsers[id];
    RunKeepsInv(states, steps, o);
    RunKeepsInv(states, steps, m);
    OverflowSettles(states[o], steps[o], id);
    SettledStays(states, steps, o, k, id);
    RunKeepsSubscription(states, steps, o, k, id);
    RunKeepsSubscription(states, steps, j + 1, m, back);
    assert states[j + 1].published == states[j].published;
    if n > left.cursor {
      LeavingKnows(states[o], id, n);
      assert Seen(left, n) <==> Seen(full, n);
    }
    if n in states[m].published {
      BackMisses(states[m], back, n);
    }
  }

  /** Browser 7 saw event 2 only; coming back from there, it is never given event 1, which
      was published in the meantime. */
  predicate MissesFirstEvent(s: Stream) {
    7 in s.browsers && 8 !in s.browsers && s.browsers[7].consumed == [Event(2)] && s.published == {1, 2} &&
    7 !in s.listening && !Reached(s.browsers[7], 1) && !Reached(Apply(s, Subscribe(8, 2)).browsers[8], 1)
  }

  /** The example: browser 7 joins, events 1 and 2 are committed, 2 is published and seen,
      the browser leaves, 1 is published. */
  function Example(i: nat): Stream {
    var joined := Stream(0, {}, map[7 := Browser(0, 0, {}, [], Channel([], false), false)], {7}, {});
    var queued := map[7 := Browser(0, 0, {}, [], Channel([Event(2)], false), false)];
    var seen := map[7 := Browser(0, 0, {}, [Event(2)], Channel([], false), false)];
    if i == 0 then INIT
    else if i <= 3 then joined.(committed := i - 1)
    else if i == 4 then Stream(2, {2}, queued, {7}, {})
    else if i == 5 then Stream(2, {2}, seen, {7}, {})
    else if i == 6 then Stream(2, {2}, seen, {}, {7})
    else Stream(2, {1, 2}, seen, {}, {7})
  }

  function ExampleStep(i: nat): Step {
    if i == 0 then Subscribe(7, 0)
    else if i <= 2 then Commit
    else if i == 3 then Publish(2)
    else if i == 4 then Consume(7)
    else if i == 5 then Unregister(7)
    else Publish(1)
  }

  lemma ExampleStepsApply(i: nat)
    requires i < 7
    ensures Enabled(Example(i), ExampleStep(i)) && Example(i + 1) == Apply(Example(i), ExampleStep(i))
  {
    if i == 3 {
      assert [] + [Event(2)] == [Event(2)];
      assert Apply(Example(3), Publish(2)).browsers == Example(4).browsers;
    } else if i == 4 {
      assert [] + [Event(2)] == [Event(2)] && [Event(2)][1..] == [];
    } else if i == 6 {
      assert Apply(Example(6), Publish(1)).browsers == Example(7).browsers;
    }
  }

  /** Resuming from the highest event seen can miss one: here event 2 overtakes event 1 and
      the browser leaves in between. */
  lemma OvertakingLosesAnEvent() returns (states: seq<Stream>, steps: seq<Step>)
    ensures Run(states, steps) && MissesFirstEvent(states[|states| - 1])
  {
    states := seq(8, i requires 0 <= i < 8 => Example(i));
    steps := seq(7, i requires 0 <= i < 7 => ExampleStep(i));
    forall i | 0 <= i < 7 ensures Enabled(states[i], steps[i]) && states[i + 1] == Apply(states[i], steps[i]) {
      ExampleStepsApply(i);
    }
  }
}
