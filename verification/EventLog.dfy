/** The Timeline and the outbox of one workgroup (manage/workgroup/store.py:1213-1403), in
    memory and on disk. A write to disk may fail. */
module EventLog {
  import opened Shared

  datatype Event = Event(id: nat, number: nat, clientId: Option<nat>, text: Text)

  /** event is set for timeline.event frames; the others carry an address. */
  datatype Payload = Payload(event: Option<Event>, home: Option<nat>, member: Option<nat>)

  datatype Frame = Frame(number: nat, payload: Payload, acked: bool)

  datatype Log = Log(timeline: seq<Event>, outbox: seq<Frame>)

  function FindClient(timeline: seq<Event>, clientId: Option<nat>): (at: Option<nat>)
    ensures at.Some? ==> at.value < |timeline| && clientId.Some? && timeline[at.value].clientId == clientId
    ensures at.None? && clientId.Some? ==> forall i :: 0 <= i < |timeline| ==> timeline[i].clientId != clientId
  {
    if clientId.None? || |timeline| == 0 then None
    else if timeline[0].clientId == clientId then Some(0)
    else
      var rest := FindClient(timeline[1..], clientId);
      if rest.Some? then Some(rest.value + 1) else None
  }

  function LastSeq(outbox: seq<Frame>): nat {
    if |outbox| == 0 then 0 else outbox[|outbox| - 1].number
  }

  function LastEventSeq(timeline: seq<Event>): nat {
    if |timeline| == 0 then 0 else timeline[|timeline| - 1].number
  }

  function NewEvent(log: Log, id: nat, clientId: Option<nat>, text: Text): Event {
    Event(id, LastEventSeq(log.timeline) + 1, clientId, text)
  }

  function FrameOf(log: Log, payload: Payload): Frame {
    Frame(LastSeq(log.outbox) + 1, payload, false)
  }

  function WithEvent(log: Log, e: Event): Log {
    Log(log.timeline + [e], log.outbox + [FrameOf(log, Payload(Some(e), None, None))])
  }

  function WithFrame(log: Log, payload: Payload): Log {
    log.(outbox := log.outbox + [FrameOf(log, payload)])
  }

  function WithAck(log: Log, i: nat): Log
    requires i < |log.outbox|
  {
    log.(outbox := log.outbox[i := log.outbox[i].(acked := true)])
  }

  /** The events of the timeline.event frames, in outbox order. */
  function EventsOf(outbox: seq<Frame>): seq<Event> {
    if |outbox| == 0 then []
    else
      var n := |outbox| - 1;
      EventsOf(outbox[..n]) + if outbox[n].payload.event.Some? then [outbox[n].payload.event.value] else []
  }

  /** Both logs are numbered from 1 without gaps, the outbox carries exactly the Timeline in
      order, and a client id occurs once. */
  ghost predicate Sound(log: Log) {
    && (forall i :: 0 <= i < |log.timeline| ==> log.timeline[i].number == i + 1)
    && (forall i :: 0 <= i < |log.outbox| ==> log.outbox[i].number == i + 1)
    && EventsOf(log.outbox) == log.timeline
    && (forall i, j :: 0 <= i < j < |log.timeline| && log.timeline[i].clientId.Some? ==>
          log.timeline[i].clientId != log.timeline[j].clientId)
  }

  lemma EventsOfGrows(outbox: seq<Frame>, f: Frame)
    ensures EventsOf(outbox + [f]) == EventsOf(outbox) + if f.payload.event.Some? then [f.payload.event.value] else []
  {
    assert (outbox + [f])[..|outbox|] == outbox;
  }

  lemma {:induction false} AckKeepsEvents(outbox: seq<Frame>, i: nat)
    requires i < |outbox|
    ensures EventsOf(outbox[i := outbox[i].(acked := true)]) == EventsOf(outbox)
  {
    var n := |outbox| - 1;
    var acked := outbox[i := outbox[i].(acked := true)];
    if i < n {
      AckKeepsEvents(outbox[..n], i);
      assert acked[..n] == outbox[..n][i := outbox[i].(acked := true)];
    } else {
      assert acked[..n] == outbox[..n];
    }
  }

  lemma AppendKeepsSound(log: Log, id: nat, clientId: Option<nat>, text: Text)
    requires Sound(log) && FindClient(log.timeline, clientId).None?
    ensures Sound(WithEvent(log, NewEvent(log, id, clientId, text)))
  {
    EventsOfGrows(log.outbox, FrameOf(log, Payload(Some(NewEvent(log, id, clientId, text)), None, None)));
  }

  lemma FrameKeepsSound(log: Log, payload: Payload)
    requires Sound(log) && payload.event.None?
    ensures Sound(WithFrame(log, payload))
  {
    EventsOfGrows(log.outbox, FrameOf(log, payload));
  }

  /** An ack marks its frame and changes nothing else. */
  lemma AckKeepsSound(log: Log, i: nat)
    requires Sound(log) && i < |log.outbox|
    ensures Sound(WithAck(log, i))
    ensures var after := WithAck(log, i);
      && after.timeline == log.timeline && |after.outbox| == |log.outbox| && after.outbox[i].acked
      && after.outbox[i].payload == log.outbox[i].payload
      && forall k :: 0 <= k < |log.outbox| && k != i ==> after.outbox[k] == log.outbox[k]
  {
    AckKeepsEvents(log.outbox, i);
  }

  // --------------------------------------------------------- memory and disk

  /** Both logs, in memory and as written. */
  datatype Journal = Journal(log: Log, diskTimeline: seq<Event>, diskOutbox: map<nat, Frame>)

  /** Writes that succeed. */
  datatype Write =
    | Append(id: nat, clientId: Option<nat>, text: Text)
    | Enqueue(payload: Payload)
    | Ack(number: nat)

  function Written(j: Journal, w: Write): Journal {
    match w
    case Append(id, clientId, text) =>
      var e := NewEvent(j.log, id, clientId, text);
      if FindClient(j.log.timeline, clientId).Some? then j
      else OnDisk(j, WithEvent(j.log, e), j.diskTimeline + [e], LastSeq(j.log.outbox) + 1)
    case Enqueue(payload) => OnDisk(j, WithFrame(j.log, payload), j.diskTimeline, LastSeq(j.log.outbox) + 1)
    case Ack(n) =>
      if 1 <= n <= |j.log.outbox| then OnDisk(j, WithAck(j.log, n - 1), j.diskTimeline, n) else j
  }

  /** Appending an event with a client id twice is appending it once; without one each is a new
      event. */
  lemma AppendIsIdempotent(j: Journal, id: nat, again: nat, clientId: Option<nat>, text: Text, other: Text)
    requires Sound(j.log)
    ensures var once := Written(j, Append(id, clientId, text));
      var twice := Written(once, Append(again, clientId, other));
      && (clientId.Some? ==> twice == once && FindClient(once.log.timeline, clientId).Some?)
      && (clientId.None? ==> |twice.log.timeline| == |j.log.timeline| + 2)
      && (FindClient(j.log.timeline, clientId).None? ==>
            once.log.timeline == j.log.timeline + [Event(id, |j.log.timeline| + 1, clientId, text)]
            && |once.log.outbox| == |j.log.outbox| + 1)
  {
    var e := NewEvent(j.log, id, clientId, text);
    if FindClient(j.log.timeline, clientId).None? {
      var grown := j.log.timeline + [e];
      assert clientId.Some? ==> grown[|j.log.timeline|].clientId == clientId;
    }
  }

  /** The frame with this number is written, whether new or changed. */
  function OnDisk(j: Journal, log: Log, timeline: seq<Event>, number: nat): Journal {
    if 1 <= number <= |log.outbox|
    then Journal(log, timeline, j.diskOutbox[number := log.outbox[number - 1]])
    else Journal(log, timeline, j.diskOutbox)
  }

  /** A plain frame whose write fails stays in memory. */
  function Unwritten(j: Journal, payload: Payload): Journal {
    j.(log := WithFrame(j.log, payload))
  }

  /** Memory and disk hold the same logs. */
  ghost predicate SameOnDisk(log: Log, diskTimeline: seq<Event>, diskOutbox: map<nat, Frame>) {
    && diskTimeline == log.timeline
    && (forall i :: 0 <= i < |log.outbox| ==>
          log.outbox[i].number in diskOutbox && diskOutbox[log.outbox[i].number] == log.outbox[i])
    && (forall n :: n in diskOutbox ==> 1 <= n <= |log.outbox|)
  }

  lemma WrittenFrameOnDisk(log: Log, after: Log, f: Frame, diskOutbox: map<nat, Frame>, diskTimeline: seq<Event>)
    requires Sound(log) && f.number == LastSeq(log.outbox) + 1 && after.outbox == log.outbox + [f]
    requires SameOnDisk(log, log.timeline, diskOutbox)
    ensures SameOnDisk(after, after.timeline, diskOutbox[f.number := f])
    ensures !SameOnDisk(after, diskTimeline, diskOutbox)
  {
    assert after.outbox[|log.outbox|] == f;
  }

  class WorkgroupLog {
    var timeline: seq<Event>
    var outbox: seq<Frame>
    var diskTimeline: seq<Event>
    var diskOutbox: map<nat, Frame>

    function View(): Log
      reads this
    {
      Log(timeline, outbox)
    }

    function Whole(): Journal
      reads this
    {
      Journal(View(), diskTimeline, diskOutbox)
    }

    ghost predicate Valid()
      reads this
    {
      Sound(View())
    }

    ghost predicate Agree()
      reads this
    {
      SameOnDisk(View(), diskTimeline, diskOutbox)
    }

    constructor ()
      ensures Valid() && Agree() && View() == Log([], [])
    {
      timeline, outbox, diskTimeline, diskOutbox := [], [], [], map[];
    }

    /** An event with a known client id is returned, not appended. A failed write leaves
        memory and disk as they were. */
    method AppendTimeline(id: nat, clientId: Option<nat>, text: Text, writeFails: bool) returns (r: Option<Event>)
      requires Valid()
      modifies this
      ensures Valid() && (old(Agree()) ==> Agree())
      ensures var known := FindClient(old(timeline), clientId);
        var e := NewEvent(old(View()), id, clientId, text);
        if known.Some? then View() == old(View()) && r == Some(timeline[known.value])
        else if writeFails then View() == old(View()) && r == None
        else View() == WithEvent(old(View()), e) && r == Some(e)
      ensures Whole() == if writeFails then old(Whole()) else Written(old(Whole()), Append(id, clientId, text))
    {
      var known := FindEvent(clientId);
      if known.Some? {
        return Some(timeline[known.value]);
      }
      var e, frame := Push(id, clientId, text);
      if writeFails {
        Unpush();
        return None;
      }
      WriteThrough(e, frame);
      return Some(e);
    }

    /** Event and frame are written together. */
    method WriteThrough(e: Event, frame: Frame)
      modifies this`diskTimeline, this`diskOutbox
      ensures diskTimeline == old(diskTimeline) + [e] && diskOutbox == old(diskOutbox)[frame.number := frame]
    {
      diskTimeline := diskTimeline + [e];
      diskOutbox := diskOutbox[frame.number := frame];
    }

    /** The in-memory half of an append. */
    method Push(id: nat, clientId: Option<nat>, text: Text) returns (e: Event, frame: Frame)
      requires Valid() && FindClient(timeline, clientId).None?
      modifies this`timeline, this`outbox
      ensures e == NewEvent(old(View()), id, clientId, text) && View() == WithEvent(old(View()), e)
      ensures frame == outbox[|outbox| - 1]
      ensures Valid()
      ensures old(Agree()) ==> SameOnDisk(View(), diskTimeline + [e], diskOutbox[frame.number := frame])
    {
      ghost var before := View();
      AppendKeepsSound(before, id, clientId, text);
      e := Event(id, (if |timeline| == 0 then 0 else timeline[|timeline| - 1].number) + 1, clientId, text);
      timeline := timeline + [e];
      frame := Frame((if |outbox| == 0 then 0 else outbox[|outbox| - 1].number) + 1, Payload(Some(e), None, None), false);
      outbox := outbox + [frame];
      if SameOnDisk(before, diskTimeline, diskOutbox) {
        WrittenFrameOnDisk(before, View(), frame, diskOutbox, diskTimeline);
      }
    }

    /** The rollback of Push. */
    method Unpush()
      requires |timeline| > 0 && |outbox| > 0
      modifies this`timeline, this`outbox
      ensures timeline == old(timeline)[..|old(timeline)| - 1] && outbox == old(outbox)[..|old(outbox)| - 1]
    {
      timeline := timeline[..|timeline| - 1];
      outbox := outbox[..|outbox| - 1];
    }

    method FindEvent(clientId: Option<nat>) returns (at: Option<nat>)
      ensures at == FindClient(timeline, clientId)
    {
      if clientId.Some? {
        for i := 0 to |timeline|
          invariant forall k :: 0 <= k < i ==> timeline[k].clientId != clientId
        {
          if timeline[i].clientId == clientId {
            FirstMatch(timeline, clientId, i);
            return Some(i);
          }
        }
      }
      return None;
    }

    /** A plain frame has no rollback: after a failed write it stays in memory only. */
    method EnqueueOutbox(payload: Payload, writeFails: bool) returns (r: Option<Frame>)
      requires Valid() && payload.event.None?
      modifies this
      ensures Valid()
      ensures View() == WithFrame(old(View()), payload)
      ensures r == if writeFails then None else Some(FrameOf(old(View()), payload))
      ensures Whole() == if writeFails then Unwritten(old(Whole()), payload) else Written(old(Whole()), Enqueue(payload))
      ensures old(Agree()) ==> (Agree() <==> !writeFails)
    {
      ghost var before := View();
      FrameKeepsSound(before, payload);
      var frame := Frame((if |outbox| == 0 then 0 else outbox[|outbox| - 1].number) + 1, payload, false);
      outbox := outbox + [frame];
      if SameOnDisk(before, diskTimeline, diskOutbox) {
        WrittenFrameOnDisk(before, View(), frame, diskOutbox, diskTimeline);
      }
      if writeFails {
        return None;
      }
      diskOutbox := diskOutbox[frame.number := frame];
      return Some(frame);
    }

    method AckOutbox(n: nat) returns (found: bool)
      requires Valid()
      modifies this
      ensures Valid() && (old(Agree()) ==> Agree())
      ensures found <==> 1 <= n <= |old(outbox)|
      ensures View() == if found then WithAck(old(View()), n - 1) else old(View())
      ensures Whole() == Written(old(Whole()), Ack(n))
    {
      for i := 0 to |outbox|
        invariant i <= n - 1 || n == 0
        invariant forall k :: 0 <= k < i ==> outbox[k].number != n
      {
        if outbox[i].number == n {
          AckKeepsSound(View(), i);
          outbox := outbox[i := outbox[i].(acked := true)];
          diskOutbox := diskOutbox[n := outbox[i]];
          return true;
        }
      }
      return false;
    }

    /** A new process reads the logs back in the order of their numbers, which are at most
        bound. */
    method Reload(bound: nat)
      requires forall n :: n in diskOutbox ==> n <= bound
      modifies this`timeline, this`outbox
      ensures timeline == diskTimeline && outbox == Loaded(diskOutbox, bound)
    {
      timeline, outbox := diskTimeline, [];
      for n := 0 to bound
        invariant timeline == diskTimeline && outbox == Loaded(diskOutbox, n)
      {
        if n + 1 in diskOutbox {
          outbox := outbox + [diskOutbox[n + 1]];
        }
      }
    }
  }

  lemma {:induction false} FirstMatch(timeline: seq<Event>, clientId: Option<nat>, i: nat)
    requires clientId.Some? && i < |timeline| && timeline[i].clientId == clientId
    requires forall k :: 0 <= k < i ==> timeline[k].clientId != clientId
    ensures FindClient(timeline, clientId) == Some(i)
  {
    if i > 0 {
      FirstMatch(timeline[1..], clientId, i - 1);
    }
  }

  // ------------------------------------------------------------------- reload

  predicate Numbered(outbox: seq<Frame>) {
    forall i :: 0 <= i < |outbox| ==> outbox[i].number == i + 1
  }

  /** The written frames with numbers from 1 to bound, in order. */
  function Loaded(disk: map<nat, Frame>, bound: nat): seq<Frame> {
    if bound == 0 then []
    else Loaded(disk, bound - 1) + if bound in disk then [disk[bound]] else []
  }

  function Run(j: Journal, writes: seq<Write>): Journal {
    if |writes| == 0 then j else Written(Run(j, writes[..|writes| - 1]), writes[|writes| - 1])
  }

  /** Every frame is on disk, except the lost one unless it was repaired. */
  ghost predicate OnlyLost(j: Journal, lost: nat, payload: Payload, repaired: bool) {
    && Numbered(j.log.outbox) && 1 <= lost <= |j.log.outbox| && j.log.outbox[lost - 1].payload == payload
    && (forall n :: n in j.diskOutbox <==> 1 <= n <= |j.log.outbox| && (n == lost ==> repaired))
    && (forall n :: n in j.diskOutbox ==> j.diskOutbox[n] == j.log.outbox[n - 1])
  }

  lemma {:induction false} LossLeavesOnlyLost(j: Journal, payload: Payload)
    requires Sound(j.log) && SameOnDisk(j.log, j.diskTimeline, j.diskOutbox)
    ensures OnlyLost(Unwritten(j, payload), |j.log.outbox| + 1, payload, false)
  {
    var outbox := j.log.outbox;
    var lost := Frame(|outbox| + 1, payload, false);
    assert Unwritten(j, payload).log.outbox == outbox + [lost];
    forall n: nat ensures n in j.diskOutbox <==> 1 <= n <= |outbox| {
      assert 1 <= n <= |outbox| ==> outbox[n - 1].number == n;
    }
    forall n | n in j.diskOutbox ensures j.diskOutbox[n] == (outbox + [lost])[n - 1] {
      assert outbox[n - 1].number == n;
    }
  }

  lemma {:induction false} GrowthKeepsOnlyLost(j: Journal, k: Journal, lost: nat, payload: Payload, repaired: bool, f: Frame)
    requires OnlyLost(j, lost, payload, repaired)
    requires f.number == |j.log.outbox| + 1 && k.log.outbox == j.log.outbox + [f]
    requires k.diskOutbox == j.diskOutbox[f.number := f]
    ensures OnlyLost(k, lost, payload, repaired)
  {
  }

  lemma {:induction false} AckKeepsOnlyLost(j: Journal, lost: nat, payload: Payload, repaired: bool, n: nat)
    requires OnlyLost(j, lost, payload, repaired)
    ensures OnlyLost(Written(j, Ack(n)), lost, payload, repaired || n == lost)
  {
  }

  lemma {:induction false} WriteKeepsOnlyLost(j: Journal, lost: nat, payload: Payload, repaired: bool, w: Write)
    requires OnlyLost(j, lost, payload, repaired)
    ensures OnlyLost(Written(j, w), lost, payload, repaired || w == Ack(lost))
  {
    if w.Ack? {
      AckKeepsOnlyLost(j, lost, payload, repaired, w.number);
    } else if Written(j, w) != j {
      var outbox := Written(j, w).log.outbox;
      GrowthKeepsOnlyLost(j, Written(j, w), lost, payload, repaired, outbox[|outbox| - 1]);
    }
  }

  lemma {:induction false} RunKeepsOnlyLost(j: Journal, lost: nat, payload: Payload, writes: seq<Write>)
    requires OnlyLost(j, lost, payload, false)
    ensures OnlyLost(Run(j, writes), lost, payload, Ack(lost) in writes)
  {
    if |writes| > 0 {
      var n := |writes| - 1;
      RunKeepsOnlyLost(j, lost, payload, writes[..n]);
      WriteKeepsOnlyLost(Run(j, writes[..n]), lost, payload, Ack(lost) in writes[..n], writes[n]);
      assert writes == writes[..n] + [writes[n]];
    }
  }

  /** What is read back of the frames up to bound. */
  function ReadBack(outbox: seq<Frame>, lost: nat, repaired: bool): seq<Frame>
    requires lost >= 1
  {
    if repaired || lost > |outbox| then outbox else outbox[..lost - 1] + outbox[lost..]
  }

  lemma {:induction false} LoadedFrames(disk: map<nat, Frame>, outbox: seq<Frame>, lost: nat, repaired: bool)
    requires lost >= 1 && forall n :: 1 <= n <= |outbox| ==> (n in disk <==> (n == lost ==> repaired))
    requires forall n :: n in disk && 1 <= n <= |outbox| ==> disk[n] == outbox[n - 1]
    ensures Loaded(disk, |outbox|) == ReadBack(outbox, lost, repaired)
  {
    var bound := |outbox|;
    if bound > 0 {
      LoadedFrames(disk, outbox[..bound - 1], lost, repaired);
      ReadBackGrows(outbox, lost, repaired);
    }
  }

  lemma {:induction false} ReadBackGrows(outbox: seq<Frame>, lost: nat, repaired: bool)
    requires lost >= 1 && |outbox| > 0
    ensures var n := |outbox| - 1;
      ReadBack(outbox, lost, repaired) ==
      ReadBack(outbox[..n], lost, repaired) + if n + 1 == lost && !repaired then [] else [outbox[n]]
  {
  }

  /** A plain frame is lost by a failed write, other writes follow, and the process restarts:
      it reads back all frames but the lost one, and that one too if it was acked. */
  lemma LostFrameReadBack(j: Journal, payload: Payload, writes: seq<Write>)
    requires Sound(j.log) && SameOnDisk(j.log, j.diskTimeline, j.diskOutbox)
    ensures var lost, k := |j.log.outbox| + 1, Run(Unwritten(j, payload), writes);
      && Numbered(k.log.outbox) && lost <= |k.log.outbox| && k.log.outbox[lost - 1].payload == payload
      && Loaded(k.diskOutbox, |k.log.outbox|) == ReadBack(k.log.outbox, lost, Ack(lost) in writes)
  {
    var lost, k := |j.log.outbox| + 1, Run(Unwritten(j, payload), writes);
    LossLeavesOnlyLost(j, payload);
    RunKeepsOnlyLost(Unwritten(j, payload), lost, payload, writes);
    LoadedFrames(k.diskOutbox, k.log.outbox, lost, Ack(lost) in writes);
  }

  /** The outbox read back is numbered without a gap exactly when the lost frame was acked,
      which writes it after all, or no frame was enqueued behind it. */
  lemma LostFrameLeavesGap(j: Journal, payload: Payload, writes: seq<Write>)
    requires Sound(j.log) && SameOnDisk(j.log, j.diskTimeline, j.diskOutbox)
    ensures var lost, k := |j.log.outbox| + 1, Run(Unwritten(j, payload), writes);
      Numbered(Loaded(k.diskOutbox, |k.log.outbox|)) <==> Ack(lost) in writes || |k.log.outbox| == lost
  {
    var lost, k := |j.log.outbox| + 1, Run(Unwritten(j, payload), writes);
    LostFrameReadBack(j, payload, writes);
    var f := Loaded(k.diskOutbox, |k.log.outbox|);
    if Ack(lost) !in writes && |k.log.outbox| > lost {
      assert f[lost - 1].number == lost + 1;
    }
  }

  /** Frame 1 is written, 2 is lost, 3 is written: 1 and 3 are read back. */
  lemma GapExample(payload: Payload)
    requires payload.event.None?
    ensures var j := Written(Journal(Log([], []), [], map[]), Enqueue(payload));
      var k := Run(Unwritten(j, payload), [Enqueue(payload)]);
      !Numbered(Loaded(k.diskOutbox, |k.log.outbox|))
  {
    var j := Written(Journal(Log([], []), [], map[]), Enqueue(payload));
    FirstFrame(payload);
    RunOne(Unwritten(j, payload), Enqueue(payload));
    LostFrameLeavesGap(j, payload, [Enqueue(payload)]);
  }

  lemma FirstFrame(payload: Payload)
    requires payload.event.None?
    ensures var j := Written(Journal(Log([], []), [], map[]), Enqueue(payload));
      Sound(j.log) && SameOnDisk(j.log, j.diskTimeline, j.diskOutbox) && |j.log.outbox| == 1
  {
    NothingYet();
    EnqueueKeepsSame(Journal(Log([], []), [], map[]), payload);
  }

  lemma NothingYet()
    ensures Sound(Log([], [])) && SameOnDisk(Log([], []), [], map[])
  {
  }

  /** A frame whose write succeeds keeps memory and disk the same. */
  lemma {:induction false} EnqueueKeepsSame(j: Journal, payload: Payload)
    requires Sound(j.log) && SameOnDisk(j.log, j.diskTimeline, j.diskOutbox) && payload.event.None?
    ensures var k := Written(j, Enqueue(payload));
      Sound(k.log) && SameOnDisk(k.log, k.diskTimeline, k.diskOutbox) && |k.log.outbox| == |j.log.outbox| + 1
  {
    var f := FrameOf(j.log, payload);
    FrameKeepsSound(j.log, payload);
    WrittenFrameOnDisk(j.log, WithFrame(j.log, payload), f, j.diskOutbox, j.diskTimeline);
    assert WithFrame(j.log, payload).outbox[|j.log.outbox|] == f;
  }

  lemma RunOne(j: Journal, w: Write)
    ensures Run(j, [w]) == Written(j, w)
  {
    assert [w][..0] == [];
  }
}
