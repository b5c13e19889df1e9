/** Gap-fill after a reconnect (manage/workgroup/ws_hub.py:227-318, manage/workgroup/store.py:1380-1385).

    A node resumes from the number of the last frame it holds. Sending may fail at any frame;
    the node then keeps what it got and resumes again. One resume is one step. */
module Resume {
  import opened EventLog
  import opened Seqs
  import opened Shared

  /** homes gives the home node of every known member; entries are never changed or removed. */
  type Homes = map<nat, nat>

  function HomeOf(payload: Payload, homes: Homes): Option<nat> {
    if payload.home.Some? then payload.home
    else if payload.member.Some? && payload.member.value in homes then Some(homes[payload.member.value])
    else None
  }

  /** Frames without a home go to every node. */
  predicate BelongsTo(f: Frame, homes: Homes, node: nat) {
    HomeOf(f.payload, homes) in {None, Some(node)}
  }

  /** What a node gets of a frame. */
  datatype Sent = Sent(number: nat, payload: Payload)

  function SentOf(f: Frame): Sent {
    Sent(f.number, f.payload)
  }

  /** A node's frames, in order. */
  function Mine(frames: seq<Frame>, homes: Homes, node: nat): seq<Sent> {
    if |frames| == 0 then []
    else
      var n := |frames| - 1;
      Mine(frames[..n], homes, node) + if BelongsTo(frames[n], homes, node) then [SentOf(frames[n])] else []
  }

  function Last(sent: seq<Sent>): nat {
    if |sent| == 0 then 0 else sent[|sent| - 1].number
  }

  function After(outbox: seq<Frame>, cursor: int): seq<Frame> {
    if |outbox| == 0 then []
    else
      var n := |outbox| - 1;
      After(outbox[..n], cursor) + if outbox[n].number > cursor then [outbox[n]] else []
  }

  datatype Refusal = HelloRequired | CursorRegressed | CursorTooOld

  datatype Reply = Refused(why: Refusal) | Batch(sent: seq<Sent>, complete: bool)

  class NodeSession {
    var active: bool
    var lastAck: nat
    const node: nat
    const retentionFrom: nat

    constructor (node: nat, retentionFrom: nat)
      ensures active && lastAck == 0 && this.node == node && this.retentionFrom == retentionFrom
    {
      active, lastAck, this.node, this.retentionFrom := true, 0, node, retentionFrom;
    }

    /** sendsLeft is how many frames the socket still takes before it fails. */
    method ResumeOffer(outbox: seq<Frame>, homes: Homes, cursor: nat, sendsLeft: Option<nat>) returns (r: Reply)
      modifies this
      ensures r == Refused(HelloRequired) <==> !old(active)
      ensures r == Refused(CursorRegressed) <==> old(active) && cursor < old(lastAck)
      ensures r == Refused(CursorTooOld) <==> old(active) && old(lastAck) <= cursor && cursor + 1 < retentionFrom
      ensures r.Refused? ==> active == old(active) && lastAck == old(lastAck)
      ensures r.Batch? ==>
        var replay := Mine(After(outbox, cursor), homes, node);
        && lastAck == cursor
        && r.complete == active == (sendsLeft.None? || |replay| <= sendsLeft.value)
        && r.sent == if r.complete then replay else replay[..sendsLeft.value]
    {
      if !active {
        return Refused(HelloRequired);
      }
      if cursor < lastAck {
        return Refused(CursorRegressed);
      }
      if cursor + 1 < retentionFrom {
        return Refused(CursorTooOld);
      }
      var frames := Mine(After(outbox, cursor), homes, node);
      var sent: seq<Sent> := [];
      var ok := true;
      for i := 0 to |frames|
        invariant ok && sent == frames[..i]
        invariant sendsLeft.Some? ==> i <= sendsLeft.value
      {
        if sendsLeft == Some(i) {
          ok := false;
          break;
        }
        sent := sent + [frames[i]];
      }
      active := ok;
      lastAck := cursor;
      return Batch(sent, ok);
    }
  }

  // ------------------------------------------------------------------ exactness

  lemma {:induction false} MineConcat(a: seq<Frame>, b: seq<Frame>, homes: Homes, node: nat)
    ensures Mine(a + b, homes, node) == Mine(a, homes, node) + Mine(b, homes, node)
  {
    if |b| == 0 {
      EmptyRight(a);
    } else {
      var n := |b| - 1;
      MineConcat(a, b[..n], homes, node);
      assert (a + b)[..|a| + n] == a + b[..n];
      var last := if BelongsTo(b[n], homes, node) then [SentOf(b[n])] else [];
      Assoc(Mine(a, homes, node), Mine(b[..n], homes, node), last);
    }
  }

  /** Numbers rise from 1; a restart after a failed write may have left a gap. */
  ghost predicate InOrder(outbox: seq<Frame>) {
    (forall i :: 0 <= i < |outbox| ==> outbox[i].number >= 1) &&
    (forall i, j :: 0 <= i < j < |outbox| ==> outbox[i].number < outbox[j].number)
  }

  function UpTo(outbox: seq<Frame>, cursor: int): seq<Frame> {
    if |outbox| == 0 then []
    else
      var n := |outbox| - 1;
      UpTo(outbox[..n], cursor) + if outbox[n].number > cursor then [] else [outbox[n]]
  }

  predicate NoneAbove(outbox: seq<Frame>, cursor: nat) {
    forall i :: 0 <= i < |outbox| ==> outbox[i].number <= cursor
  }

  lemma {:induction false} SplitByNumber(outbox: seq<Frame>, cursor: nat)
    requires InOrder(outbox)
    ensures outbox == UpTo(outbox, cursor) + After(outbox, cursor)
  {
    if |outbox| > 0 {
      var n := |outbox| - 1;
      if outbox[n].number > cursor {
        var low := UpTo(outbox[..n], cursor);
        SplitByNumber(outbox[..n], cursor);
        EmptyRight(low);
        Assoc(low, After(outbox[..n], cursor), [outbox[n]]);
        TakeSnoc(outbox, n);
      } else {
        AllUpTo(outbox, cursor);
        EmptyRight(outbox);
      }
    }
  }

  lemma {:induction false} AllUpTo(outbox: seq<Frame>, cursor: nat)
    requires NoneAbove(outbox, cursor)
    ensures UpTo(outbox, cursor) == outbox && After(outbox, cursor) == []
  {
    if |outbox| > 0 {
      var n := |outbox| - 1;
      AllUpTo(outbox[..n], cursor);
      TakeSnoc(outbox, n);
      EmptyRight(After(outbox[..n], cursor));
    }
  }

  /** The frames of a node up to any cursor, then a complete replay from there, are all its
      frames, in order. */
  lemma ResumeIsExact(outbox: seq<Frame>, homes: Homes, node: nat, cursor: nat)
    requires InOrder(outbox)
    ensures Mine(UpTo(outbox, cursor), homes, node) + Mine(After(outbox, cursor), homes, node) == Mine(outbox, homes, node)
  {
    SplitByNumber(outbox, cursor);
    MineConcat(UpTo(outbox, cursor), After(outbox, cursor), homes, node);
  }

  /** What a node holds: all its frames up to the last one it got. */
  ghost predicate Holds(outbox: seq<Frame>, homes: Homes, node: nat, received: seq<Sent>) {
    received == Mine(UpTo(outbox, Last(received)), homes, node)
  }

  lemma {:induction false} MineMembers(frames: seq<Frame>, homes: Homes, node: nat, s: Sent)
    ensures s in Mine(frames, homes, node) <==> exists f :: f in frames && BelongsTo(f, homes, node) && SentOf(f) == s
  {
    if |frames| > 0 {
      var n := |frames| - 1;
      MineMembers(frames[..n], homes, node, s);
      assert frames == frames[..n] + [frames[n]];
    }
  }

  lemma {:induction false} SideMembers(outbox: seq<Frame>, cursor: nat, f: Frame)
    ensures f in UpTo(outbox, cursor) <==> f in outbox && f.number <= cursor
    ensures f in After(outbox, cursor) <==> f in outbox && f.number > cursor
  {
    if |outbox| > 0 {
      var n := |outbox| - 1;
      SideMembers(outbox[..n], cursor, f);
      assert outbox == outbox[..n] + [outbox[n]];
    }
  }

  /** The last of some of a node's frames has the number of one of them. */
  lemma LastIsNumber(frames: seq<Frame>, homes: Homes, node: nat, k: nat)
    requires k <= |Mine(frames, homes, node)|
    ensures k > 0 ==> exists f :: f in frames && f.number == Last(Mine(frames, homes, node)[..k])
  {
    if k > 0 {
      MineMembers(frames, homes, node, Mine(frames, homes, node)[k - 1]);
    }
  }

  lemma HoldsBehind(outbox: seq<Frame>, homes: Homes, node: nat, received: seq<Sent>)
    requires |outbox| > 0 && Last(received) < outbox[|outbox| - 1].number
    requires Holds(outbox[..|outbox| - 1], homes, node, received)
    ensures Holds(outbox, homes, node, received)
  {
    EmptyRight(UpTo(outbox[..|outbox| - 1], Last(received)));
  }

  lemma {:induction false} HoldsWhole(outbox: seq<Frame>, homes: Homes, node: nat)
    requires InOrder(outbox) && |outbox| > 0 && BelongsTo(outbox[|outbox| - 1], homes, node)
    ensures Holds(outbox, homes, node, Mine(outbox, homes, node))
  {
    AllUpTo(outbox, outbox[|outbox| - 1].number);
  }

  /** Any prefix of a node's frames is all its frames up to its own last one. */
  lemma {:induction false} PrefixHolds(outbox: seq<Frame>, homes: Homes, node: nat, k: nat)
    requires InOrder(outbox) && k <= |Mine(outbox, homes, node)|
    ensures Holds(outbox, homes, node, Mine(outbox, homes, node)[..k])
  {
    if |outbox| > 0 {
      var n, all := |outbox| - 1, Mine(outbox, homes, node);
      var before := Mine(outbox[..n], homes, node);
      if k <= |before| {
        PrefixHolds(outbox[..n], homes, node, k);
        LastIsNumber(outbox[..n], homes, node, k);
        assert all[..k] == before[..k];
        HoldsBehind(outbox, homes, node, before[..k]);
      } else {
        assert all[..k] == all;
        HoldsWhole(outbox, homes, node);
      }
    }
  }

  /** Resuming, interrupted anywhere, keeps what the node holds exact; a complete resume
      brings it everything. No frame is lost, repeated or reordered over any number of
      interrupted resumes, gaps in the numbers or not. */
  lemma {:induction false} ResumeKeepsExact(outbox: seq<Frame>, homes: Homes, node: nat, received: seq<Sent>, k: nat)
    requires InOrder(outbox) && Holds(outbox, homes, node, received)
    requires k <= |Mine(After(outbox, Last(received)), homes, node)|
    ensures var replay := Mine(After(outbox, Last(received)), homes, node);
      Holds(outbox, homes, node, received + replay[..k]) &&
      received + replay == Mine(outbox, homes, node)
  {
    var replay := Mine(After(outbox, Last(received)), homes, node);
    ResumeIsExact(outbox, homes, node, Last(received));
    var all := Mine(outbox, homes, node);
    assert all[..|received| + k] == received + replay[..k];
    PrefixHolds(outbox, homes, node, |received| + k);
  }

  /** A frame's audience is fixed exactly when the frame names its home, names no member, or
      names a member that is already known. */
  lemma AudienceIsFixed(f: Frame, homes: Homes)
    ensures (forall later: Homes, node: nat :: ExtendsHomes(homes, later) ==>
               (BelongsTo(f, later, node) <==> BelongsTo(f, homes, node)))
            <==> f.payload.home.Some? || f.payload.member.None? || f.payload.member.value in homes
  {
    if f.payload.home.None? && f.payload.member.Some? && f.payload.member.value !in homes {
      var later := homes[f.payload.member.value := 1];
      assert ExtendsHomes(homes, later);
      assert BelongsTo(f, homes, 0) && !BelongsTo(f, later, 0);
    }
  }

  /** Who is sent a frame behind the cursor: the node it names as its home; if it names none,
      the home of its member; and every node if it names no member with a known home. */
  lemma ReplayedTo(outbox: seq<Frame>, homes: Homes, node: nat, cursor: nat, f: Frame)
    requires f in outbox && f.number > cursor
    requires forall g :: g in outbox && g.number == f.number ==> g == f
    ensures var sent, p := Sent(f.number, f.payload) in Mine(After(outbox, cursor), homes, node), f.payload;
      && (p.home.Some? ==> (sent <==> node == p.home.value))
      && (p.home.None? && p.member.Some? && p.member.value in homes ==> (sent <==> node == homes[p.member.value]))
      && (p.home.None? && (p.member.Some? ==> p.member.value !in homes) ==> sent)
  {
    SideMembers(outbox, cursor, f);
    MineMembers(After(outbox, cursor), homes, node, SentOf(f));
    forall g | g in After(outbox, cursor) && SentOf(g) == SentOf(f) ensures g == f {
      SideMembers(outbox, cursor, g);
    }
    assert SentOf(f) == Sent(f.number, f.payload);
  }

  predicate ExtendsHomes(homes: Homes, later: Homes) {
    forall m :: m in homes ==> m in later && later[m] == homes[m]
  }

  predicate Addressed(frames: seq<Frame>, homes: Homes) {
    forall i :: 0 <= i < |frames| ==>
      frames[i].payload.home.Some? || frames[i].payload.member.None? || frames[i].payload.member.value in homes
  }

  /** Acks, new members and new frames change nothing a node already holds. */
  lemma {:induction false} HoldsStays(outbox: seq<Frame>, homes: Homes, later: Homes, grown: seq<Frame>, node: nat, received: seq<Sent>)
    requires Holds(outbox, homes, node, received) && InOrder(grown)
    requires Addressed(outbox, homes) && ExtendsHomes(homes, later)
    requires |outbox| <= |grown| && forall i :: 0 <= i < |outbox| ==>
      grown[i].payload == outbox[i].payload && grown[i].number == outbox[i].number
    ensures Holds(grown, later, node, received)
  {
    var n, last := |outbox|, Last(received);
    UpToAgrees(outbox, grown[..n], homes, later, node, last);
    if received != [] {
      LastIsNumber(UpTo(outbox, last), homes, node, |received|);
      assert received[..|received|] == received;
      var f :| f in UpTo(outbox, last) && f.number == last;
      SideMembers(outbox, last, f);
      var i :| 0 <= i < n && outbox[i] == f;
      assert forall k :: n <= k < |grown| ==> grown[i].number < grown[k].number;
    }
    NoneUpTo(grown, n, last);
  }

  /** Frames above the cursor add nothing up to it. */
  lemma {:induction false} NoneUpTo(outbox: seq<Frame>, n: nat, cursor: nat)
    requires n <= |outbox| && forall k :: n <= k < |outbox| ==> outbox[k].number > cursor
    ensures UpTo(outbox, cursor) == UpTo(outbox[..n], cursor)
  {
    if n < |outbox| {
      NoneUpTo(outbox[..|outbox| - 1], n, cursor);
      assert outbox[..|outbox| - 1][..n] == outbox[..n];
    } else {
      assert outbox[..n] == outbox;
    }
  }

  lemma {:induction false} UpToAgrees(a: seq<Frame>, b: seq<Frame>, homes: Homes, later: Homes, node: nat, cursor: nat)
    requires |a| == |b| && Addressed(a, homes) && ExtendsHomes(homes, later)
    requires forall i :: 0 <= i < |a| ==> b[i].payload == a[i].payload && b[i].number == a[i].number
    ensures Mine(UpTo(a, cursor), homes, node) == Mine(UpTo(b, cursor), later, node)
  {
    if |a| > 0 {
      var n := |a| - 1;
      UpToAgrees(a[..n], b[..n], homes, later, node, cursor);
      if a[n].number <= cursor {
        MineConcat(UpTo(a[..n], cursor), [a[n]], homes, node);
        MineConcat(UpTo(b[..n], cursor), [b[n]], later, node);
        OneMine(a[n], homes, node);
        OneMine(b[n], later, node);
      } else {
        EmptyRight(UpTo(a[..n], cursor));
        EmptyRight(UpTo(b[..n], cursor));
      }
    }
  }

  lemma OneMine(f: Frame, homes: Homes, node: nat)
    ensures Mine([f], homes, node) == if BelongsTo(f, homes, node) then [SentOf(f)] else []
  {
    assert [f][..0] == [];
  }

  /** A frame for member 5 before member 5 is known: node 0 gets it, and a replay after the
      member joined node 1 leaves it out. */
  lemma UnknownMemberExample()
    ensures var f := Frame(1, Payload(None, None, Some(5)), false);
      ExtendsHomes(map[], map[5 := 1]) && BelongsTo(f, map[], 0) && !BelongsTo(f, map[5 := 1], 0)
  {
  }

  // ------------------------------------------------------- across a restart

  /** New frames behind an outbox. */
  function Extended(outbox: seq<Frame>, payloads: seq<Payload>): seq<Frame> {
    if |payloads| == 0 then outbox
    else
      var before := Extended(outbox, payloads[..|payloads| - 1]);
      before + [Frame(LastSeq(before) + 1, payloads[|payloads| - 1], false)]
  }

  lemma {:induction false} ExtendedFrames(outbox: seq<Frame>, payloads: seq<Payload>)
    requires InOrder(outbox)
    ensures var all := Extended(outbox, payloads);
      && |all| == |outbox| + |payloads| && all[..|outbox|] == outbox
      && (forall k :: |outbox| <= k < |all| ==>
            all[k] == Frame(LastSeq(outbox) + 1 + k - |outbox|, payloads[k - |outbox|], false))
  {
    var n := |payloads|;
    if n > 0 {
      ExtendedFrames(outbox, payloads[..n - 1]);
    }
  }

  /** A frame of the node is in the outbox and did not reach it. */
  ghost predicate Misses(outbox: seq<Frame>, homes: Homes, node: nat, got: seq<Sent>) {
    exists f :: f in outbox && BelongsTo(f, homes, node) && SentOf(f) !in got
  }

  /** Up to the cursor a node has the frames kept from the old process, and of the new ones
      what it held already; beyond the cursor everything. */
  lemma {:induction false} Reaches(memory: seq<Frame>, r: seq<Frame>, homes: Homes, node: nat, received: seq<Sent>, f: Frame)
    requires Holds(memory, homes, node, received) && f in r && BelongsTo(f, homes, node)
    ensures f.number > Last(received) <==> SentOf(f) in Mine(After(r, Last(received)), homes, node)
    ensures f.number <= Last(received) && f in memory ==> SentOf(f) in received
  {
    var c := Last(received);
    SideMembers(r, c, f);
    SideMembers(memory, c, f);
    MineMembers(After(r, c), homes, node, SentOf(f));
    MineMembers(UpTo(memory, c), homes, node, SentOf(f));
    forall g | g in After(r, c) ensures g.number > c {
      SideMembers(r, c, g);
    }
  }

  predicate Collides(f: Frame, homes: Homes, node: nat, received: seq<Sent>) {
    f.number <= Last(received) && BelongsTo(f, homes, node) && SentOf(f) !in received
  }

  /** A node holds frames of the old process and resumes with the new one, which reads back
      kept and has enqueued payloads since. What it can miss is a new frame whose number is
      not above its cursor. */
  lemma {:induction false} ResumeMisses(memory: seq<Frame>, kept: seq<Frame>, payloads: seq<Payload>,
                                        homes: Homes, node: nat, received: seq<Sent>)
    requires InOrder(kept) && (forall f :: f in kept ==> f in memory)
    requires Holds(memory, homes, node, received)
    ensures var r := Extended(kept, payloads);
      Misses(r, homes, node, received + Mine(After(r, Last(received)), homes, node)) <==>
      exists k :: |kept| <= k < |r| && Collides(r[k], homes, node, received)
  {
    var r, c := Extended(kept, payloads), Last(received);
    var got := received + Mine(After(r, c), homes, node);
    ExtendedFrames(kept, payloads);
    forall i | 0 <= i < |kept| ensures r[i] in kept {
      assert r[..|kept|][i] == r[i];
    }
    if Misses(r, homes, node, got) {
      var f :| f in r && BelongsTo(f, homes, node) && SentOf(f) !in got;
      Reaches(memory, r, homes, node, received, f);
      var k :| 0 <= k < |r| && r[k] == f;
      assert Collides(r[k], homes, node, received);
    }
    forall k | |kept| <= k < |r| && Collides(r[k], homes, node, received) ensures Misses(r, homes, node, got) {
      Reaches(memory, r, homes, node, received, r[k]);
      assert r[k] in r;
    }
  }

  /** What a node holds are frames of the outbox. */
  lemma {:induction false} ReceivedFrom(outbox: seq<Frame>, homes: Homes, node: nat, received: seq<Sent>, s: Sent)
    requires Numbered(outbox) && Holds(outbox, homes, node, received) && s in received
    ensures 1 <= s.number <= |outbox| && s == SentOf(outbox[s.number - 1])
  {
    MineMembers(UpTo(outbox, Last(received)), homes, node, s);
    var f :| f in UpTo(outbox, Last(received)) && SentOf(f) == s;
    SideMembers(outbox, Last(received), f);
    var i :| 0 <= i < |outbox| && outbox[i] == f;
    assert s == SentOf(f) == Sent(i + 1, f.payload);
  }

  /** The frames enqueued after the restart get numbers above all old ones, but for the first
      if the lost frame was the last and was not acked. */
  lemma {:induction false} NewNumbers(memory: seq<Frame>, lost: nat, repaired: bool, payloads: seq<Payload>)
    requires Numbered(memory) && 1 <= lost <= |memory|
    ensures var kept := ReadBack(memory, lost, repaired);
      var r, reused := Extended(kept, payloads), !repaired && lost == |memory|;
      && InOrder(kept) && (forall f :: f in kept ==> f in memory)
      && |r| == |kept| + |payloads|
      && (forall k :: |kept| <= k < |r| ==>
            r[k] == Frame((if reused then lost else |memory| + 1) + k - |kept|, payloads[k - |kept|], false))
  {
    KeptFrames(memory, lost, repaired);
    ExtendedFrames(ReadBack(memory, lost, repaired), payloads);
  }

  lemma {:induction false} KeptFrames(memory: seq<Frame>, lost: nat, repaired: bool)
    requires Numbered(memory) && 1 <= lost <= |memory|
    ensures var kept := ReadBack(memory, lost, repaired);
      && InOrder(kept) && (forall f :: f in kept ==> f in memory)
      && LastSeq(kept) == if !repaired && lost == |memory| then lost - 1 else |memory|
  {
  }

  /** A frame is lost by a failed write, other writes follow, the process restarts and new
      frames are enqueued. A node that held some of the old frames and resumes misses one
      exactly when the lost frame was the last and was not acked, the node holds it, and
      another frame of the node has taken its number. */
  lemma {:induction false} RestartMisses(j: Journal, payload: Payload, writes: seq<Write>, payloads: seq<Payload>,
                                         homes: Homes, node: nat, received: seq<Sent>)
    requires Sound(j.log) && SameOnDisk(j.log, j.diskTimeline, j.diskOutbox)
    requires Holds(Run(Unwritten(j, payload), writes).log.outbox, homes, node, received)
    ensures var lost, k := |j.log.outbox| + 1, Run(Unwritten(j, payload), writes);
      var r := Extended(Loaded(k.diskOutbox, |k.log.outbox|), payloads);
      Misses(r, homes, node, received + Mine(After(r, Last(received)), homes, node)) <==>
        && Ack(lost) !in writes && |k.log.outbox| == lost && Last(received) == lost
        && |payloads| > 0 && payloads[0] != payload && BelongsTo(Frame(lost, payloads[0], false), homes, node)
  {
    var lost, k := |j.log.outbox| + 1, Run(Unwritten(j, payload), writes);
    var memory, repaired := k.log.outbox, Ack(lost) in writes;
    var kept := ReadBack(memory, lost, repaired);
    LostFrameReadBack(j, payload, writes);
    NewNumbers(memory, lost, repaired, payloads);
    ResumeMisses(memory, kept, payloads, homes, node, received);
    CollidesExactly(memory, lost, repaired, payloads, homes, node, received);
  }

  lemma {:induction false} CollidesExactly(memory: seq<Frame>, lost: nat, repaired: bool, payloads: seq<Payload>,
                                           homes: Homes, node: nat, received: seq<Sent>)
    requires Numbered(memory) && 1 <= lost <= |memory| && Holds(memory, homes, node, received)
    ensures var kept := ReadBack(memory, lost, repaired);
      var r := Extended(kept, payloads);
      (exists k :: |kept| <= k < |r| && Collides(r[k], homes, node, received)) <==>
        && !repaired && |memory| == lost && Last(received) == lost
        && |payloads| > 0 && payloads[0] != memory[lost - 1].payload && BelongsTo(Frame(lost, payloads[0], false), homes, node)
  {
    var kept, last := ReadBack(memory, lost, repaired), Last(received);
    var r := Extended(kept, payloads);
    NewNumbers(memory, lost, repaired, payloads);
    forall s | s in received ensures 1 <= s.number <= |memory| && s == SentOf(memory[s.number - 1]) {
      ReceivedFrom(memory, homes, node, received, s);
    }
    assert received != [] ==> received[|received| - 1] in received;
    forall k | |kept| <= k < |r| && r[k].number <= last
      ensures !repaired && |memory| == lost == last && k == |kept| && r[k] == Frame(lost, payloads[0], false) {
    }
    if !repaired && |memory| == lost == last && |payloads| > 0 {
      assert r[|kept|] == Frame(lost, payloads[0], false);
      assert Sent(lost, payloads[0]) in received <==> payloads[0] == memory[lost - 1].payload;
    }
  }

  /** On any log: a frame is lost, a node of its replays everything from memory, and after the
      restart the number goes to another of its frames. The node never gets that one, though
      no number is left out. */
  lemma {:induction false} NumberReused(j: Journal, payload: Payload, other: Payload, homes: Homes, node: nat)
    requires Sound(j.log) && SameOnDisk(j.log, j.diskTimeline, j.diskOutbox) && payload != other
    requires BelongsTo(Frame(|j.log.outbox| + 1, payload, false), homes, node)
    requires BelongsTo(Frame(|j.log.outbox| + 1, other, false), homes, node)
    ensures var k := Unwritten(j, payload);
      var received := Mine(k.log.outbox, homes, node);
      var r := Extended(Loaded(k.diskOutbox, |k.log.outbox|), [other]);
      Numbered(r) && Misses(r, homes, node, received + Mine(After(r, Last(received)), homes, node))
  {
    var k, lost := Unwritten(j, payload), |j.log.outbox| + 1;
    assert k.log.outbox == j.log.outbox + [Frame(lost, payload, false)] && Run(k, []) == k;
    HoldsAll(j.log.outbox, Frame(lost, payload, false), homes, node);
    LostFrameReadBack(j, payload, []);
    NumbersRejoin(k.log.outbox, other);
    RestartMisses(j, payload, [], [other], homes, node, Mine(k.log.outbox, homes, node));
  }

  lemma {:induction false} HoldsAll(outbox: seq<Frame>, f: Frame, homes: Homes, node: nat)
    requires Numbered(outbox + [f]) && BelongsTo(f, homes, node)
    ensures var received := Mine(outbox + [f], homes, node);
      Holds(outbox + [f], homes, node, received) && Last(received) == f.number
  {
    HoldsWhole(outbox + [f], homes, node);
  }

  lemma {:induction false} NumbersRejoin(memory: seq<Frame>, other: Payload)
    requires Numbered(memory) && |memory| > 0
    ensures Numbered(Extended(ReadBack(memory, |memory|, false), [other]))
  {
    NewNumbers(memory, |memory|, false, [other]);
    ExtendedFrames(ReadBack(memory, |memory|, false), [other]);
  }
}
