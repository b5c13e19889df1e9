/** Generation fencing of node sessions (manage/workgroup/ws_hub.py:76-225). */
module Fencing {

  /** What happened to node sessions, oldest first. welcomed is false if the new socket
      already failed on the welcome frame. */
  datatype Happening =
    | Hello(node: nat, welcomed: bool)
    | Disconnect(node: nat, generation: int)
    | SendFailed(node: nat, generation: int)

  /** How many generations a node was ever issued, which is also the newest one. */
  function Issued(log: seq<Happening>, node: nat): nat {
    if |log| == 0 then 0
    else
      var e := log[|log| - 1];
      Issued(log[..|log| - 1], node) + if e.Hello? && e.node == node then 1 else 0
  }

  /** Whether the newest generation is still connected: neither closed nor failed since its
      hello. Reports about older generations do not count. */
  predicate Connected(log: seq<Happening>, node: nat) {
    |log| > 0 &&
    var e, before := log[|log| - 1], log[..|log| - 1];
    if e.node != node then Connected(before, node)
    else match e
      case Hello(_, welcomed) => welcomed
      case Disconnect(_, g) => Connected(before, node) && g != Issued(before, node)
      case SendFailed(_, g) => Connected(before, node) && g != Issued(before, node)
  }

  lemma {:induction false} ConnectedWasIssued(log: seq<Happening>, node: nat)
    requires Connected(log, node)
    ensures Issued(log, node) > 0
  {
    if log[|log| - 1].node != node || !log[|log| - 1].Hello? {
      ConnectedWasIssued(log[..|log| - 1], node);
    }
  }

  /** A late cleanup by an older generation changes no node's state. */
  lemma LateCleanupChangesNothing(log: seq<Happening>, e: Happening, node: nat)
    requires (e.Disconnect? || e.SendFailed?) && e.generation != Issued(log, e.node)
    ensures Issued(log + [e], node) == Issued(log, node)
    ensures Connected(log + [e], node) == Connected(log, node)
  {
    assert (log + [e])[..|log|] == log;
  }

  lemma HelloEffect(log: seq<Happening>, node: nat, welcomed: bool)
    ensures forall n {:trigger Issued(log + [Hello(node, welcomed)], n)} ::
      Issued(log + [Hello(node, welcomed)], n) == Issued(log, n) + if n == node then 1 else 0
    ensures forall n {:trigger Connected(log + [Hello(node, welcomed)], n)} ::
      Connected(log + [Hello(node, welcomed)], n) == if n == node then welcomed else Connected(log, n)
  {
    assert (log + [Hello(node, welcomed)])[..|log|] == log;
  }

  lemma CleanupEffect(log: seq<Happening>, e: Happening)
    requires e.Disconnect? || e.SendFailed?
    ensures forall n {:trigger Issued(log + [e], n)} :: Issued(log + [e], n) == Issued(log, n)
    ensures forall n {:trigger Connected(log + [e], n)} ::
      Connected(log + [e], n) == (Connected(log, n) && (n == e.node ==> e.generation != Issued(log, n)))
  {
    assert (log + [e])[..|log|] == log;
  }

  class NodeConnection {
    const node: nat
    const generation: int
    var active: bool
    var fenced: bool

    constructor (node: nat, generation: int, active: bool)
      ensures this.node == node && this.generation == generation && this.active == active && !fenced
    {
      this.node, this.generation := node, generation;
      this.active, fenced := active, false;
    }
  }

  class WSHub {
    var conns: map<nat, NodeConnection>
    var maxGeneration: map<nat, int>
    ghost var log: seq<Happening>
    ghost var issued: set<NodeConnection>

    ghost predicate Valid()
      reads this, issued
    {
      && (forall c :: c in issued ==> Known(c))
      && (forall n :: n in conns ==> NodeOk(n))
      && (forall n :: n !in conns ==> n !in maxGeneration && Issued(log, n) == 0)
    }

    /** The hub's own connection is the only one with the newest generation. */
    ghost predicate Known(c: NodeConnection)
      reads this
    {
      c.node in conns && c.generation <= Issued(log, c.node) &&
      (c.generation == Issued(log, c.node) ==> conns[c.node] == c)
    }

    ghost predicate NodeOk(n: nat)
      requires n in conns
      reads this, issued
    {
      && conns[n] in issued && conns[n].node == n
      && conns[n].generation == Issued(log, n)
      && n in maxGeneration && maxGeneration[n] == Issued(log, n)
      && conns[n].active == Connected(log, n)
    }

    constructor ()
      ensures Valid() && log == [] && issued == {}
    {
      conns, maxGeneration, log, issued := map[], map[], [], {};
    }

    /** A new session: one more generation, the old one fenced. */
    method SessionHello(node: nat, welcomeFails: bool) returns (generation: int)
      requires Valid()
      modifies this, issued
      ensures Valid() && fresh(issued - old(issued)) && old(issued) <= issued
      ensures log == old(log) + [Hello(node, !welcomeFails)]
      ensures generation == Issued(old(log), node) + 1
    {
      FenceOld(node);
      generation := (if node in maxGeneration then maxGeneration[node] else 0) + 1;
      var conn := new NodeConnection(node, generation, !welcomeFails);
      Install(conn);
    }

    /** The old session of the node, if any, may not send any more. */
    method FenceOld(node: nat)
      requires Valid()
      modifies issued
      ensures forall n :: n in conns && n != node ==> NodeOk(n)
      ensures node in conns ==> maxGeneration[node] == Issued(log, node)
    {
      if node in conns {
        assert NodeOk(node);
        conns[node].active := false;
        conns[node].fenced := true;
      }
      forall n | n in conns && n != node ensures NodeOk(n) {
        assert old(NodeOk(n));
      }
    }

    method Install(conn: NodeConnection)
      requires forall c :: c in issued ==> Known(c)
      requires forall n :: n in conns && n != conn.node ==> NodeOk(n)
      requires forall n :: n !in conns ==> n !in maxGeneration && Issued(log, n) == 0
      requires conn !in issued && conn.generation == Issued(log, conn.node) + 1
      modifies this
      ensures Valid() && issued == old(issued) + {conn}
      ensures log == old(log) + [Hello(conn.node, conn.active)]
    {
      HelloEffect(log, conn.node, conn.active);
      maxGeneration := maxGeneration[conn.node := conn.generation];
      conns := conns[conn.node := conn];
      issued := issued + {conn};
      log := log + [Hello(conn.node, conn.active)];
      assert NodeOk(conn.node);
      forall n | n in conns && n != conn.node ensures NodeOk(n) {
        assert old(NodeOk(n));
      }
      forall c | c in issued ensures Known(c) {
        assert c != conn ==> old(Known(c));
      }
    }

    /** The gate of every inbound frame: only the newest generation ever issued, and only
        while it is connected. */
    method AssertGeneration(node: nat, generation: int) returns (ok: bool)
      requires Valid()
      ensures ok <==> Connected(log, node) && generation == Issued(log, node)
    {
      if node in conns {
        assert NodeOk(node);
      } else if Connected(log, node) {
        ConnectedWasIssued(log, node);
      }
      ok := node in conns && conns[node].active && generation == conns[node].generation;
    }

    method CloseSession(node: nat, generation: int) returns (closed: bool)
      requires Valid()
      modifies this`log, issued
      ensures Valid() && issued == old(issued)
      ensures log == old(log) + [Disconnect(node, generation)]
      ensures closed <==> node in conns && generation == Issued(old(log), node)
    {
      ghost var e := Disconnect(node, generation);
      CleanupEffect(log, e);
      closed := node in conns && conns[node].generation == generation;
      if closed {
        conns[node].active := false;
      } else {
        DisconnectedUnknown(log, node);
      }
      log := log + [e];
      forall n | n in conns ensures NodeOk(n) {
        assert old(NodeOk(n));
      }
      forall c | c in issued ensures Known(c) {
        assert old(Known(c));
      }
    }

    /** Told by the connection that failed, which may be an old one. */
    method MarkSendFailed(conn: NodeConnection)
      requires Valid() && conn in issued
      modifies this`log, issued
      ensures Valid() && issued == old(issued)
      ensures log == old(log) + [SendFailed(conn.node, conn.generation)]
    {
      ghost var e := SendFailed(conn.node, conn.generation);
      CleanupEffect(log, e);
      assert Known(conn);
      assert NodeOk(conn.node);
      if conn.node in conns && conns[conn.node] == conn {
        conn.active := false;
        conn.fenced := true;
      }
      log := log + [e];
      forall n | n in conns ensures NodeOk(n) {
        assert old(NodeOk(n));
      }
      forall c | c in issued ensures Known(c) {
        assert old(Known(c));
      }
    }
  }

  lemma DisconnectedUnknown(log: seq<Happening>, node: nat)
    ensures Issued(log, node) == 0 ==> !Connected(log, node)
  {
    if Connected(log, node) {
      ConnectedWasIssued(log, node);
    }
  }
}
