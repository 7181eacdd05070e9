/**
 The connections of a transport in memory (src/transport.h): connection records, each with a node
 that is on one of three linked lists. `Is` compares them with a value of Pool.dfy; every critical
 section of src/transport.c changes that value exactly as the function named after it says.
 */
module Transport {
  import opened Sequences
  import opened Pool
  import opened DList
  import P = Pool

  class TpConn {
    ghost const id: nat
    var node: Node?<TpConn?>
    var status: Status
    var sendCount: int
    var noopCount: int
    var endFlag: bool

    /** `calloc`, then `newConn` marks the connection busy. */
    constructor (ghost id: nat)
      ensures this.id == id && node == null
      ensures status == Busy && sendCount == 0 && noopCount == 0 && !endFlag
    {
      this.id := id;
      node := null;
      status := Busy;
      sendCount := 0;
      noopCount := 0;
      endFlag := false;
    }
  }

  /** Node `n` and connection `id` point at each other. */
  ghost predicate Tied(n: Node<TpConn?>, id: nat, conns: seq<TpConn>)
    reads n`data, conns`node
  {
    id < |conns| && n.data == conns[id] && conns[id].node == n
  }

  /** List `l` spells out the connections `ids`. */
  ghost predicate Spells(l: DList<TpConn?>, ids: seq<nat>, conns: seq<TpConn>)
    reads l`head, l`tail, l`count, l`nodes, l.nodes`data, l.nodes`prev, l.nodes`next, conns`node
  {
    && l.Valid()
    && |ids| == |l.nodes|
    && (forall k :: 0 <= k < |ids| ==> Tied(l.nodes[k], ids[k], conns))
  }

  /** Lists without a common connection have no common node. */
  lemma Apart(a: DList<TpConn?>, aIds: seq<nat>, b: DList<TpConn?>, bIds: seq<nat>, conns: seq<TpConn>)
    requires Spells(a, aIds, conns) && Spells(b, bIds, conns)
    requires forall k :: 0 <= k < |conns| ==> conns[k].id == k
    requires forall x :: x in aIds ==> x !in bIds
    ensures forall j :: 0 <= j < |b.nodes| ==> b.nodes[j] !in a.nodes
    ensures forall j :: 0 <= j < |a.nodes| ==> a.nodes[j] !in b.nodes
  {
    forall i, j | 0 <= i < |a.nodes| && 0 <= j < |b.nodes|
      ensures a.nodes[i] != b.nodes[j]
    {
      assert Tied(a.nodes[i], aIds[i], conns) && Tied(b.nodes[j], bIds[j], conns);
      assert aIds[i] in aIds && bIds[j] in bIds;
    }
  }

  /** No connection is on two of the lists. */
  ghost predicate Disjoint(a: seq<nat>, b: seq<nat>) {
    forall x :: x in a ==> x !in b
  }

  /** A node moves from list `a` to the end of list `b`; the third list `c` looks on. */
  method MoveNode(a: DList<TpConn?>, ghost aIds: seq<nat>, b: DList<TpConn?>, ghost bIds: seq<nat>,
                  ghost c: DList<TpConn?>, ghost cIds: seq<nat>,
                  node: Node<TpConn?>, ghost k: nat, ghost conns: seq<TpConn>)
    requires a != b && a != c && b != c
    requires Spells(a, aIds, conns) && Spells(b, bIds, conns) && Spells(c, cIds, conns)
    requires k < |a.nodes| && a.nodes[k] == node
    requires forall j :: 0 <= j < |b.nodes| ==> b.nodes[j] !in a.nodes
    requires forall j :: 0 <= j < |c.nodes| ==> c.nodes[j] !in a.nodes && c.nodes[j] !in b.nodes
    modifies a, b, a.nodes, b.nodes
    ensures Spells(a, aIds[..k] + aIds[k + 1..], conns)
    ensures Spells(b, bIds + [aIds[k]], conns)
    ensures Spells(c, cIds, conns)
    ensures b.nodes == old(b.nodes) + [node]
  {
    ghost var l := MvNode(a, node, b);
    assert l == k;
    ghost var ids := aIds[..k] + aIds[k + 1..];
    forall j | 0 <= j < |ids|
      ensures Tied(a.nodes[j], ids[j], conns)
    {
      assert old(Tied(a.nodes[if j < k then j else j + 1], ids[j], conns));
    }
    forall j | 0 <= j < |bIds| + 1
      ensures Tied(b.nodes[j], (bIds + [aIds[k]])[j], conns)
    {
      assert old(if j < |bIds| then Tied(b.nodes[j], bIds[j], conns) else Tied(a.nodes[k], aIds[k], conns));
    }
    forall j | 0 <= j < |cIds|
      ensures Tied(c.nodes[j], cIds[j], conns)
    {
      assert old(Tied(c.nodes[j], cIds[j], conns));
    }
  }

  /** Where a connection's node stands on the list that spells it. */
  lemma Locate(a: DList<TpConn?>, aIds: seq<nat>, conn: TpConn, conns: seq<TpConn>) returns (k: nat)
    requires Spells(a, aIds, conns) && NoDup(aIds)
    requires conn.id in aIds && conn.id < |conns| && conn == conns[conn.id]
    ensures k < |a.nodes| == |aIds| && a.nodes[k] == conn.node && aIds[k] == conn.id
    ensures Without(aIds, conn.id) == aIds[..k] + aIds[k + 1..]
  {
    k :| 0 <= k < |aIds| && aIds[k] == conn.id;
    assert Tied(a.nodes[k], aIds[k], conns);
    WithoutAt(aIds, k);
  }

  /** The records of a view are those of the connections, and no two connections are the same. */
  ghost predicate Recorded(conns: seq<TpConn>, recs: seq<Conn>)
    reads conns`status, conns`sendCount, conns`noopCount, conns`endFlag
  {
    && |recs| == |conns|
    && (forall k :: 0 <= k < |conns| ==> conns[k].id == k)
    && (forall k :: 0 <= k < |conns| ==>
          recs[k] == Conn(conns[k].status, conns[k].sendCount, conns[k].noopCount, conns[k].endFlag))
  }

  /** The node of a connection moves from list `a` to the end of list `b`; the third list `c` looks on. */
  method Shift(a: DList<TpConn?>, ghost aIds: seq<nat>, b: DList<TpConn?>, ghost bIds: seq<nat>,
               ghost c: DList<TpConn?>, ghost cIds: seq<nat>, conn: TpConn, ghost conns: seq<TpConn>)
    requires a != b && a != c && b != c
    requires Spells(a, aIds, conns) && Spells(b, bIds, conns) && Spells(c, cIds, conns)
    requires Disjoint(aIds, bIds) && Disjoint(aIds, cIds) && Disjoint(bIds, cIds)
    requires forall k :: 0 <= k < |conns| ==> conns[k].id == k
    requires NoDup(aIds) && conn.id in aIds && conn.id < |conns| && conn == conns[conn.id] && conn.node != null
    modifies a, b, a.nodes, b.nodes
    ensures Spells(a, Without(aIds, conn.id), conns)
    ensures Spells(b, bIds + [conn.id], conns)
    ensures Spells(c, cIds, conns)
    ensures conn.node in old(a.nodes) && b.nodes == old(b.nodes) + [conn.node]
  {
    ghost var k := Locate(a, aIds, conn, conns);
    Apart(a, aIds, b, bIds, conns);
    Apart(a, aIds, c, cIds, conns);
    Apart(b, bIds, c, cIds, conns);
    MoveNode(a, aIds, b, bIds, c, cIds, conn.node, k, conns);
  }

  /** Changes the status and nothing else. */
  method Mark(conn: TpConn, to: Status, ghost conns: seq<TpConn>, ghost recs: seq<Conn>)
    requires Recorded(conns, recs) && conn.id < |conns| && conn == conns[conn.id]
    modifies conn`status
    ensures Recorded(conns, recs[conn.id := recs[conn.id].(status := to)])
  {
    conn.status := to;
  }

  /** Status and node of a connection change together; the third list `c` looks on. */
  method Migrate(a: DList<TpConn?>, ghost aIds: seq<nat>, b: DList<TpConn?>, ghost bIds: seq<nat>,
                 ghost c: DList<TpConn?>, ghost cIds: seq<nat>, conn: TpConn, to: Status,
                 ghost conns: seq<TpConn>, ghost recs: seq<Conn>)
    requires a != b && a != c && b != c
    requires Spells(a, aIds, conns) && Spells(b, bIds, conns) && Spells(c, cIds, conns)
    requires Disjoint(aIds, bIds) && Disjoint(aIds, cIds) && Disjoint(bIds, cIds)
    requires Recorded(conns, recs)
    requires NoDup(aIds) && conn.id in aIds && conn.id < |conns| && conn == conns[conn.id] && conn.node != null
    modifies conn`status, a, b, a.nodes, b.nodes
    ensures Spells(a, Without(aIds, conn.id), conns)
    ensures Spells(b, bIds + [conn.id], conns)
    ensures Spells(c, cIds, conns)
    ensures conn.node in old(a.nodes) && b.nodes == old(b.nodes) + [conn.node]
    ensures Recorded(conns, recs[conn.id := recs[conn.id].(status := to)])
  {
    Mark(conn, to, conns, recs);
    Shift(a, aIds, b, bIds, c, cIds, conn, conns);
  }

  /** No list names a connection twice, and no connection is on two lists. */
  ghost predicate Tidy(p: Pool) {
    match p
    case Pool(busy, idle, noop, _, _, _, _) =>
      && NoDup(busy) && NoDup(idle) && NoDup(noop)
      && Disjoint(busy, idle) && Disjoint(busy, noop) && Disjoint(idle, noop)
      && Disjoint(idle, busy) && Disjoint(noop, busy) && Disjoint(noop, idle)
  }

  lemma SoundIsTidy(p: Pool)
    requires Sound(p)
    ensures Tidy(p)
  {
  }

  lemma FlagRecords(p: Pool, mid: seq<Conn>, out: seq<Conn>)
    requires |p.conns| == |mid| == |out|
    requires forall c :: 0 <= c < |mid| ==>
               mid[c] == if c in ListOf(p, Noop) then p.conns[c].(endFlag := true) else p.conns[c]
    requires forall c :: 0 <= c < |mid| ==> out[c] == if c in ListOf(p, Idle) then mid[c].(endFlag := true) else mid[c]
    ensures out == P.Flag(p).conns
  {
  }

  /** What the three lists spell out. */
  datatype Chains = Chains(busy: seq<nat>, idle: seq<nat>, noop: seq<nat>)

  function ChainsOf(p: Pool): Chains { Chains(p.busy, p.idle, p.noop) }

  class Tp {
    const busyConns: DList<TpConn?>
    const idleConns: DList<TpConn?>
    const noopConns: DList<TpConn?>
    var waiting: int
    var totalSend: int
    var todaySend: int

    /** Every connection ever published, in that order. */
    ghost var conns: seq<TpConn>

    /** The three lists spell out the chains `ch`. */
    ghost predicate Lists(ch: Chains)
      reads this`conns, conns`node
      reads busyConns`head, busyConns`tail, busyConns`count, busyConns`nodes
      reads busyConns.nodes`data, busyConns.nodes`prev, busyConns.nodes`next
      reads idleConns`head, idleConns`tail, idleConns`count, idleConns`nodes
      reads idleConns.nodes`data, idleConns.nodes`prev, idleConns.nodes`next
      reads noopConns`head, noopConns`tail, noopConns`count, noopConns`nodes
      reads noopConns.nodes`data, noopConns.nodes`prev, noopConns.nodes`next
    {
      match ch
      case Chains(busy, idle, noop) =>
        && busyConns != idleConns && busyConns != noopConns && idleConns != noopConns
        && Spells(busyConns, busy, conns)
        && Spells(idleConns, idle, conns)
        && Spells(noopConns, noop, conns)
    }

    /** The fields, the lists and the connection records stand for the pool `p`. */
    ghost predicate Is(p: Pool)
      reads this, conns
      reads busyConns`head, busyConns`tail, busyConns`count, busyConns`nodes
      reads busyConns.nodes`data, busyConns.nodes`prev, busyConns.nodes`next
      reads idleConns`head, idleConns`tail, idleConns`count, idleConns`nodes
      reads idleConns.nodes`data, idleConns.nodes`prev, idleConns.nodes`next
      reads noopConns`head, noopConns`tail, noopConns`count, noopConns`nodes
      reads noopConns.nodes`data, noopConns.nodes`prev, noopConns.nodes`next
    {
      && Lists(ChainsOf(p))
      && Recorded(conns, p.conns)
      && waiting == p.waiting && totalSend == p.totalSend && todaySend == p.todaySend
    }

    constructor ()
      ensures Is(EMPTY) && conns == []
      ensures fresh(busyConns) && fresh(idleConns) && fresh(noopConns)
    {
      busyConns := new DList<TpConn?>();
      idleConns := new DList<TpConn?>();
      noopConns := new DList<TpConn?>();
      waiting, totalSend, todaySend := 0, 0, 0;
      conns := [];
    }

    /** Connection `c` in memory, with its node, as long as it is on a list. */
    ghost predicate At(conn: TpConn, c: nat)
      reads this, conns
    {
      c < |conns| && conn == conns[c] && conn.id == c && conn.node != null
    }

    /** The connection that has been idle longest. */
    method FirstIdle(ghost p: Pool) returns (conn: TpConn)
      requires Is(p) && idleConns.count > 0
      ensures p.idle != [] && At(conn, p.idle[0])
    {
      assert Tied(idleConns.nodes[0], p.idle[0], conns);
      conn := idleConns.head.data;
    }

    /** A connection goes from idle to busy. */
    method IdleToBusy(ghost p: Pool, conn: TpConn)
      requires Lists(ChainsOf(p)) && Recorded(conns, p.conns) && Tidy(p) && At(conn, conn.id) && conn.id in p.idle
      modifies conn`status, idleConns, idleConns.nodes, busyConns, busyConns.nodes
      ensures Lists(Chains(p.busy + [conn.id], Without(p.idle, conn.id), p.noop))
      ensures Recorded(conns, SetStatus(p, conn.id, Busy).conns)
    {
      Migrate(idleConns, p.idle, busyConns, p.busy, noopConns, p.noop, conn, Busy, conns, p.conns);
    }

    /** A connection goes from busy to idle. */
    method BusyToIdle(ghost p: Pool, conn: TpConn)
      requires Lists(ChainsOf(p)) && Recorded(conns, p.conns) && Tidy(p) && At(conn, conn.id) && conn.id in p.busy
      modifies conn`status, idleConns, idleConns.nodes, busyConns, busyConns.nodes
      ensures Lists(Chains(Without(p.busy, conn.id), p.idle + [conn.id], p.noop))
      ensures Recorded(conns, SetStatus(p, conn.id, Idle).conns)
    {
      Migrate(busyConns, p.busy, idleConns, p.idle, noopConns, p.noop, conn, Idle, conns, p.conns);
    }

    /** A connection goes from busy to its keep-alive thread. */
    method BusyToNoop(ghost p: Pool, conn: TpConn, ghost recs: seq<Conn>)
      requires Lists(ChainsOf(p)) && Recorded(conns, recs) && Tidy(p) && At(conn, conn.id) && conn.id in p.busy
      modifies conn`status, noopConns, noopConns.nodes, busyConns, busyConns.nodes
      ensures Lists(Chains(Without(p.busy, conn.id), p.idle, p.noop + [conn.id]))
      ensures Recorded(conns, recs[conn.id := recs[conn.id].(status := Noop)])
    {
      Migrate(busyConns, p.busy, noopConns, p.noop, idleConns, p.idle, conn, Noop, conns, recs);
    }

    /** `getAnIdleConn`, when a connection is idle. */
    method TakeIdle(ghost p: Pool) returns (conn: TpConn)
      requires Is(p) && Tidy(p) && idleConns.count > 0
      modifies conns`status, busyConns, busyConns.nodes, idleConns, idleConns.nodes
      ensures p.idle != [] && At(conn, p.idle[0])
      ensures Is(P.TakeIdle(p))
    {
      conn := FirstIdle(p);
      Occupy(p, conn);
    }

    /** Marks the head of the idle list busy and moves its node. */
    method Occupy(ghost p: Pool, conn: TpConn)
      requires Is(p) && Tidy(p) && p.idle != [] && At(conn, p.idle[0])
      modifies conn`status, busyConns, busyConns.nodes, idleConns, idleConns.nodes
      ensures At(conn, p.idle[0]) && Is(P.TakeIdle(p))
    {
      IdleToBusy(p, conn);
    }

    /** `tpSendMail`, from busy to idle. */
    method Release(ghost p: Pool, conn: TpConn)
      requires Is(p) && Tidy(p) && At(conn, conn.id) && conn.id in p.busy
      modifies this`totalSend, this`todaySend, conn`status, busyConns, busyConns.nodes, idleConns, idleConns.nodes
      ensures Is(P.Release(p, conn.id))
    {
      hide Tidy, Spells;
      totalSend := totalSend + 1;
      todaySend := todaySend + 1;
      assert Lists(ChainsOf(p));
      BusyToIdle(p, conn);
    }

    /** `tpSendMail`, from busy to the keep-alive thread that ends the connection. */
    method Retire(ghost p: Pool, conn: TpConn, delivered: bool)
      requires Is(p) && Tidy(p) && At(conn, conn.id) && conn.id in p.busy
      modifies this`totalSend, this`todaySend, conn`status, conn`endFlag
      modifies busyConns, busyConns.nodes, noopConns, noopConns.nodes
      ensures Is(P.Retire(p, conn.id, delivered))
    {
      hide Tidy, Spells;
      if delivered {
        totalSend := totalSend + 1;
        todaySend := todaySend + 1;
      }
      assert Lists(ChainsOf(p));
      EndFlag(p, conn, p.conns);
      BusyToNoop(p, conn, p.conns[conn.id := p.conns[conn.id].(endFlag := true)]);
    }

    /** `connNOOP`, from idle to noop. */
    method Grab(ghost p: Pool, conn: TpConn)
      requires Is(p) && Tidy(p) && At(conn, conn.id) && conn.id in p.idle
      modifies conn`status, idleConns, idleConns.nodes, noopConns, noopConns.nodes
      ensures Is(P.Grab(p, conn.id)) && At(conn, conn.id)
      ensures conn.node in old(idleConns.nodes) && noopConns.nodes == old(noopConns.nodes) + [conn.node]
    {
      Migrate(idleConns, p.idle, noopConns, p.noop, busyConns, p.busy, conn, Noop, conns, p.conns);
    }

    /** `connNOOP`, from noop to idle. */
    method GiveBack(ghost p: Pool, conn: TpConn)
      requires Is(p) && Tidy(p) && At(conn, conn.id) && conn.id in p.noop
      modifies conn`status, idleConns, idleConns.nodes, noopConns, noopConns.nodes
      ensures Is(P.GiveBack(p, conn.id))
    {
      Migrate(noopConns, p.noop, idleConns, p.idle, busyConns, p.busy, conn, Idle, conns, p.conns);
    }

    /** One more call waits, or one less. */
    method Wait(ghost p: Pool, delta: int)
      requires Is(p)
      modifies this`waiting
      ensures Is(p.(waiting := p.waiting + delta))
    {
      hide Spells;
      waiting := waiting + delta;
      assert Lists(ChainsOf(p));
    }

    /** One of the two counts of a connection, which its owner changes without the mutex. */
    method SetCounts(ghost p: Pool, conn: TpConn, sends: int, noops: int)
      requires Is(p) && At(conn, conn.id)
      modifies conn`sendCount, conn`noopCount
      ensures conn.id < |p.conns|
      ensures Is(p.(conns := p.conns[conn.id := p.conns[conn.id].(sendCount := sends, noopCount := noops)]))
    {
      hide Spells;
      conn.sendCount := sends;
      conn.noopCount := noops;
      assert Lists(ChainsOf(p));
    }

    /** The timer sets the daily counter to zero. */
    method ResetToday(ghost p: Pool)
      requires Is(p)
      modifies this`todaySend
      ensures Is(p.(todaySend := 0))
    {
      hide Spells;
      todaySend := 0;
      assert Lists(ChainsOf(p));
    }

    /** A connection that is set up joins the busy list, with a node of its own. */
    method Publish(ghost p: Pool) returns (conn: TpConn)
      requires Is(p) && Tidy(p)
      modifies this`conns, busyConns, busyConns.nodes
      ensures fresh(conn) && conns == old(conns) + [conn]
      ensures conn.id == |p.conns| && Is(P.Publish(p))
    {
      conn := new TpConn(|conns|);
      var node := new Node<TpConn?>(conn);
      conn.node := node;
      Add(p, conn, node);
    }

    method Add(ghost p: Pool, ghost conn: TpConn, node: Node<TpConn?>)
      requires Is(p) && Tidy(p) && conn.id == |conns| && node.data == conn && conn.node == node
      requires conn.status == Busy && conn.sendCount == 0 && conn.noopCount == 0 && !conn.endFlag
      modifies this`conns, busyConns, busyConns.nodes, node`prev, node`next
      ensures conns == old(conns) + [conn] && Is(P.Publish(p))
    {
      hide Tidy, Spells;
      assert Recorded(conns + [conn], p.conns + [Conn(Busy, 0, 0, false)]);
      AddLink(p, conns + [conn], node);
      conns := conns + [conn];
    }

    method AddLink(ghost p: Pool, ghost more: seq<TpConn>, node: Node<TpConn?>)
      requires Lists(ChainsOf(p)) && Tidy(p) && Recorded(conns, p.conns)
      requires more != [] && more[..|more| - 1] == conns && Tied(node, |conns|, more) && more[|conns|].id == |conns|
      modifies busyConns, busyConns.nodes, node`prev, node`next
      ensures Spells(busyConns, p.busy + [|conns|], more)
      ensures Spells(idleConns, p.idle, more)
      ensures Spells(noopConns, p.noop, more)
    {
      SpellsMore(busyConns, p.busy, conns, more);
      SpellsMore(idleConns, p.idle, conns, more);
      SpellsMore(noopConns, p.noop, conns, more);
      AppendFree(busyConns, p.busy, idleConns, p.idle, noopConns, p.noop, node, more);
    }

    /** `endConn`: the node leaves the list, and connection and node forget each other. */
    method Unlink(ghost p: Pool, conn: TpConn)
      requires Is(p) && Tidy(p) && At(conn, conn.id) && conn.id in p.noop
      modifies conn`node, noopConns, noopConns.nodes
      ensures conn.node == null && Is(P.Unlink(p, conn.id))
    {
      Delete(noopConns, p.noop, busyConns, p.busy, idleConns, p.idle, conn, conns);
    }

    /** `setEndFlag` */
    method EndFlag(ghost p: Pool, conn: TpConn, ghost recs: seq<Conn>)
      requires Lists(ChainsOf(p)) && Recorded(conns, recs) && At(conn, conn.id)
      modifies conn`endFlag
      ensures Lists(ChainsOf(p)) && Recorded(conns, recs[conn.id := recs[conn.id].(endFlag := true)])
    {
      conn.endFlag := true;
    }

    /** A walk along one list that tells every connection on it to end. */
    method FlagList(ghost p: Pool, status: Status, ghost recs: seq<Conn>) returns (ghost out: seq<Conn>)
      requires Lists(ChainsOf(p)) && Recorded(conns, recs)
      modifies conns`endFlag
      ensures Lists(ChainsOf(p)) && Recorded(conns, out)
      ensures forall c :: 0 <= c < |recs| ==>
                out[c] == if c in ListOf(p, status) then recs[c].(endFlag := true) else recs[c]
    {
      hide Spells;
      out := recs;
      var l := match status case Busy => busyConns case Idle => idleConns case Noop => noopConns;
      ghost var ids := ListOf(p, status);
      var node := l.head;
      ghost var k := 0;
      StandsAt(l, ids, 0, conns);
      while node != null
        invariant 0 <= k <= |ids| == |l.nodes| && if k < |ids| then node == l.nodes[k] else node == null
        invariant Lists(ChainsOf(p)) && Recorded(conns, out)
        invariant forall c :: 0 <= c < |recs| ==> out[c] == if c in ids[..k] then recs[c].(endFlag := true) else recs[c]
        decreases |ids| - k
      {
        StandsAt(l, ids, k, conns);
        assert ids[..k + 1] == ids[..k] + [ids[k]];
        EndFlag(p, node.data, out);
        out := out[ids[k] := out[ids[k]].(endFlag := true)];
        node := node.next;
        k := k + 1;
      }
      assert ids[..k] == ids;
    }

    /** `abortTpConns`, when nothing is busy and nobody waits. */
    method Flag(ghost p: Pool)
      requires Is(p)
      modifies conns`endFlag
      ensures Is(P.Flag(p))
    {
      ghost var recs := FlagList(p, Noop, p.conns);
      ghost var mid := recs;
      recs := FlagList(p, Idle, mid);
      FlagRecords(p, mid, recs);
    }
  }

  /** What a walk along a list finds at position `k`. */
  lemma StandsAt(l: DList<TpConn?>, ids: seq<nat>, k: nat, conns: seq<TpConn>)
    requires Spells(l, ids, conns) && k <= |ids|
    ensures |ids| == |l.nodes|
    ensures l.head == if ids == [] then null else l.nodes[0]
    ensures k < |ids| ==> Tied(l.nodes[k], ids[k], conns)
    ensures k < |ids| ==> l.nodes[k].next == if k + 1 < |ids| then l.nodes[k + 1] else null
  {
    assert k < |ids| ==> Tied(l.nodes[k], ids[k], conns);
  }

  /** A list keeps spelling the same connections when another is published. */
  lemma SpellsMore(l: DList<TpConn?>, ids: seq<nat>, conns: seq<TpConn>, more: seq<TpConn>)
    requires Spells(l, ids, conns) && more != [] && more[..|more| - 1] == conns
    ensures Spells(l, ids, more) && |more| - 1 !in ids
  {
    forall k | 0 <= k < |ids|
      ensures Tied(l.nodes[k], ids[k], more)
    {
      assert Tied(l.nodes[k], ids[k], conns);
      assert conns[ids[k]] == more[ids[k]];
    }
  }

  /** As `AppendConn`, for lists that have no connection in common. */
  method AppendFree(l: DList<TpConn?>, ghost ids: seq<nat>, ghost b: DList<TpConn?>, ghost bIds: seq<nat>,
                    ghost c: DList<TpConn?>, ghost cIds: seq<nat>, node: Node<TpConn?>, ghost conns: seq<TpConn>)
    requires l != b && l != c
    requires Spells(l, ids, conns) && Spells(b, bIds, conns) && Spells(c, cIds, conns)
    requires Disjoint(ids, bIds) && Disjoint(ids, cIds)
    requires forall k :: 0 <= k < |conns| ==> conns[k].id == k
    requires conns != [] && Tied(node, |conns| - 1, conns)
    requires |conns| - 1 !in ids && |conns| - 1 !in bIds && |conns| - 1 !in cIds
    modifies l, l.nodes, node`prev, node`next
    ensures Spells(l, ids + [|conns| - 1], conns)
    ensures Spells(b, bIds, conns) && Spells(c, cIds, conns)
  {
    Apart(l, ids, b, bIds, conns);
    Apart(l, ids, c, cIds, conns);
    NewNode(l, ids, node, conns);
    NewNode(b, bIds, node, conns);
    NewNode(c, cIds, node, conns);
    AppendConn(l, ids, b, bIds, c, cIds, node, conns);
  }

  /** The node of the connection published last joins list `l`; two lists look on. */
  method AppendConn(l: DList<TpConn?>, ghost ids: seq<nat>, ghost b: DList<TpConn?>, ghost bIds: seq<nat>,
                    ghost c: DList<TpConn?>, ghost cIds: seq<nat>, node: Node<TpConn?>, ghost conns: seq<TpConn>)
    requires l != b && l != c && node !in l.nodes
    requires Spells(l, ids, conns) && Spells(b, bIds, conns) && Spells(c, cIds, conns)
    requires forall j :: 0 <= j < |b.nodes| ==> b.nodes[j] !in l.nodes && b.nodes[j] != node
    requires forall j :: 0 <= j < |c.nodes| ==> c.nodes[j] !in l.nodes && c.nodes[j] != node
    requires conns != [] && Tied(node, |conns| - 1, conns)
    modifies l, l.nodes, node`prev, node`next
    ensures Spells(l, ids + [|conns| - 1], conns)
    ensures Spells(b, bIds, conns) && Spells(c, cIds, conns)
  {
    l.AppendNode(node);
    forall k | 0 <= k < |l.nodes|
      ensures Tied(l.nodes[k], (ids + [|conns| - 1])[k], conns)
    {
      assert k < |ids| ==> old(Tied(l.nodes[k], ids[k], conns));
    }
    forall j | 0 <= j < |bIds|
      ensures Tied(b.nodes[j], bIds[j], conns)
    {
      assert old(Tied(b.nodes[j], bIds[j], conns));
    }
    forall j | 0 <= j < |cIds|
      ensures Tied(c.nodes[j], cIds[j], conns)
    {
      assert old(Tied(c.nodes[j], cIds[j], conns));
    }
  }

  /** A node tied to the newest connection is on no list of older ones. */
  lemma NewNode(l: DList<TpConn?>, ids: seq<nat>, node: Node<TpConn?>, conns: seq<TpConn>)
    requires Spells(l, ids, conns) && conns != [] && Tied(node, |conns| - 1, conns)
    requires forall k :: 0 <= k < |conns| ==> conns[k].id == k
    requires |conns| - 1 !in ids
    ensures node !in l.nodes && forall j :: 0 <= j < |l.nodes| ==> l.nodes[j] != node
  {
    forall j | 0 <= j < |l.nodes|
      ensures l.nodes[j] != node
    {
      assert Tied(l.nodes[j], ids[j], conns) && ids[j] in ids;
    }
  }

  /** `dllistDelete`: the node and the connection forget each other, then the node leaves its list. */
  method Delete(a: DList<TpConn?>, ghost aIds: seq<nat>, ghost b: DList<TpConn?>, ghost bIds: seq<nat>,
                ghost c: DList<TpConn?>, ghost cIds: seq<nat>, conn: TpConn, ghost conns: seq<TpConn>)
    requires a != b && a != c
    requires Spells(a, aIds, conns) && Spells(b, bIds, conns) && Spells(c, cIds, conns)
    requires Disjoint(aIds, bIds) && Disjoint(aIds, cIds)
    requires forall j :: 0 <= j < |conns| ==> conns[j].id == j
    requires NoDup(aIds) && conn.id in aIds && conn.id < |conns| && conn == conns[conn.id] && conn.node != null
    modifies conn`node, a, a.nodes
    ensures conn.node == null
    ensures Spells(a, Without(aIds, conn.id), conns)
    ensures Spells(b, bIds, conns) && Spells(c, cIds, conns)
  {
    ghost var k := Locate(a, aIds, conn, conns);
    Apart(a, aIds, b, bIds, conns);
    Apart(a, aIds, c, cIds, conns);
    DeleteAmong(a, aIds, b, bIds, c, cIds, k, conn, conns);
  }

  method DeleteAmong(a: DList<TpConn?>, ghost aIds: seq<nat>, ghost b: DList<TpConn?>, ghost bIds: seq<nat>,
                     ghost c: DList<TpConn?>, ghost cIds: seq<nat>,
                     ghost k: nat, conn: TpConn, ghost conns: seq<TpConn>)
    requires a != b && a != c
    requires Spells(a, aIds, conns) && Spells(b, bIds, conns) && Spells(c, cIds, conns)
    requires NoDup(aIds) && k < |aIds| && aIds[k] == conn.id && conn.id !in bIds && conn.id !in cIds
    requires forall j :: 0 <= j < |b.nodes| ==> b.nodes[j] !in a.nodes
    requires forall j :: 0 <= j < |c.nodes| ==> c.nodes[j] !in a.nodes
    requires forall j :: 0 <= j < |conns| ==> conns[j].id == j
    requires conn.id < |conns| && conn == conns[conn.id] && conn.node == a.nodes[k]
    modifies conn`node, a, a.nodes
    ensures conn.node == null
    ensures Spells(a, aIds[..k] + aIds[k + 1..], conns)
    ensures Spells(b, bIds, conns) && Spells(c, cIds, conns)
  {
    DeleteConn(a, aIds, k, conn, conns);
    forall j | 0 <= j < |bIds|
      ensures Tied(b.nodes[j], bIds[j], conns)
    {
      assert old(Tied(b.nodes[j], bIds[j], conns)) && bIds[j] in bIds;
    }
    forall j | 0 <= j < |cIds|
      ensures Tied(c.nodes[j], cIds[j], conns)
    {
      assert old(Tied(c.nodes[j], cIds[j], conns)) && cIds[j] in cIds;
    }
  }

  method DeleteConn(a: DList<TpConn?>, ghost aIds: seq<nat>, ghost k: nat, conn: TpConn, ghost conns: seq<TpConn>)
    requires Spells(a, aIds, conns) && NoDup(aIds) && k < |aIds| && aIds[k] == conn.id
    requires forall j :: 0 <= j < |conns| ==> conns[j].id == j
    requires conn.id < |conns| && conn == conns[conn.id] && conn.node == a.nodes[k]
    modifies conn`node, a, a.nodes
    ensures conn.node == null
    ensures Spells(a, aIds[..k] + aIds[k + 1..], conns)
  {
    var node := conn.node;
    node.data := null;
    conn.node := null;
    ghost var l := a.DeleteNode(node);
    assert l == k;
    forall j | 0 <= j < |aIds| - 1
      ensures Tied(a.nodes[j], (aIds[..k] + aIds[k + 1..])[j], conns)
    {
      var i := if j < k then j else j + 1;
      assert old(Tied(a.nodes[i], aIds[i], conns));
    }
  }
}
