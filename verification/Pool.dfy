/**
 The connections of one transport as its mutex sees them (src/transport.h, `tp_t` and `tpConn_t`):
 the three lists, the fields of every connection ever published, and the counters. Connections are
 named by the order in which they were published. The functions are the critical sections of
 src/transport.c; the heap classes in Transport.dfy carry them out on linked lists and the
 interleaving model in System.dfy takes them as atomic steps.
 */
module Pool {
  import opened Sequences

  datatype Status = Busy | Idle | Noop

  datatype Conn = Conn(status: Status, sendCount: int, noopCount: int, endFlag: bool)

  datatype Pool = Pool(
    busy: seq<nat>,
    idle: seq<nat>,
    noop: seq<nat>,
    conns: seq<Conn>,
    waiting: int,
    totalSend: int,
    todaySend: int
  )

  const EMPTY := Pool([], [], [], [], 0, 0, 0)

  /** Each list is free of duplicates and holds only connections whose status names it. */
  ghost predicate Sound(p: Pool) {
    && NoDup(p.busy) && NoDup(p.idle) && NoDup(p.noop)
    && (forall c :: c in p.busy ==> c < |p.conns| && p.conns[c].status == Busy)
    && (forall c :: c in p.idle ==> c < |p.conns| && p.conns[c].status == Idle)
    && (forall c :: c in p.noop ==> c < |p.conns| && p.conns[c].status == Noop)
  }

  /** The list that a status names. */
  function ListOf(p: Pool, s: Status): seq<nat> {
    match s
    case Busy => p.busy
    case Idle => p.idle
    case Noop => p.noop
  }

  function SetStatus(p: Pool, c: nat, s: Status): Pool
    requires c < |p.conns|
  {
    p.(conns := p.conns[c := p.conns[c].(status := s)])
  }

  // ----- getAnIdleConn

  /** The connection that has been idle longest goes to a client. */
  ghost function TakeIdle(p: Pool): Pool
    requires p.idle != [] && p.idle[0] < |p.conns|
  {
    var c := p.idle[0];
    SetStatus(p, c, Busy).(idle := Without(p.idle, c), busy := p.busy + [c])
  }

  /** A connection that was just set up joins the busy list. */
  function Publish(p: Pool): Pool {
    p.(conns := p.conns + [Conn(Busy, 0, 0, false)], busy := p.busy + [|p.conns|])
  }

  // ----- tpSendMail

  function CountSend(p: Pool): Pool {
    p.(totalSend := p.totalSend + 1, todaySend := p.todaySend + 1)
  }

  ghost function Release(p: Pool, c: nat): Pool
    requires c in p.busy && c < |p.conns|
  {
    CountSend(SetStatus(p, c, Idle)).(busy := Without(p.busy, c), idle := p.idle + [c])
  }

  ghost function Retire(p: Pool, c: nat, delivered: bool): Pool
    requires c in p.busy && c < |p.conns|
  {
    var q := if delivered then CountSend(p) else p;
    q.(conns := p.conns[c := p.conns[c].(endFlag := true, status := Noop)],
       busy := Without(p.busy, c),
       noop := p.noop + [c])
  }

  // ----- connNOOP and endConn

  ghost function Grab(p: Pool, c: nat): Pool
    requires c in p.idle && c < |p.conns|
  {
    SetStatus(p, c, Noop).(idle := Without(p.idle, c), noop := p.noop + [c])
  }

  ghost function GiveBack(p: Pool, c: nat): Pool
    requires c in p.noop && c < |p.conns|
  {
    SetStatus(p, c, Idle).(noop := Without(p.noop, c), idle := p.idle + [c])
  }

  ghost function Unlink(p: Pool, c: nat): Pool
    requires c in p.noop
  {
    p.(noop := Without(p.noop, c))
  }

  // ----- abortTpConns

  /** Every connection that is idle or with its keep-alive thread is told to end. */
  function Flag(p: Pool): Pool {
    p.(conns := seq(|p.conns|, c requires 0 <= c < |p.conns| =>
                    if c in p.noop || c in p.idle then p.conns[c].(endFlag := true) else p.conns[c]))
  }

  // ----- every critical section keeps the lists sound and moves exactly one connection

  ghost predicate Moved(p: Pool, q: Pool, c: nat, from: Status, to: Status) {
    && c < |p.conns| == |q.conns|
    && (forall x :: x in ListOf(q, from) <==> x in ListOf(p, from) && x != c)
    && (forall x :: x in ListOf(q, to) <==> x in ListOf(p, to) || x == c)
    && |ListOf(q, from)| == |ListOf(p, from)| - 1
    && |ListOf(q, to)| == |ListOf(p, to)| + 1
    && (forall s :: s != from && s != to ==> ListOf(q, s) == ListOf(p, s))
    && q.conns[c].status == to
    && (forall x :: 0 <= x < |p.conns| && x != c ==> q.conns[x] == p.conns[x])
    && q.conns[c].sendCount == p.conns[c].sendCount
    && q.conns[c].noopCount == p.conns[c].noopCount
    && q.waiting == p.waiting
  }

  lemma TakeIdleMoves(p: Pool)
    requires Sound(p) && p.idle != []
    ensures p.idle[0] in p.idle
    ensures Sound(TakeIdle(p)) && Moved(p, TakeIdle(p), p.idle[0], Idle, Busy)
  {
    WithoutFacts(p.idle, p.idle[0]);
    AppendFacts(p.busy, p.idle[0]);
  }

  lemma PublishAdds(p: Pool)
    requires Sound(p)
    ensures Sound(Publish(p))
    ensures forall x :: x in Publish(p).busy <==> x in p.busy || x == |p.conns|
  {
    AppendFacts(p.busy, |p.conns|);
  }

  lemma ReleaseMoves(p: Pool, c: nat)
    requires Sound(p) && c in p.busy
    ensures Sound(Release(p, c)) && Moved(p, Release(p, c), c, Busy, Idle)
  {
    WithoutFacts(p.busy, c);
    AppendFacts(p.idle, c);
  }

  lemma RetireMoves(p: Pool, c: nat, delivered: bool)
    requires Sound(p) && c in p.busy
    ensures Sound(Retire(p, c, delivered)) && Moved(p, Retire(p, c, delivered), c, Busy, Noop)
  {
    WithoutFacts(p.busy, c);
    AppendFacts(p.noop, c);
  }

  lemma GrabMoves(p: Pool, c: nat)
    requires Sound(p) && c in p.idle
    ensures Sound(Grab(p, c)) && Moved(p, Grab(p, c), c, Idle, Noop)
  {
    WithoutFacts(p.idle, c);
    AppendFacts(p.noop, c);
  }

  lemma GiveBackMoves(p: Pool, c: nat)
    requires Sound(p) && c in p.noop
    ensures Sound(GiveBack(p, c)) && Moved(p, GiveBack(p, c), c, Noop, Idle)
  {
    WithoutFacts(p.noop, c);
    AppendFacts(p.idle, c);
  }

  lemma UnlinkRemoves(p: Pool, c: nat)
    requires Sound(p) && c in p.noop
    ensures Sound(Unlink(p, c))
    ensures forall x :: x in Unlink(p, c).noop <==> x in p.noop && x != c
    ensures |Unlink(p, c).noop| == |p.noop| - 1
  {
    WithoutFacts(p.noop, c);
  }

  lemma FlagKeeps(p: Pool)
    requires Sound(p)
    ensures Sound(Flag(p)) && |Flag(p).conns| == |p.conns|
    ensures Flag(p).busy == p.busy && Flag(p).idle == p.idle && Flag(p).noop == p.noop
    ensures forall c :: c in p.idle || c in p.noop ==> Flag(p).conns[c].endFlag
    ensures forall c :: c in p.busy ==> Flag(p).conns[c] == p.conns[c]
  {
  }
}
