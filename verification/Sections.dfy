/** The critical sections of src/transport.c on linked lists, as steps of the interleaving model. */
module Sections {
  import opened Pool
  import opened Sequences
  import opened Transport
  import opened System

  /** The `count` fields of the lists. */
  lemma Counts(tp: Tp, p: Pool)
    requires tp.Is(p)
    ensures tp.busyConns.count == |p.busy| && tp.idleConns.count == |p.idle| && tp.noopConns.count == |p.noop|
  {
  }

  /** What `getAnIdleConn` leaves with: the connection, or nothing, or it sleeps. */
  ghost predicate Leaves(pc: CallPc, conn: TpConn?, sleeps: bool) {
    match pc
    case At(c, _) => conn != null && conn.id == c && !sleeps
    case Asleep(woken) => conn == null && sleeps && !woken
    case Done(ret) => conn == null && !sleeps && !ret
    case _ => false
  }

  /** Creates a connection and publishes it, if the server let us in. */
  method NewConn(tp: Tp, connected: bool, ghost p: Pool) returns (conn: TpConn?)
    requires tp.Is(p) && Sound(p)
    modifies tp`conns, tp.busyConns, tp.busyConns.nodes
    ensures connected <==> conn != null
    ensures if connected then tp.Is(Publish(p)) && conn.id == |p.conns| else tp.Is(p)
  {
    conn := null;
    SoundIsTidy(p);
    if connected {
      hide Tidy, Spells;
      conn := tp.Publish(p);
    }
  }

  /** Whether a call has to wait: nothing is idle, and there are as many connections as there may be. */
  method IsFull(tp: Tp, maxConn: int, ghost s: State) returns (full: bool)
    requires tp.Is(s.pool) && maxConn == s.cfg.maxConn
    ensures full == Full(s)
    ensures full <==> tp.idleConns.count == 0 && tp.busyConns.count + tp.noopConns.count == maxConn
  {
    Counts(tp, s.pool);
    hide Spells;
    full := tp.idleConns.count == 0 && tp.busyConns.count + tp.noopConns.count == maxConn;
  }

  /** Whether a connection is idle. */
  method HasIdle(tp: Tp, ghost p: Pool) returns (yes: bool)
    requires tp.Is(p)
    ensures yes <==> p.idle != []
    ensures yes <==> tp.idleConns.count > 0
    ensures !yes <==> tp.idleConns.count == 0
  {
    Counts(tp, p);
    hide Spells;
    yes := tp.idleConns.count > 0;
  }

  /** Whether another connection may be created. */
  method HasRoom(tp: Tp, maxConn: int, ghost s: State) returns (yes: bool)
    requires tp.Is(s.pool) && maxConn == s.cfg.maxConn
    ensures yes <==> |s.pool.busy| + |s.pool.noop| < s.cfg.maxConn
    ensures yes <==> tp.busyConns.count + tp.noopConns.count < maxConn
  {
    Counts(tp, s.pool);
    hide Spells;
    yes := tp.busyConns.count + tp.noopConns.count < maxConn;
  }

  /** From the end of the wait loop of `getAnIdleConn` to its unlock. */
  method LeaveSection(tp: Tp, connected: bool, ghost s: State, ghost i: nat) returns (conn: TpConn?)
    requires tp.Is(s.pool) && Sound(s.pool)
    requires i < |s.calls| && (s.pool.idle != [] ==> Live(s, s.pool.idle[0]))
    modifies tp`waiting, tp`conns, tp.conns`status, tp.busyConns, tp.busyConns.nodes, tp.idleConns, tp.idleConns.nodes
    ensures tp.Is(LeaveLoop(s, i, connected).pool)
    ensures Leaves(LeaveLoop(s, i, connected).calls[i].pc, conn, false)
  {
    hide Spells, NoDup;
    ghost var p := s.pool.(waiting := s.pool.waiting - 1);
    tp.Wait(s.pool, -1);
    var idle := HasIdle(tp, p);
    if idle {
      SoundIsTidy(p);
      conn := tp.TakeIdle(p);
    } else {
      conn := NewConn(tp, connected, p);
    }
  }

  /** From the lock at the top of `getAnIdleConn` to its unlock or its first wait. */
  method LockSection(tp: Tp, maxConn: int, connected: bool, ghost s: State, ghost i: nat)
    returns (conn: TpConn?, sleeps: bool)
    requires tp.Is(s.pool) && Sound(s.pool) && maxConn == s.cfg.maxConn
    requires i < |s.calls| && (s.pool.idle != [] ==> Live(s, s.pool.idle[0]))
    modifies tp`waiting, tp`conns, tp.conns`status, tp.busyConns, tp.busyConns.nodes, tp.idleConns, tp.idleConns.nodes
    ensures tp.Is(DoLock(s, i, connected).pool)
    ensures Leaves(DoLock(s, i, connected).calls[i].pc, conn, sleeps)
    ensures sleeps <==>
      old(tp.idleConns.count) == 0 && old(tp.busyConns.count) + old(tp.noopConns.count) == maxConn
  {
    hide Spells, NoDup;
    sleeps := false;
    var idle := HasIdle(tp, s.pool);
    if idle {
      SoundIsTidy(s.pool);
      conn := tp.TakeIdle(s.pool);
      return;
    }
    var room := HasRoom(tp, maxConn, s);
    if room {
      conn := NewConn(tp, connected, s.pool);
      return;
    }
    ghost var t := s.(pool := s.pool.(waiting := s.pool.waiting + 1));
    tp.Wait(s.pool, 1);
    sleeps := IsFull(tp, maxConn, t);
    if sleeps {
      conn := null;
    } else {
      conn := LeaveSection(tp, connected, t, i);
    }
  }

  /** From a wakeup in the wait loop of `getAnIdleConn` to its unlock or its next wait. */
  method ResumeSection(tp: Tp, maxConn: int, connected: bool, ghost s: State, ghost i: nat)
    returns (conn: TpConn?, sleeps: bool)
    requires tp.Is(s.pool) && Sound(s.pool) && maxConn == s.cfg.maxConn
    requires i < |s.calls| && (s.pool.idle != [] ==> Live(s, s.pool.idle[0]))
    modifies tp`waiting, tp`conns, tp.conns`status, tp.busyConns, tp.busyConns.nodes, tp.idleConns, tp.idleConns.nodes
    ensures tp.Is(DoResume(s, i, connected).pool)
    ensures Leaves(DoResume(s, i, connected).calls[i].pc, conn, sleeps)
    ensures sleeps <==>
      old(tp.idleConns.count) == 0 && old(tp.busyConns.count) + old(tp.noopConns.count) == maxConn
  {
    hide Spells, NoDup;
    sleeps := IsFull(tp, maxConn, s);
    if sleeps {
      conn := null;
    } else {
      conn := LeaveSection(tp, connected, s, i);
    }
  }

  /** The record of a connection is in its fields. */
  lemma Fields(tp: Tp, p: Pool, conn: TpConn)
    requires tp.Is(p) && tp.At(conn, conn.id)
    ensures conn.id < |p.conns|
    ensures p.conns[conn.id] == Conn(conn.status, conn.sendCount, conn.noopCount, conn.endFlag)
    ensures tp.waiting == p.waiting
  {
  }

  /** What the keep-alive thread does after its critical section. */
  datatype Turn = Park | Ping | Leave | Rest

  /** Where the keep-alive thread of `c` stands. */
  ghost function PcOf(s: State, c: nat): NoopPc {
    if c < |s.agents| then s.agents[c].pc else Gone
  }

  ghost predicate Goes(pc: NoopPc, v: Turn) {
    match v
    case Park => pc == Parked(false)
    case Ping => pc == Nooping
    case Leave => pc == EndSignal
    case Rest => pc == Announce
  }

  /** The pool once the keep-alive thread of `c` has the connection. */
  ghost function Grabbed(p: Pool, c: nat): Pool
    requires c < |p.conns| && (p.conns[c].status == Idle ==> c in p.idle)
  {
    if p.conns[c].status == Idle then Grab(p, c) else p
  }

  lemma GrabbedSound(p: Pool, c: nat)
    requires Sound(p) && c < |p.conns| && p.conns[c].status != Busy
    requires p.conns[c].status == Idle ==> c in p.idle
    requires p.conns[c].status == Noop ==> c in p.noop
    ensures Sound(Grabbed(p, c)) && Tidy(Grabbed(p, c)) && c in Grabbed(p, c).noop
  {
    if p.conns[c].status == Idle {
      GrabMoves(p, c);
    }
    SoundIsTidy(Grabbed(p, c));
  }

  method TakeOver(tp: Tp, conn: TpConn, ghost p: Pool)
    requires tp.Is(p) && Sound(p) && tp.At(conn, conn.id) && conn.id < |p.conns|
    requires p.conns[conn.id].status == Idle ==> conn.id in p.idle
    modifies conn`status, tp.idleConns, tp.idleConns.nodes, tp.noopConns, tp.noopConns.nodes
    ensures tp.Is(Grabbed(p, conn.id)) && tp.At(conn, conn.id)
    ensures || tp.noopConns.nodes == old(tp.noopConns.nodes)
            || (conn.node in old(tp.idleConns.nodes) && tp.noopConns.nodes == old(tp.noopConns.nodes) + [conn.node])
  {
    Fields(tp, p, conn);
    SoundIsTidy(p);
    hide Spells, Tidy, Sound;
    if conn.status == Idle {
      tp.Grab(p, conn);
    }
  }

  /** Ends a connection that was told to. */
  method EndIfTold(tp: Tp, conn: TpConn, ghost p: Pool) returns (ended: bool)
    requires tp.Is(p) && Tidy(p) && tp.At(conn, conn.id) && conn.id in p.noop && conn.id < |p.conns|
    modifies conn`node, tp.noopConns, tp.noopConns.nodes
    ensures ended == p.conns[conn.id].endFlag
    ensures tp.Is(if ended then Unlink(p, conn.id) else p)
    ensures !ended ==> tp.At(conn, conn.id) && tp.noopConns.nodes == old(tp.noopConns.nodes)
  {
    Fields(tp, p, conn);
    hide Spells, Tidy;
    ended := conn.endFlag;
    if ended {
      tp.Unlink(p, conn);
    }
  }

  /** The first critical section of the loop of `connNOOP`. */
  method NoopLockSection(tp: Tp, conn: TpConn, ghost s: State) returns (v: Turn)
    requires tp.Is(s.pool) && Sound(s.pool) && tp.At(conn, conn.id) && Live(s, conn.id)
    requires s.pool.conns[conn.id].status == Idle ==> conn.id in s.pool.idle
    requires s.pool.conns[conn.id].status == Noop ==> conn.id in s.pool.noop
    modifies conn`status, conn`node, tp.idleConns, tp.idleConns.nodes, tp.noopConns, tp.noopConns.nodes
    ensures tp.Is(DoNoopLock(s, conn.id).pool)
    ensures Goes(PcOf(DoNoopLock(s, conn.id), conn.id), v)
    ensures v == Park <==> old(conn.status) == Busy || (old(conn.status) == Idle && tp.waiting > 0)
    ensures v != Park ==> v == if conn.endFlag then Leave else Ping
  {
    hide Spells, Tidy, Sound;
    Fields(tp, s.pool, conn);
    if conn.status == Busy || (conn.status == Idle && tp.waiting > 0) {
      v := Park;
    } else {
      GrabbedSound(s.pool, conn.id);
      TakeOver(tp, conn, s.pool);
      var ended := EndIfTold(tp, conn, Grabbed(s.pool, conn.id));
      v := if ended then Leave else Ping;
    }
  }

  /** The second critical section of the loop of `connNOOP`. */
  method NoopReturnSection(tp: Tp, conn: TpConn, ghost s: State) returns (v: Turn)
    requires tp.Is(s.pool) && Sound(s.pool) && tp.At(conn, conn.id) && Live(s, conn.id) && conn.id in s.pool.noop
    modifies conn`status, conn`node, tp.idleConns, tp.idleConns.nodes, tp.noopConns, tp.noopConns.nodes
    ensures tp.Is(DoNoopReturn(s, conn.id).pool)
    ensures Goes(PcOf(DoNoopReturn(s, conn.id), conn.id), v)
    ensures v == if conn.endFlag then Leave else Rest
  {
    hide Spells, Tidy, Sound;
    SoundIsTidy(s.pool);
    var ended := EndIfTold(tp, conn, s.pool);
    v := if ended then Leave else Rest;
    if !ended {
      tp.GiveBack(s.pool, conn);
    }
  }

  /** What `abortTpConns` does when it finds the mutex free for the first time. */
  method MainLockSection(tp: Tp, ghost s: State) returns (waits: bool)
    requires tp.Is(s.pool)
    modifies tp.conns`endFlag
    ensures tp.Is(DoMainLock(s).pool)
    ensures waits <==> DoMainLock(s).main == WaitIdle(false)
    ensures waits <==> tp.busyConns.count > 0 || tp.waiting > 0
  {
    Counts(tp, s.pool);
    hide Spells;
    waits := tp.busyConns.count > 0 || tp.waiting > 0;
    if !waits {
      tp.Flag(s.pool);
    }
  }
}
