/**
 The transport in memory simulates the interleaving model: from a state of which the invariant holds, every
 step that the model takes is carried out on the linked lists, and its preconditions are met.
 */
module Simulation {
  import opened Sequences
  import opened Pool
  import opened Transport
  import opened System
  import opened Invariant
  import opened Steps
  import opened Sections

  // ----- what the invariant says of memory

  /** A connection that is not freed is on a list, so it has a node. */
  lemma LiveAt(tp: Tp, s: State, c: nat)
    requires tp.Is(s.pool) && Inv(s) && Live(s, c)
    ensures c < |tp.conns| && tp.At(tp.conns[c], c)
    ensures Sound(s.pool) && c in ListOf(s.pool, s.pool.conns[c].status)
  {
    assert Listed(s.pool, s.agents[c], c);
    var status := s.pool.conns[c].status;
    var ids := ListOf(s.pool, status);
    var l := match status case Busy => tp.busyConns case Idle => tp.idleConns case Noop => tp.noopConns;
    var k :| 0 <= k < |ids| && ids[k] == c;
    assert Spells(l, ids, tp.conns);
    assert Tied(l.nodes[k], ids[k], tp.conns);
  }

  /** The connection that a step works on. */
  ghost function Subject(s: State, a: Action): int {
    match a
    case ClearNoop(i) => if CallAt(s, i) then s.calls[i].pc.conn else -1
    case Count(i) => if CallAt(s, i) then s.calls[i].pc.conn else -1
    case Unhold(i) => if CallAt(s, i) then s.calls[i].pc.conn else -1
    case NoopLock(c) => c
    case NoopCount(c) => c
    case NoopUnlink(c) => c
    case NoopReturn(c) => c
    case _ => -1
  }

  /** `conn` is the connection that the step works on. */
  ghost predicate Works(tp: Tp, s: State, a: Action, conn: TpConn)
    reads tp
  {
    0 <= Subject(s, a) < |tp.conns| && conn == tp.conns[Subject(s, a)]
  }

  /** Its record in memory, and the list that it is on. */
  lemma SubjectAt(tp: Tp, s: State, a: Action, conn: TpConn)
    requires tp.Is(s.pool) && Inv(s) && Enabled(s, a) && Works(tp, s, a, conn)
    ensures tp.At(conn, Subject(s, a)) && conn.id == Subject(s, a) && conn.id < |s.pool.conns|
    ensures Sound(s.pool) && Live(s, conn.id) && Safe(s, a)
    ensures s.pool.conns[conn.id].status == Idle ==> conn.id in s.pool.idle
    ensures s.pool.conns[conn.id].status == Noop ==> conn.id in s.pool.noop
  {
    StepKeeps(s, a);
    UnlinkingIsLive(s, a);
    LiveAt(tp, s, Subject(s, a));
    hide Inv, Spells;
  }

  lemma UnlinkingIsLive(s: State, a: Action)
    requires Inv(s) && Enabled(s, a) && Safe(s, a) && Subject(s, a) >= 0
    ensures Live(s, Subject(s, a))
  {
  }

  // ----- the steps that are no section of the main paths

  lemma UnholdPool(s: State, i: nat)
    requires Enabled(s, Unhold(i)) && Safe(s, Unhold(i))
    ensures var At(c, g) := s.calls[i].pc;
      && c in s.pool.busy && c < |s.pool.conns| && c == Subject(s, Unhold(i))
      && (g.Releasing? || g.Retiring?)
      && Apply(s, Unhold(i)).pool == if g.Retiring? then Retire(s.pool, c, g.delivered) else Release(s.pool, c)
  {
    hide Release, Retire;
  }

  /** A call gives its connection back, or leaves it to the keep-alive thread to end. */
  method UnholdSection(tp: Tp, conn: TpConn, stage: Stage, ghost s: State, ghost i: nat)
    requires tp.Is(s.pool) && Inv(s) && Enabled(s, Unhold(i)) && Works(tp, s, Unhold(i), conn)
    requires stage == s.calls[i].pc.stage
    modifies tp`totalSend, tp`todaySend, conn`status, conn`endFlag
    modifies tp.busyConns, tp.busyConns.nodes, tp.idleConns, tp.idleConns.nodes, tp.noopConns, tp.noopConns.nodes
    ensures Safe(s, Unhold(i)) && tp.Is(Apply(s, Unhold(i)).pool)
  {
    hide *;
    SubjectAt(tp, s, Unhold(i), conn);
    UnholdPool(s, i);
    SoundIsTidy(s.pool);
    if stage.Retiring? {
      tp.Retire(s.pool, conn, stage.delivered);
    } else {
      tp.Release(s.pool, conn);
    }
  }

  lemma UnlinkPool(s: State, c: nat)
    requires Enabled(s, NoopUnlink(c)) && Safe(s, NoopUnlink(c))
    ensures Subject(s, NoopUnlink(c)) == c && c in s.pool.noop
    ensures Apply(s, NoopUnlink(c)).pool == Unlink(s.pool, c)
  {
  }

  /** The keep-alive thread takes the connection that it closed off its list. */
  method UnlinkSection(tp: Tp, conn: TpConn, ghost s: State, ghost c: nat)
    requires tp.Is(s.pool) && Inv(s) && Enabled(s, NoopUnlink(c)) && Works(tp, s, NoopUnlink(c), conn)
    modifies conn`node, tp.noopConns, tp.noopConns.nodes
    ensures Safe(s, NoopUnlink(c)) && tp.Is(Apply(s, NoopUnlink(c)).pool)
  {
    hide *;
    SubjectAt(tp, s, NoopUnlink(c), conn);
    UnlinkPool(s, c);
    SoundIsTidy(s.pool);
    tp.Unlink(s.pool, conn);
  }

  /** A connection's counts in the pool of the model. */
  function Counted(p: Pool, c: nat, sends: int, noops: int): Pool
    requires c < |p.conns|
  {
    p.(conns := p.conns[c := p.conns[c].(sendCount := sends, noopCount := noops)])
  }

  lemma CountPools(s: State, a: Action, c: nat)
    requires Enabled(s, a) && Safe(s, a) && Subject(s, a) == c && c < |s.pool.conns|
    ensures var t, conn := Apply(s, a), s.pool.conns[c];
      && (a.ClearNoop? ==> t.pool == Counted(s.pool, c, conn.sendCount, 0))
      && (a.Count? ==> t.pool == Counted(s.pool, c, conn.sendCount + 1, conn.noopCount))
      && (a.NoopCount? ==> t.pool == Counted(s.pool, c, conn.sendCount, conn.noopCount + 1))
  {
  }

  /** The owner of a connection clears or raises one of its counts. */
  method CountSection(tp: Tp, conn: TpConn, a: Action, ghost s: State)
    requires tp.Is(s.pool) && Inv(s) && Enabled(s, a) && Works(tp, s, a, conn)
    requires a.ClearNoop? || a.Count? || a.NoopCount?
    modifies conn`sendCount, conn`noopCount
    ensures Safe(s, a) && tp.Is(Apply(s, a).pool)
  {
    hide *;
    SubjectAt(tp, s, a, conn);
    Fields(tp, s.pool, conn);
    CountPools(s, a, conn.id);
    var sends := if a.Count? then conn.sendCount + 1 else conn.sendCount;
    var noops := if a.ClearNoop? then 0 else if a.NoopCount? then conn.noopCount + 1 else conn.noopCount;
    CountedIs(s.pool, conn.id, sends, noops);
    tp.SetCounts(s.pool, conn, sends, noops);
  }

  lemma CountedIs(p: Pool, c: nat, sends: int, noops: int)
    requires c < |p.conns|
    ensures var conn := p.conns[c].(sendCount := sends, noopCount := noops);
      Counted(p, c, sends, noops) == p.(conns := p.conns[c := conn])
  {
  }

  // ----- every step

  predicate IsCallStep(a: Action) {
    a.Lock? || a.Resume? || a.Timeout? || a.ClearNoop? || a.Count? || a.Unhold?
  }

  predicate IsKeeperStep(a: Action) {
    a.NoopLock? || a.NoopCount? || a.NoopUnlink? || a.NoopReturn?
  }

  /** What the thread that takes the step holds in its hands: the connection, and where the call stands. */
  ghost predicate Given(tp: Tp, s: State, a: Action, conn: TpConn?, stage: Stage)
    reads tp
  {
    && (Subject(s, a) >= 0 ==> conn != null && Works(tp, s, a, conn))
    && (a.Unhold? && a.i < |s.calls| && s.calls[a.i].pc.At? ==> stage == s.calls[a.i].pc.stage)
  }

  lemma GivenConn(tp: Tp, s: State, a: Action, conn: TpConn?, stage: Stage)
    requires Given(tp, s, a, conn, stage) && Enabled(s, a)
    requires a.Unhold? || a.ClearNoop? || a.Count? || IsKeeperStep(a)
    ensures conn != null && conn in tp.conns && Works(tp, s, a, conn)
    ensures a.Unhold? ==> stage == s.calls[a.i].pc.stage
  {
  }

  /** What the step does to the pool, by the name of the section. */
  lemma CallPools(s: State, a: Action)
    requires Enabled(s, a) && Safe(s, a)
    ensures a.Lock? ==> Apply(s, a).pool == DoLock(s, a.i, a.connected).pool
    ensures a.Resume? ==> Apply(s, a).pool == DoResume(s, a.i, a.connected).pool
    ensures a.Timeout? ==> Apply(s, a).pool == s.pool.(waiting := s.pool.waiting - 1)
  {
    hide DoLock, DoResume;
  }

  lemma KeeperPools(s: State, a: Action)
    requires Enabled(s, a) && Safe(s, a)
    ensures a.NoopLock? ==> Apply(s, a).pool == DoNoopLock(s, a.c).pool
    ensures a.NoopReturn? ==> Apply(s, a).pool == DoNoopReturn(s, a.c).pool
  {
    hide DoNoopLock, DoNoopReturn;
  }

  lemma ResetPool(s: State)
    requires Enabled(s, ResetToday) && Safe(s, ResetToday)
    ensures Apply(s, ResetToday).pool == s.pool.(todaySend := 0)
  {
  }

  lemma MainPool(s: State)
    requires Enabled(s, MainLock) && Safe(s, MainLock)
    ensures Apply(s, MainLock).pool == DoMainLock(s).pool
  {
  }

  lemma ElsewherePool(s: State, a: Action)
    requires Enabled(s, a) && Safe(s, a) && Elsewhere(a)
    ensures Apply(s, a).pool == s.pool
  {
    hide DoLock, DoResume, DoNoopLock, DoNoopReturn, DoMainLock, DoUnhold;
  }

  /** The steps that leave the transport as it is. */
  predicate Elsewhere(a: Action) {
    || a.Arrive? || a.Exchange? || a.BroadcastIdle? || a.Signal?
    || a.NoopExchange? || a.NoopClose? || a.NoopAnnounce? || a.NoopEndSignal? || a.NoopEndAnnounce?
    || a.MainCheck? || a.SpuriousCall? || a.SpuriousNoop? || a.SpuriousMain?
  }

  /** What the sections of a call ask for. */
  lemma CallReady(s: State, a: Action)
    requires Inv(s) && Enabled(s, a) && (a.Lock? || a.Resume?)
    ensures Safe(s, a) && Sound(s.pool)
    ensures a.i < |s.calls| && (s.pool.idle != [] ==> Live(s, s.pool.idle[0]))
  {
    StepKeeps(s, a);
    hide Inv, Sound;
    InvSound(s);
  }

  lemma InvSound(s: State)
    requires Inv(s)
    ensures Sound(s.pool)
  {
  }

  lemma CallKinds(a: Action)
    requires IsCallStep(a)
    ensures a.Lock? || a.Resume? || a.Timeout? || a.ClearNoop? || a.Count? || a.Unhold?
  {
  }

  /** A step of a call that changes the transport. */
  method CallStep(tp: Tp, maxConn: int, a: Action, conn: TpConn?, stage: Stage, ghost s: State)
    requires tp.Is(s.pool) && Inv(s) && Enabled(s, a) && maxConn == s.cfg.maxConn
    requires IsCallStep(a) && Given(tp, s, a, conn, stage)
    modifies tp, tp.conns, tp.busyConns, tp.busyConns.nodes, tp.idleConns, tp.idleConns.nodes
    modifies tp.noopConns, tp.noopConns.nodes
    ensures Safe(s, a) && tp.Is(Apply(s, a).pool)
  {
    hide *;
    CallKinds(a);
    StepKeeps(s, a);
    CallPools(s, a);
    if a.Lock? || a.Resume? {
      CallReady(s, a);
      if a.Lock? {
        var got, sleeps := LockSection(tp, maxConn, a.connected, s, a.i);
      } else {
        var got, sleeps := ResumeSection(tp, maxConn, a.connected, s, a.i);
      }
    } else if a.Timeout? {
      tp.Wait(s.pool, -1);
    } else {
      GivenConn(tp, s, a, conn, stage);
      if a.Unhold? {
        UnholdSection(tp, conn, stage, s, a.i);
      } else {
        CountSection(tp, conn, a, s);
      }
    }
  }

  lemma KeeperKinds(s: State, a: Action)
    requires IsKeeperStep(a) && Enabled(s, a) && Safe(s, a)
    ensures a.NoopLock? || a.NoopCount? || a.NoopUnlink? || a.NoopReturn?
    ensures Subject(s, a) == a.c
    ensures a.NoopReturn? ==> a.c in s.pool.noop
  {
  }

  /** A step of a keep-alive thread that changes the transport. */
  method KeeperStep(tp: Tp, a: Action, conn: TpConn?, ghost stage: Stage, ghost s: State)
    requires tp.Is(s.pool) && Inv(s) && Enabled(s, a)
    requires IsKeeperStep(a) && Given(tp, s, a, conn, stage)
    modifies tp, tp.conns, tp.busyConns, tp.busyConns.nodes, tp.idleConns, tp.idleConns.nodes
    modifies tp.noopConns, tp.noopConns.nodes
    ensures Safe(s, a) && tp.Is(Apply(s, a).pool)
  {
    hide *;
    StepKeeps(s, a);
    KeeperPools(s, a);
    KeeperKinds(s, a);
    GivenConn(tp, s, a, conn, stage);
    SubjectAt(tp, s, a, conn);
    if a.NoopLock? {
      var turn := NoopLockSection(tp, conn, s);
    } else if a.NoopReturn? {
      var turn := NoopReturnSection(tp, conn, s);
    } else if a.NoopUnlink? {
      UnlinkSection(tp, conn, s, a.c);
    } else {
      CountSection(tp, conn, a, s);
    }
  }

  /**
   Any step of the interleaving model, carried out on the transport in memory: what the invariant promises is
   all that the code needs, and memory stands for the pool of the next state, of which the invariant holds.
   */
  method Step(tp: Tp, maxConn: int, a: Action, conn: TpConn?, stage: Stage, ghost s: State)
    requires tp.Is(s.pool) && Inv(s) && Enabled(s, a) && maxConn == s.cfg.maxConn
    requires Given(tp, s, a, conn, stage)
    modifies tp, tp.conns, tp.busyConns, tp.busyConns.nodes, tp.idleConns, tp.idleConns.nodes
    modifies tp.noopConns, tp.noopConns.nodes
    ensures Safe(s, a) && tp.Is(Apply(s, a).pool) && Inv(Apply(s, a))
  {
    hide *;
    StepKeeps(s, a);
    AnyKind(a);
    if IsCallStep(a) {
      CallStep(tp, maxConn, a, conn, stage, s);
    } else if IsKeeperStep(a) {
      KeeperStep(tp, a, conn, stage, s);
    } else if a.ResetToday? {
      ResetPool(s);
      tp.ResetToday(s.pool);
    } else if a.MainLock? {
      MainPool(s);
      var waits := MainLockSection(tp, s);
    } else {
      ElsewherePool(s, a);
    }
  }

  lemma AnyKind(a: Action)
    ensures IsCallStep(a) || IsKeeperStep(a) || a.ResetToday? || a.MainLock? || Elsewhere(a)
  {
  }
}
