/** Every step of the interleaving model keeps the invariant. */
module Steps {
  import opened Sequences
  import opened Pool
  import opened System
  import opened Invariant
  import S = Session

  // ----- steps of a call that owns no connection

  lemma QuietCallKeeps(s: State, t: State, i: nat)
    requires Inv(s) && OnlyCall(s, t, i)
    requires !s.calls[i].pc.At? && !s.calls[i].pc.AnnounceIdle? && !s.calls[i].pc.SignalConn?
    requires s.calls[i].pc.Asleep?
    requires t.calls[i].pc == Done(false) || t.calls[i].pc == Asleep(true)
    requires t == s.(calls := t.calls, pool := s.pool.(waiting := s.pool.waiting - 1 + Sleeping(t.calls[i])))
    ensures Inv(t)
  {
    WaitingCore(s, t.pool.waiting);
    UnownedCore(s.(pool := t.pool), i, t.calls[i].pc);
    assert t.calls == s.calls[i := t.calls[i]];
    CountersStep(s, t, i);
    PendingKept(s, t);
    WakeStep(s, t);
    SignalsStep(s, t);
    MainHeld(s, t, i);
  }

  /** A call that has just come. */
  function Arrived(s: State, rcpts: nat): State {
    s.(calls := s.calls + [Call(Enter, rcpts)])
  }

  lemma ArriveOwned(s: State, rcpts: nat)
    requires Owned(s) && rcpts > 0
    ensures Owned(Arrived(s, rcpts))
  {
    var t := Arrived(s, rcpts);
    forall i | 0 <= i < |t.calls| && t.calls[i].pc.At?
      ensures OwnsOk(t, i)
    {
      assert OwnsOk(s, i);
    }
    forall c | 0 <= c < |t.agents| && t.pool.conns[c].status == Busy
      ensures OwnedOk(t, c)
    {
      assert OwnedOk(s, c);
    }
  }

  lemma ArriveCounts(s: State, rcpts: nat)
    requires Counters(s)
    ensures Counters(Arrived(s, rcpts))
  {
    TotalAppend(Sleeping, s.calls, Call(Enter, rcpts));
    TotalAppend(Accounted, s.calls, Call(Enter, rcpts));
    TotalAppend(Pending, s.calls, Call(Enter, rcpts));
  }

  lemma ArriveWakes(s: State, rcpts: nat)
    requires Wake(s)
    ensures Wake(Arrived(s, rcpts))
  {
    var t := Arrived(s, rcpts);
    PendingKept(s, t);
    hide BroadcastPending;
    if !Full(t) {
      forall j | 0 <= j < |t.calls| && t.calls[j].pc == Asleep(false)
        ensures BroadcastPending(t)
      {
        assert s.calls[j].pc == Asleep(false);
      }
    }
  }

  lemma ArriveKeeps(s: State, rcpts: nat)
    requires Inv(s) && Enabled(s, Arrive(rcpts))
    ensures Inv(Arrived(s, rcpts))
  {
    var t := Arrived(s, rcpts);
    ListsSame(s, t);
    ConnsSame(s, t);
    SignalsStep(s, t);
    hide Lists, Owned, Conns, Wake, Signals, Counters;
    ArriveOwned(s, rcpts);
    ArriveCounts(s, rcpts);
    ArriveWakes(s, rcpts);
  }

  // ----- broadcasts and signals

  lemma BroadcastCore(s: State)
    requires Core(s)
    ensures Core(Broadcast(s))
  {
    var t := Broadcast(s);
    ListsSame(s, t);
    OwnedSame(s, t);
    ConnsSame(s, t);
  }

  lemma BroadcastCounts(s: State)
    requires Counters(s)
    ensures Counters(Broadcast(s))
  {
    var t := Broadcast(s);
    TotalSame(Sleeping, s.calls, t.calls);
    TotalSame(Accounted, s.calls, t.calls);
    TotalSame(Pending, s.calls, t.calls);
  }

  lemma BroadcastRest(s: State)
    requires Signals(s) && MainOk(s)
    ensures Signals(Broadcast(s)) && MainOk(Broadcast(s))
  {
    SignalsStep(s, Broadcast(s));
  }

  lemma BroadcastKeeps(s: State)
    requires Inv(s)
    ensures Core(Broadcast(s)) && Counters(Broadcast(s)) && Signals(Broadcast(s)) && MainOk(Broadcast(s))
    ensures forall j :: 0 <= j < |s.calls| ==> Broadcast(s).calls[j].pc != Asleep(false)
  {
    hide Lists, Owned, Conns, Counters, Signals, MainOk, Wake;
    BroadcastCore(s);
    BroadcastCounts(s);
    BroadcastRest(s);
  }

  lemma BroadcastIdleCore(s: State, i: nat)
    requires Core(Broadcast(s)) && Enabled(s, BroadcastIdle(i))
    ensures Core(DoBroadcastIdle(s, i))
  {
    UnownedCore(Broadcast(s), i, SignalConn(s.calls[i].pc.conn, true));
  }

  lemma BroadcastIdleRest(s: State, i: nat)
    requires Counters(Broadcast(s)) && Signals(Broadcast(s)) && MainOk(Broadcast(s)) && Enabled(s, BroadcastIdle(i))
    ensures Counters(DoBroadcastIdle(s, i)) && Rest(DoBroadcastIdle(s, i))
  {
    var t := DoBroadcastIdle(s, i);
    CountersStep(Broadcast(s), t, i);
    SignalsStep(Broadcast(s), t);
    NobodySleeps(t);
  }

  lemma NobodySleeps(t: State)
    requires forall j :: 0 <= j < |t.calls| ==> t.calls[j].pc != Asleep(false)
    ensures Wake(t)
  {
  }

  /** A keep-alive thread moves without touching its connection or any list. */
  lemma AgentCore(s: State, c: nat, pc: NoopPc)
    requires Core(s) && c < |s.agents| && Dead(pc) == Dead(s.agents[c].pc)
    requires ConnOk(SetAgent(s, c, pc), c)
    ensures Core(SetAgent(s, c, pc))
  {
    var t := SetAgent(s, c, pc);
    ListsSame(s, t);
    OwnedSame(s, t);
    ConnsExcept(s, t, |s.calls|, c);
  }

  lemma AgentOwned(s: State, c: nat, pc: NoopPc)
    requires Owned(s) && c < |s.agents|
    ensures Owned(SetAgent(s, c, pc))
  {
    OwnedSame(s, SetAgent(s, c, pc));
  }

  lemma NoopAnnounceCore(s: State, c: nat)
    requires Core(s) && AgentAt(s, c, Announce)
    ensures Core(SetAgent(s, c, Top))
  {
    AgentOwned(s, c, Top);
    assert ConnOk(s, c);
    AgentCore(s, c, Top);
  }

  lemma NoopEndCore(s: State, c: nat, pc: NoopPc)
    requires Core(s) && c < |s.agents| && Dead(pc) && Dead(s.agents[c].pc)
    ensures Core(SetAgent(s, c, pc))
  {
    AgentOwned(s, c, pc);
    assert ConnOk(s, c) && Listed(s.pool, s.agents[c], c);
    AgentCore(s, c, pc);
  }

  lemma CountersSame(s: State, t: State)
    requires Counters(s) && t.calls == s.calls && t.mark == s.mark && |t.pool.conns| == |s.pool.conns|
    requires t.pool.waiting == s.pool.waiting
    requires t.pool.totalSend == s.pool.totalSend && t.pool.todaySend == s.pool.todaySend
    requires forall c :: 0 <= c < |s.pool.conns| ==> t.pool.conns[c].sendCount == s.pool.conns[c].sendCount
    ensures Counters(t)
  {
    SendsSame(s, t);
  }

  lemma AgentRest(s: State, c: nat, pc: NoopPc)
    requires Signals(s) && MainOk(s) && c < |s.agents|
    requires pc == Parked(false) ==> s.pool.conns[c].status != Noop
    requires !Dead(pc) ==> !Dead(s.agents[c].pc)
    ensures Signals(SetAgent(s, c, pc)) && MainOk(SetAgent(s, c, pc))
  {
    SignalsStep(s, SetAgent(s, c, pc));
  }

  lemma NoopAnnounceKeeps(s: State, c: nat)
    requires Inv(s) && Enabled(s, NoopAnnounce(c))
    ensures Inv(SetAgent(Broadcast(s), c, Top))
  {
    BroadcastKeeps(s);
    NoopAnnounceCore(Broadcast(s), c);
    CountersSame(Broadcast(s), SetAgent(Broadcast(s), c, Top));
    AgentRest(Broadcast(s), c, Top);
    NobodySleeps(SetAgent(Broadcast(s), c, Top));
  }

  lemma {:induction false} NoopEndAnnounceKeeps(s: State, c: nat)
    requires Inv(s) && Enabled(s, NoopEndAnnounce(c))
    ensures Inv(SetAgent(Broadcast(s), c, Gone))
  {
    BroadcastKeeps(s);
    NoopEndCore(Broadcast(s), c, Gone);
    CountersSame(Broadcast(s), SetAgent(Broadcast(s), c, Gone));
    AgentRest(Broadcast(s), c, Gone);
    NobodySleeps(SetAgent(Broadcast(s), c, Gone));
  }

  /** The main thread wakes or falls asleep again; nothing else changes. */
  lemma MainMoves(s: State, main: MainPc)
    requires Inv(s) && main.Running? == s.main.Running?
    requires main.WaitEnd? == s.main.WaitEnd? && main.Drained? == s.main.Drained?
    ensures Inv(s.(main := main))
  {
    var t := s.(main := main);
    ListsSame(s, t);
    OwnedSame(s, t);
    ConnsSame(s, t);
    PendingKept(s, t);
    WakeStep(s, t);
    SignalsStep(s, t);
  }

  lemma NoopEndSignalKeeps(s: State, c: nat)
    requires Inv(s) && Enabled(s, NoopEndSignal(c))
    ensures Inv(SetAgent(s, c, EndAnnounce))
  {
    var t := SetAgent(s, c, EndAnnounce);
    NoopEndCore(s, c, EndAnnounce);
    CountersSame(s, t);
    AgentRest(s, c, EndAnnounce);
    assert Announcing(t.agents[c].pc);
  }

  lemma SignalCore(s: State, i: nat)
    requires Core(s) && Enabled(s, Signal(i))
    ensures Core(DoSignal(s, i))
  {
    var SignalConn(c, ret) := s.calls[i].pc;
    var u := SetCall(s, i, Done(ret));
    UnownedCore(s, i, Done(ret));
    if c < |s.agents| && s.agents[c].pc.Parked? {
      AgentOwned(u, c, Parked(true));
      assert ConnOk(u, c);
      AgentCore(u, c, Parked(true));
    }
  }

  lemma SignalCounts(s: State, i: nat)
    requires Counters(s) && Enabled(s, Signal(i))
    ensures Counters(DoSignal(s, i))
  {
    CountersStep(s, DoSignal(s, i), i);
  }

  lemma SignalRest(s: State, i: nat)
    requires Rest(s) && Enabled(s, Signal(i))
    ensures Rest(DoSignal(s, i))
  {
    var t := DoSignal(s, i);
    PendingKept(s, t);
    WakeStep(s, t);
    forall d | 0 <= d < |t.agents| && t.agents[d].pc == Parked(false) && t.pool.conns[d].status == Noop
      ensures SignalPending(t, d)
    {
      assert SignalPending(s, d);
      var j :| 0 <= j < |s.calls| && s.calls[j].pc.SignalConn? && s.calls[j].pc.conn == d;
      assert t.calls[j].pc == s.calls[j].pc;
    }
  }

  // ----- steps of a call on the connection it owns

  /** Call `i` stays on connection `c`; only its stage, the trace and the counts of `c` change. */
  lemma OwnerCore(s: State, t: State, i: nat, c: nat)
    requires Core(s) && CallAt(s, i) && CallAt(t, i) && s.calls[i].pc.conn == c == t.calls[i].pc.conn
    requires OnlyCall(s, t, i) && OnlyConn(s, t, c) && SameLists(s, t) && t.main == s.main
    requires t.agents[c].holder == s.agents[c].holder && t.pool.conns[c].status == Busy
    requires HeldOk(s.cfg, t.calls[i].pc.stage, t.pool.conns[c], t.agents[c].pc, S.Summary(t.agents[c].trace))
    ensures Core(t)
  {
    assert OwnsOk(s, i);
    ListsSame(s, t);
    assert OwnsOk(t, i);
    OwnedStep(s, t, i, c);
    ConnsExcept(s, t, i, c);
  }

  lemma OwnerRest(s: State, t: State, i: nat)
    requires Rest(s) && CallAt(s, i) && CallAt(t, i) && OnlyCall(s, t, i) && SameLists(s, t) && t.main == s.main
    requires forall c :: 0 <= c < |s.agents| ==> t.agents[c].pc == s.agents[c].pc
    ensures Rest(t)
  {
    PendingKept(s, t);
    WakeStep(s, t);
    SignalsStep(s, t);
    MainHeld(s, t, i);
  }

  lemma Held(s: State, i: nat)
    requires Core(s) && CallAt(s, i)
    ensures var c := s.calls[i].pc.conn;
      && Live(s, c) && c in s.pool.busy && s.pool.conns[c].status == Busy && s.agents[c].holder == i
      && HeldOk(s.cfg, s.calls[i].pc.stage, s.pool.conns[c], s.agents[c].pc, S.Summary(s.agents[c].trace))
  {
    var c := s.calls[i].pc.conn;
    assert OwnsOk(s, i) && Listed(s.pool, s.agents[c], c) && ConnOk(s, c);
  }

  lemma ClearNoopCore(s: State, i: nat)
    requires Core(s) && Enabled(s, ClearNoop(i))
    ensures Safe(s, ClearNoop(i)) && Core(DoClearNoop(s, i))
  {
    Held(s, i);
    OwnerCore(s, DoClearNoop(s, i), i, s.calls[i].pc.conn);
  }

  lemma ClearNoopRest(s: State, i: nat)
    requires Counters(s) && Rest(s) && Enabled(s, ClearNoop(i)) && Safe(s, ClearNoop(i))
    ensures Counters(DoClearNoop(s, i)) && Rest(DoClearNoop(s, i))
  {
    var t := DoClearNoop(s, i);
    CountersStep(s, t, i);
    SendsSame(s, t);
    OwnerRest(s, t, i);
  }

  lemma ExchangeHeld(cfg: Config, g: Stage, rcpts: nat, ok: bool, conn: Conn, pc: NoopPc, d: S.Digest)
    requires HeldOk(cfg, g, conn, pc, d) && Talking(g) && rcpts > 0
    ensures HeldOk(cfg, if ok then After(g, rcpts) else Retiring(false), conn, pc, S.Feed(d, S.Said(Spoken(g), ok)))
  {
  }

  lemma ExchangeCore(s: State, i: nat, ok: bool)
    requires Core(s) && Enabled(s, Exchange(i, ok))
    ensures Safe(s, Exchange(i, ok)) && Core(DoExchange(s, i, ok))
  {
    Held(s, i);
    var At(c, g) := s.calls[i].pc;
    var t := DoExchange(s, i, ok);
    S.SummaryAppend(s.agents[c].trace, S.Said(Spoken(g), ok));
    ExchangeHeld(s.cfg, g, s.calls[i].rcpts, ok, s.pool.conns[c], s.agents[c].pc, S.Summary(s.agents[c].trace));
    OwnerCore(s, t, i, c);
  }

  lemma ExchangeRest(s: State, i: nat, ok: bool)
    requires Counters(s) && Rest(s) && Enabled(s, Exchange(i, ok)) && Safe(s, Exchange(i, ok))
    ensures Counters(DoExchange(s, i, ok)) && Rest(DoExchange(s, i, ok))
  {
    ExchangeCounts(s, i, ok);
    hide Counters;
    OwnerRest(s, DoExchange(s, i, ok), i);
    hide Rest;
  }

  lemma ExchangeCounts(s: State, i: nat, ok: bool)
    requires Counters(s) && Enabled(s, Exchange(i, ok)) && Safe(s, Exchange(i, ok))
    ensures Counters(DoExchange(s, i, ok))
  {
    CountersStep(s, DoExchange(s, i, ok), i);
  }

  lemma CountCore(s: State, i: nat)
    requires Core(s) && Enabled(s, Count(i))
    ensures Safe(s, Count(i)) && Core(DoCount(s, i))
  {
    Held(s, i);
    OwnerCore(s, DoCount(s, i), i, s.calls[i].pc.conn);
  }

  lemma CountRest(s: State, i: nat)
    requires Counters(s) && Rest(s) && Enabled(s, Count(i)) && Safe(s, Count(i))
    ensures Counters(DoCount(s, i)) && Rest(DoCount(s, i))
  {
    var c := s.calls[i].pc.conn;
    var t := DoCount(s, i);
    CountersStep(s, t, i);
    TotalUpdate(SendCount, s.pool.conns, c, t.pool.conns[c]);
    OwnerRest(s, t, i);
  }

  // ----- steps of a keep-alive thread

  /** What holds where the keep-alive thread works on its connection. */
  lemma Kept(s: State, c: nat)
    requires Core(s) && c < |s.agents| && !s.agents[c].pc.Top? && !s.agents[c].pc.Parked? && !s.agents[c].pc.Announce?
    ensures s.pool.conns[c].status == Noop
    ensures FreeOk(s.cfg, Ending(s), s.pool.conns[c], s.agents[c].pc, S.Summary(s.agents[c].trace))
    ensures !Dead(s.agents[c].pc) ==> Live(s, c) && c in s.pool.noop
  {
    assert ConnOk(s, c) && Listed(s.pool, s.agents[c], c);
  }

  /** The thread of `c`, which no call owns before or after, changes `c` and leaves the lists alone. */
  lemma KeeperCore(s: State, t: State, c: nat)
    requires Core(s) && OnlyConn(s, t, c) && SameLists(s, t) && t.main == s.main && t.calls == s.calls
    requires t.pool.conns[c].status == Noop && t.agents[c].holder == s.agents[c].holder
    requires FreeOk(t.cfg, Ending(t), t.pool.conns[c], t.agents[c].pc, S.Summary(t.agents[c].trace))
    ensures Core(t)
  {
    ListsSame(s, t);
    OwnedSame(s, t);
    ConnsExcept(s, t, |s.calls|, c);
  }

  lemma KeeperRest(s: State, t: State, c: nat)
    requires Rest(s) && OnlyConn(s, t, c) && t.calls == s.calls && t.main == s.main
    requires !Dead(s.agents[c].pc) && !Announcing(s.agents[c].pc)
    requires t.agents[c].pc == Parked(false) ==> t.pool.conns[c].status != Noop
    requires t.pool.conns[c].endFlag == s.pool.conns[c].endFlag
    requires Unfinished(t) <= Unfinished(s)
    requires Announcing(t.agents[c].pc) || (Full(s) ==> Full(t))
    requires Announcing(t.agents[c].pc) || (Full(t) <==> Full(s)) || !Full(s)
    ensures Rest(t)
  {
    assert Announcing(t.agents[c].pc) ==> BroadcastPending(t);
    PendingKept(s, t);
    WakeStep(s, t);
    SignalsStep(s, t);
  }

  lemma NoopCountCore(s: State, c: nat)
    requires Core(s) && Enabled(s, NoopCount(c))
    ensures Safe(s, NoopCount(c)) && Core(DoNoopCount(s, c))
  {
    Kept(s, c);
    KeeperCore(s, DoNoopCount(s, c), c);
  }

  lemma NoopCountRest(s: State, c: nat)
    requires Counters(s) && Rest(s) && Enabled(s, NoopCount(c)) && Safe(s, NoopCount(c))
    ensures Counters(DoNoopCount(s, c)) && Rest(DoNoopCount(s, c))
  {
    CountersSame(s, DoNoopCount(s, c));
    KeeperRest(s, DoNoopCount(s, c), c);
  }

  lemma {:induction false} NoopCountKeeps(s: State, c: nat)
    requires Inv(s) && Enabled(s, NoopCount(c))
    ensures Safe(s, NoopCount(c)) && Inv(DoNoopCount(s, c))
  {
    hide Lists, Owned, Conns, Wake, Signals, Counters, MainOk;
    NoopCountCore(s, c);
    NoopCountRest(s, c);
  }

  lemma NoopExchangeFree(cfg: Config, ending: bool, conn: Conn, ok: bool, d: S.Digest)
    requires conn.status == Noop && FreeOk(cfg, ending, conn, Counted, d)
    ensures FreeOk(cfg, ending, conn, if !ok || conn.noopCount == cfg.maxNoop then Closing else Returning,
                   S.Feed(d, S.Said(S.Noop, ok)))
  {
  }

  /** The thread of `c` says something on its connection and moves on. */
  ghost predicate Speaks(s: State, t: State, c: nat, e: S.Event, pc: NoopPc) {
    && OnlyConn(s, t, c) && SameLists(s, t) && t.main == s.main && t.calls == s.calls
    && t.pool.conns == s.pool.conns && t.agents[c] == Agent(pc, s.agents[c].holder, s.agents[c].trace + [e])
  }

  lemma SpeakCore(s: State, t: State, c: nat, e: S.Event, pc: NoopPc)
    requires Core(s) && Speaks(s, t, c, e, pc) && s.pool.conns[c].status == Noop
    requires FreeOk(s.cfg, Ending(s), s.pool.conns[c], pc, S.Feed(S.Summary(s.agents[c].trace), e))
    ensures Core(t)
  {
    S.SummaryAppend(s.agents[c].trace, e);
    hide Core, FreeOk, SameLists, S.Summary, S.Feed;
    KeeperCore(s, t, c);
  }

  lemma NoopExchangeSpeaks(s: State, c: nat, ok: bool)
    requires |s.agents| == |s.pool.conns| && Live(s, c) && s.agents[c].pc.Counted?
    ensures var next := if !ok || s.pool.conns[c].noopCount == s.cfg.maxNoop then Closing else Returning;
      Speaks(s, DoNoopExchange(s, c, ok), c, S.Said(S.Noop, ok), next)
  {
  }

  lemma NoopExchangeCore(s: State, c: nat, ok: bool)
    requires Core(s) && Enabled(s, NoopExchange(c, ok))
    ensures Safe(s, NoopExchange(c, ok)) && Core(DoNoopExchange(s, c, ok))
  {
    Kept(s, c);
    NoopExchangeSpeaks(s, c, ok);
    hide Core, Speaks, FreeOk;
    NoopExchangeFree(s.cfg, Ending(s), s.pool.conns[c], ok, S.Summary(s.agents[c].trace));
    var next := if !ok || s.pool.conns[c].noopCount == s.cfg.maxNoop then Closing else Returning;
    SpeakCore(s, DoNoopExchange(s, c, ok), c, S.Said(S.Noop, ok), next);
  }

  lemma NoopExchangeRest(s: State, c: nat, ok: bool)
    requires Counters(s) && Rest(s) && Enabled(s, NoopExchange(c, ok)) && Safe(s, NoopExchange(c, ok))
    ensures Counters(DoNoopExchange(s, c, ok)) && Rest(DoNoopExchange(s, c, ok))
  {
    var t := DoNoopExchange(s, c, ok);
    CountersSame(s, t);
    KeeperRest(s, t, c);
  }

  lemma NoopCloseCore(s: State, c: nat)
    requires Core(s) && Enabled(s, NoopClose(c))
    ensures Core(SetAgent(Say(s, c, S.Closed), c, Unlinking))
  {
    Kept(s, c);
    var t := SetAgent(Say(s, c, S.Closed), c, Unlinking);
    assert Speaks(s, t, c, S.Closed, Unlinking);
    hide Core, Speaks;
    SpeakCore(s, t, c, S.Closed, Unlinking);
  }

  lemma NoopCloseRest(s: State, c: nat)
    requires Counters(s) && Rest(s) && Enabled(s, NoopClose(c)) && |s.agents| == |s.pool.conns|
    ensures Counters(SetAgent(Say(s, c, S.Closed), c, Unlinking))
    ensures Rest(SetAgent(Say(s, c, S.Closed), c, Unlinking))
  {
    var t := SetAgent(Say(s, c, S.Closed), c, Unlinking);
    CountersSame(s, t);
    KeeperRest(s, t, c);
  }

  lemma {:induction false} NoopCloseKeeps(s: State, c: nat)
    requires Inv(s) && Enabled(s, NoopClose(c))
    ensures Inv(SetAgent(Say(s, c, S.Closed), c, Unlinking))
  {
    hide Lists, Owned, Conns, Wake, Signals, Counters, MainOk;
    SameSize(s);
    NoopCloseCore(s, c);
    NoopCloseRest(s, c);
  }

  lemma SameSize(s: State)
    requires Inv(s)
    ensures |s.agents| == |s.pool.conns|
  {
  }

  lemma UnlinkCore(s: State, t: State, c: nat)
    requires Core(s) && OnlyConn(s, t, c) && c in s.pool.noop && t.pool == Unlink(s.pool, c)
    requires t.main == s.main && t.calls == s.calls && t.agents[c].holder == s.agents[c].holder
    requires t.agents[c].pc == EndSignal
    requires FreeOk(t.cfg, Ending(t), t.pool.conns[c], t.agents[c].pc, S.Summary(t.agents[c].trace))
    ensures Core(t)
  {
    ListsUnlinked(s, t, c);
    OwnedSame(s, t);
    ConnsExcept(s, t, |s.calls|, c);
  }

  lemma NoopUnlinkKeeps(s: State, c: nat)
    requires Inv(s) && Enabled(s, NoopUnlink(c))
    ensures Safe(s, NoopUnlink(c)) && Inv(Apply(s, NoopUnlink(c)))
  {
    Kept(s, c);
    var t := SetAgent(s, c, EndSignal).(pool := Unlink(s.pool, c));
    UnlinkCore(s, t, c);
    CountersSame(s, t);
    KeeperRest(s, t, c);
  }

  lemma EndCore(s: State, c: nat)
    requires Core(s) && c < |s.agents| && c in s.pool.noop
    requires S.Summary(s.agents[c].trace).phase.Delivered? || S.Summary(s.agents[c].trace).phase.Broken?
    requires FreeOk(s.cfg, Ending(s), s.pool.conns[c], s.agents[c].pc, S.Summary(s.agents[c].trace))
    ensures Core(End(s, c))
  {
    var t := End(s, c);
    S.SummaryAppend(s.agents[c].trace, S.Closed);
    UnlinkCore(s, t, c);
  }

  lemma GiveBackCore(s: State, c: nat)
    requires Core(s) && Enabled(s, NoopReturn(c)) && Safe(s, NoopReturn(c)) && !s.pool.conns[c].endFlag
    ensures Core(DoNoopReturn(s, c))
  {
    Kept(s, c);
    var t := DoNoopReturn(s, c);
    GiveBackMoves(s.pool, c);
    ListsMoved(s, t, c, Noop, Idle);
    OwnedSame(s, t);
    ConnsExcept(s, t, |s.calls|, c);
  }

  lemma NoopReturnCore(s: State, c: nat)
    requires Core(s) && Enabled(s, NoopReturn(c))
    ensures Safe(s, NoopReturn(c)) && Core(DoNoopReturn(s, c))
  {
    Kept(s, c);
    hide Core, S.Summary;
    if s.pool.conns[c].endFlag {
      EndCore(s, c);
    } else {
      GiveBackCore(s, c);
    }
  }

  lemma NoopReturnRest(s: State, c: nat)
    requires Counters(s) && Rest(s) && Enabled(s, NoopReturn(c)) && Safe(s, NoopReturn(c))
    ensures Counters(DoNoopReturn(s, c)) && Rest(DoNoopReturn(s, c))
  {
    var t := DoNoopReturn(s, c);
    CountersSame(s, t);
    KeeperRest(s, t, c);
  }

  /** What the keep-alive thread finds when it gets the mutex at the top of its loop. */
  lemma AtTop(s: State, c: nat)
    requires Core(s) && c < |s.agents| && (s.agents[c].pc.Top? || s.agents[c].pc.Parked?)
    ensures Live(s, c) && Listed(s.pool, s.agents[c], c) && ConnOk(s, c)
  {
    assert Listed(s.pool, s.agents[c], c);
  }

  lemma ParkCore(s: State, c: nat)
    requires Core(s) && c < |s.agents| && (s.agents[c].pc.Top? || s.agents[c].pc.Parked?)
    ensures Core(SetAgent(s, c, Parked(false)))
  {
    AtTop(s, c);
    AgentOwned(s, c, Parked(false));
    AgentCore(s, c, Parked(false));
  }

  lemma GrabCore(s: State, c: nat)
    requires Core(s) && c < |s.agents| && (s.agents[c].pc.Top? || s.agents[c].pc.Parked?)
    requires s.pool.conns[c].status == Idle && c in s.pool.idle
    ensures Core(SetAgent(s.(pool := Grab(s.pool, c)), c, Nooping))
  {
    AtTop(s, c);
    var t := SetAgent(s.(pool := Grab(s.pool, c)), c, Nooping);
    GrabMoves(s.pool, c);
    ListsMoved(s, t, c, Idle, Noop);
    OwnedSame(s, t);
    ConnsExcept(s, t, |s.calls|, c);
  }

  lemma NoopLockCore(s: State, c: nat)
    requires Core(s) && Enabled(s, NoopLock(c))
    ensures Safe(s, NoopLock(c)) && Core(DoNoopLock(s, c))
  {
    AtTop(s, c);
    var conn := s.pool.conns[c];
    if conn.status == Busy || (conn.status == Idle && s.pool.waiting > 0) {
      ParkCore(s, c);
    } else if conn.status == Idle {
      GrabCore(s, c);
      var t := SetAgent(s.(pool := Grab(s.pool, c)), c, Nooping);
      if conn.endFlag {
        AtGrabbed(s, t, c);
        EndCore(t, c);
        assert DoNoopLock(s, c) == End(t, c);
      }
    } else {
      EndCore(s, c);
    }
  }

  lemma AtGrabbed(s: State, t: State, c: nat)
    requires Core(s) && c < |s.agents| && (s.agents[c].pc.Top? || s.agents[c].pc.Parked?)
    requires s.pool.conns[c].status == Idle && c in s.pool.idle
    requires t == SetAgent(s.(pool := Grab(s.pool, c)), c, Nooping)
    ensures c in t.pool.noop && S.Summary(t.agents[c].trace).phase.Delivered?
    ensures FreeOk(t.cfg, Ending(t), t.pool.conns[c], t.agents[c].pc, S.Summary(t.agents[c].trace))
  {
    AtTop(s, c);
  }

  lemma NoopLockRest(s: State, c: nat)
    requires Counters(s) && Rest(s) && Enabled(s, NoopLock(c)) && Safe(s, NoopLock(c))
    ensures Counters(DoNoopLock(s, c)) && Rest(DoNoopLock(s, c))
  {
    var t := DoNoopLock(s, c);
    CountersSame(s, t);
    KeeperRest(s, t, c);
  }

  // ----- the main thread and the timer

  lemma ResetKeeps(s: State)
    requires Inv(s)
    ensures Inv(Apply(s, ResetToday))
  {
    var t := s.(pool := s.pool.(todaySend := 0), mark := s.pool.totalSend);
    ListsSame(s, t);
    OwnedSame(s, t);
    ConnsSame(s, t);
    PendingKept(s, t);
    WakeStep(s, t);
    SignalsStep(s, t);
  }

  lemma NobodyLeft(s: State)
    requires Core(s) && Counters(s) && s.pool.busy == [] && s.pool.waiting <= 0
    ensures forall i :: 0 <= i < |s.calls| ==> !s.calls[i].pc.At? && !s.calls[i].pc.Asleep?
  {
    TotalZero(Sleeping, s.calls);
    forall i | 0 <= i < |s.calls|
      ensures !s.calls[i].pc.At? && !s.calls[i].pc.Asleep?
    {
      assert Sleeping(s.calls[i]) == 0;
      if s.calls[i].pc.At? {
        Held(s, i);
      }
    }
  }

  lemma FlagCore(s: State, t: State)
    requires Core(s) && s.pool.busy == [] && t == s.(pool := Flag(s.pool), main := t.main) && Ending(t)
    ensures Core(t)
  {
    FlagKeeps(s.pool);
    ListsSame(s, t);
    OwnedSame(s, t);
    forall c | 0 <= c < |t.agents|
      ensures ConnOk(t, c)
    {
      assert ConnOk(s, c) && Listed(s.pool, s.agents[c], c);
    }
  }

  lemma FlagRest(s: State, t: State)
    requires Core(s) && Counters(s) && Rest(s) && s.pool.busy == [] && s.pool.waiting <= 0
    requires NobodyEnters(s)
    requires t == s.(pool := Flag(s.pool), main := if Unfinished(s) > 0 then WaitEnd(false) else Drained)
    ensures Counters(t) && Rest(t)
  {
    NobodyLeft(s);
    CountersSame(s, t);
    PendingKept(s, t);
    WakeStep(s, t);
    SignalsStep(s, t);
    forall c | 0 <= c < |t.agents| && !Dead(t.agents[c].pc)
      ensures t.pool.conns[c].endFlag
    {
      assert Listed(s.pool, s.agents[c], c);
    }
  }

  lemma MainLockKeeps(s: State)
    requires Inv(s) && Enabled(s, MainLock)
    ensures Inv(DoMainLock(s))
  {
    if s.pool.busy != [] || s.pool.waiting > 0 {
      MainSleeps(s);
    } else {
      FlagCore(s, DoMainLock(s));
      FlagRest(s, DoMainLock(s));
    }
  }

  lemma MainSleeps(s: State)
    requires Inv(s) && Enabled(s, MainLock)
    ensures Inv(s.(main := WaitIdle(false)))
  {
    var t := s.(main := WaitIdle(false));
    ListsSame(s, t);
    OwnedSame(s, t);
    ConnsSame(s, t);
    PendingKept(s, t);
    WakeStep(s, t);
    SignalsStep(s, t);
  }

  lemma {:induction false} MainCheckKeeps(s: State)
    requires Inv(s) && Enabled(s, MainCheck)
    ensures Inv(Apply(s, MainCheck))
  {
    var t := s.(main := if Unfinished(s) > 0 then WaitEnd(false) else Drained);
    ListsSame(s, t);
    OwnedSame(s, t);
    ConnsSame(s, t);
    PendingKept(s, t);
    WakeStep(s, t);
    SignalsStep(s, t);
  }

  lemma {:induction false} SpuriousNoopKeeps(s: State, c: nat)
    requires Inv(s) && Enabled(s, SpuriousNoop(c))
    ensures Inv(SetAgent(s, c, Parked(true)))
  {
    var t := SetAgent(s, c, Parked(true));
    AtTop(s, c);
    AgentOwned(s, c, Parked(true));
    AgentCore(s, c, Parked(true));
    CountersSame(s, t);
    KeeperRest(s, t, c);
  }

  // ----- all of them

  lemma {:induction false} CallStepKeeps(s: State, a: Action)
    requires Inv(s) && Enabled(s, a)
    requires || a.Lock? || a.Resume? || a.ClearNoop? || a.Exchange?
             || a.Count? || a.Unhold? || a.Signal? || a.BroadcastIdle?
    ensures Safe(s, a) && Inv(Apply(s, a))
  {
    hide Lists, Owned, Conns, Wake, Counters, MainOk;
    match a
    case Lock(i, connected) => LockKeeps(s, i, connected); LockCounts(s, i, connected); LockWakes(s, i, connected);
    case Resume(i, connected) =>
      ResumeKeeps(s, i, connected);
      ResumeCounts(s, i, connected);
      ResumeWakes(s, i, connected);
    case ClearNoop(i) => ClearNoopCore(s, i); ClearNoopRest(s, i);
    case Exchange(i, ok) => ExchangeCore(s, i, ok); ExchangeRest(s, i, ok);
    case Count(i) => CountCore(s, i); CountRest(s, i);
    case Unhold(i) => UnholdKeeps(s, i); UnholdCounts(s, i); UnholdWakes(s, i);
    case BroadcastIdle(i) => BroadcastKeeps(s); BroadcastIdleCore(s, i); BroadcastIdleRest(s, i);
    case Signal(i) => SignalCore(s, i); SignalCounts(s, i); SignalRest(s, i);
  }

  lemma OtherStepKeeps(s: State, a: Action)
    requires Inv(s) && Enabled(s, a)
    requires a.Arrive? || a.Timeout? || a.SpuriousCall? || a.ResetToday?
    ensures Safe(s, a) && Inv(Apply(s, a))
  {
    hide Lists, Owned, Conns, Wake, Signals, Counters, MainOk;
    match a
    case Arrive(rcpts) => ArriveKeeps(s, rcpts);
    case Timeout(i) => QuietCallKeeps(s, DoTimeout(s, i), i);
    case SpuriousCall(i) => QuietCallKeeps(s, SetCall(s, i, Asleep(true)), i);
    case ResetToday => ResetKeeps(s);
  }

  lemma MainStepKeeps(s: State, a: Action)
    requires Inv(s) && Enabled(s, a)
    requires a.MainLock? || a.MainCheck? || a.SpuriousMain?
    ensures Safe(s, a) && Inv(Apply(s, a))
  {
    hide Lists, Owned, Conns, Wake, Signals, Counters, MainOk;
    match a
    case MainLock => MainLockKeeps(s);
    case MainCheck => MainCheckKeeps(s);
    case SpuriousMain => MainMoves(s, if s.main.WaitIdle? then WaitIdle(true) else WaitEnd(true));
  }

  lemma NoopStepKeeps(s: State, a: Action)
    requires Inv(s) && Enabled(s, a)
    requires !a.Lock? && !a.Resume? && !a.ClearNoop? && !a.Exchange?
    requires !a.Count? && !a.Unhold? && !a.Signal? && !a.BroadcastIdle?
    requires !a.Arrive? && !a.Timeout? && !a.SpuriousCall? && !a.ResetToday?
    requires !a.MainLock? && !a.MainCheck? && !a.SpuriousMain?
    ensures Safe(s, a) && Inv(Apply(s, a))
  {
    hide Lists, Owned, Conns, Wake, Signals, Counters, MainOk;
    match a
    case NoopLock(c) => NoopLockCore(s, c); NoopLockRest(s, c);
    case NoopCount(c) => NoopCountKeeps(s, c);
    case NoopExchange(c, ok) => NoopExchangeCore(s, c, ok); NoopExchangeRest(s, c, ok);
    case NoopClose(c) => NoopCloseKeeps(s, c);
    case NoopUnlink(c) => NoopUnlinkKeeps(s, c);
    case NoopReturn(c) => NoopReturnCore(s, c); NoopReturnRest(s, c);
    case NoopAnnounce(c) => NoopAnnounceKeeps(s, c);
    case NoopEndSignal(c) =>
      NoopEndSignalKeeps(s, c);
      MainMoves(SetAgent(s, c, EndAnnounce), Apply(s, a).main);
    case NoopEndAnnounce(c) => NoopEndAnnounceKeeps(s, c);
    case SpuriousNoop(c) => SpuriousNoopKeeps(s, c);
  }

  /** An enabled step is safe to take, and leads to a state that satisfies the invariant again. */
  lemma StepKeeps(s: State, a: Action)
    requires Inv(s) && Enabled(s, a)
    ensures Safe(s, a) && Inv(Apply(s, a))
  {
    hide Lists, Owned, Conns, Wake, Signals, Counters, MainOk;
    if a.Lock? || a.Resume? || a.ClearNoop? || a.Exchange? || a.Count? || a.Unhold? || a.Signal? || a.BroadcastIdle? {
      CallStepKeeps(s, a);
    } else if a.Arrive? || a.Timeout? || a.SpuriousCall? || a.ResetToday? {
      OtherStepKeeps(s, a);
    } else if a.MainLock? || a.MainCheck? || a.SpuriousMain? {
      MainStepKeeps(s, a);
    } else {
      NoopStepKeeps(s, a);
    }
  }

  lemma {:induction false} RunKeeps(cfg: Config, run: seq<Action>)
    requires cfg.maxConn >= 1 && IsRun(cfg, run)
    ensures Inv(Final(cfg, run))
  {
    if run == [] {
      Initially(cfg);
    } else {
      RunKeeps(cfg, run[..|run| - 1]);
      StepKeeps(Final(cfg, run[..|run| - 1]), run[|run| - 1]);
    }
  }
}
