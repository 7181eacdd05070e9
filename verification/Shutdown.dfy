/**
 The second loop of `abortTpConns`, from the moment every connection is told to end: how it goes on, where it comes
 to rest, and when it ends. Abort.dfy adds the first loop.
 */
module Shutdown {
  import opened Sequences
  import opened Pool
  import opened System
  import opened Invariant
  import opened Steps
  import S = Session

  /** With no client in the transport, no connection is busy and nobody waits. */
  lemma QuietWithoutClients(cfg: Config, run: seq<Action>)
    requires cfg.maxConn >= 1 && IsRun(cfg, run)
    requires forall i :: 0 <= i < |Final(cfg, run).calls| ==> Final(cfg, run).calls[i].pc.Done?
    ensures Final(cfg, run).pool.busy == [] && Final(cfg, run).pool.waiting == 0
  {
    RunKeeps(cfg, run);
    var s := Final(cfg, run);
    NoneBusy(s);
    TotalZero(Sleeping, s.calls);
  }

  lemma NoneBusy(s: State)
    requires Core(s) && forall i :: 0 <= i < |s.calls| ==> !s.calls[i].pc.At?
    ensures s.pool.busy == []
  {
    if s.pool.busy != [] {
      BusyHasOwner(s, 0);
    }
  }

  lemma BusyHasOwner(s: State, k: nat)
    requires Core(s) && k < |s.pool.busy|
    ensures exists i: nat :: CallAt(s, i)
  {
    var c := s.pool.busy[k];
    assert c in s.pool.busy;
    assert OwnedOk(s, c);
    assert CallAt(s, s.agents[c].holder);
  }

  // ----- every step towards the end is one of finitely many

  /** How many steps a keep-alive thread has left once its connection is told to end, at most. */
  function Rank(a: Agent): int {
    match a.pc
    case Gone => 0
    case EndAnnounce => 1
    case EndSignal => 2
    case Unlinking => 3
    case Returning => 3
    case Top => 3
    case Parked(woken) => if woken then 3 else 4
    case Closing => 4
    case Announce => 4
    case Counted => 5
    case Nooping => 6
  }

  function CallRank(c: Call): int {
    match c.pc
    case AnnounceIdle(_) => 2
    case SignalConn(_, _) => 1
    case _ => 0
  }

  ghost function Measure(s: State): int {
    2 * Total(Rank, s.agents) + 2 * Total(CallRank, s.calls) + if s.main == WaitEnd(true) then 1 else 0
  }

  /** A step that some thread takes of its own accord, not the timer and not a spurious wakeup of main. */
  predicate Progress(a: Action) { !a.ResetToday? && !a.SpuriousMain? }

  /** The steps that are left once every connection is told to end. */
  lemma EndingSteps(s: State, a: Action)
    requires Inv(s) && Ending(s) && Enabled(s, a) && Progress(a)
    ensures || a.BroadcastIdle? || a.Signal? || a.MainCheck? || a.SpuriousNoop?
            || a.NoopLock? || a.NoopCount? || a.NoopExchange? || a.NoopClose? || a.NoopUnlink?
            || a.NoopReturn? || a.NoopAnnounce? || a.NoopEndSignal? || a.NoopEndAnnounce?
  {
    if a.Arrive? || a.MainLock? || a.SpuriousCall? || a.Lock? || a.Resume? || a.Timeout? {
      assert false;
    }
  }

  lemma CallFalls(s: State, t: State, i: nat)
    requires OnlyCall(s, t, i) && CallRank(t.calls[i]) < CallRank(s.calls[i])
    ensures Total(CallRank, t.calls) < Total(CallRank, s.calls)
  {
    assert t.calls == s.calls[i := t.calls[i]];
    TotalUpdate(CallRank, s.calls, i, t.calls[i]);
  }

  lemma AgentFalls(s: State, t: State, c: nat)
    requires c < |s.agents| == |t.agents| && t.agents == s.agents[c := t.agents[c]]
    ensures Total(Rank, t.agents) == Total(Rank, s.agents) - Rank(s.agents[c]) + Rank(t.agents[c])
  {
    TotalUpdate(Rank, s.agents, c, t.agents[c]);
  }

  lemma SignalFalls(s: State, i: nat)
    requires Enabled(s, Signal(i))
    ensures Measure(DoSignal(s, i)) < Measure(s)
  {
    var t := DoSignal(s, i);
    var c := s.calls[i].pc.conn;
    CallFalls(s, t, i);
    if c < |s.agents| && s.agents[c].pc.Parked? {
      AgentFalls(s, t, c);
    }
  }

  /** The agent of `c` moved nearer to its end; nothing was put on the idle list. */
  ghost predicate Nearer(s: State, t: State, c: nat) {
    && c < |s.agents| == |t.agents| && t.agents == s.agents[c := t.agents[c]]
    && Rank(t.agents[c]) < Rank(s.agents[c]) && t.agents[c].pc != Parked(false)
    && |t.pool.conns| == |s.pool.conns|
    && (forall d :: 0 <= d < |s.pool.conns| && d != c ==> t.pool.conns[d] == s.pool.conns[d])
    && t.calls == s.calls
    && (t.pool.idle == s.pool.idle || (c in s.pool.idle && t.pool.idle == Without(s.pool.idle, c)))
  }

  lemma EndNears(s: State, t: State, c: nat)
    requires |s.agents| == |s.pool.conns| && c < |s.agents| && Rank(s.agents[c]) > 2 && c in s.pool.noop
    requires t == End(s, c)
    ensures Nearer(s, t, c) && t.main == s.main
  {
  }

  lemma EndAfterGrabNears(s: State, t: State, c: nat)
    requires |s.agents| == |s.pool.conns| && c < |s.agents| && Rank(s.agents[c]) > 2 && c in s.pool.idle
    requires c in Grab(s.pool, c).noop && t == End(s.(pool := Grab(s.pool, c)), c)
    ensures Nearer(s, t, c) && t.main == s.main
  {
  }

  lemma NoopLockFalls(s: State, c: nat)
    requires Core(s) && MainOk(s) && Ending(s) && s.pool.waiting == 0 && s.pool.busy == []
    requires Enabled(s, NoopLock(c)) && Safe(s, NoopLock(c))
    ensures Nearer(s, DoNoopLock(s, c), c) && DoNoopLock(s, c).main == s.main
  {
    AtTop(s, c);
    hide Core, Nearer, End;
    var t := DoNoopLock(s, c);
    assert s.pool.conns[c].endFlag && s.pool.conns[c].status != Busy;
    if s.pool.conns[c].status == Idle {
      assert c in Grab(s.pool, c).noop && t == End(s.(pool := Grab(s.pool, c)), c);
      EndAfterGrabNears(s, t, c);
    } else {
      EndNears(s, t, c);
    }
  }

  lemma NoopReturnFalls(s: State, c: nat)
    requires Core(s) && MainOk(s) && Ending(s)
    requires Enabled(s, NoopReturn(c)) && Safe(s, NoopReturn(c))
    ensures Nearer(s, DoNoopReturn(s, c), c) && DoNoopReturn(s, c).main == s.main
  {
  }

  /** The other steps of a keep-alive thread, broadcasts aside. */
  predicate KeeperStep(a: Action) {
    a.NoopCount? || a.NoopExchange? || a.NoopClose? || a.NoopUnlink? || a.NoopEndSignal? || a.SpuriousNoop?
  }

  lemma KeeperFalls(s: State, a: Action)
    requires Enabled(s, a) && Safe(s, a) && KeeperStep(a)
    ensures Nearer(s, Apply(s, a), a.c)
    ensures Apply(s, a).main == s.main || a.NoopEndSignal?
  {
  }

  lemma NearerMeasure(s: State, t: State, c: nat)
    requires Nearer(s, t, c)
    ensures Total(Rank, t.agents) < Total(Rank, s.agents)
  {
    AgentFalls(s, t, c);
  }

  lemma BroadcastRanks(s: State)
    ensures Total(CallRank, Broadcast(s).calls) == Total(CallRank, s.calls)
  {
    TotalSame(CallRank, s.calls, Broadcast(s).calls);
  }

  lemma NothingHeld(s: State)
    requires Inv(s) && Ending(s)
    ensures s.pool.waiting == 0 && s.pool.busy == []
  {
    TotalZero(Sleeping, s.calls);
    NoneBusy(s);
  }

  ghost predicate Drains(s: State, t: State) {
    && Measure(t) < Measure(s)
    && (t.pool.idle == s.pool.idle || exists c :: c in s.pool.idle && t.pool.idle == Without(s.pool.idle, c))
  }

  lemma CallStepDrains(s: State, a: Action)
    requires Ending(s) && Enabled(s, a) && (a.BroadcastIdle? || a.Signal?)
    ensures Drains(s, Apply(s, a))
  {
    if a.Signal? {
      SignalFalls(s, a.i);
    } else {
      BroadcastRanks(s);
      CallFalls(Broadcast(s), DoBroadcastIdle(s, a.i), a.i);
    }
  }

  lemma AnnounceDrains(s: State, a: Action)
    requires Ending(s) && Enabled(s, a) && (a.NoopAnnounce? || a.NoopEndAnnounce?)
    ensures Drains(s, Apply(s, a))
  {
    BroadcastRanks(s);
    AgentFalls(s, Apply(s, a), a.c);
  }

  lemma {:induction false} KeeperNears(s: State, a: Action)
    requires Inv(s) && Ending(s) && Enabled(s, a) && Safe(s, a)
    requires a.NoopLock? || a.NoopReturn? || KeeperStep(a)
    ensures Nearer(s, Apply(s, a), a.c)
    ensures Apply(s, a).main == s.main || a.NoopEndSignal?
  {
    NothingHeld(s);
    if a.NoopLock? {
      NoopLockFalls(s, a.c);
    } else if a.NoopReturn? {
      NoopReturnFalls(s, a.c);
    } else {
      KeeperFalls(s, a);
    }
  }

  lemma KeeperDrains(s: State, a: Action)
    requires Inv(s) && Ending(s) && Enabled(s, a) && Safe(s, a)
    requires a.NoopLock? || a.NoopReturn? || KeeperStep(a)
    ensures Drains(s, Apply(s, a))
  {
    KeeperNears(s, a);
    NearerMeasure(s, Apply(s, a), a.c);
  }

  lemma MainCheckDrains(s: State)
    requires Enabled(s, MainCheck)
    ensures Drains(s, Apply(s, MainCheck)) && Ending(Apply(s, MainCheck))
  {
  }

  lemma CallStepEnds(s: State, a: Action)
    requires Ending(s) && Enabled(s, a) && Safe(s, a)
    requires a.BroadcastIdle? || a.Signal? || a.NoopAnnounce? || a.NoopEndAnnounce?
    ensures Ending(Apply(s, a))
  {
  }

  lemma KeeperEnds(s: State, a: Action)
    requires Inv(s) && Ending(s) && Enabled(s, a) && Safe(s, a)
    requires a.NoopLock? || a.NoopReturn? || KeeperStep(a)
    ensures Ending(Apply(s, a))
  {
    KeeperNears(s, a);
    hide Inv, Nearer;
  }

  /** Once every connection is told to end, each step makes the measure smaller and idles nothing. */
  lemma StepDrains(s: State, a: Action)
    requires Inv(s) && Ending(s) && Enabled(s, a) && Progress(a)
    ensures Safe(s, a) && Ending(Apply(s, a)) && Drains(s, Apply(s, a))
  {
    hide Inv, Ending, Enabled, Safe, Apply, Drains;
    StepKeeps(s, a);
    EndingSteps(s, a);
    if a.BroadcastIdle? || a.Signal? {
      CallStepDrains(s, a);
      CallStepEnds(s, a);
    } else if a.NoopAnnounce? || a.NoopEndAnnounce? {
      AnnounceDrains(s, a);
      CallStepEnds(s, a);
    } else if a.MainCheck? {
      MainCheckDrains(s);
    } else {
      KeeperDrains(s, a);
      KeeperEnds(s, a);
    }
  }

  lemma MeasureIsNat(s: State)
    ensures Measure(s) >= 0
  {
    TotalZero(Rank, s.agents);
    TotalZero(CallRank, s.calls);
  }

  // ----- the main thread's own wakeup

  /** While the main thread sleeps on `endCond` a connection is left, or the signal is on its way. */
  ghost predicate EndWake(s: State) {
    s.main == WaitEnd(false) ==>
      s.pool.idle != [] || s.pool.noop != [] || exists c :: 0 <= c < |s.agents| && s.agents[c].pc.EndSignal?
  }

  lemma EndWakeKeeps(s: State, a: Action)
    requires Inv(s) && EndWake(s) && s.main == WaitEnd(false) && Enabled(s, a) && Safe(s, a)
    requires a.NoopUnlink? || a.NoopReturn? || a.NoopLock?
    ensures EndWake(Apply(s, a))
  {
    var t := Apply(s, a);
    assert t.agents[a.c].pc.EndSignal? || Unfinished(t) == Unfinished(s);
    if d :| 0 <= d < |s.agents| && s.agents[d].pc.EndSignal? {
      assert t.agents[d].pc.EndSignal?;
    }
  }

  lemma EndWakeSame(s: State, a: Action)
    requires EndWake(s) && s.main == WaitEnd(false) && Enabled(s, a) && Safe(s, a)
    requires a.BroadcastIdle? || a.Signal? || a.MainCheck? || a.NoopAnnounce? || a.NoopEndAnnounce? || KeeperStep(a)
    requires !a.NoopUnlink?
    ensures EndWake(Apply(s, a))
  {
    var t := Apply(s, a);
    if t.main == WaitEnd(false) {
      if d :| 0 <= d < |s.agents| && s.agents[d].pc.EndSignal? {
        assert t.agents[d].pc.EndSignal?;
      }
    }
  }

  lemma EndWakeFalls(s: State, a: Action)
    requires Inv(s) && EndWake(s) && s.main == WaitEnd(false) && Enabled(s, a) && Safe(s, a) && Progress(a)
    ensures EndWake(Apply(s, a))
  {
    EndingSteps(s, a);
    if a.NoopUnlink? || a.NoopReturn? || a.NoopLock? {
      EndWakeKeeps(s, a);
    } else {
      EndWakeSame(s, a);
    }
  }

  /** The main thread goes to sleep on `endCond` only while a connection is left. */
  lemma EndWakeEnters(s: State, a: Action)
    requires Enabled(s, a) && Safe(s, a) && (a.MainLock? || a.MainCheck?)
    ensures EndWake(Apply(s, a))
  {
  }

  lemma OnlyMainSleeps(s: State, a: Action)
    requires Enabled(s, a) && Safe(s, a) && !a.MainLock? && !a.MainCheck?
    ensures Apply(s, a).main == WaitEnd(false) ==> s.main == WaitEnd(false) && !a.SpuriousMain?
  {
  }

  lemma EndWakeStep(s: State, a: Action)
    requires Inv(s) && EndWake(s) && Enabled(s, a) && Safe(s, a)
    ensures EndWake(Apply(s, a))
  {
    hide Inv;
    if a.MainLock? || a.MainCheck? {
      EndWakeEnters(s, a);
    } else if a.ResetToday? {
      assert Apply(s, a).agents == s.agents && Unfinished(Apply(s, a)) == Unfinished(s);
    } else {
      hide Apply, Enabled, Safe;
      OnlyMainSleeps(s, a);
      if s.main == WaitEnd(false) && Progress(a) {
        EndWakeFalls(s, a);
      }
    }
  }

  lemma {:induction false} EndWakeHolds(cfg: Config, run: seq<Action>)
    requires cfg.maxConn >= 1 && IsRun(cfg, run)
    ensures EndWake(Final(cfg, run))
  {
    if run != [] {
      var less := run[..|run| - 1];
      EndWakeHolds(cfg, less);
      RunKeeps(cfg, less);
      EndWakeStep(Final(cfg, less), run[|run| - 1]);
    }
  }

  // ----- when the shutdown stops, and when it stops short

  /** Nothing will happen any more, save by the timer or a spurious wakeup. */
  ghost predicate Quiescent(s: State) {
    forall a :: Enabled(s, a) ==> !Progress(a) || a.SpuriousNoop?
  }

  /** The keep-alive thread of an idle connection waits for a signal that nobody is going to send. */
  ghost predicate Stranded(s: State, c: nat)
    requires |s.agents| == |s.pool.conns|
  {
    && c < |s.agents| && s.agents[c].pc == Parked(false) && s.pool.conns[c].status == Idle
    && !(exists i :: 0 <= i < |s.calls| && Heading(s.calls[i].pc, c))
  }

  /** The call will signal the keep-alive thread of `c`. */
  predicate Heading(pc: CallPc, c: nat) {
    (pc.AnnounceIdle? || pc.SignalConn?) && pc.conn == c
  }

  lemma AgentMayStep(s: State, c: nat) returns (a: Action)
    requires c < |s.agents| && !s.agents[c].pc.Gone? && s.agents[c].pc != Parked(false)
    ensures Enabled(s, a) && Progress(a) && !a.SpuriousNoop?
  {
    a := match s.agents[c].pc
      case Top => NoopLock(c)
      case Parked(_) => NoopLock(c)
      case Nooping => NoopCount(c)
      case Counted => NoopExchange(c, true)
      case Closing => NoopClose(c)
      case Unlinking => NoopUnlink(c)
      case Returning => NoopReturn(c)
      case Announce => NoopAnnounce(c)
      case EndSignal => NoopEndSignal(c)
      case _ => NoopEndAnnounce(c);
  }

  lemma CallMayStep(s: State, i: nat) returns (a: Action)
    requires i < |s.calls| && (s.calls[i].pc.AnnounceIdle? || s.calls[i].pc.SignalConn?)
    ensures Enabled(s, a) && Progress(a) && !a.SpuriousNoop?
  {
    a := if s.calls[i].pc.AnnounceIdle? then BroadcastIdle(i) else Signal(i);
  }

  /** Where the shutdown comes to rest without being done, some connection is stranded. */
  lemma RestsStranded(s: State)
    requires Inv(s) && EndWake(s) && s.main.WaitEnd? && Quiescent(s)
    ensures exists c: nat :: Stranded(s, c)
  {
    forall i | 0 <= i < |s.calls|
      ensures s.calls[i].pc.Done?
    {
      if s.calls[i].pc.AnnounceIdle? || s.calls[i].pc.SignalConn? {
        var a := CallMayStep(s, i);
      }
    }
    forall c | 0 <= c < |s.agents|
      ensures s.agents[c].pc.Gone? || Stranded(s, c)
    {
      if !s.agents[c].pc.Gone? {
        if s.agents[c].pc != Parked(false) {
          var a := AgentMayStep(s, c);
        }
        ParkedIsIdle(s, c);
      }
    }
    assert !Enabled(s, MainCheck);
    if forall c :: 0 <= c < |s.agents| ==> s.agents[c].pc.Gone? {
      AllGone(s);
    }
  }

  lemma ParkedIsIdle(s: State, c: nat)
    requires Inv(s) && c < |s.agents| && s.agents[c].pc == Parked(false)
    requires forall i :: 0 <= i < |s.calls| ==> s.calls[i].pc.Done?
    ensures s.pool.conns[c].status == Idle
  {
    assert s.pool.conns[c].status == Busy ==> OwnedOk(s, c);
    assert s.pool.conns[c].status == Noop ==> SignalPending(s, c);
  }

  lemma AllGone(s: State)
    requires Lists(s) && forall c :: 0 <= c < |s.agents| ==> s.agents[c].pc.Gone?
    ensures Unfinished(s) == 0
  {
    forall c: nat
      ensures c !in s.pool.noop && c !in s.pool.idle
    {
      if c < |s.agents| {
        assert Listed(s.pool, s.agents[c], c);
      }
    }
    if s.pool.noop != [] {
      HasMember(s.pool.noop);
    }
    if s.pool.idle != [] {
      HasMember(s.pool.idle);
    }
  }

  lemma HasMember(s: seq<nat>)
    requires s != []
    ensures exists c: nat :: c in s
  {
    assert s[0] in s;
  }

  lemma StrandedAmongCalls(s: State, a: Action, c: nat)
    requires |s.agents| == |s.pool.conns| && Stranded(s, c) && Enabled(s, a) && (a.BroadcastIdle? || a.Signal?)
    requires forall i :: 0 <= i < |s.calls| ==> !s.calls[i].pc.Asleep?
    ensures |Apply(s, a).agents| == |Apply(s, a).pool.conns| && Stranded(Apply(s, a), c)
  {
    var t := Apply(s, a);
    assert Heading(s.calls[a.i].pc, s.calls[a.i].pc.conn);
    forall i | 0 <= i < |t.calls|
      ensures !Heading(t.calls[i].pc, c)
    {
      assert !Heading(s.calls[i].pc, c);
    }
  }

  lemma StrandedAmongKeepers(s: State, t: State, d: nat, c: nat)
    requires |s.agents| == |s.pool.conns| && Stranded(s, c) && Nearer(s, t, d) && c != d
    ensures |t.agents| == |t.pool.conns| && Stranded(t, c)
  {
  }

  lemma StrandedUnderBroadcast(s: State, d: nat, pc: NoopPc, c: nat)
    requires |s.agents| == |s.pool.conns| && Stranded(s, c) && d < |s.agents| && c != d
    ensures var t := SetAgent(Broadcast(s), d, pc); |t.agents| == |t.pool.conns| && Stranded(t, c)
  {
    var t := SetAgent(Broadcast(s), d, pc);
    forall i | 0 <= i < |t.calls|
      ensures !Heading(t.calls[i].pc, c)
    {
      assert !Heading(s.calls[i].pc, c);
    }
  }

  /** A stranded connection stays stranded, and as long as it does the main thread is not done. */
  lemma {:induction false} StrandedStays(s: State, a: Action, c: nat)
    requires Inv(s) && s.main.WaitEnd? && Stranded(s, c)
    requires Enabled(s, a) && Safe(s, a) && Progress(a) && !a.SpuriousNoop?
    ensures Apply(s, a).main.WaitEnd? && |Apply(s, a).agents| == |Apply(s, a).pool.conns| && Stranded(Apply(s, a), c)
  {
    EndingSteps(s, a);
    if a.BroadcastIdle? || a.Signal? {
      StrandedAmongCalls(s, a, c);
    } else if a.NoopAnnounce? || a.NoopEndAnnounce? {
      StrandedUnderBroadcast(s, a.c, Apply(s, a).agents[a.c].pc, c);
    } else if a.MainCheck? {
      assert Listed(s.pool, s.agents[c], c);
    } else {
      KeeperNears(s, a);
      StrandedAmongKeepers(s, Apply(s, a), a.c, c);
    }
  }

  /** No step strands a connection. */
  lemma NobodyGetsStranded(s: State, a: Action, c: nat)
    requires Inv(s) && s.main.WaitEnd? && !Stranded(s, c) && Enabled(s, a) && Safe(s, a) && Progress(a)
    requires |Apply(s, a).agents| == |Apply(s, a).pool.conns|
    ensures !Stranded(Apply(s, a), c)
  {
    EndingSteps(s, a);
    if c < |s.agents| && s.agents[c].pc == Parked(false) && s.pool.conns[c].status == Idle {
      var i :| 0 <= i < |s.calls| && Heading(s.calls[i].pc, c);
      StillHeading(s, a, i, c);
    } else {
      NothingNewlyParked(s, a, c);
    }
  }

  lemma StillHeading(s: State, a: Action, i: nat, c: nat)
    requires Inv(s) && s.main.WaitEnd? && Enabled(s, a) && Safe(s, a) && Progress(a)
    requires i < |s.calls| && Heading(s.calls[i].pc, c) && c < |s.agents| && s.agents[c].pc == Parked(false)
    ensures |Apply(s, a).calls| == |s.calls|
    ensures var t := Apply(s, a);
      Heading(t.calls[i].pc, c) || (c < |t.agents| && t.agents[c].pc == Parked(true))
  {
    EndingSteps(s, a);
    if a.NoopLock? || a.NoopReturn? || KeeperStep(a) {
      KeeperNears(s, a);
    }
  }

  ghost predicate ParkedIdle(s: State, c: nat) {
    c < |s.agents| && c < |s.pool.conns| && s.agents[c].pc == Parked(false) && s.pool.conns[c].status == Idle
  }

  lemma OthersPark(s: State, a: Action, c: nat)
    requires Enabled(s, a) && Safe(s, a) && !ParkedIdle(s, c)
    requires a.BroadcastIdle? || a.Signal? || a.MainCheck? || a.NoopAnnounce? || a.NoopEndAnnounce?
    ensures !ParkedIdle(Apply(s, a), c)
  {
  }

  lemma NothingNewlyParked(s: State, a: Action, c: nat)
    requires Inv(s) && Ending(s) && Enabled(s, a) && Safe(s, a) && Progress(a) && !ParkedIdle(s, c)
    ensures !ParkedIdle(Apply(s, a), c)
  {
    EndingSteps(s, a);
    if a.NoopLock? || a.NoopReturn? || KeeperStep(a) {
      KeeperNears(s, a);
      NearerParks(s, Apply(s, a), a.c, c);
    } else {
      OthersPark(s, a, c);
    }
    hide Inv, Ending, Apply, ParkedIdle;
  }

  lemma NearerParks(s: State, t: State, d: nat, c: nat)
    requires Nearer(s, t, d) && !ParkedIdle(s, c)
    ensures !ParkedIdle(t, c)
  {
  }

  // ----- whole shutdowns

  /** A step of a thread or of the timer, not a spurious wakeup that could help a shutdown along. */
  predicate Unaided(a: Action) { !a.SpuriousMain? && !a.SpuriousNoop? }

  ghost predicate Unprompted(more: seq<Action>) {
    forall k :: 0 <= k < |more| ==> Unaided(more[k])
  }

  /** Steps that are not the timer's. */
  function Own(a: Action): int { if a.ResetToday? then 0 else 1 }

  lemma RunPrefix(cfg: Config, run: seq<Action>, more: seq<Action>)
    requires IsRun(cfg, run + more)
    ensures IsRun(cfg, run)
    decreases |more|
  {
    if more == [] {
      assert run + more == run;
    } else {
      assert (run + more)[..|run + more| - 1] == run + more[..|more| - 1];
      RunPrefix(cfg, run, more[..|more| - 1]);
    }
  }

  /** The last step of a shutdown in progress. */
  lemma LastStep(cfg: Config, run: seq<Action>, more: seq<Action>)
    requires IsRun(cfg, run + more) && more != []
    ensures var less := run + more[..|more| - 1]; var a := more[|more| - 1];
      IsRun(cfg, less) && Enabled(Final(cfg, less), a) && Safe(Final(cfg, less), a)
      && Final(cfg, run + more) == Apply(Final(cfg, less), a)
  {
    assert (run + more)[..|run + more| - 1] == run + more[..|more| - 1];
  }

  /** The timer changes nothing that a shutdown depends on. */
  lemma ResetAside(s: State)
    requires Inv(s)
    ensures Inv(Apply(s, ResetToday)) && Measure(Apply(s, ResetToday)) == Measure(s)
    ensures Apply(s, ResetToday).main == s.main
    ensures forall c: nat :: Stranded(Apply(s, ResetToday), c) <==> Stranded(s, c)
  {
    StepKeeps(s, ResetToday);
    hide Inv;
  }

  /** The step of a shutdown in progress, the timer's included. */
  lemma UnaidedDrains(s: State, a: Action)
    requires Inv(s) && Ending(s) && Enabled(s, a) && Unaided(a)
    ensures Safe(s, a) && Ending(Apply(s, a)) && Measure(Apply(s, a)) <= Measure(s) - Own(a)
  {
    if a.ResetToday? {
      ResetAside(s);
    } else {
      StepDrains(s, a);
    }
    hide Inv, Apply, Enabled, Measure;
  }

  /** A shutdown takes no more steps than the measure allows, however often the timer fires meanwhile. */
  lemma {:induction false} DrainBound(cfg: Config, run: seq<Action>, more: seq<Action>)
    requires cfg.maxConn >= 1 && IsRun(cfg, run + more) && IsRun(cfg, run)
    requires Ending(Final(cfg, run)) && Unprompted(more)
    ensures Ending(Final(cfg, run + more))
    ensures 0 <= Measure(Final(cfg, run + more)) <= Measure(Final(cfg, run)) - Total(Own, more)
    decreases |more|
  {
    MeasureIsNat(Final(cfg, run));
    hide Measure;
    if more == [] {
      assert run + more == run;
    } else {
      LastStep(cfg, run, more);
      var less := more[..|more| - 1];
      DrainBound(cfg, run, less);
      var s := Final(cfg, run + less);
      RunKeeps(cfg, run + less);
      UnaidedDrains(s, more[|more| - 1]);
      MeasureIsNat(Final(cfg, run + more));
    }
  }

  lemma LeavesMain(s: State, a: Action)
    requires Enabled(s, a) && Safe(s, a) && s.main.Drained? && !a.MainLock? && !a.MainCheck? && !a.SpuriousMain?
    ensures Apply(s, a).main.Drained?
  {
  }

  lemma DrainedStays(s: State, a: Action)
    requires Inv(s) && Enabled(s, a) && Safe(s, a) && Progress(a) && s.main.Drained?
    ensures Apply(s, a).main.Drained?
  {
    hide Inv;
    EndingSteps(s, a);
    LeavesMain(s, a);
    hide Apply, Safe;
  }

  /** A connection is stranded when the shutdown has run its course exactly if it was when it began. */
  lemma {:induction false} StrandedThroughout(cfg: Config, run: seq<Action>, more: seq<Action>, c: nat)
    requires cfg.maxConn >= 1 && IsRun(cfg, run + more) && IsRun(cfg, run)
    requires Final(cfg, run).main.WaitEnd? && Unprompted(more)
    ensures Inv(Final(cfg, run)) && Inv(Final(cfg, run + more)) && Ending(Final(cfg, run + more))
    ensures var t := Final(cfg, run + more);
      Stranded(Final(cfg, run), c) <==> t.main.WaitEnd? && Stranded(t, c)
    decreases |more|
  {
    RunKeeps(cfg, run);
    if more == [] {
      assert run + more == run;
    } else {
      LastStep(cfg, run, more);
      var less := more[..|more| - 1];
      var a := more[|more| - 1];
      StrandedThroughout(cfg, run, less, c);
      StrandedOnce(Final(cfg, run + less), a, c);
    }
  }

  lemma {:induction false} StrandedOnce(s: State, a: Action, c: nat)
    requires Inv(s) && Ending(s) && Enabled(s, a) && Unaided(a)
    ensures Safe(s, a) && Inv(Apply(s, a)) && Ending(Apply(s, a))
    ensures s.main.WaitEnd? && Stranded(s, c) <==> Apply(s, a).main.WaitEnd? && Stranded(Apply(s, a), c)
  {
    UnaidedDrains(s, a);
    StepKeeps(s, a);
    if a.ResetToday? {
      ResetAside(s);
    } else if s.main.Drained? {
      DrainedStays(s, a);
    } else if Stranded(s, c) {
      StrandedStays(s, a, c);
    } else {
      NobodyGetsStranded(s, a, c);
    }
  }

  // ----- what is left when the main thread comes back

  /** No connection is on a list, and every keep-alive thread has freed its own. */
  ghost predicate NothingLeft(s: State) {
    && s.pool.busy == [] && s.pool.idle == [] && s.pool.noop == []
    && forall c :: 0 <= c < |s.agents| ==> Dead(s.agents[c].pc)
  }

  lemma EmptyMeansDead(s: State)
    requires Inv(s) && s.pool.busy == [] && s.pool.idle == [] && s.pool.noop == []
    ensures NothingLeft(s)
  {
    forall c | 0 <= c < |s.agents|
      ensures Dead(s.agents[c].pc)
    {
      assert Listed(s.pool, s.agents[c], c);
    }
  }

  /** The main thread comes back only when no connection is left. */
  lemma {:induction false} DrainedMeansNothingLeft(cfg: Config, run: seq<Action>)
    requires cfg.maxConn >= 1 && IsRun(cfg, run) && Final(cfg, run).main.Drained?
    ensures NothingLeft(Final(cfg, run))
  {
    RunKeeps(cfg, run);
    NothingHeld(Final(cfg, run));
    EmptyMeansDead(Final(cfg, run));
  }

  /** With the mutex in its second loop it comes back exactly when both lists are empty, and sleeps otherwise. */
  lemma ChecksExactly(s: State)
    requires Enabled(s, MainCheck)
    ensures Apply(s, MainCheck).main == if s.pool.idle == [] && s.pool.noop == [] then Drained else WaitEnd(false)
  {
  }

  /** With the mutex in its first it goes on exactly when nothing is busy and nobody waits. */
  lemma LocksExactly(s: State)
    requires Enabled(s, MainLock)
    ensures Apply(s, MainLock).main ==
      if s.pool.busy != [] || s.pool.waiting > 0 then WaitIdle(false)
      else if s.pool.idle == [] && s.pool.noop == [] then Drained
      else WaitEnd(false)
  {
  }

  /**
   The shutdown, run until nothing more happens, completes exactly when no connection was stranded
   at the moment every connection was told to end.
   */
  lemma {:induction false} DrainsUnlessStranded(cfg: Config, run: seq<Action>, more: seq<Action>)
    requires cfg.maxConn >= 1 && IsRun(cfg, run + more) && IsRun(cfg, run)
    requires Final(cfg, run).main.WaitEnd? && Unprompted(more) && Quiescent(Final(cfg, run + more))
    requires |Final(cfg, run).agents| == |Final(cfg, run).pool.conns|
    ensures Final(cfg, run + more).main.Drained? <==> forall c: nat :: !Stranded(Final(cfg, run), c)
    ensures Final(cfg, run + more).main.Drained? ==> NothingLeft(Final(cfg, run + more))
  {
    RunKeeps(cfg, run + more);
    EndWakeHolds(cfg, run + more);
    forall c: nat
      ensures Ending(Final(cfg, run + more))
      ensures var t := Final(cfg, run + more);
        Stranded(Final(cfg, run), c) <==> t.main.WaitEnd? && Stranded(t, c)
    {
      StrandedThroughout(cfg, run, more, c);
    }
    StrandedThroughout(cfg, run, more, 0);
    if Final(cfg, run + more).main.WaitEnd? {
      RestsStranded(Final(cfg, run + more));
    } else {
      DrainedMeansNothingLeft(cfg, run + more);
    }
  }
}
