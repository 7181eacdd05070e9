/**
 The whole of `abortTpConns` (src/transport.c:436-459): its first loop waits on `idleCond` until no connection
 is busy and nobody waits, its second on `endCond` until no connection is left. Both may wait for ever. This file
 says which steps are to blame, and that the main thread comes back exactly when none of them was taken.
 */
module Abort {
  import opened Sequences
  import opened Pool
  import opened System
  import opened Invariant
  import opened Steps
  import opened Shutdown

  /** Some call is going to signal the keep-alive thread of `c`. */
  ghost predicate Headed(s: State, c: nat) {
    exists i :: 0 <= i < |s.calls| && Heading(s.calls[i].pc, c)
  }

  /** The keep-alive thread of `c` has ended, or sleeps and nobody is going to signal it. */
  ghost predicate Still(s: State, c: nat)
    requires c < |s.agents|
  {
    s.agents[c].pc.Gone? || (s.agents[c].pc == Parked(false) && !Headed(s, c))
  }

  /** No call and no keep-alive thread is on its way to a broadcast on `idleCond`. */
  ghost predicate NothingDue(s: State) {
    && (forall i :: 0 <= i < |s.calls| ==> !s.calls[i].pc.AnnounceIdle?)
    && (forall c :: 0 <= c < |s.agents| ==> Still(s, c))
  }

  /** The main thread sleeps in its first loop although it has nothing to wait for, and nobody will wake it. */
  ghost predicate Lost(s: State) {
    s.main == WaitIdle(false) && s.pool.busy == [] && s.pool.waiting == 0 && NothingDue(s)
  }

  /** A waiting call gives up: its time is over, or it may connect and cannot. Neither is followed by a broadcast. */
  predicate GivesUp(s: State, a: Action) {
    a.Timeout? || (a.Resume? && !a.connected && s.pool.idle == [] && !Full(s))
  }

  /** The last waiting call gives up while the main thread sleeps and everybody else has left. */
  ghost predicate LastToLeave(s: State, a: Action) {
    && s.main == WaitIdle(false) && GivesUp(s, a)
    && s.pool.waiting == 1 && s.pool.busy == [] && NothingDue(s)
  }

  // ----- the first loop at rest

  lemma OwnerMayStep(s: State, i: nat) returns (a: Action)
    requires i < |s.calls| && !s.calls[i].pc.Done? && !s.calls[i].pc.Enter?
    ensures Enabled(s, a) && Progress(a) && !a.SpuriousNoop?
  {
    a := match s.calls[i].pc
      case Asleep(_) => Timeout(i)
      case At(_, g) =>
        if g.Got? then ClearNoop(i)
        else if g.Counting? then Count(i)
        else if Talking(g) then Exchange(i, true)
        else Unhold(i)
      case AnnounceIdle(_) => BroadcastIdle(i)
      case _ => Signal(i);
  }

  lemma AllDone(s: State, i: nat)
    requires MainOk(s) && s.main.WaitIdle? && Quiescent(s) && i < |s.calls|
    ensures s.calls[i].pc.Done?
  {
    if !s.calls[i].pc.Done? {
      var a := OwnerMayStep(s, i);
    }
  }

  lemma AllStill(s: State, c: nat)
    requires Quiescent(s) && c < |s.agents| && forall i :: 0 <= i < |s.calls| ==> s.calls[i].pc.Done?
    ensures Still(s, c)
  {
    if !s.agents[c].pc.Gone? && s.agents[c].pc != Parked(false) {
      var a := AgentMayStep(s, c);
    }
  }

  /** Where the first loop comes to rest, its condition is false and every call is done. */
  lemma {:induction false} RestsLost(s: State)
    requires Inv(s) && s.main.WaitIdle? && Quiescent(s)
    ensures Lost(s) && forall i :: 0 <= i < |s.calls| ==> s.calls[i].pc.Done?
  {
    forall i | 0 <= i < |s.calls|
      ensures s.calls[i].pc.Done?
    {
      AllDone(s, i);
    }
    forall c | 0 <= c < |s.agents|
      ensures Still(s, c)
    {
      AllStill(s, c);
    }
    assert !Enabled(s, MainLock);
    hide Quiescent;
    NoneBusy(s);
    TotalZero(Sleeping, s.calls);
  }

  // ----- how its wakeup gets lost

  lemma SleeperWaits(s: State, i: nat)
    requires Counters(s) && i < |s.calls| && s.calls[i].pc.Asleep?
    ensures s.pool.waiting >= 1
  {
    TotalZero(Sleeping, s.calls);
    assert Sleeping(s.calls[i]) == 1;
  }

  lemma OwnerIsBusy(s: State, i: nat)
    requires Lists(s) && Owned(s) && CallAt(s, i)
    ensures s.pool.busy != []
  {
    assert OwnsOk(s, i);
    assert Listed(s.pool, s.agents[s.calls[i].pc.conn], s.calls[i].pc.conn);
  }

  /** What is left to do once the wakeup is lost. */
  lemma LostSteps(s: State, a: Action)
    requires Inv(s) && Lost(s) && Enabled(s, a) && Unaided(a)
    ensures a.Signal? || a.ResetToday?
  {
    if a.Resume? || a.Timeout? || a.SpuriousCall? {
      SleeperWaits(s, a.i);
    } else if a.ClearNoop? || a.Exchange? || a.Count? || a.Unhold? {
      OwnerIsBusy(s, a.i);
    } else if AgentStep(a) {
      StillRests(s, a.c);
    }
  }

  lemma StillRests(s: State, c: nat)
    requires NothingDue(s) && c < |s.agents|
    ensures Still(s, c)
  {
  }

  /** A step of a keep-alive thread. */
  predicate AgentStep(a: Action) {
    a.NoopLock? || a.NoopReturn? || a.NoopAnnounce? || a.NoopEndAnnounce? || KeeperStep(a)
  }

  /** A lost wakeup stays lost: the main thread sleeps for ever. */
  lemma {:induction false} LostStays(s: State, a: Action)
    requires Inv(s) && Lost(s) && Enabled(s, a) && Unaided(a)
    ensures Safe(s, a) && Lost(Apply(s, a))
    ensures a.Signal? || a.ResetToday?
  {
    LostSteps(s, a);
    hide Inv;
    if a.Signal? {
      SignalLeavesLost(s, a.i);
    } else {
      StillSame(s, Apply(s, a));
    }
  }

  lemma StillSame(s: State, t: State)
    requires NothingDue(s) && t.calls == s.calls && t.agents == s.agents
    ensures NothingDue(t)
  {
    assert forall d :: Headed(t, d) ==> Headed(s, d);
    forall d | 0 <= d < |t.agents|
      ensures Still(t, d)
    {
      assert Still(s, d);
    }
  }

  lemma SignalLeavesLost(s: State, i: nat)
    requires Lost(s) && Enabled(s, Signal(i))
    ensures Lost(DoSignal(s, i))
  {
    var t := DoSignal(s, i);
    var c := s.calls[i].pc.conn;
    assert Heading(s.calls[i].pc, c);
    if c < |s.agents| {
      assert Still(s, c);
    }
    assert forall d :: Headed(t, d) ==> Headed(s, d);
    forall d | 0 <= d < |t.agents|
      ensures Still(t, d)
    {
      assert Still(s, d);
    }
  }

  /** Call `i`, which heads for nobody, changes to a state in which it heads for nobody. */
  lemma StillWithoutCall(s: State, t: State, i: nat)
    requires i < |s.calls| && s.calls[i].pc.Asleep? && t.agents == s.agents
    requires |t.calls| == |s.calls| && t.calls[i].pc.Done?
    requires forall j :: 0 <= j < |s.calls| && j != i ==> t.calls[j] == s.calls[j]
    ensures NothingDue(t) <==> NothingDue(s)
  {
    assert forall c :: Headed(t, c) <==> Headed(s, c);
    assert forall c :: 0 <= c < |s.agents| ==> (Still(t, c) <==> Still(s, c));
    assert forall j :: 0 <= j < |s.calls| ==> (t.calls[j].pc.AnnounceIdle? <==> s.calls[j].pc.AnnounceIdle?);
  }

  lemma TimeoutLoses(s: State, i: nat)
    requires Enabled(s, Timeout(i))
    ensures Lost(DoTimeout(s, i)) <==> LastToLeave(s, Timeout(i))
  {
    StillWithoutCall(s, DoTimeout(s, i), i);
    hide NothingDue;
  }

  lemma ResumeLoses(s: State, i: nat, connected: bool)
    requires Counters(s) && Enabled(s, Resume(i, connected)) && Safe(s, Resume(i, connected))
    ensures Lost(DoResume(s, i, connected)) <==> LastToLeave(s, Resume(i, connected))
  {
    SleeperWaits(s, i);
    hide Counters, NothingDue;
    if !Full(s) && s.pool.idle == [] && !connected {
      StillWithoutCall(s, DoResume(s, i, connected), i);
    }
  }

  /** While a call owns a connection its other steps leave one busy, or head for the one they hand over. */
  lemma OwnerKeepsAwake(s: State, a: Action)
    requires Inv(s) && Enabled(s, a) && Safe(s, a) && (a.ClearNoop? || a.Exchange? || a.Count? || a.Unhold?)
    ensures !Lost(Apply(s, a))
  {
    OwnerIsBusy(s, a.i);
    if a.Unhold? {
      UnholdKeepsAwake(s, a.i);
    } else {
      hide NothingDue;
    }
  }

  lemma UnholdKeepsAwake(s: State, i: nat)
    requires Core(s) && Enabled(s, Unhold(i)) && Safe(s, Unhold(i))
    ensures !NothingDue(DoUnhold(s, i))
  {
    Held(s, i);
    var t := DoUnhold(s, i);
    var c := s.calls[i].pc.conn;
    assert Heading(t.calls[i].pc, c);
    assert t.agents[c] == s.agents[c];
    hide DoUnhold;
    if NothingDue(t) {
      StillRests(t, c);
    }
  }

  lemma SignalLoses(s: State, i: nat)
    requires Enabled(s, Signal(i)) && Lost(DoSignal(s, i))
    ensures Lost(s)
  {
    var t := DoSignal(s, i);
    var c := s.calls[i].pc.conn;
    forall d | 0 <= d < |s.agents|
      ensures Still(s, d)
    {
      assert Still(t, d);
      if d != c && Headed(s, d) {
        var j :| 0 <= j < |s.calls| && Heading(s.calls[j].pc, d);
        assert Heading(t.calls[j].pc, d);
      }
    }
    assert forall j :: 0 <= j < |s.calls| && s.calls[j].pc.AnnounceIdle? ==> t.calls[j].pc.AnnounceIdle?;
  }

  /** A keep-alive thread parks only while its connection is busy or somebody waits. */
  lemma ParkingKeepsAwake(s: State, c: nat)
    requires Lists(s) && Enabled(s, NoopLock(c)) && Safe(s, NoopLock(c))
    ensures !Lost(DoNoopLock(s, c))
  {
    assert Listed(s.pool, s.agents[c], c);
    hide Lists;
    var t := DoNoopLock(s, c);
    if Lost(t) {
      StillRests(t, c);
    }
  }

  /** After any other step of its own a keep-alive thread is due. */
  lemma AgentKeepsAwake(s: State, a: Action)
    requires Enabled(s, a) && Safe(s, a) && AgentStep(a) && Unaided(a) && !a.NoopLock?
    ensures !Lost(Apply(s, a))
  {
    var t := Apply(s, a);
    if Lost(t) {
      StillRests(t, a.c);
    }
  }

  /** Only the main thread itself goes to sleep on `idleCond`, and then it has something to wait for. */
  lemma OtherStepLoses(s: State, a: Action)
    requires Inv(s) && !Lost(s) && Enabled(s, a) && Safe(s, a)
    requires a.Arrive? || a.SpuriousCall? || a.ResetToday? || a.MainLock? || a.MainCheck? || a.Lock?
    requires !s.main.Running? || a.MainLock?
    ensures !Lost(Apply(s, a))
  {
    if a.SpuriousCall? {
      SleeperWaits(s, a.i);
    } else if a.ResetToday? {
      if Lost(Apply(s, a)) {
        StillSame(Apply(s, a), s);
      }
    }
    hide NothingDue;
  }

  lemma SleepsBefore(s: State, a: Action)
    requires Enabled(s, a) && Safe(s, a) && s.main.Running? && !a.MainLock?
    ensures Apply(s, a).main.Running?
  {
  }

  /** The main thread's wakeup gets lost exactly when the last waiting call gives up. */
  lemma {:induction false} LosesExactly(s: State, a: Action)
    requires Inv(s) && !Lost(s) && Enabled(s, a) && Unaided(a)
    ensures Safe(s, a) && (Lost(Apply(s, a)) <==> LastToLeave(s, a))
  {
    hide NothingDue, Full;
    StepKeeps(s, a);
    if s.main.Running? && !a.MainLock? {
      SleepsBefore(s, a);
      hide Apply;
    } else if a.Timeout? {
      TimeoutLoses(s, a.i);
    } else if a.Resume? {
      ResumeLoses(s, a.i, a.connected);
    } else if a.ClearNoop? || a.Exchange? || a.Count? || a.Unhold? {
      OwnerKeepsAwake(s, a);
    } else if a.BroadcastIdle? {
      hide Inv;
    } else if a.Signal? {
      if Lost(Apply(s, a)) {
        SignalLoses(s, a.i);
      }
    } else if a.NoopLock? {
      ParkingKeepsAwake(s, a.c);
    } else if AgentStep(a) {
      AgentKeepsAwake(s, a);
    } else {
      OtherStepLoses(s, a);
    }
  }

  // ----- a whole run

  /** Some connection has a parked keep-alive thread that nobody is going to signal. */
  ghost predicate SomeStranded(s: State) {
    |s.agents| == |s.pool.conns| && exists c: nat :: Stranded(s, c)
  }

  /** The main thread leaves its first loop and tells every connection to end, a stranded one among them. */
  ghost predicate FlagsStranded(s: State, a: Action) {
    a.MainLock? && s.pool.busy == [] && s.pool.waiting == 0 && SomeStranded(s)
  }

  /** After `run`, the main thread loses its wakeup in the first loop. */
  ghost predicate Oversleeps(cfg: Config, run: seq<Action>, more: seq<Action>)
    requires IsRun(cfg, run + more)
    decreases |more|
  {
    more != [] && (
      LastStep(cfg, run, more);
      var less := more[..|more| - 1];
      Oversleeps(cfg, run, less) || LastToLeave(Final(cfg, run + less), more[|more| - 1]))
  }

  /** After `run`, a connection is stranded when the connections are told to end. */
  ghost predicate TellsStranded(cfg: Config, run: seq<Action>, more: seq<Action>)
    requires IsRun(cfg, run + more)
    decreases |more|
  {
    more != [] && (
      LastStep(cfg, run, more);
      var less := more[..|more| - 1];
      TellsStranded(cfg, run, less) || FlagsStranded(Final(cfg, run + less), more[|more| - 1]))
  }

  /** How far the main thread got, and what that says of the run behind it. */
  ghost predicate Course(s: State, overslept: bool, stranded: bool) {
    match s.main
    case Running => !overslept && !stranded
    case WaitIdle(_) => !stranded && (overslept <==> Lost(s))
    case _ => !overslept && (stranded <==> s.main.WaitEnd? && SomeStranded(s))
  }

  /** From the first loop to the flags: nothing is busy and nobody waits, and who is stranded stays so. */
  lemma FlagStep(s: State)
    requires Inv(s) && Enabled(s, MainLock)
    ensures var t := DoMainLock(s);
      if s.pool.busy == [] && s.pool.waiting == 0
      then Ending(t) && (SomeStranded(s) <==> t.main.WaitEnd? && SomeStranded(t))
      else t.main == WaitIdle(false)
  {
    TotalZero(Sleeping, s.calls);
    var t := DoMainLock(s);
    assert forall c: nat :: |s.agents| == |s.pool.conns| ==> (Stranded(t, c) <==> Stranded(s, c));
    if SomeStranded(s) {
      var c: nat :| Stranded(s, c);
      assert Listed(s.pool, s.agents[c], c);
    }
  }

  lemma CourseWhileAsleep(s: State, a: Action, overslept: bool, stranded: bool)
    requires Inv(s) && !Ending(s) && Course(s, overslept, stranded) && Enabled(s, a) && Unaided(a)
    ensures Safe(s, a)
    ensures Course(Apply(s, a), overslept || LastToLeave(s, a), stranded || FlagsStranded(s, a))
  {
    hide Inv;
    if Lost(s) {
      LostStays(s, a);
    } else {
      LosesExactly(s, a);
    }
    if a.MainLock? {
      FlagStep(s);
    } else {
      LoopStays(s, a);
    }
  }

  /** Without the main thread's own step the loop that it is in stays the same. */
  lemma LoopStays(s: State, a: Action)
    requires Enabled(s, a) && Safe(s, a) && !a.MainLock? && !Ending(s)
    ensures s.main.Running? <==> Apply(s, a).main.Running?
    ensures s.main.WaitIdle? <==> Apply(s, a).main.WaitIdle?
  {
  }

  lemma CourseWhileEnding(s: State, a: Action, overslept: bool, stranded: bool)
    requires Inv(s) && Ending(s) && Course(s, overslept, stranded) && Enabled(s, a) && Unaided(a)
    ensures Safe(s, a)
    ensures Course(Apply(s, a), overslept || LastToLeave(s, a), stranded || FlagsStranded(s, a))
  {
    hide Inv, Apply, Enabled, SomeStranded, Lost, Unaided, Safe;
    NoMainLock(s, a);
    SomeStrandedOnce(s, a);
  }

  lemma NoMainLock(s: State, a: Action)
    requires Ending(s) && Enabled(s, a)
    ensures !a.MainLock?
  {
  }

  lemma SomeStrandedOnce(s: State, a: Action)
    requires Inv(s) && Ending(s) && Enabled(s, a) && Unaided(a)
    ensures Safe(s, a) && Ending(Apply(s, a))
    ensures s.main.WaitEnd? && SomeStranded(s) <==> Apply(s, a).main.WaitEnd? && SomeStranded(Apply(s, a))
  {
    hide Inv, Apply, Stranded, Enabled, Safe, Ending;
    StrandedOnce(s, a, 0);
    var t := Apply(s, a);
    SameSize(s);
    SameSize(t);
    forall c: nat
      ensures s.main.WaitEnd? && Stranded(s, c) <==> t.main.WaitEnd? && Stranded(t, c)
    {
      StrandedOnce(s, a, c);
    }
  }

  /** The course of every run after `run`, spurious wakeups apart. */
  lemma {:induction false} CourseHolds(cfg: Config, run: seq<Action>, more: seq<Action>)
    requires cfg.maxConn >= 1 && IsRun(cfg, run) && IsRun(cfg, run + more)
    requires Final(cfg, run).main.Running? && Unprompted(more)
    ensures Course(Final(cfg, run + more), Oversleeps(cfg, run, more), TellsStranded(cfg, run, more))
    decreases |more|
  {
    if more == [] {
      assert run + more == run;
    } else {
      LastStep(cfg, run, more);
      var less := more[..|more| - 1];
      CourseHolds(cfg, run, less);
      RunKeeps(cfg, run + less);
      var s := Final(cfg, run + less);
      hide Course, Inv;
      if Ending(s) {
        CourseWhileEnding(s, more[|more| - 1], Oversleeps(cfg, run, less), TellsStranded(cfg, run, less));
      } else {
        CourseWhileAsleep(s, more[|more| - 1], Oversleeps(cfg, run, less), TellsStranded(cfg, run, less));
      }
    }
  }

  /**
   `abortTpConns`, run until nothing more happens, has come back exactly when it did not lose its wakeup in the
   first loop and no connection was stranded when it told the connections to end; and then none is left.
   */
  lemma {:induction false} ComesBackExactly(cfg: Config, run: seq<Action>, more: seq<Action>)
    requires cfg.maxConn >= 1 && IsRun(cfg, run) && IsRun(cfg, run + more)
    requires Final(cfg, run).main.Running? && Unprompted(more) && Quiescent(Final(cfg, run + more))
    ensures Final(cfg, run + more).main.Drained? <==> !Oversleeps(cfg, run, more) && !TellsStranded(cfg, run, more)
    ensures Final(cfg, run + more).main.Drained? ==> NothingLeft(Final(cfg, run + more))
  {
    CourseHolds(cfg, run, more);
    RunKeeps(cfg, run + more);
    var s := Final(cfg, run + more);
    hide IsRun, Final;
    assert !Enabled(s, Arrive(1));
    if s.main.WaitIdle? {
      RestsLost(s);
    } else if s.main.WaitEnd? {
      EndWakeHolds(cfg, run + more);
      RestsStranded(s);
    } else if s.main.Drained? {
      DrainedMeansNothingLeft(cfg, run + more);
    }
  }
}
