/** Two runs of two calls each after which `abortTpConns` waits for ever, one in each of its loops. */
module Stranding {
  import opened Sequences
  import opened Pool
  import opened System
  import opened Shutdown
  import Abort
  import S = Session

  const CFG := Config(1, 0, 0, Plain, true)

  /** One more step of a run whose last state is known. */
  lemma Then(cfg: Config, run: seq<Action>, s: State, a: Action)
    requires IsRun(cfg, run) && Final(cfg, run) == s && Enabled(s, a) && Safe(s, a)
    ensures IsRun(cfg, run + [a]) && Final(cfg, run + [a]) == Apply(s, a)
  {
    assert (run + [a])[..|run|] == run;
  }

  /** The state while connection 0 is the only one and call 0 owns it. */
  function Alone(cfg: Config, stage: Stage, sends: int, trace: S.Trace): State {
    State(cfg, Pool([0], [], [], [Conn(Busy, sends, 0, false)], 0, 0, 0), [Agent(Top, 0, trace)],
          [Call(At(0, stage), 1)], Running, 0)
  }

  lemma Connects(cfg: Config) returns (run: seq<Action>)
    requires cfg.maxConn == 1
    ensures IsRun(cfg, run) && Final(cfg, run) == Alone(cfg, Got(true), 0, SetupTrace(cfg))
  {
    hide SetupTrace;
    var s0 := Init(cfg);
    Then(cfg, [], s0, Arrive(1));
    var s1 := Apply(s0, Arrive(1));
    Then(cfg, [Arrive(1)], s1, Lock(0, true));
    run := [Arrive(1)] + [Lock(0, true)];
    assert Apply(s1, Lock(0, true)) == Alone(cfg, Got(true), 0, SetupTrace(cfg));
  }

  lemma Says(cfg: Config, run: seq<Action>, g: Stage, trace: S.Trace) returns (more: seq<Action>)
    requires IsRun(cfg, run) && Talking(g) && Final(cfg, run) == Alone(cfg, g, 0, trace)
    ensures IsRun(cfg, more) && Final(cfg, more) == Alone(cfg, After(g, 1), 0, trace + [S.Said(Spoken(g), true)])
  {
    Then(cfg, run, Alone(cfg, g, 0, trace), Exchange(0, true));
    more := run + [Exchange(0, true)];
  }

  /** What a delivery to one recipient adds to the trace of a new connection. */
  const MAIL := [S.Said(S.MailFrom, true), S.Said(S.RcptTo, true), S.Said(S.Data, true), S.Said(S.Content, true)]

  /** One mail is delivered and counted; if that was the last the connection may send, it is to end. */
  lemma Delivers(cfg: Config) returns (run: seq<Action>)
    requires cfg.maxConn == 1
    ensures IsRun(cfg, run)
    ensures var next := if cfg.maxSendPerConn == 1 then Retiring(true) else Releasing;
      Final(cfg, run) == Alone(cfg, next, 1, SetupTrace(cfg) + MAIL)
  {
    hide SetupTrace;
    run := Connects(cfg);
    var trace := SetupTrace(cfg);
    Then(cfg, run, Alone(cfg, Got(true), 0, trace), ClearNoop(0));
    run := Says(cfg, run + [ClearNoop(0)], Mailing, trace);
    trace := trace + [S.Said(S.MailFrom, true)];
    run := Says(cfg, run, Recipients(1), trace);
    trace := trace + [S.Said(S.RcptTo, true)];
    run := Says(cfg, run, DataCommand, trace);
    trace := trace + [S.Said(S.Data, true)];
    run := Says(cfg, run, Sending, trace);
    trace := trace + [S.Said(S.Content, true)];
    Then(cfg, run, Alone(cfg, Counting, 0, trace), Count(0));
    run := run + [Count(0)];
    assert trace == SetupTrace(cfg) + MAIL;
  }

  /** Call 1 comes, finds the transport full, and waits; call 0 gives its connection back. */
  lemma Waits() returns (run: seq<Action>, trace: S.Trace)
    ensures IsRun(CFG, run)
    ensures Final(CFG, run) == State(CFG, Pool([], [0], [], [Conn(Idle, 1, 0, false)], 1, 1, 1), [Agent(Top, 0, trace)],
                                     [Call(AnnounceIdle(0), 1), Call(Asleep(false), 1)], Running, 0)
  {
    run := Delivers(CFG);
    trace := SetupTrace(CFG) + MAIL;
    hide SetupTrace;
    var s0 := Alone(CFG, Releasing, 1, trace);
    Then(CFG, run, s0, Arrive(1));
    var s1 := s0.(calls := [Call(At(0, Releasing), 1), Call(Enter, 1)]);
    Then(CFG, run + [Arrive(1)], s1, Lock(1, true));
    var s2 := s1.(calls := [Call(At(0, Releasing), 1), Call(Asleep(false), 1)], pool := s1.pool.(waiting := 1));
    Then(CFG, run + [Arrive(1)] + [Lock(1, true)], s2, Unhold(0));
    run := run + [Arrive(1)] + [Lock(1, true)] + [Unhold(0)];
  }

  /** What the transport looks like while call 1 waits and connection 0 is idle. */
  function Held(pc: NoopPc, trace: S.Trace, first: CallPc, second: CallPc): State {
    State(CFG, Pool([], [0], [], [Conn(Idle, 1, 0, false)], 1, 1, 1), [Agent(pc, 0, trace)],
          [Call(first, 1), Call(second, 1)], Running, 0)
  }

  lemma Announces() returns (run: seq<Action>, trace: S.Trace)
    ensures IsRun(CFG, run) && Final(CFG, run) == Held(Top, trace, SignalConn(0, true), Asleep(true))
  {
    run, trace := Waits();
    var s := Held(Top, trace, AnnounceIdle(0), Asleep(false));
    Then(CFG, run, s, BroadcastIdle(0));
    run := run + [BroadcastIdle(0)];
    hide Final, IsRun;
    assert Apply(s, BroadcastIdle(0)).calls == [Call(SignalConn(0, true), 1), Call(Asleep(true), 1)];
  }

  /** The keep-alive thread parks because somebody waits. */
  lemma Parks() returns (run: seq<Action>, trace: S.Trace)
    ensures IsRun(CFG, run) && Final(CFG, run) == Held(Parked(false), trace, Done(true), Asleep(true))
  {
    run, trace := Announces();
    hide Final, IsRun;
    Then(CFG, run, Held(Top, trace, SignalConn(0, true), Asleep(true)), Signal(0));
    run := run + [Signal(0)];
    Then(CFG, run, Held(Top, trace, Done(true), Asleep(true)), NoopLock(0));
    run := run + [NoopLock(0)];
  }

  /** The keep-alive thread parks because somebody waits; the waiter gives up; nobody signals it. */
  lemma Strands() returns (run: seq<Action>)
    ensures IsRun(CFG, run) && Final(CFG, run).main.WaitEnd?
    ensures |Final(CFG, run).agents| == |Final(CFG, run).pool.conns| && Stranded(Final(CFG, run), 0)
    ensures Quiescent(Final(CFG, run)) && Final(CFG, run).pool.idle == [0]
    ensures forall i :: 0 <= i < |Final(CFG, run).calls| ==> Final(CFG, run).calls[i].pc.Done?
  {
    hide Final, IsRun;
    var trace;
    run, trace := Parks();
    run := GivesUp(run, Held(Parked(false), trace, Done(true), Asleep(true)), trace);
    Rests(trace);
    hide Quiescent;
  }

  lemma GivesUp(before: seq<Action>, s3: State, trace: S.Trace) returns (run: seq<Action>)
    requires IsRun(CFG, before) && Final(CFG, before) == s3
    requires s3 == State(CFG, Pool([], [0], [], [Conn(Idle, 1, 0, false)], 1, 1, 1), [Agent(Parked(false), 0, trace)],
                         [Call(Done(true), 1), Call(Asleep(true), 1)], Running, 0)
    ensures IsRun(CFG, run) && Final(CFG, run) == AtRest(trace)
  {
    Then(CFG, before, s3, Timeout(1));
    run := before + [Timeout(1)];
    var s4 := s3.(calls := [Call(Done(true), 1), Call(Done(false), 1)], pool := s3.pool.(waiting := 0));
    Then(CFG, run, s4, MainLock);
    run := run + [MainLock];
    assert Flag(s4.pool).conns == [Conn(Idle, 1, 0, true)];
  }

  /** The only connection is idle and told to end; its keep-alive thread sleeps. */
  function AtRest(trace: S.Trace): State {
    State(CFG, Pool([], [0], [], [Conn(Idle, 1, 0, true)], 0, 1, 1), [Agent(Parked(false), 0, trace)],
          [Call(Done(true), 1), Call(Done(false), 1)], WaitEnd(false), 0)
  }

  lemma Rests(trace: S.Trace)
    ensures Quiescent(AtRest(trace)) && Stranded(AtRest(trace), 0)
  {
  }

  // ----- the first loop

  /** The only connection is busy with call 0; call 1 waits, and so does the main thread. */
  function BothWait(stage: Stage, trace: S.Trace): State {
    State(CFG, Pool([0], [], [], [Conn(Busy, 0, 0, false)], 1, 0, 0), [Agent(Top, 0, trace)],
          [Call(At(0, stage), 1), Call(Asleep(false), 1)], WaitIdle(false), 0)
  }

  lemma BothSleep() returns (run: seq<Action>)
    ensures IsRun(CFG, run) && Final(CFG, run) == BothWait(Mailing, SetupTrace(CFG))
  {
    hide SetupTrace, IsRun, Final;
    run := Connects(CFG);
    var trace := SetupTrace(CFG);
    Then(CFG, run, Alone(CFG, Got(true), 0, trace), ClearNoop(0));
    run := run + [ClearNoop(0)];
    var s1 := Alone(CFG, Mailing, 0, trace);
    Then(CFG, run, s1, Arrive(1));
    run := run + [Arrive(1)];
    var s2 := s1.(calls := [Call(At(0, Mailing), 1), Call(Enter, 1)]);
    Then(CFG, run, s2, Lock(1, true));
    run := run + [Lock(1, true)];
    var s3 := s2.(calls := [Call(At(0, Mailing), 1), Call(Asleep(false), 1)], pool := s2.pool.(waiting := 1));
    Then(CFG, run, s3, MainLock);
    run := run + [MainLock];
  }

  /** The server refuses the mail, and the connection is left to its keep-alive thread. */
  function Ends(pc: NoopPc, noop: seq<nat>, trace: S.Trace, woken: bool): State {
    State(CFG, Pool([], [], noop, [Conn(Noop, 0, 0, true)], 1, 0, 0), [Agent(pc, 0, trace)],
          [Call(SignalConn(0, false), 1), Call(Asleep(woken), 1)], WaitIdle(woken), 0)
  }

  lemma Refused() returns (run: seq<Action>, trace: S.Trace)
    ensures IsRun(CFG, run) && Final(CFG, run) == Ends(Top, [0], trace, false)
  {
    hide SetupTrace, IsRun, Final;
    run := BothSleep();
    Then(CFG, run, BothWait(Mailing, SetupTrace(CFG)), Exchange(0, false));
    run := run + [Exchange(0, false)];
    trace := SetupTrace(CFG) + [S.Said(S.MailFrom, false)];
    Then(CFG, run, BothWait(Retiring(false), trace), Unhold(0));
    run := run + [Unhold(0)];
  }

  lemma Closes() returns (run: seq<Action>, trace: S.Trace)
    ensures IsRun(CFG, run) && Final(CFG, run) == Ends(EndSignal, [], trace, false)
  {
    hide IsRun, Final;
    run, trace := Refused();
    var s := Ends(Top, [0], trace, false);
    Then(CFG, run, s, NoopLock(0));
    run := run + [NoopLock(0)];
    assert DoNoopLock(s, 0) == End(s, 0);
    trace := trace + [S.Closed];
  }

  /** The keep-alive thread has ended its connection and wakes everybody. */
  lemma Ended() returns (run: seq<Action>, trace: S.Trace)
    ensures IsRun(CFG, run) && Final(CFG, run) == Ends(Gone, [], trace, true)
  {
    hide IsRun, Final;
    run, trace := Closes();
    Then(CFG, run, Ends(EndSignal, [], trace, false), NoopEndSignal(0));
    run := run + [NoopEndSignal(0)];
    var s := Ends(EndAnnounce, [], trace, false);
    Then(CFG, run, s, NoopEndAnnounce(0));
    run := run + [NoopEndAnnounce(0)];
    assert Broadcast(s).calls == [Call(SignalConn(0, false), 1), Call(Asleep(true), 1)];
  }

  /** No connection is left, every call is done, and the main thread sleeps. */
  function Overslept(first: CallPc, trace: S.Trace): State {
    State(CFG, Pool([], [], [], [Conn(Noop, 0, 0, true)], 0, 0, 0), [Agent(Gone, 0, trace)],
          [Call(first, 1), Call(Done(false), 1)], WaitIdle(false), 0)
  }

  lemma LeavesLast() returns (run: seq<Action>, trace: S.Trace)
    ensures IsRun(CFG, run) && Final(CFG, run) == Overslept(Done(false), trace)
  {
    hide IsRun, Final;
    run, trace := Ended();
    var s := Ends(Gone, [], trace, true);
    Then(CFG, run, s, MainLock);
    run := run + [MainLock];
    Then(CFG, run, s.(main := WaitIdle(false)), Resume(1, false));
    run := run + [Resume(1, false)];
    Then(CFG, run, Overslept(SignalConn(0, false), trace), Signal(0));
    run := run + [Signal(0)];
  }

  /**
   The main thread is woken by the last connection while a call still waits and goes back to sleep; the call
   cannot connect and leaves without a word. Nothing is left to wait for, and nobody is stranded.
   */
  lemma SleepsOn() returns (run: seq<Action>)
    ensures IsRun(CFG, run) && Final(CFG, run).main == WaitIdle(false) && Quiescent(Final(CFG, run))
    ensures var s := Final(CFG, run);
      && s.pool.busy == [] && s.pool.idle == [] && s.pool.noop == [] && s.pool.waiting == 0
      && (forall i :: 0 <= i < |s.calls| ==> s.calls[i].pc.Done?)
      && !Abort.SomeStranded(s)
  {
    hide IsRun, Final;
    var trace;
    run, trace := LeavesLast();
    RestsOverslept(trace);
    hide Quiescent;
  }

  lemma RestsOverslept(trace: S.Trace)
    ensures Quiescent(Overslept(Done(false), trace))
  {
  }
}
