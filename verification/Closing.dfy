/**
 How a connection ends: the proxy closes it without QUIT, whatever was said on it before, and so breaks the
 rule of RFC 5321 (sections 4.1.1.10 and 4.1.4) that a session ends with QUIT.
 */
module Closing {
  import opened Sequences
  import opened Pool
  import opened System
  import opened Invariant
  import opened Steps
  import opened Stranding
  import S = Session

  /** The keep-alive thread has closed the socket. */
  predicate HasClosed(pc: NoopPc) { pc.Unlinking? || Dead(pc) }

  /** A step adds nothing to the trace of a connection, or `e`; a new connection starts with its setup. */
  ghost predicate Adds(s: State, t: State, c: nat, e: S.Event) {
    c < |t.agents| ==>
      if c < |s.agents| then t.agents[c].trace in {s.agents[c].trace, s.agents[c].trace + [e]}
      else t.agents[c].trace == SetupTrace(s.cfg)
  }

  lemma CallAdds(s: State, a: Action, c: nat)
    requires Enabled(s, a) && Safe(s, a) && (a.Lock? || a.Resume?)
    ensures Adds(s, Apply(s, a), c, S.Closed)
  {
    hide SetupTrace, TakeIdle, Publish;
  }

  lemma TalkAdds(s: State, a: Action, c: nat)
    requires Enabled(s, a) && Safe(s, a)
    ensures a.Exchange? ==> Adds(s, Apply(s, a), c, S.Said(Spoken(s.calls[a.i].pc.stage), a.ok))
    ensures a.NoopExchange? ==> Adds(s, Apply(s, a), c, S.Said(S.Noop, a.ok))
    ensures a.NoopClose? ==> Adds(s, Apply(s, a), c, S.Closed)
  {
    hide SetupTrace, DoLock, DoResume, DoUnhold, DoNoopLock, DoNoopReturn, DoMainLock;
  }

  lemma KeeperAdds(s: State, a: Action, c: nat)
    requires Enabled(s, a) && Safe(s, a) && (a.NoopLock? || a.NoopReturn?)
    ensures Adds(s, Apply(s, a), c, S.Closed)
  {
    hide SetupTrace, Grab, GiveBack, Unlink;
  }

  lemma OthersAdd(s: State, a: Action, c: nat)
    requires Enabled(s, a) && Safe(s, a) && !a.Lock? && !a.Resume? && !a.NoopLock? && !a.NoopReturn?
    requires !a.Exchange? && !a.NoopExchange? && !a.NoopClose?
    ensures Adds(s, Apply(s, a), c, S.Closed)
  {
    hide SetupTrace, Release, Retire, Unlink, Flag;
  }

  /** What it adds is no lost handshake. */
  lemma StepSays(s: State, a: Action, c: nat) returns (e: S.Event)
    requires Enabled(s, a) && Safe(s, a)
    ensures e != S.Said(S.Handshake, false) && Adds(s, Apply(s, a), c, e)
  {
    e := match a
      case Exchange(i, ok) => S.Said(Spoken(s.calls[i].pc.stage), ok)
      case NoopExchange(_, ok) => S.Said(S.Noop, ok)
      case _ => S.Closed;
    hide Apply, Adds, Safe;
    if a.Lock? || a.Resume? {
      CallAdds(s, a, c);
    } else if a.Exchange? || a.NoopExchange? || a.NoopClose? {
      TalkAdds(s, a, c);
    } else if a.NoopLock? || a.NoopReturn? {
      KeeperAdds(s, a, c);
    } else {
      OthersAdd(s, a, c);
    }
  }

  lemma SetupLosesNothing(cfg: Config)
    ensures S.Said(S.Handshake, false) !in SetupTrace(cfg)
  {
  }

  /** A connection that was published never loses a handshake. */
  lemma {:induction false} NoLostHandshake(cfg: Config, run: seq<Action>, c: nat)
    requires IsRun(cfg, run) && c < |Final(cfg, run).agents|
    ensures S.Said(S.Handshake, false) !in Final(cfg, run).agents[c].trace
  {
    hide Apply, Enabled, Safe, SetupTrace;
    if run != [] {
      var less := run[..|run| - 1];
      var s := Final(cfg, less);
      var e := StepSays(s, run[|run| - 1], c);
      SetupLosesNothing(s.cfg);
      if c < |s.agents| {
        NoLostHandshake(cfg, less, c);
      }
    }
  }

  lemma EndedWhenClosed(s: State, c: nat)
    requires Core(s) && c < |s.agents|
    ensures S.Run(s.agents[c].trace) == S.Ended <==> HasClosed(s.agents[c].pc)
    ensures S.Run(s.agents[c].trace) != S.Bad
  {
    assert ConnOk(s, c) && Listed(s.pool, s.agents[c], c);
    S.SummaryRuns(s.agents[c].trace);
    hide S.Summary;
  }

  /**
   The order of commands is always kept, QUIT is never said, and the rule that a session ends with QUIT is
   broken exactly when the proxy has closed the connection.
   */
  lemma {:induction false} QuitRule(cfg: Config, run: seq<Action>, c: nat)
    requires cfg.maxConn >= 1 && IsRun(cfg, run) && c < |Final(cfg, run).agents|
    ensures var a := Final(cfg, run).agents[c];
      && S.RfcRun(a.trace).stage != S.Violation
      && S.Said(S.Quit, true) !in a.trace && S.Said(S.Quit, false) !in a.trace
      && (S.RfcRun(a.trace).stage == S.Unquit <==> S.Closed in a.trace)
      && (S.Closed in a.trace <==> HasClosed(a.pc))
  {
    hide Core, S.RfcRun, S.Run;
    RunKeeps(cfg, run);
    var s := Final(cfg, run);
    InvCore(s);
    var trace := s.agents[c].trace;
    EndedWhenClosed(s, c);
    NoLostHandshake(cfg, run, c);
    S.DisciplineSimulates(trace);
    S.UnquitWhenClosed(trace);
    S.NeverQuits(trace, true);
    S.NeverQuits(trace, false);
  }

  lemma InvCore(s: State)
    requires Inv(s)
    ensures Core(s)
  {
  }

  // ----- a run that shows it

  const ONCE := Config(1, 1, 0, Plain, true)

  /** Connection 0 has sent its mail and waits for its keep-alive thread to end it. */
  function Retired(trace: S.Trace): State {
    State(ONCE, Pool([], [], [0], [Conn(Noop, 1, 0, true)], 0, 1, 1), [Agent(Top, 0, trace)],
          [Call(SignalConn(0, true), 1)], Running, 0)
  }

  lemma Retires() returns (run: seq<Action>)
    ensures IsRun(ONCE, run) && Final(ONCE, run) == Retired(SetupTrace(ONCE) + MAIL)
  {
    hide SetupTrace;
    run := Delivers(ONCE);
    var trace := SetupTrace(ONCE) + MAIL;
    hide MAIL;
    Then(ONCE, run, Alone(ONCE, Retiring(true), 1, trace), Unhold(0));
    run := run + [Unhold(0)];
  }

  /** A connection that may send one mail sends it, and is closed although every reply was friendly. */
  lemma ClosesWithoutQuit() returns (run: seq<Action>)
    ensures IsRun(ONCE, run) && |Final(ONCE, run).agents| == 1
    ensures Final(ONCE, run).agents[0].trace == SetupTrace(ONCE) + MAIL + [S.Closed]
    ensures S.Run(SetupTrace(ONCE) + MAIL).Delivered?
    ensures S.RfcRun(Final(ONCE, run).agents[0].trace).stage == S.Unquit
  {
    hide SetupTrace, MAIL;
    run := Retires();
    var trace := SetupTrace(ONCE) + MAIL;
    Then(ONCE, run, Retired(trace), NoopLock(0));
    run := run + [NoopLock(0)];
    assert Final(ONCE, run).agents[0].trace == trace + [S.Closed];
    hide Apply, Final, IsRun;
    assert S.Closed == (trace + [S.Closed])[|trace|];
    QuitRule(ONCE, run, 0);
    AllFriendly();
  }

  lemma AllFriendly()
    ensures S.Run(SetupTrace(ONCE) + MAIL).Delivered?
  {
    hide SetupTrace, MAIL;
    var run := Delivers(ONCE);
    RunKeeps(ONCE, run);
    HeldDelivered(SetupTrace(ONCE) + MAIL);
  }

  lemma HeldDelivered(trace: S.Trace)
    requires Inv(Alone(ONCE, Retiring(true), 1, trace))
    ensures S.Run(trace).Delivered?
  {
    hide S.Summary, S.Run;
    assert ConnOk(Alone(ONCE, Retiring(true), 1, trace), 0);
    S.SummaryRuns(trace);
  }
}
