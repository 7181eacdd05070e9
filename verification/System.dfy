/**
 One transport under concurrency: any number of calls of `tpSendMail`, one keep-alive thread per
 connection, the timer that resets the daily counter, and the main thread in `abortTpConns`
 (src/transport.c). Every thread has a program counter. A critical section is one step, an SMTP
 exchange is one step whose outcome is free, and each broadcast or signal made after an unlock is a
 step of its own.
 */
module System {
  import opened Sequences
  import opened Pool
  import S = Session

  datatype Security = Plain | Ssl | StartTls

  datatype Config = Config(maxConn: int, maxSendPerConn: int, maxNoop: int, security: Security, skipAuth: bool)

  /** What `smtpEHLO` says before its last EHLO. */
  function Banner(security: Security): S.Trace {
    match security
    case Plain => [S.Said(S.Greeting, true)]
    case Ssl => [S.Said(S.Handshake, true), S.Said(S.Greeting, true)]
    case StartTls =>
      [S.Said(S.Greeting, true), S.Said(S.Ehlo, true), S.Said(S.StartTls, true), S.Said(S.Handshake, true)]
  }

  /** What `smtpAuth` says. */
  function Login(skipAuth: bool): S.Trace {
    if skipAuth then [] else [S.Said(S.AuthLogin, true), S.Said(S.UserName, true), S.Said(S.Password, true)]
  }

  /** What a connection has said when `newConn` publishes it. */
  function SetupTrace(cfg: Config): S.Trace {
    Banner(cfg.security) + [S.Said(S.Ehlo, true)] + Login(cfg.skipAuth)
  }

  /** Where a call stands while it owns a connection. */
  datatype Stage =
    | Got(isNew: bool)
    | Resetting
    | Mailing
    | Recipients(left: nat)
    | DataCommand
    | Sending
    | Counting
    | Releasing
    | Retiring(delivered: bool)

  /** Where a call of `tpSendMail` stands. */
  datatype CallPc =
    | Enter
    | Asleep(woken: bool)
    | At(conn: nat, stage: Stage)
    | AnnounceIdle(conn: nat)
    | SignalConn(conn: nat, ret: bool)
    | Done(ret: bool)

  datatype Call = Call(pc: CallPc, rcpts: nat)

  /** Where the keep-alive thread of a connection stands. */
  datatype NoopPc =
    | Top
    | Parked(woken: bool)
    | Nooping
    | Counted
    | Closing
    | Unlinking
    | Returning
    | Announce
    | EndSignal
    | EndAnnounce
    | Gone

  /** The keep-alive thread, and two history variables: who holds the connection, what was said. */
  datatype Agent = Agent(pc: NoopPc, holder: nat, trace: S.Trace)

  datatype MainPc = Running | WaitIdle(woken: bool) | WaitEnd(woken: bool) | Drained

  /** `mark` is a history variable: `totalSend` when the daily counter was last reset. */
  datatype State = State(
    cfg: Config,
    pool: Pool,
    agents: seq<Agent>,
    calls: seq<Call>,
    main: MainPc,
    mark: int
  )

  datatype Action =
    | Arrive(rcpts: nat)
    | Lock(i: nat, connected: bool)
    | Resume(i: nat, connected: bool)
    | Timeout(i: nat)
    | ClearNoop(i: nat)
    | Exchange(i: nat, ok: bool)
    | Count(i: nat)
    | Unhold(i: nat)
    | BroadcastIdle(i: nat)
    | Signal(i: nat)
    | NoopLock(c: nat)
    | NoopCount(c: nat)
    | NoopExchange(c: nat, ok: bool)
    | NoopClose(c: nat)
    | NoopUnlink(c: nat)
    | NoopReturn(c: nat)
    | NoopAnnounce(c: nat)
    | NoopEndSignal(c: nat)
    | NoopEndAnnounce(c: nat)
    | ResetToday
    | MainLock
    | MainCheck
    | SpuriousCall(i: nat)
    | SpuriousNoop(c: nat)
    | SpuriousMain

  function Init(cfg: Config): State {
    State(cfg, EMPTY, [], [], Running, 0)
  }

  // ----- when a thread may take a step

  predicate CallAt(s: State, i: nat) { i < |s.calls| && s.calls[i].pc.At? }

  predicate AgentAt(s: State, c: nat, pc: NoopPc) { c < |s.agents| && s.agents[c].pc == pc }

  /** The guard of the wait loops: no idle connection and no room for another. */
  predicate Full(s: State) {
    s.pool.idle == [] && |s.pool.busy| + |s.pool.noop| == s.cfg.maxConn
  }

  predicate Enabled(s: State, a: Action) {
    match a
    case Arrive(rcpts) => s.main.Running? && rcpts > 0
    case Lock(i, _) => i < |s.calls| && s.calls[i].pc.Enter?
    case Resume(i, _) => i < |s.calls| && s.calls[i].pc == Asleep(true)
    case Timeout(i) => i < |s.calls| && s.calls[i].pc.Asleep?
    case ClearNoop(i) => CallAt(s, i) && s.calls[i].pc.stage.Got?
    case Exchange(i, _) => CallAt(s, i) && Talking(s.calls[i].pc.stage)
    case Count(i) => CallAt(s, i) && s.calls[i].pc.stage.Counting?
    case Unhold(i) => CallAt(s, i) && (s.calls[i].pc.stage.Releasing? || s.calls[i].pc.stage.Retiring?)
    case BroadcastIdle(i) => i < |s.calls| && s.calls[i].pc.AnnounceIdle?
    case Signal(i) => i < |s.calls| && s.calls[i].pc.SignalConn?
    case NoopLock(c) => AgentAt(s, c, Top) || AgentAt(s, c, Parked(true))
    case NoopCount(c) => AgentAt(s, c, Nooping)
    case NoopExchange(c, _) => AgentAt(s, c, Counted)
    case NoopClose(c) => AgentAt(s, c, Closing)
    case NoopUnlink(c) => AgentAt(s, c, Unlinking)
    case NoopReturn(c) => AgentAt(s, c, Returning)
    case NoopAnnounce(c) => AgentAt(s, c, Announce)
    case NoopEndSignal(c) => AgentAt(s, c, EndSignal)
    case NoopEndAnnounce(c) => AgentAt(s, c, EndAnnounce)
    case ResetToday => true
    case MainLock => (s.main.Running? && NobodyEnters(s)) || s.main == WaitIdle(true)
    case MainCheck => s.main == WaitEnd(true)
    case SpuriousCall(i) => i < |s.calls| && s.calls[i].pc == Asleep(false)
    case SpuriousNoop(c) => AgentAt(s, c, Parked(false))
    case SpuriousMain => s.main == WaitIdle(false) || s.main == WaitEnd(false)
  }

  predicate Talking(g: Stage) {
    g.Resetting? || g.Mailing? || g.Recipients? || g.DataCommand? || g.Sending?
  }

  /** No call stands between the `blocked` test and the pool's mutex. */
  predicate NobodyEnters(s: State) {
    forall i :: 0 <= i < |s.calls| ==> !s.calls[i].pc.Enter?
  }

  // ----- what the code takes for granted when it takes the step

  /** Every pointer the step follows leads somewhere, and a node it moves is on the list it names. */
  predicate Safe(s: State, a: Action) {
    match a
    case Lock(_, _) => s.pool.idle != [] ==> Live(s, s.pool.idle[0])
    case Resume(_, _) => s.pool.idle != [] ==> Live(s, s.pool.idle[0])
    case ClearNoop(i) => i < |s.calls| && s.calls[i].pc.At? && Live(s, s.calls[i].pc.conn)
    case Exchange(i, _) => i < |s.calls| && s.calls[i].pc.At? && Live(s, s.calls[i].pc.conn)
    case Count(i) => i < |s.calls| && s.calls[i].pc.At? && Live(s, s.calls[i].pc.conn)
    case Unhold(i) => i < |s.calls| && s.calls[i].pc.At? && Live(s, s.calls[i].pc.conn)
                   && s.calls[i].pc.conn in s.pool.busy
    case NoopLock(c) => Live(s, c)
                     && (s.pool.conns[c].status == Idle ==> c in s.pool.idle)
                     && (s.pool.conns[c].status == Noop ==> c in s.pool.noop)
    case NoopCount(c) => Live(s, c)
    case NoopExchange(c, _) => Live(s, c)
    case NoopUnlink(c) => c in s.pool.noop
    case NoopReturn(c) => Live(s, c) && c in s.pool.noop
    case _ => true
  }

  /** The connection exists and has not been freed. */
  predicate Live(s: State, c: nat) {
    c < |s.pool.conns| == |s.agents| && !Dead(s.agents[c].pc)
  }

  /** The keep-alive thread has freed its connection. */
  predicate Dead(pc: NoopPc) { pc.EndSignal? || pc.EndAnnounce? || pc.Gone? }

  // ----- the steps

  function SetCall(s: State, i: nat, pc: CallPc): State
    requires i < |s.calls|
  {
    s.(calls := s.calls[i := s.calls[i].(pc := pc)])
  }

  function SetAgent(s: State, c: nat, pc: NoopPc): State
    requires c < |s.agents|
  {
    s.(agents := s.agents[c := s.agents[c].(pc := pc)])
  }

  function Say(s: State, c: nat, e: S.Event): State
    requires c < |s.agents|
  {
    s.(agents := s.agents[c := s.agents[c].(trace := s.agents[c].trace + [e])])
  }

  /** Every thread that sleeps on `idleCond` wakes. */
  function Broadcast(s: State): State {
    s.(calls := seq(|s.calls|, i requires 0 <= i < |s.calls| =>
                    if s.calls[i].pc.Asleep? then s.calls[i].(pc := Asleep(true)) else s.calls[i]),
       main := if s.main.WaitIdle? then WaitIdle(true) else s.main)
  }

  /** A call that found no idle connection sets one up while it holds the mutex. */
  function Connect(s: State, i: nat, connected: bool): State
    requires i < |s.calls|
  {
    if connected then
      SetCall(s, i, At(|s.pool.conns|, Got(true)))
        .(pool := Publish(s.pool), agents := s.agents + [Agent(Top, i, SetupTrace(s.cfg))])
    else
      SetCall(s, i, Done(false))
  }

  ghost function Take(s: State, i: nat): State
    requires i < |s.calls| && s.pool.idle != [] && Live(s, s.pool.idle[0])
  {
    var c := s.pool.idle[0];
    SetCall(s, i, At(c, Got(false)))
      .(pool := TakeIdle(s.pool), agents := s.agents[c := s.agents[c].(holder := i)])
  }

  ghost function DoLock(s: State, i: nat, connected: bool): State
    requires i < |s.calls| && (s.pool.idle != [] ==> Live(s, s.pool.idle[0]))
  {
    if s.pool.idle != [] then Take(s, i)
    else if |s.pool.busy| + |s.pool.noop| < s.cfg.maxConn then Connect(s, i, connected)
    else
      var t := s.(pool := s.pool.(waiting := s.pool.waiting + 1));
      if Full(s) then SetCall(t, i, Asleep(false)) else LeaveLoop(t, i, connected)
  }

  /** Past the wait loop: the predicate was just seen to be false. */
  ghost function LeaveLoop(s: State, i: nat, connected: bool): State
    requires i < |s.calls| && (s.pool.idle != [] ==> Live(s, s.pool.idle[0]))
  {
    var t := s.(pool := s.pool.(waiting := s.pool.waiting - 1));
    if s.pool.idle != [] then Take(t, i) else Connect(t, i, connected)
  }

  ghost function DoResume(s: State, i: nat, connected: bool): State
    requires i < |s.calls| && (s.pool.idle != [] ==> Live(s, s.pool.idle[0]))
  {
    if Full(s) then SetCall(s, i, Asleep(false)) else LeaveLoop(s, i, connected)
  }

  function DoTimeout(s: State, i: nat): State
    requires i < |s.calls|
  {
    SetCall(s, i, Done(false)).(pool := s.pool.(waiting := s.pool.waiting - 1))
  }

  function DoClearNoop(s: State, i: nat): State
    requires CallAt(s, i) && s.calls[i].pc.stage.Got? && Live(s, s.calls[i].pc.conn)
  {
    var c := s.calls[i].pc.conn;
    var next := if s.calls[i].pc.stage.isNew then Mailing else Resetting;
    SetCall(s, i, At(c, next))
      .(pool := s.pool.(conns := s.pool.conns[c := s.pool.conns[c].(noopCount := 0)]))
  }

  /** The exchange of a stage, and the stage after it when the server agrees. */
  function Spoken(g: Stage): S.Verb
    requires Talking(g)
  {
    match g
    case Resetting => S.Rset
    case Mailing => S.MailFrom
    case Recipients(_) => S.RcptTo
    case DataCommand => S.Data
    case Sending => S.Content
  }

  function After(g: Stage, rcpts: nat): Stage
    requires Talking(g)
  {
    match g
    case Resetting => Mailing
    case Mailing => Recipients(rcpts)
    case Recipients(left) => if left > 1 then Recipients(left - 1) else DataCommand
    case DataCommand => Sending
    case Sending => Counting
  }

  function DoExchange(s: State, i: nat, ok: bool): State
    requires CallAt(s, i) && Talking(s.calls[i].pc.stage) && Live(s, s.calls[i].pc.conn)
  {
    var At(c, g) := s.calls[i].pc;
    var next := if ok then After(g, s.calls[i].rcpts) else Retiring(false);
    Say(SetCall(s, i, At(c, next)), c, S.Said(Spoken(g), ok))
  }

  function DoCount(s: State, i: nat): State
    requires CallAt(s, i) && Live(s, s.calls[i].pc.conn)
  {
    var c := s.calls[i].pc.conn;
    var n := s.pool.conns[c].sendCount + 1;
    var next := if n == s.cfg.maxSendPerConn then Retiring(true) else Releasing;
    SetCall(s, i, At(c, next))
      .(pool := s.pool.(conns := s.pool.conns[c := s.pool.conns[c].(sendCount := n)]))
  }

  ghost function DoUnhold(s: State, i: nat): State
    requires CallAt(s, i) && Live(s, s.calls[i].pc.conn) && s.calls[i].pc.conn in s.pool.busy
  {
    var At(c, g) := s.calls[i].pc;
    if g.Retiring? then
      SetCall(s, i, SignalConn(c, g.delivered)).(pool := Retire(s.pool, c, g.delivered))
    else
      SetCall(s, i, AnnounceIdle(c)).(pool := Release(s.pool, c))
  }

  function DoBroadcastIdle(s: State, i: nat): State
    requires i < |s.calls| && s.calls[i].pc.AnnounceIdle?
  {
    SetCall(Broadcast(s), i, SignalConn(s.calls[i].pc.conn, true))
  }

  function DoSignal(s: State, i: nat): State
    requires i < |s.calls| && s.calls[i].pc.SignalConn?
  {
    var SignalConn(c, ret) := s.calls[i].pc;
    var t := SetCall(s, i, Done(ret));
    if c < |s.agents| && s.agents[c].pc.Parked? then SetAgent(t, c, Parked(true)) else t
  }

  /** `endConn` with the mutex held: close, unlink, free. */
  ghost function End(s: State, c: nat): State
    requires c < |s.agents| && c in s.pool.noop
  {
    SetAgent(Say(s, c, S.Closed), c, EndSignal).(pool := Unlink(s.pool, c))
  }

  ghost function DoNoopLock(s: State, c: nat): State
    requires Live(s, c)
    requires s.pool.conns[c].status == Idle ==> c in s.pool.idle
    requires s.pool.conns[c].status == Noop ==> c in s.pool.noop
  {
    var status := s.pool.conns[c].status;
    if status == Busy || (status == Idle && s.pool.waiting > 0) then SetAgent(s, c, Parked(false))
    else
      var t := if status == Idle then s.(pool := Grab(s.pool, c)) else s;
      if s.pool.conns[c].endFlag then End(t, c) else SetAgent(t, c, Nooping)
  }

  function DoNoopCount(s: State, c: nat): State
    requires Live(s, c)
  {
    SetAgent(s, c, Counted)
      .(pool := s.pool.(conns := s.pool.conns[c := s.pool.conns[c].(noopCount := s.pool.conns[c].noopCount + 1)]))
  }

  function DoNoopExchange(s: State, c: nat, ok: bool): State
    requires Live(s, c)
  {
    var next := if !ok || s.pool.conns[c].noopCount == s.cfg.maxNoop then Closing else Returning;
    Say(SetAgent(s, c, next), c, S.Said(S.Noop, ok))
  }

  ghost function DoNoopReturn(s: State, c: nat): State
    requires Live(s, c) && c in s.pool.noop
  {
    if s.pool.conns[c].endFlag then End(s, c)
    else SetAgent(s, c, Announce).(pool := GiveBack(s.pool, c))
  }

  function Unfinished(s: State): nat { |s.pool.noop| + |s.pool.idle| }

  function DoMainLock(s: State): State {
    if s.pool.busy != [] || s.pool.waiting > 0 then s.(main := WaitIdle(false))
    else s.(pool := Flag(s.pool), main := if Unfinished(s) > 0 then WaitEnd(false) else Drained)
  }

  ghost function Apply(s: State, a: Action): State
    requires Enabled(s, a) && Safe(s, a)
  {
    match a
    case Arrive(rcpts) => s.(calls := s.calls + [Call(Enter, rcpts)])
    case Lock(i, connected) => DoLock(s, i, connected)
    case Resume(i, connected) => DoResume(s, i, connected)
    case Timeout(i) => DoTimeout(s, i)
    case ClearNoop(i) => DoClearNoop(s, i)
    case Exchange(i, ok) => DoExchange(s, i, ok)
    case Count(i) => DoCount(s, i)
    case Unhold(i) => DoUnhold(s, i)
    case BroadcastIdle(i) => DoBroadcastIdle(s, i)
    case Signal(i) => DoSignal(s, i)
    case NoopLock(c) => DoNoopLock(s, c)
    case NoopCount(c) => DoNoopCount(s, c)
    case NoopExchange(c, ok) => DoNoopExchange(s, c, ok)
    case NoopClose(c) => SetAgent(Say(s, c, S.Closed), c, Unlinking)
    case NoopUnlink(c) => SetAgent(s, c, EndSignal).(pool := Unlink(s.pool, c))
    case NoopReturn(c) => DoNoopReturn(s, c)
    case NoopAnnounce(c) => SetAgent(Broadcast(s), c, Top)
    case NoopEndSignal(c) => SetAgent(s, c, EndAnnounce).(main := if s.main.WaitEnd? then WaitEnd(true) else s.main)
    case NoopEndAnnounce(c) => SetAgent(Broadcast(s), c, Gone)
    case ResetToday => s.(pool := s.pool.(todaySend := 0), mark := s.pool.totalSend)
    case MainLock => DoMainLock(s)
    case MainCheck => s.(main := if Unfinished(s) > 0 then WaitEnd(false) else Drained)
    case SpuriousCall(i) => SetCall(s, i, Asleep(true))
    case SpuriousNoop(c) => SetAgent(s, c, Parked(true))
    case SpuriousMain => s.(main := if s.main.WaitIdle? then WaitIdle(true) else WaitEnd(true))
  }

  // ----- runs

  /** A run: actions from the start, each enabled and safe where it is taken. */
  ghost predicate IsRun(cfg: Config, run: seq<Action>)
    decreases |run|, 0
  {
    run == [] || (
      && IsRun(cfg, run[..|run| - 1])
      && Enabled(Final(cfg, run[..|run| - 1]), run[|run| - 1])
      && Safe(Final(cfg, run[..|run| - 1]), run[|run| - 1]))
  }

  ghost function Final(cfg: Config, run: seq<Action>): State
    requires IsRun(cfg, run)
    decreases |run|, 1
  {
    if run == [] then Init(cfg) else Apply(Final(cfg, run[..|run| - 1]), run[|run| - 1])
  }
}
