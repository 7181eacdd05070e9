/** The inductive invariant of the interleaving model, and that every step keeps it. */
module Invariant {
  import opened Sequences
  import opened Pool
  import opened System
  import S = Session

  // ----- the parts

  /** A live connection is on the list its status names, a freed one on none; the pool fits `maxConn`. */
  ghost predicate Lists(s: State) {
    && Sound(s.pool)
    && |s.agents| == |s.pool.conns|
    && |s.pool.busy| + |s.pool.idle| + |s.pool.noop| <= s.cfg.maxConn
    && (forall c :: 0 <= c < |s.agents| ==> Listed(s.pool, s.agents[c], c))
  }

  ghost predicate Listed(p: Pool, a: Agent, c: nat)
    requires c < |p.conns|
  {
    if Dead(a.pc) then p.conns[c].status == Noop && c !in p.noop else c in ListOf(p, p.conns[c].status)
  }

  /** Busy connections and the calls that own one correspond one to one. */
  ghost predicate Owned(s: State) {
    && |s.agents| == |s.pool.conns|
    && (forall i :: 0 <= i < |s.calls| && s.calls[i].pc.At? ==> OwnsOk(s, i))
    && (forall c :: 0 <= c < |s.agents| && s.pool.conns[c].status == Busy ==> OwnedOk(s, c))
    && (forall i :: 0 <= i < |s.calls| ==> s.calls[i].rcpts > 0)
  }

  ghost predicate OwnsOk(s: State, i: nat)
    requires |s.agents| == |s.pool.conns| && i < |s.calls| && s.calls[i].pc.At?
  {
    var c := s.calls[i].pc.conn;
    c < |s.agents| && s.pool.conns[c].status == Busy && s.agents[c].holder == i
  }

  ghost predicate OwnedOk(s: State, c: nat)
    requires c < |s.agents|
  {
    var i := s.agents[c].holder;
    i < |s.calls| && s.calls[i].pc.At? && s.calls[i].pc.conn == c
  }

  /** What is known of a connection while the call that owns it stands at `g`. */
  ghost predicate HeldOk(cfg: Config, g: Stage, conn: Conn, pc: NoopPc, d: S.Digest) {
    && (pc.Top? || pc.Parked? || pc.Announce?)
    && !conn.endFlag
    && d.bodies == conn.sendCount + (if g.Counting? then 1 else 0)
    && (cfg.maxSendPerConn >= 1 ==>
          if g == Retiring(true) then conn.sendCount == cfg.maxSendPerConn else conn.sendCount < cfg.maxSendPerConn)
    && (cfg.maxNoop >= 1 ==> d.longest <= cfg.maxNoop)
    && d.trailing <= d.longest
    && (g.Got? || conn.noopCount == 0)
    && ((g.Got? && !g.isNew) || g.Resetting? || d.trailing == 0)
    && PhaseOk(g, d.phase)
  }

  ghost predicate PhaseOk(g: Stage, p: S.Phase) {
    match g
    case Got(isNew) => if isNew then p.Hello? || p.Ready? else p.Delivered?
    case Resetting => p.Delivered?
    case Mailing => p.Hello? || p.Ready?
    case Recipients(left) => p.InMail? && left > 0
    case DataCommand => p == S.InMail(true)
    case Sending => p.InData?
    case Counting => p.Delivered?
    case Releasing => p.Delivered?
    case Retiring(delivered) => if delivered then p.Delivered? else p.Broken?
  }

  /** `abortTpConns` has told every connection to end. */
  predicate Ending(s: State) { s.main.WaitEnd? || s.main.Drained? }

  /** What is known of a connection that no call owns. */
  ghost predicate FreeOk(cfg: Config, ending: bool, conn: Conn, pc: NoopPc, d: S.Digest) {
    && d.bodies == conn.sendCount
    && (cfg.maxSendPerConn >= 1 ==> conn.sendCount <= cfg.maxSendPerConn)
    && (cfg.maxNoop >= 1 ==> d.longest <= cfg.maxNoop)
    && d.trailing <= d.longest
    && if conn.status == Idle then
         && (pc.Top? || pc.Parked? || pc.Announce?)
         && (conn.endFlag ==> ending)
         && Usable(cfg, conn, d)
       else
         match pc
         case Nooping => Usable(cfg, conn, d)
         case Returning => Usable(cfg, conn, d)
         case Counted => && d.phase.Delivered? && d.trailing + 1 == conn.noopCount
                         && (cfg.maxNoop >= 1 ==> conn.noopCount <= cfg.maxNoop)
                         && (cfg.maxSendPerConn >= 1 ==> conn.sendCount < cfg.maxSendPerConn)
         case Closing => d.phase.Delivered? || d.phase.Broken?
         case Unlinking => d.phase.Ended?
         case EndSignal => d.phase.Ended?
         case EndAnnounce => d.phase.Ended?
         case Gone => d.phase.Ended?
         case _ => conn.endFlag && (d.phase.Delivered? || d.phase.Broken?)
  }

  /** Ready for another mail or another NOOP. */
  ghost predicate Usable(cfg: Config, conn: Conn, d: S.Digest) {
    && d.phase.Delivered?
    && d.trailing == conn.noopCount
    && (cfg.maxNoop >= 1 ==> conn.noopCount < cfg.maxNoop)
    && (cfg.maxSendPerConn >= 1 ==> conn.sendCount < cfg.maxSendPerConn)
  }

  ghost predicate Conns(s: State)
    requires Owned(s)
  {
    forall c :: 0 <= c < |s.agents| ==> ConnOk(s, c)
  }

  ghost predicate ConnOk(s: State, c: nat)
    requires Owned(s) && c < |s.agents|
  {
    var d := S.Summary(s.agents[c].trace);
    if s.pool.conns[c].status == Busy
    then HeldOk(s.cfg, s.calls[s.agents[c].holder].pc.stage, s.pool.conns[c], s.agents[c].pc, d)
    else FreeOk(s.cfg, Ending(s), s.pool.conns[c], s.agents[c].pc, d)
  }

  /** Nobody sleeps through a chance: the guard still holds, or a broadcast is on its way. */
  ghost predicate Wake(s: State) {
    (exists i :: 0 <= i < |s.calls| && s.calls[i].pc == Asleep(false)) ==> Full(s) || BroadcastPending(s)
  }

  ghost predicate BroadcastPending(s: State) {
    || (exists i :: 0 <= i < |s.calls| && s.calls[i].pc.AnnounceIdle?)
    || (exists c :: 0 <= c < |s.agents| && Announcing(s.agents[c].pc))
  }

  predicate Announcing(pc: NoopPc) { pc.Announce? || pc.EndSignal? || pc.EndAnnounce? }

  /** A keep-alive thread parked on a connection that left the client is about to be signalled. */
  ghost predicate Signals(s: State) {
    && |s.agents| == |s.pool.conns|
    && (forall c :: 0 <= c < |s.agents| && s.agents[c].pc == Parked(false) && s.pool.conns[c].status == Noop
          ==> SignalPending(s, c))
  }

  ghost predicate SignalPending(s: State, c: nat) {
    exists i :: 0 <= i < |s.calls| && s.calls[i].pc.SignalConn? && s.calls[i].pc.conn == c
  }

  function Sleeping(c: Call): int { if c.pc.Asleep? then 1 else 0 }

  /** Calls whose delivery is in `totalSend`. */
  function Accounted(c: Call): int {
    match c.pc
    case AnnounceIdle(_) => 1
    case SignalConn(_, ret) => if ret then 1 else 0
    case Done(ret) => if ret then 1 else 0
    case _ => 0
  }

  /** Calls that have counted their delivery on the connection but not yet in `totalSend`. */
  function Pending(c: Call): int {
    if c.pc.At? && (c.pc.stage == Releasing || c.pc.stage == Retiring(true)) then 1 else 0
  }

  function SendCount(c: Conn): int { c.sendCount }

  ghost predicate Counters(s: State) {
    && s.pool.waiting == Total(Sleeping, s.calls)
    && s.pool.totalSend == Total(Accounted, s.calls)
    && s.pool.totalSend + Total(Pending, s.calls) == Total(SendCount, s.pool.conns)
    && s.pool.todaySend == s.pool.totalSend - s.mark
  }

  ghost predicate MainOk(s: State) {
    && |s.agents| == |s.pool.conns|
    && (!s.main.Running? ==> NobodyEnters(s))
    && (Ending(s) ==>
          && (forall i :: 0 <= i < |s.calls| ==> !s.calls[i].pc.At? && !s.calls[i].pc.Asleep?)
          && (forall c :: 0 <= c < |s.agents| && !Dead(s.agents[c].pc) ==> s.pool.conns[c].endFlag))
    && (s.main.Drained? ==> Unfinished(s) == 0)
  }

  ghost predicate Inv(s: State) {
    && Lists(s)
    && Owned(s)
    && Conns(s)
    && Wake(s)
    && Signals(s)
    && Counters(s)
    && MainOk(s)
  }

  lemma Initially(cfg: Config)
    requires cfg.maxConn >= 1
    ensures Inv(Init(cfg))
  {
  }

  // ----- what a step leaves alone

  ghost predicate OnlyCall(s: State, t: State, i: nat) {
    && i < |s.calls| == |t.calls|
    && t.calls[i].rcpts == s.calls[i].rcpts
    && (forall j :: 0 <= j < |s.calls| && j != i ==> t.calls[j] == s.calls[j])
  }

  ghost predicate OnlyConn(s: State, t: State, c: nat) {
    && t.cfg == s.cfg
    && c < |s.agents| == |t.agents| == |s.pool.conns| == |t.pool.conns|
    && (forall d :: 0 <= d < |s.agents| && d != c ==> t.agents[d] == s.agents[d])
    && (forall d :: 0 <= d < |s.agents| && d != c ==> t.pool.conns[d] == s.pool.conns[d])
  }

  ghost predicate SameLists(s: State, t: State) {
    && t.cfg == s.cfg
    && t.pool.busy == s.pool.busy && t.pool.idle == s.pool.idle && t.pool.noop == s.pool.noop
    && |s.agents| == |t.agents| == |s.pool.conns| == |t.pool.conns|
    && (forall c :: 0 <= c < |s.agents| ==> t.pool.conns[c].status == s.pool.conns[c].status)
    && (forall c :: 0 <= c < |s.agents| ==> Dead(t.agents[c].pc) == Dead(s.agents[c].pc))
  }

  lemma ListsSame(s: State, t: State)
    requires Lists(s) && SameLists(s, t)
    ensures Lists(t)
  {
    forall c | 0 <= c < |t.agents|
      ensures Listed(t.pool, t.agents[c], c)
    {
      assert Listed(s.pool, s.agents[c], c);
    }
  }

  lemma ListsMoved(s: State, t: State, c: nat, from: Status, to: Status)
    requires Lists(s) && OnlyConn(s, t, c) && from != to
    requires !Dead(s.agents[c].pc) && !Dead(t.agents[c].pc)
    requires Sound(t.pool) && Moved(s.pool, t.pool, c, from, to)
    ensures Lists(t)
  {
    forall d | 0 <= d < |t.agents|
      ensures Listed(t.pool, t.agents[d], d)
    {
      assert Listed(s.pool, s.agents[d], d);
    }
    assert |ListOf(t.pool, Busy)| + |ListOf(t.pool, Idle)| + |ListOf(t.pool, Noop)|
        == |ListOf(s.pool, Busy)| + |ListOf(s.pool, Idle)| + |ListOf(s.pool, Noop)|;
  }

  lemma ListsUnlinked(s: State, t: State, c: nat)
    requires Lists(s) && OnlyConn(s, t, c)
    requires c in s.pool.noop && Dead(t.agents[c].pc)
    requires t.pool == Unlink(s.pool, c)
    ensures Lists(t)
  {
    UnlinkRemoves(s.pool, c);
    forall d | 0 <= d < |t.agents|
      ensures Listed(t.pool, t.agents[d], d)
    {
      assert Listed(s.pool, s.agents[d], d);
    }
  }

  lemma OwnedSame(s: State, t: State)
    requires Owned(s)
    requires |s.agents| == |t.agents| == |t.pool.conns| && |s.calls| == |t.calls|
    requires forall i :: 0 <= i < |s.calls| ==> t.calls[i].rcpts == s.calls[i].rcpts
    requires forall i :: 0 <= i < |s.calls| ==>
               t.calls[i].pc == s.calls[i].pc || (!t.calls[i].pc.At? && !s.calls[i].pc.At?)
    requires forall c :: 0 <= c < |s.agents| ==> t.agents[c].holder == s.agents[c].holder
    requires forall c :: 0 <= c < |s.agents| ==> (t.pool.conns[c].status == Busy <==> s.pool.conns[c].status == Busy)
    ensures Owned(t)
  {
    forall i | 0 <= i < |t.calls| && t.calls[i].pc.At?
      ensures OwnsOk(t, i)
    {
      assert OwnsOk(s, i);
    }
    forall c | 0 <= c < |t.agents| && t.pool.conns[c].status == Busy
      ensures OwnedOk(t, c)
    {
      assert OwnedOk(s, c);
    }
  }

  /** Call `i` gets, keeps or gives up connection `c`; nobody else is involved. */
  lemma OwnedStep(s: State, t: State, i: nat, c: nat)
    requires Owned(s) && OnlyCall(s, t, i) && OnlyConn(s, t, c)
    requires s.calls[i].pc.At? ==> s.calls[i].pc.conn == c
    requires s.pool.conns[c].status == Busy ==> s.agents[c].holder == i
    requires t.calls[i].pc.At? ==> OwnsOk(t, i) && t.calls[i].pc.conn == c
    requires t.pool.conns[c].status == Busy ==> OwnedOk(t, c) && t.agents[c].holder == i
    ensures Owned(t)
  {
    forall j | 0 <= j < |t.calls| && t.calls[j].pc.At?
      ensures OwnsOk(t, j)
    {
      assert j != i ==> OwnsOk(s, j);
    }
    forall d | 0 <= d < |t.agents| && t.pool.conns[d].status == Busy
      ensures OwnedOk(t, d)
    {
      assert d != c ==> OwnedOk(s, d);
    }
  }

  /** Connections other than `c` are as they were, for whoever holds them. */
  lemma ConnsExcept(s: State, t: State, i: nat, c: nat)
    requires Owned(s) && Conns(s) && Owned(t)
    requires OnlyConn(s, t, c) && Ending(t) == Ending(s)
    requires |s.calls| <= |t.calls|
    requires forall j :: 0 <= j < |s.calls| && j != i && s.calls[j].pc.At? ==> t.calls[j] == s.calls[j]
    requires i < |s.calls| && s.calls[i].pc.At? && s.calls[i].pc.conn != c ==> t.calls[i] == s.calls[i]
    requires ConnOk(t, c)
    ensures Conns(t)
  {
    forall d | 0 <= d < |t.agents|
      ensures ConnOk(t, d)
    {
      assert ConnOk(s, d);
      if d != c && s.pool.conns[d].status == Busy {
        assert OwnedOk(s, d);
      }
    }
  }

  lemma ConnsSame(s: State, t: State)
    requires Owned(s) && Conns(s) && Owned(t)
    requires t.cfg == s.cfg && Ending(t) == Ending(s)
    requires t.agents == s.agents && t.pool.conns == s.pool.conns && |s.calls| <= |t.calls|
    requires forall j :: 0 <= j < |s.calls| && s.calls[j].pc.At? ==> t.calls[j] == s.calls[j]
    ensures Conns(t)
  {
    forall d | 0 <= d < |t.agents|
      ensures ConnOk(t, d)
    {
      assert ConnOk(s, d);
      if s.pool.conns[d].status == Busy {
        assert OwnedOk(s, d);
      }
    }
  }

  lemma CountersStep(s: State, t: State, i: nat)
    requires Counters(s) && OnlyCall(s, t, i)
    ensures Total(Sleeping, t.calls) == Total(Sleeping, s.calls) - Sleeping(s.calls[i]) + Sleeping(t.calls[i])
    ensures Total(Accounted, t.calls) == Total(Accounted, s.calls) - Accounted(s.calls[i]) + Accounted(t.calls[i])
    ensures Total(Pending, t.calls) == Total(Pending, s.calls) - Pending(s.calls[i]) + Pending(t.calls[i])
  {
    assert t.calls == s.calls[i := t.calls[i]];
    TotalUpdate(Sleeping, s.calls, i, t.calls[i]);
    TotalUpdate(Accounted, s.calls, i, t.calls[i]);
    TotalUpdate(Pending, s.calls, i, t.calls[i]);
  }

  lemma SendsSame(s: State, t: State)
    requires |s.pool.conns| == |t.pool.conns|
    requires forall c :: 0 <= c < |s.pool.conns| ==> t.pool.conns[c].sendCount == s.pool.conns[c].sendCount
    ensures Total(SendCount, t.pool.conns) == Total(SendCount, s.pool.conns)
  {
    TotalSame(SendCount, s.pool.conns, t.pool.conns);
  }

  lemma PendingKept(s: State, t: State)
    requires |s.calls| <= |t.calls| && |s.agents| <= |t.agents|
    requires forall j :: 0 <= j < |s.calls| && s.calls[j].pc.AnnounceIdle? ==> t.calls[j].pc.AnnounceIdle?
    requires forall d :: 0 <= d < |s.agents| && Announcing(s.agents[d].pc) ==> Announcing(t.agents[d].pc)
    ensures BroadcastPending(s) ==> BroadcastPending(t)
  {
    if j :| 0 <= j < |s.calls| && s.calls[j].pc.AnnounceIdle? {
      assert t.calls[j].pc.AnnounceIdle?;
    } else if d :| 0 <= d < |s.agents| && Announcing(s.agents[d].pc) {
      assert Announcing(t.agents[d].pc);
    }
  }

  lemma WakeStep(s: State, t: State)
    requires Wake(s)
    requires BroadcastPending(s) ==> BroadcastPending(t)
    requires Full(s) ==> Full(t) || BroadcastPending(t)
    requires Full(t) || |t.calls| == |s.calls|
    requires forall j :: 0 <= j < |t.calls| && t.calls[j].pc == Asleep(false) && !Full(t) ==>
               s.calls[j].pc == Asleep(false)
    ensures Wake(t)
  {
  }

  lemma SignalsStep(s: State, t: State)
    requires Signals(s) && |t.agents| == |t.pool.conns| && |s.agents| <= |t.agents| && |s.calls| <= |t.calls|
    requires forall j :: 0 <= j < |s.calls| && s.calls[j].pc.SignalConn? ==> t.calls[j].pc == s.calls[j].pc
    requires forall c :: 0 <= c < |t.agents| && t.agents[c].pc == Parked(false) && t.pool.conns[c].status == Noop ==>
               || SignalPending(t, c)
               || (c < |s.agents| && s.agents[c].pc == Parked(false) && s.pool.conns[c].status == Noop)
    ensures Signals(t)
  {
    forall c | 0 <= c < |t.agents| && t.agents[c].pc == Parked(false) && t.pool.conns[c].status == Noop
      ensures SignalPending(t, c)
    {
      if c < |s.agents| && s.agents[c].pc == Parked(false) && s.pool.conns[c].status == Noop {
        assert SignalPending(s, c);
        var j :| 0 <= j < |s.calls| && s.calls[j].pc.SignalConn? && s.calls[j].pc.conn == c;
        assert t.calls[j].pc == s.calls[j].pc;
      }
    }
  }

  /** A call that holds a connection, or sleeps, or is on its way in, keeps the main thread waiting. */
  lemma MainHeld(s: State, t: State, i: nat)
    requires MainOk(s) && t.main == s.main && |t.agents| == |t.pool.conns|
    requires i < |s.calls| && (s.calls[i].pc.At? || s.calls[i].pc.Asleep? || s.calls[i].pc.Enter?)
    requires |t.calls| == |s.calls|
    requires forall j :: 0 <= j < |s.calls| && t.calls[j].pc.Enter? ==> s.calls[j].pc.Enter?
    ensures MainOk(t)
  {
  }

  // ----- Unhold

  lemma UnholdKeeps(s: State, i: nat)
    requires Lists(s) && Owned(s) && Conns(s) && Enabled(s, Unhold(i))
    ensures Safe(s, Unhold(i))
    ensures Lists(DoUnhold(s, i)) && Owned(DoUnhold(s, i)) && Conns(DoUnhold(s, i))
  {
    var At(c, g) := s.calls[i].pc;
    assert OwnsOk(s, i) && Listed(s.pool, s.agents[c], c) && ConnOk(s, c);
    var t := DoUnhold(s, i);
    if g.Retiring? {
      RetireMoves(s.pool, c, g.delivered);
      ListsMoved(s, t, c, Busy, Noop);
    } else {
      ReleaseMoves(s.pool, c);
      ListsMoved(s, t, c, Busy, Idle);
    }
    OwnedStep(s, t, i, c);
    ConnsExcept(s, t, i, c);
  }

  lemma UnholdCounts(s: State, i: nat)
    requires Counters(s) && Enabled(s, Unhold(i)) && Safe(s, Unhold(i))
    ensures Counters(DoUnhold(s, i))
  {
    var t := DoUnhold(s, i);
    CountersStep(s, t, i);
    SendsSame(s, t);
  }

  lemma UnholdWakes(s: State, i: nat)
    requires Wake(s) && Signals(s) && MainOk(s) && Enabled(s, Unhold(i)) && Safe(s, Unhold(i))
    ensures Wake(DoUnhold(s, i)) && Signals(DoUnhold(s, i)) && MainOk(DoUnhold(s, i))
  {
    var At(c, g) := s.calls[i].pc;
    var t := DoUnhold(s, i);
    assert t.calls[i].pc == if g.Retiring? then SignalConn(c, g.delivered) else AnnounceIdle(c);
    PendingKept(s, t);
    WakeStep(s, t);
    SignalsStep(s, t);
    MainHeld(s, t, i);
  }

  // ----- getAnIdleConn

  ghost predicate Core(s: State) { Lists(s) && Owned(s) && Conns(s) }

  ghost predicate Rest(s: State) { Wake(s) && Signals(s) && MainOk(s) }

  lemma WaitingCore(s: State, w: int)
    requires Core(s)
    ensures Core(s.(pool := s.pool.(waiting := w)))
  {
    var t := s.(pool := s.pool.(waiting := w));
    ListsSame(s, t);
    OwnedSame(s, t);
    ConnsSame(s, t);
  }

  /** A call that owns no connection moves on without getting one. */
  lemma UnownedCore(s: State, i: nat, pc: CallPc)
    requires Core(s) && i < |s.calls| && !s.calls[i].pc.At? && !pc.At?
    ensures Core(SetCall(s, i, pc))
  {
    var t := SetCall(s, i, pc);
    ListsSame(s, t);
    OwnedSame(s, t);
    ConnsSame(s, t);
  }

  lemma TakeCore(s: State, i: nat)
    requires Core(s) && i < |s.calls| && !s.calls[i].pc.At? && s.pool.idle != [] && !Ending(s)
    ensures Live(s, s.pool.idle[0]) && Core(Take(s, i))
  {
    var c := s.pool.idle[0];
    assert c in s.pool.idle && Listed(s.pool, s.agents[c], c) && ConnOk(s, c);
    var t := Take(s, i);
    TakeIdleMoves(s.pool);
    ListsMoved(s, t, c, Idle, Busy);
    OwnedStep(s, t, i, c);
    ConnsExcept(s, t, i, c);
  }

  lemma Unroll(t: S.Trace)
    requires t != []
    ensures S.Summary(t) == S.Feed(S.Summary(t[..|t| - 1]), t[|t| - 1])
  {
  }

  lemma BannerSummary(security: Security)
    ensures S.Summary(Banner(security)) == S.Digest(S.Greeted(!security.Plain?), 0, 0, 0)
  {
    var t := Banner(security);
    Unroll(t[..1]);
    if |t| > 1 {
      assert t[..2][..1] == t[..1];
      Unroll(t[..2]);
    }
    if |t| > 2 {
      assert t[..3][..2] == t[..2] && t[..4][..3] == t[..3];
      Unroll(t[..3]);
      Unroll(t[..4]);
    }
    assert t[..|t|] == t;
  }

  lemma SetupSummary(cfg: Config)
    ensures var d := S.Summary(SetupTrace(cfg));
      (d.phase.Hello? || d.phase.Ready?) && d.bodies == 0 && d.trailing == 0 && d.longest == 0
  {
    var t := Banner(cfg.security);
    BannerSummary(cfg.security);
    var u := t + [S.Said(S.Ehlo, true)];
    S.SummaryAppend(t, S.Said(S.Ehlo, true));
    if cfg.skipAuth {
      assert SetupTrace(cfg) == u;
    } else {
      var v := u + [S.Said(S.AuthLogin, true)];
      S.SummaryAppend(u, S.Said(S.AuthLogin, true));
      LoginSummary(v);
      assert SetupTrace(cfg) == v + [S.Said(S.UserName, true), S.Said(S.Password, true)];
    }
  }

  lemma LoginSummary(v: S.Trace)
    requires S.Summary(v) == S.Digest(S.AskedUser, 0, 0, 0)
    ensures S.Summary(v + [S.Said(S.UserName, true), S.Said(S.Password, true)]) == S.Digest(S.Ready, 0, 0, 0)
  {
    var w := v + [S.Said(S.UserName, true)];
    S.SummaryAppend(v, S.Said(S.UserName, true));
    S.SummaryAppend(w, S.Said(S.Password, true));
    assert v + [S.Said(S.UserName, true), S.Said(S.Password, true)] == w + [S.Said(S.Password, true)];
  }

  lemma ConnectCore(s: State, i: nat)
    requires Core(s) && i < |s.calls| && !s.calls[i].pc.At?
    requires s.pool.idle == [] && |s.pool.busy| + |s.pool.noop| < s.cfg.maxConn
    ensures Core(Connect(s, i, true))
  {
    var t := Connect(s, i, true);
    var n := |s.agents|;
    PublishAdds(s.pool);
    forall c | 0 <= c < |t.agents|
      ensures Listed(t.pool, t.agents[c], c)
    {
      assert c < n ==> Listed(s.pool, s.agents[c], c);
    }
    forall j | 0 <= j < |t.calls| && t.calls[j].pc.At?
      ensures OwnsOk(t, j)
    {
      assert j != i ==> OwnsOk(s, j);
    }
    forall c | 0 <= c < |t.agents| && t.pool.conns[c].status == Busy
      ensures OwnedOk(t, c)
    {
      assert c < n ==> OwnedOk(s, c);
    }
    SetupSummary(s.cfg);
    forall c | 0 <= c < |t.agents|
      ensures ConnOk(t, c)
    {
      assert c < n ==> ConnOk(s, c);
      assert c < n && s.pool.conns[c].status == Busy ==> OwnedOk(s, c);
    }
  }

  lemma HeadLive(s: State)
    requires Lists(s) && s.pool.idle != []
    ensures Live(s, s.pool.idle[0])
  {
    var c := s.pool.idle[0];
    assert c in s.pool.idle && Listed(s.pool, s.agents[c], c);
  }

  lemma RoomLeft(s: State)
    requires Lists(s) && s.pool.idle == [] && !Full(s)
    ensures |s.pool.busy| + |s.pool.noop| < s.cfg.maxConn
  {
  }

  lemma NoRoom(s: State)
    requires Lists(s) && s.pool.idle == [] && |s.pool.busy| + |s.pool.noop| >= s.cfg.maxConn
    ensures Full(s)
  {
  }

  lemma LeaveCore(s: State, i: nat, connected: bool)
    requires Core(s) && i < |s.calls| && !s.calls[i].pc.At? && !Full(s) && !Ending(s)
    requires s.pool.idle != [] ==> Live(s, s.pool.idle[0])
    ensures Core(LeaveLoop(s, i, connected))
  {
    hide Lists, Owned, Conns;
    var t := s.(pool := s.pool.(waiting := s.pool.waiting - 1));
    WaitingCore(s, s.pool.waiting - 1);
    if t.pool.idle != [] {
      TakeCore(t, i);
      assert LeaveLoop(s, i, connected) == Take(t, i);
    } else if connected {
      RoomLeft(s);
      ConnectCore(t, i);
    } else {
      UnownedCore(t, i, Done(false));
    }
  }

  lemma LockKeeps(s: State, i: nat, connected: bool)
    requires Core(s) && MainOk(s) && Enabled(s, Lock(i, connected))
    ensures Safe(s, Lock(i, connected))
    ensures Core(DoLock(s, i, connected))
  {
    hide Lists, Owned, Conns;
    if s.pool.idle != [] {
      HeadLive(s);
      TakeCore(s, i);
    } else if |s.pool.busy| + |s.pool.noop| < s.cfg.maxConn {
      if connected {
        ConnectCore(s, i);
      } else {
        UnownedCore(s, i, Done(false));
      }
    } else {
      NoRoom(s);
      WaitingCore(s, s.pool.waiting + 1);
      UnownedCore(s.(pool := s.pool.(waiting := s.pool.waiting + 1)), i, Asleep(false));
    }
  }

  lemma ResumeKeeps(s: State, i: nat, connected: bool)
    requires Core(s) && MainOk(s) && Enabled(s, Resume(i, connected))
    ensures Safe(s, Resume(i, connected))
    ensures Core(DoResume(s, i, connected))
  {
    if Full(s) {
      UnownedCore(s, i, Asleep(false));
    } else {
      if s.pool.idle != [] {
        HeadLive(s);
      }
      LeaveCore(s, i, connected);
    }
  }

  lemma AddConnCounts(s: State, t: State)
    requires t.pool.conns == s.pool.conns + [Conn(Busy, 0, 0, false)]
    ensures Total(SendCount, t.pool.conns) == Total(SendCount, s.pool.conns)
  {
    TotalAppend(SendCount, s.pool.conns, Conn(Busy, 0, 0, false));
  }

  /** What a critical section of a call that holds nothing yet may do to the counters. */
  ghost predicate CountsMove(s: State, t: State, i: nat) {
    && OnlyCall(s, t, i)
    && t.pool.waiting - s.pool.waiting == Sleeping(t.calls[i]) - Sleeping(s.calls[i])
    && Accounted(t.calls[i]) == Accounted(s.calls[i]) && Pending(t.calls[i]) == Pending(s.calls[i])
    && t.pool.totalSend == s.pool.totalSend && t.pool.todaySend == s.pool.todaySend && t.mark == s.mark
  }

  lemma CountsMoved(s: State, t: State, i: nat)
    requires Counters(s) && CountsMove(s, t, i)
    requires Total(SendCount, t.pool.conns) == Total(SendCount, s.pool.conns)
    ensures Counters(t)
  {
    CountersStep(s, t, i);
  }

  lemma LockMoves(s: State, i: nat, connected: bool)
    requires Enabled(s, Lock(i, connected)) && Safe(s, Lock(i, connected))
    ensures CountsMove(s, DoLock(s, i, connected), i)
  {
  }

  lemma ResumeMoves(s: State, i: nat, connected: bool)
    requires Enabled(s, Resume(i, connected)) && Safe(s, Resume(i, connected))
    ensures CountsMove(s, DoResume(s, i, connected), i)
  {
  }

  lemma LockCounts(s: State, i: nat, connected: bool)
    requires Counters(s) && Enabled(s, Lock(i, connected)) && Safe(s, Lock(i, connected))
    ensures Counters(DoLock(s, i, connected))
  {
    hide DoLock, Counters, CountsMove;
    LockMoves(s, i, connected);
    LockSends(s, i, connected);
    CountsMoved(s, DoLock(s, i, connected), i);
  }

  /** Taking the mutex delivers nothing. */
  lemma LockSends(s: State, i: nat, connected: bool)
    requires Enabled(s, Lock(i, connected)) && Safe(s, Lock(i, connected))
    ensures Total(SendCount, DoLock(s, i, connected).pool.conns) == Total(SendCount, s.pool.conns)
  {
    var t := DoLock(s, i, connected);
    if |t.pool.conns| == |s.pool.conns| {
      SendsSame(s, t);
    } else {
      AddConnCounts(s, t);
    }
  }

  lemma ResumeSends(s: State, i: nat, connected: bool)
    requires Enabled(s, Resume(i, connected)) && Safe(s, Resume(i, connected))
    ensures Total(SendCount, DoResume(s, i, connected).pool.conns) == Total(SendCount, s.pool.conns)
  {
    var t := DoResume(s, i, connected);
    if |t.pool.conns| == |s.pool.conns| {
      SendsSame(s, t);
    } else {
      AddConnCounts(s, t);
    }
  }

  lemma ResumeCounts(s: State, i: nat, connected: bool)
    requires Counters(s) && Enabled(s, Resume(i, connected)) && Safe(s, Resume(i, connected))
    ensures Counters(DoResume(s, i, connected))
  {
    hide DoResume, Counters, CountsMove;
    ResumeMoves(s, i, connected);
    ResumeSends(s, i, connected);
    CountsMoved(s, DoResume(s, i, connected), i);
  }

  lemma LockWakes(s: State, i: nat, connected: bool)
    requires Rest(s) && |s.agents| == |s.pool.conns|
    requires Enabled(s, Lock(i, connected)) && Safe(s, Lock(i, connected))
    ensures Rest(DoLock(s, i, connected))
  {
    var t := DoLock(s, i, connected);
    PendingKept(s, t);
    WakeStep(s, t);
    SignalsStep(s, t);
    MainHeld(s, t, i);
  }

  lemma ResumeWakes(s: State, i: nat, connected: bool)
    requires Rest(s) && |s.agents| == |s.pool.conns|
    requires Enabled(s, Resume(i, connected)) && Safe(s, Resume(i, connected))
    ensures Rest(DoResume(s, i, connected))
  {
    var t := DoResume(s, i, connected);
    PendingKept(s, t);
    WakeStep(s, t);
    SignalsStep(s, t);
    MainHeld(s, t, i);
  }
}
