/** What holds in every state that any interleaving can reach. */
module Theorems {
  import opened Sequences
  import opened Pool
  import opened System
  import opened Invariant
  import opened Steps
  import S = Session

  /** A run never arrives where its next step would follow a bad pointer or use the wrong list. */
  lemma {:induction false} NeverUnsafe(cfg: Config, run: seq<Action>, a: Action)
    requires cfg.maxConn >= 1 && IsRun(cfg, run) && Enabled(Final(cfg, run), a)
    ensures IsRun(cfg, run + [a])
  {
    RunKeeps(cfg, run);
    StepKeeps(Final(cfg, run), a);
    assert (run + [a])[..|run|] == run;
  }

  // ----- lists and capacity

  lemma Capacity(cfg: Config, run: seq<Action>)
    requires cfg.maxConn >= 1 && IsRun(cfg, run)
    ensures var p := Final(cfg, run).pool; |p.busy| + |p.idle| + |p.noop| <= cfg.maxConn
  {
    RunKeeps(cfg, run);
    ConfigFixed(cfg, run);
  }

  lemma {:induction false} ConfigFixed(cfg: Config, run: seq<Action>)
    requires IsRun(cfg, run)
    ensures Final(cfg, run).cfg == cfg
  {
    if run != [] {
      ConfigFixed(cfg, run[..|run| - 1]);
    }
  }

  /** A connection that is not freed is on one list only, once, the one its status names. */
  lemma Partition(cfg: Config, run: seq<Action>, c: nat, status: Status)
    requires cfg.maxConn >= 1 && IsRun(cfg, run) && c < |Final(cfg, run).pool.conns|
    ensures var s := Final(cfg, run);
      && NoDup(ListOf(s.pool, status))
      && (c in ListOf(s.pool, status) <==> Live(s, c) && s.pool.conns[c].status == status)
  {
    RunKeeps(cfg, run);
    var s := Final(cfg, run);
    assert Listed(s.pool, s.agents[c], c);
  }

  // ----- who may touch a connection without the mutex

  datatype Thread = Client(call: nat) | Keeper(conn: nat)

  /** The thread's next step sends, receives or closes on the socket of `c`. */
  predicate UsesSocket(s: State, th: Thread, c: nat)
    requires c < |s.pool.conns| == |s.agents|
  {
    match th
    case Client(i) => CallAt(s, i) && s.calls[i].pc.conn == c && Talking(s.calls[i].pc.stage)
    case Keeper(d) =>
      var conn := s.pool.conns[c];
      d == c && match s.agents[c].pc
        case Counted => true
        case Closing => true
        case Returning => conn.endFlag
        case Top => conn.endFlag && conn.status != Busy && !(conn.status == Idle && s.pool.waiting > 0)
        case Parked(woken) =>
          woken && conn.endFlag && conn.status != Busy && !(conn.status == Idle && s.pool.waiting > 0)
        case _ => false
  }

  /** The thread's next step reads or writes `sendCount` or `noopCount` of `c` outside the mutex. */
  predicate UsesCounts(s: State, th: Thread, c: nat)
    requires c < |s.pool.conns| == |s.agents|
  {
    match th
    case Client(i) =>
      CallAt(s, i) && s.calls[i].pc.conn == c && (s.calls[i].pc.stage.Got? || s.calls[i].pc.stage.Counting?)
    case Keeper(d) => d == c && (s.agents[c].pc.Nooping? || s.agents[c].pc.Counted?)
  }

  /** No two threads use the socket or the counts of a connection, a client only while it is busy. */
  lemma Exclusive(cfg: Config, run: seq<Action>, c: nat, t1: Thread, t2: Thread)
    requires cfg.maxConn >= 1 && IsRun(cfg, run)
    requires var s := Final(cfg, run); c < |s.pool.conns| == |s.agents|
    requires var s := Final(cfg, run); UsesSocket(s, t1, c) || UsesCounts(s, t1, c)
    requires var s := Final(cfg, run); UsesSocket(s, t2, c) || UsesCounts(s, t2, c)
    ensures t1 == t2
    ensures var s := Final(cfg, run);
      Live(s, c) && if t1.Client? then c in s.pool.busy else c in s.pool.noop || c in s.pool.idle
    ensures var s := Final(cfg, run); t1.Keeper? && UsesCounts(s, t1, c) ==> c in s.pool.noop
  {
    RunKeeps(cfg, run);
    var s := Final(cfg, run);
    assert ConnOk(s, c) && Listed(s.pool, s.agents[c], c);
    if t1.Client? {
      Held(s, t1.call);
    }
    if t2.Client? {
      Held(s, t2.call);
    }
  }

  /** A busy connection has exactly one owner, and every owner's connection is busy. */
  lemma {:induction false} OwnersAreBusyConns(cfg: Config, run: seq<Action>, c: nat)
    requires cfg.maxConn >= 1 && IsRun(cfg, run)
    ensures var s := Final(cfg, run);
      c in s.pool.busy <==> exists i: nat :: CallAt(s, i) && s.calls[i].pc.conn == c
    ensures var s := Final(cfg, run);
      forall i: nat, j: nat :: CallAt(s, i) && CallAt(s, j) && s.calls[i].pc.conn == s.calls[j].pc.conn ==> i == j
  {
    RunKeeps(cfg, run);
    var s := Final(cfg, run);
    if c in s.pool.busy {
      assert OwnedOk(s, c);
      assert CallAt(s, s.agents[c].holder);
    }
    forall i: nat | CallAt(s, i)
      ensures s.calls[i].pc.conn in s.pool.busy && s.agents[s.calls[i].pc.conn].holder == i
    {
      Held(s, i);
    }
  }

  // ----- wakeups

  lemma PendingIsEnabled(s: State) returns (a: Action)
    requires BroadcastPending(s)
    ensures Enabled(s, a) && WakesAll(a)
  {
    if j :| 0 <= j < |s.calls| && s.calls[j].pc.AnnounceIdle? {
      a := BroadcastIdle(j);
    } else {
      var c :| 0 <= c < |s.agents| && Announcing(s.agents[c].pc);
      a := match s.agents[c].pc
        case Announce => NoopAnnounce(c)
        case EndSignal => NoopEndSignal(c)
        case _ => NoopEndAnnounce(c);
    }
  }

  /** A client that sleeps unsignalled finds nothing idle and no room, or a broadcast is on its way to it. */
  lemma {:induction false} NoLostWakeup(cfg: Config, run: seq<Action>, i: nat) returns (a: Action)
    requires cfg.maxConn >= 1 && IsRun(cfg, run)
    requires i < |Final(cfg, run).calls| && Final(cfg, run).calls[i].pc == Asleep(false)
    ensures var s := Final(cfg, run);
      || (s.pool.idle == [] && |s.pool.busy| + |s.pool.noop| >= cfg.maxConn)
      || (Enabled(s, a) && WakesAll(a))
  {
    RunKeeps(cfg, run);
    ConfigFixed(cfg, run);
    a := ResetToday;
    if !Full(Final(cfg, run)) {
      a := PendingIsEnabled(Final(cfg, run));
    }
  }

  /** The broadcasts on `idleCond`, and the signal after which the thread broadcasts. */
  predicate WakesAll(a: Action) {
    a.BroadcastIdle? || a.NoopAnnounce? || a.NoopEndAnnounce? || a.NoopEndSignal?
  }

  /** A broadcast leaves no sleeper unsignalled; the signal before it leaves its thread to broadcast. */
  lemma BroadcastWakes(s: State, a: Action, i: nat)
    requires Enabled(s, a) && WakesAll(a) && i < |s.calls|
    ensures i < |Apply(s, a).calls|
    ensures a.NoopEndSignal? ==> Enabled(Apply(s, a), NoopEndAnnounce(a.c))
    ensures !a.NoopEndSignal? ==> Apply(s, a).calls[i].pc != Asleep(false)
    ensures !a.NoopEndSignal? && s.calls[i].pc.Asleep? ==> Enabled(Apply(s, a), Resume(i, true))
  {
  }

  // ----- what a critical section decides

  /** Call `i` goes on with the connection that was idle longest, with a new one, or with none. */
  ghost predicate Acquired(s: State, t: State, i: nat, connected: bool)
    requires i < |s.calls| == |t.calls|
  {
    if s.pool.idle != [] then t.calls[i].pc == At(s.pool.idle[0], Got(false))
    else if connected then t.calls[i].pc == At(|s.pool.conns|, Got(true))
    else t.calls[i].pc == Done(false) && t.pool.conns == s.pool.conns
  }

  /** A woken call sleeps on exactly if nothing is idle and there are as many connections as there may be. */
  lemma ResumeSleepsExactly(s: State, i: nat, connected: bool)
    requires Enabled(s, Resume(i, connected)) && Safe(s, Resume(i, connected))
    ensures var t := Apply(s, Resume(i, connected));
      && i < |t.calls| == |s.calls|
      && (t.calls[i].pc == Asleep(false) <==> s.pool.idle == [] && |s.pool.busy| + |s.pool.noop| == s.cfg.maxConn)
      && (t.calls[i].pc == Asleep(false) ==> t.pool == s.pool)
      && (t.calls[i].pc != Asleep(false) ==> Acquired(s, t, i, connected) && t.pool.waiting == s.pool.waiting - 1)
  {
  }

  /** A call that comes waits exactly if nothing is idle and there are as many connections as there may be. */
  lemma {:induction false} LockSleepsExactly(cfg: Config, run: seq<Action>, i: nat, connected: bool)
    requires cfg.maxConn >= 1 && IsRun(cfg, run) && Enabled(Final(cfg, run), Lock(i, connected))
    ensures var s := Final(cfg, run);
      && Safe(s, Lock(i, connected))
      && var t := Apply(s, Lock(i, connected));
      && i < |t.calls| == |s.calls|
      && (t.calls[i].pc == Asleep(false) <==> s.pool.idle == [] && |s.pool.busy| + |s.pool.noop| >= cfg.maxConn)
      && (t.calls[i].pc == Asleep(false) ==> t.pool == s.pool.(waiting := s.pool.waiting + 1))
      && (t.calls[i].pc != Asleep(false) ==> Acquired(s, t, i, connected) && t.pool.waiting == s.pool.waiting)
  {
    RunKeeps(cfg, run);
    ConfigFixed(cfg, run);
    var s := Final(cfg, run);
    StepKeeps(s, Lock(i, connected));
    assert |s.pool.busy| + |s.pool.idle| + |s.pool.noop| <= cfg.maxConn;
    hide Inv, IsRun, Final;
  }

  /**
   A keep-alive thread parks exactly while its connection is busy, or idle while somebody waits; otherwise it ends the
   connection exactly if it was told to, and goes on to a NOOP if not, with the connection off the idle list.
   */
  lemma ParksExactly(s: State, c: nat)
    requires Enabled(s, NoopLock(c)) && Safe(s, NoopLock(c))
    ensures var p, conn := Apply(s, NoopLock(c)).agents[c].pc, s.pool.conns[c];
      && (p == Parked(false) <==> conn.status == Busy || (conn.status == Idle && s.pool.waiting > 0))
      && (p != Parked(false) ==> p == if conn.endFlag then EndSignal else Nooping)
  {
  }

  /** After its NOOP it ends the connection exactly if it was told to meanwhile; otherwise that is the last idle one. */
  lemma ReturnsExactly(s: State, c: nat)
    requires Enabled(s, NoopReturn(c)) && Safe(s, NoopReturn(c))
    ensures var t := Apply(s, NoopReturn(c));
      if s.pool.conns[c].endFlag then t.agents[c].pc == EndSignal && t.pool.idle == s.pool.idle
      else t.agents[c].pc == Announce && t.pool.idle == s.pool.idle + [c]
  {
  }

  /**
   After an exchange a keep-alive thread closes exactly if the exchange failed or the row of NOOPs that the trace ends
   in, this one included, is as long as the limit.
   */
  lemma {:induction false} ClosesExactly(cfg: Config, run: seq<Action>, c: nat, ok: bool)
    requires cfg.maxConn >= 1 && IsRun(cfg, run) && Enabled(Final(cfg, run), NoopExchange(c, ok))
    ensures Safe(Final(cfg, run), NoopExchange(c, ok))
    ensures var a := Apply(Final(cfg, run), NoopExchange(c, ok)).agents[c];
      && (a.pc == Closing <==> !ok || (cfg.maxNoop >= 1 && S.EndsInNoops(a.trace, cfg.maxNoop)))
      && (a.pc != Closing ==> a.pc == Returning)
  {
    RunKeeps(cfg, run);
    ConfigFixed(cfg, run);
    var s := Final(cfg, run);
    StepKeeps(s, NoopExchange(c, ok));
    Kept(s, c);
    var u := s.agents[c].trace;
    var t := u + [S.Said(S.Noop, ok)];
    S.SummaryAppend(u, S.Said(S.Noop, ok));
    if cfg.maxNoop >= 1 {
      S.EndsInTrailing(t, cfg.maxNoop);
    }
    assert Apply(s, NoopExchange(c, ok)).agents[c].trace == t;
    hide Inv, IsRun, Final, S.Summary;
  }

  // ----- what was said on a connection

  lemma {:induction false} SaidInOrder(cfg: Config, run: seq<Action>, c: nat)
    requires cfg.maxConn >= 1 && IsRun(cfg, run) && c < |Final(cfg, run).agents|
    ensures S.Run(Final(cfg, run).agents[c].trace) != S.Bad
    ensures S.RfcRun(Final(cfg, run).agents[c].trace).stage != S.Violation
  {
    RunKeeps(cfg, run);
    var s := Final(cfg, run);
    assert ConnOk(s, c);
    S.SummaryRuns(s.agents[c].trace);
    S.DisciplineSimulates(s.agents[c].trace);
  }

  /** The order rules, position by position, for the whole life of a connection. */
  lemma {:induction false} SaidByTheRules(cfg: Config, run: seq<Action>, c: nat, k: nat)
    requires cfg.maxConn >= 1 && IsRun(cfg, run) && c < |Final(cfg, run).agents|
    requires k < |Final(cfg, run).agents[c].trace|
    ensures var t := Final(cfg, run).agents[c].trace;
      && (t[k].Said? && t[k].verb == S.MailFrom ==>
            k > 0 && t[k - 1] in {S.Said(S.Ehlo, true), S.Said(S.Password, true), S.Said(S.Rset, true)})
      && (t[k].Said? && t[k].verb == S.Data ==>
            exists j {:trigger t[j]} :: 0 <= j && j + 1 < k && t[j] == S.Said(S.MailFrom, true)
                     && forall l :: j < l < k ==> t[l] == S.Said(S.RcptTo, true))
      && (t[k].Said? && t[k].verb == S.Noop ==> k > 0 && t[k - 1] in {S.Said(S.Content, true), S.Said(S.Noop, true)})
      && (t[k].Said? && !t[k].ok ==> k + 1 == |t| || (t[k + 1] == S.Closed && k + 2 == |t|))
      && (t[k] == S.Closed ==> k + 1 == |t|)
  {
    SaidInOrder(cfg, run, c);
    var t := Final(cfg, run).agents[c].trace;
    if t[k] == S.Closed {
      S.ClosedIsLast(t, k);
    } else {
      if t[k].verb == S.MailFrom { S.MailOpensTransaction(t, k); }
      if t[k].verb == S.Data { S.DataNeedsEveryRecipient(t, k); }
      if t[k].verb == S.Noop { S.NoopOnlyBetweenTransactions(t, k); }
      if !t[k].ok { S.FailureIsFinal(t, k); }
    }
  }

  // ----- usage limits

  lemma {:induction false} SendLimit(cfg: Config, run: seq<Action>, c: nat)
    requires cfg.maxConn >= 1 && IsRun(cfg, run) && c < |Final(cfg, run).agents|
    requires cfg.maxSendPerConn >= 1
    ensures Total(S.Delivery, Final(cfg, run).agents[c].trace) <= cfg.maxSendPerConn
    ensures c < |Final(cfg, run).pool.conns|
    ensures c in Final(cfg, run).pool.idle ==> Final(cfg, run).pool.conns[c].sendCount < cfg.maxSendPerConn
  {
    RunKeeps(cfg, run);
    ConfigFixed(cfg, run);
    var s := Final(cfg, run);
    assert ConnOk(s, c);
    S.SummaryCountsDeliveries(s.agents[c].trace);
  }

  lemma NoopLimit(cfg: Config, run: seq<Action>, c: nat, from: nat, to: nat)
    requires cfg.maxConn >= 1 && IsRun(cfg, run) && c < |Final(cfg, run).agents|
    requires cfg.maxNoop >= 1
    requires from <= to <= |Final(cfg, run).agents[c].trace| && S.AllNoops(Final(cfg, run).agents[c].trace, from, to)
    ensures to - from <= cfg.maxNoop
    ensures c < |Final(cfg, run).pool.conns|
    ensures c in Final(cfg, run).pool.idle ==> Final(cfg, run).pool.conns[c].noopCount < cfg.maxNoop
  {
    RunKeeps(cfg, run);
    ConfigFixed(cfg, run);
    var s := Final(cfg, run);
    assert ConnOk(s, c);
    S.SummaryBoundsNoops(s.agents[c].trace, from, to);
  }

  // ----- counting deliveries

  /** Deliveries are counted once: on the connection, by the call that reports them, and in total. */
  lemma {:induction false} Conservation(cfg: Config, run: seq<Action>)
    requires cfg.maxConn >= 1 && IsRun(cfg, run)
    ensures var s := Final(cfg, run);
      && s.pool.totalSend + Total(Pending, s.calls) == Total(SendCount, s.pool.conns)
      && s.pool.totalSend == Total(Accounted, s.calls)
      && s.pool.todaySend == s.pool.totalSend - s.mark
  {
    RunKeeps(cfg, run);
  }

  /** A call is about to count a delivery on `c`. */
  ghost predicate CountingOn(s: State, c: nat) {
    exists i: nat :: CallAt(s, i) && s.calls[i].pc == At(c, Counting)
  }

  /** `sendCount` is the number of mails the connection delivered, but for the call about to count. */
  lemma {:induction false} SendCountIsDeliveries(cfg: Config, run: seq<Action>, c: nat)
    requires cfg.maxConn >= 1 && IsRun(cfg, run)
    requires c < |Final(cfg, run).pool.conns| == |Final(cfg, run).agents|
    ensures var s := Final(cfg, run);
      Total(S.Delivery, s.agents[c].trace) == s.pool.conns[c].sendCount + if CountingOn(s, c) then 1 else 0
  {
    RunKeeps(cfg, run);
    CountingCase(Final(cfg, run), c);
    S.SummaryCountsDeliveries(Final(cfg, run).agents[c].trace);
  }

  lemma CountingCase(s: State, c: nat)
    requires Core(s) && c < |s.agents|
    ensures S.Summary(s.agents[c].trace).bodies == s.pool.conns[c].sendCount + if CountingOn(s, c) then 1 else 0
  {
    assert ConnOk(s, c);
    if CountingOn(s, c) {
      var i: nat :| CallAt(s, i) && s.calls[i].pc == At(c, Counting);
      Held(s, i);
    } else if s.pool.conns[c].status == Busy {
      assert OwnedOk(s, c);
      var i := s.agents[c].holder;
      assert CallAt(s, i) && s.calls[i].pc == At(c, s.calls[i].pc.stage);
    }
  }

  /** The counter is reset to zero and counts from there. */
  lemma MarkIsLastReset(cfg: Config, run: seq<Action>, more: seq<Action>)
    requires cfg.maxConn >= 1 && IsRun(cfg, run + [ResetToday] + more)
    requires ResetToday !in more
    ensures IsRun(cfg, run + [ResetToday])
    ensures Final(cfg, run + [ResetToday] + more).mark == Final(cfg, run + [ResetToday]).pool.totalSend
    decreases |more|
  {
    var all := run + [ResetToday] + more;
    if more == [] {
      assert all == run + [ResetToday] && all[..|all| - 1] == run;
    } else {
      var less := more[..|more| - 1];
      assert all[..|all| - 1] == run + [ResetToday] + less;
      MarkIsLastReset(cfg, run, less);
      assert all[|all| - 1] == more[|more| - 1];
    }
  }

  // ----- the queue of idle connections

  /** `a` comes before `b`. */
  ghost predicate Before(s: seq<nat>, a: nat, b: nat) {
    exists i, j :: 0 <= i < j < |s| && s[i] == a && s[j] == b
  }

  lemma WithoutKeepsOrder(s: seq<nat>, x: nat, a: nat, b: nat)
    requires NoDup(s) && x in s && Before(s, a, b) && x != a && x != b
    ensures Before(Without(s, x), a, b)
  {
    var k :| 0 <= k < |s| && s[k] == x;
    WithoutAt(s, k);
    var i, j :| 0 <= i < j < |s| && s[i] == a && s[j] == b;
    var r := Without(s, x);
    assert r[if i < k then i else i - 1] == a && r[if j < k then j else j - 1] == b;
  }

  /** Who acquires a connection takes the first idle one, if any. */
  lemma AcquiringIdles(s: State, act: Action)
    requires Enabled(s, act) && Safe(s, act) && (act.Lock? || act.Resume?)
    ensures var t := Apply(s, act).pool.idle;
      t == s.pool.idle || (s.pool.idle != [] && t == Without(s.pool.idle, s.pool.idle[0]))
  {
    hide Without;
  }

  /** Every step leaves the idle list alone, takes one connection out, or appends one. */
  lemma IdleChange(s: State, act: Action) returns (x: nat)
    requires Enabled(s, act) && Safe(s, act)
    ensures var t := Apply(s, act).pool.idle;
      || t == s.pool.idle
      || (x in s.pool.idle && t == Without(s.pool.idle, x) && (act.Lock? || act.Resume? ==> x == s.pool.idle[0]))
      || (t == s.pool.idle + [x] && !act.Lock? && !act.Resume?)
  {
    hide Without;
    x := 0;
    if act.Lock? || act.Resume? {
      AcquiringIdles(s, act);
      x := if s.pool.idle != [] then s.pool.idle[0] else 0;
    } else if act.Unhold? {
      x := s.calls[act.i].pc.conn;
    } else if act.NoopLock? || act.NoopReturn? {
      x := act.c;
    }
  }

  /** Connections that stay idle keep their order, and a call takes the one idle longest. */
  lemma {:induction false} IdleIsAQueue(cfg: Config, run: seq<Action>, act: Action, a: nat, b: nat)
    requires cfg.maxConn >= 1 && IsRun(cfg, run) && Enabled(Final(cfg, run), act) && Safe(Final(cfg, run), act)
    requires Before(Final(cfg, run).pool.idle, a, b)
    requires a in Apply(Final(cfg, run), act).pool.idle
    ensures b in Apply(Final(cfg, run), act).pool.idle ==> Before(Apply(Final(cfg, run), act).pool.idle, a, b)
    ensures act.Lock? || act.Resume? ==> b in Apply(Final(cfg, run), act).pool.idle
  {
    RunKeeps(cfg, run);
    var x := IdleChange(Final(cfg, run), act);
    OrderKept(Final(cfg, run).pool.idle, Apply(Final(cfg, run), act).pool.idle, x, a, b);
  }

  lemma OrderKept(s: seq<nat>, t: seq<nat>, x: nat, a: nat, b: nat)
    requires NoDup(s) && Before(s, a, b) && a in t
    requires t == s || (x in s && t == Without(s, x)) || t == s + [x]
    ensures b in t ==> Before(t, a, b)
    ensures b in t || (x == b && x != s[0])
  {
    var i, j :| 0 <= i < j < |s| && s[i] == a && s[j] == b;
    if t == s + [x] {
      assert t[i] == a && t[j] == b;
    } else if t != s {
      WithoutFacts(s, x);
      if b in t {
        WithoutKeepsOrder(s, x, a, b);
      }
    }
  }
}
