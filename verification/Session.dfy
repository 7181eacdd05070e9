/**
 What is said on one SMTP connection over its whole life: every exchange made by the client that
 holds it, by the client before, and by its keep-alive thread, in order.

 Two automata read such a trace. `Run` is the discipline the proxy keeps. `RfcRun` is what RFC 5321
 (sections 3.3, 4.1.1 and 4.1.4), RFC 3207 (section 4) and RFC 4954 (section 4) ask of any client: the
 order of the commands, and that a session is closed only after QUIT. The proxy keeps the order; it does
 not keep the rule about QUIT.
 */
module Session {
  import opened Sequences

  datatype Verb =
    | Greeting | Handshake | Ehlo | StartTls
    | AuthLogin | UserName | Password
    | MailFrom | RcptTo | Data | Content | Rset | Noop | Quit

  /** An exchange and whether it ended in the reply the sender wants, or the closing of the socket. */
  datatype Event = Said(verb: Verb, ok: bool) | Closed

  type Trace = seq<Event>

  // ----- the proxy's discipline

  datatype Phase =
    | Opened(secure: bool)
    | Greeted(secure: bool)
    | Hello(secure: bool)
    | Upgrading
    | AskedUser
    | AskedPassword
    | Ready
    | InMail(accepted: bool)
    | InData
    | Delivered
    | Broken
    | Ended
    | Bad

  /** The phase that an accepted exchange leads to. */
  function Accepted(p: Phase, v: Verb): Phase {
    match (p, v)
    case (Opened(false), Handshake) => Opened(true)
    case (Opened(s), Greeting) => Greeted(s)
    case (Greeted(s), Ehlo) => Hello(s)
    case (Hello(false), StartTls) => Upgrading
    case (Upgrading, Handshake) => Greeted(true)
    case (Hello(_), AuthLogin) => AskedUser
    case (AskedUser, UserName) => AskedPassword
    case (AskedPassword, Password) => Ready
    case (Hello(_), MailFrom) => InMail(false)
    case (Ready, MailFrom) => InMail(false)
    case (InMail(_), RcptTo) => InMail(true)
    case (InMail(true), Data) => InData
    case (InData, Content) => Delivered
    case (Delivered, Noop) => Delivered
    case (Delivered, Rset) => Ready
    case _ => Bad
  }

  function Next(p: Phase, e: Event): Phase {
    match e
    case Closed => if p == Delivered || p == Broken then Ended else Bad
    case Said(v, ok) => if ok || Accepted(p, v) == Bad then Accepted(p, v) else Broken
  }

  function Run(t: Trace): Phase {
    if t == [] then Opened(false) else Next(Run(t[..|t| - 1]), t[|t| - 1])
  }

  // ----- what the usage limits count

  /** Exchanges that a trace ends in: deliveries so far, NOOPs at the end, longest row of NOOPs. */
  datatype Digest = Digest(phase: Phase, bodies: nat, trailing: nat, longest: nat)

  function Max(a: nat, b: nat): nat { if a < b then b else a }

  function Feed(d: Digest, e: Event): Digest {
    var trailing := if e.Said? && e.verb == Noop then d.trailing + 1 else 0;
    Digest(Next(d.phase, e),
           d.bodies + if e == Said(Content, true) then 1 else 0,
           trailing,
           Max(d.longest, trailing))
  }

  function Summary(t: Trace): Digest {
    if t == [] then Digest(Opened(false), 0, 0, 0) else Feed(Summary(t[..|t| - 1]), t[|t| - 1])
  }

  lemma SummaryAppend(t: Trace, e: Event)
    ensures Summary(t + [e]) == Feed(Summary(t), e)
  {
    assert (t + [e])[..|t|] == t;
  }

  lemma {:induction false} SummaryRuns(t: Trace)
    ensures Summary(t).phase == Run(t)
  {
    if t != [] {
      SummaryRuns(t[..|t| - 1]);
    }
  }

  function Delivery(e: Event): int { if e == Said(Content, true) then 1 else 0 }

  lemma {:induction false} SummaryCountsDeliveries(t: Trace)
    ensures Summary(t).bodies == Total(Delivery, t)
  {
    if t != [] {
      SummaryCountsDeliveries(t[..|t| - 1]);
    }
  }

  ghost predicate AllNoops(t: Trace, from: nat, to: nat)
    requires from <= to <= |t|
  {
    forall k :: from <= k < to ==> t[k].Said? && t[k].verb == Noop
  }

  /** No row of NOOPs anywhere in the trace is longer than the summary says. */
  lemma {:induction false} SummaryBoundsNoops(t: Trace, from: nat, to: nat)
    requires from <= to <= |t| && AllNoops(t, from, to)
    ensures to - from <= Summary(t).longest
    ensures to == |t| ==> to - from <= Summary(t).trailing
  {
    if t != [] {
      var u := t[..|t| - 1];
      if to < |t| {
        assert AllNoops(u, from, to);
        SummaryBoundsNoops(u, from, to);
      } else if from < to {
        assert t[to - 1].Said?;
        assert AllNoops(u, from, to - 1);
        SummaryBoundsNoops(u, from, to - 1);
      }
    }
  }

  /** The trace ends in a row of just `n` NOOPs. */
  ghost predicate EndsInNoops(t: Trace, n: nat) {
    n <= |t| && AllNoops(t, |t| - n, |t|) && (n < |t| ==> !AllNoops(t, |t| - n - 1, |t|))
  }

  lemma {:induction false} TrailingRow(t: Trace)
    ensures Summary(t).trailing <= |t| && AllNoops(t, |t| - Summary(t).trailing, |t|)
  {
    if t != [] {
      var less := t[..|t| - 1];
      TrailingRow(less);
      TrailingFed(t);
      hide Summary;
      assert Summary(t).trailing > 0 ==> t[|t| - 1].Said? && t[|t| - 1].verb == Noop;
    }
  }

  lemma TrailingFed(t: Trace)
    requires t != []
    ensures var e := t[|t| - 1];
      Summary(t).trailing == if e.Said? && e.verb == Noop then Summary(t[..|t| - 1]).trailing + 1 else 0
  {
    hide Next;
  }

  /** The summary counts the NOOPs at the end. */
  lemma {:induction false} EndsInTrailing(t: Trace, n: nat)
    ensures EndsInNoops(t, n) <==> n == Summary(t).trailing
  {
    TrailingRow(t);
    var m := Summary(t).trailing;
    if m < |t| && AllNoops(t, |t| - m - 1, |t|) {
      SummaryBoundsNoops(t, |t| - m - 1, |t|);
    }
  }

  // ----- what the discipline means, position by position

  /** A prefix of a trace that keeps the discipline keeps it. */
  lemma {:induction false} PrefixKeeps(t: Trace, n: nat)
    requires Run(t) != Bad && n <= |t|
    ensures Run(t[..n]) != Bad
  {
    if n < |t| {
      PrefixKeeps(t[..|t| - 1], n);
      assert t[..|t| - 1][..n] == t[..n];
    } else {
      assert t[..n] == t;
    }
  }

  /** The step of the automaton at position `i`. */
  lemma StepAt(t: Trace, i: nat)
    requires Run(t) != Bad && i < |t|
    ensures Run(t[..i]) != Bad && Run(t[..i + 1]) != Bad
    ensures Run(t[..i + 1]) == Next(Run(t[..i]), t[i])
  {
    PrefixKeeps(t, i);
    PrefixKeeps(t, i + 1);
    assert t[..i + 1][..i] == t[..i];
  }

  /** What the last event was, read off the phase it led to. */
  lemma LeadsTo(p: Phase, e: Event)
    ensures Next(p, e).Hello? ==> e == Said(Ehlo, true)
    ensures Next(p, e).Ready? ==> e == Said(Password, true) || e == Said(Rset, true)
    ensures Next(p, e).Delivered? ==> e == Said(Content, true) || e == Said(Noop, true)
  {
  }

  /** The phases in which MAIL and NOOP may be sent. */
  lemma MaySay(p: Phase, ok: bool)
    ensures Next(p, Said(MailFrom, ok)) != Bad ==> p.Hello? || p.Ready?
    ensures Next(p, Said(Noop, ok)) != Bad ==> p.Delivered?
  {
  }

  /** After a failed exchange only the closing may follow, and after that nothing. */
  lemma DeadEnds(p: Phase, e: Event)
    ensures e.Said? && !e.ok && Next(p, e) != Bad ==> Next(p, e) == Broken
    ensures Next(Broken, e) != Bad ==> e == Closed
    ensures e == Closed && Next(p, e) != Bad ==> Next(p, e) == Ended
    ensures Next(Ended, e) == Bad
  {
  }

  lemma FailureIsFinal(t: Trace, i: nat)
    requires Run(t) != Bad && i < |t| && t[i].Said? && !t[i].ok
    ensures i + 1 == |t| || (t[i + 1] == Closed && i + 2 == |t|)
  {
    hide Next;
    StepAt(t, i);
    DeadEnds(Run(t[..i]), t[i]);
    if i + 1 < |t| {
      StepAt(t, i + 1);
      DeadEnds(Run(t[..i + 1]), t[i + 1]);
      if i + 2 < |t| {
        StepAt(t, i + 2);
        DeadEnds(Run(t[..i + 2]), t[i + 2]);
      }
    }
  }

  lemma ClosedIsLast(t: Trace, i: nat)
    requires Run(t) != Bad && i < |t| && t[i] == Closed
    ensures i + 1 == |t|
  {
    hide Next;
    StepAt(t, i);
    DeadEnds(Run(t[..i]), t[i]);
    if i + 1 < |t| {
      StepAt(t, i + 1);
      DeadEnds(Run(t[..i + 1]), t[i + 1]);
    }
  }

  /** MAIL comes first on a new session, or directly after an accepted RSET. */
  lemma MailOpensTransaction(t: Trace, i: nat)
    requires Run(t) != Bad && i < |t| && t[i].Said? && t[i].verb == MailFrom
    ensures i > 0
    ensures t[i - 1] in {Said(Ehlo, true), Said(Password, true), Said(Rset, true)}
  {
    hide Next;
    StepAt(t, i);
    MaySay(Run(t[..i]), t[i].ok);
    if i > 0 {
      StepAt(t, i - 1);
      LeadsTo(Run(t[..i - 1]), t[i - 1]);
    }
  }

  lemma NoopOnlyBetweenTransactions(t: Trace, i: nat)
    requires Run(t) != Bad && i < |t| && t[i].Said? && t[i].verb == Noop
    ensures i > 0 && t[i - 1] in {Said(Content, true), Said(Noop, true)}
  {
    hide Next;
    StepAt(t, i);
    MaySay(Run(t[..i]), t[i].ok);
    if i > 0 {
      StepAt(t, i - 1);
      LeadsTo(Run(t[..i - 1]), t[i - 1]);
    }
  }

  /** How far back the open mail transaction reaches. */
  lemma {:induction false} OpenTransaction(t: Trace) returns (j: nat)
    requires Run(t).InMail?
    ensures j < |t| && t[j] == Said(MailFrom, true)
    ensures forall k :: j < k < |t| ==> t[k] == Said(RcptTo, true)
    ensures Run(t).accepted <==> j + 1 < |t|
  {
    var u := t[..|t| - 1];
    if t[|t| - 1].verb == MailFrom {
      j := |t| - 1;
    } else {
      j := OpenTransaction(u);
    }
  }

  /** DATA is sent only when at least one RCPT followed MAIL and every one of them was accepted. */
  lemma DataNeedsEveryRecipient(t: Trace, i: nat)
    requires Run(t) != Bad && i < |t| && t[i].Said? && t[i].verb == Data
    ensures exists j {:trigger t[j]} :: 0 <= j && j + 1 < i && t[j] == Said(MailFrom, true)
                   && forall k :: j < k < i ==> t[k] == Said(RcptTo, true)
  {
    StepAt(t, i);
    var j := OpenTransaction(t[..i]);
    assert t[j] == t[..i][j];
    forall k | j < k < i
      ensures t[k] == Said(RcptTo, true)
    {
      assert t[k] == t[..i][k];
    }
  }

  // ----- what the standards ask for

  /** `Unquit` is a session closed before QUIT was sent, `Violation` one in which the order was broken. */
  datatype RfcStage =
    | NoBanner | Refused | NoSession | Idle | TlsAgreed | TlsLost
    | Challenge(last: bool) | Transaction(rcpt: bool) | MailText
    | Quitting | Over | Unquit | Violation

  /** Whether the connection is encrypted, and whether the client has logged in, goes along. */
  datatype RfcState = RfcState(stage: RfcStage, tls: bool, authed: bool)

  function RfcStep(r: RfcState, e: Event): RfcStage {
    match (r.stage, e)
    // Nothing follows the end of a session.
    case (Violation, _) => Violation
    case (Over, _) => Violation
    case (Unquit, _) => Violation
    // The client closes only after QUIT, or when the handshake left it no way to send one.
    case (Quitting, Closed) => Over
    case (TlsLost, Closed) => Over
    case (_, Closed) => Unquit
    // Implicit TLS before the banner; otherwise the banner is what the client waits for first.
    case (NoBanner, Said(Handshake, ok)) => if r.tls then Violation else if ok then NoBanner else TlsLost
    case (NoBanner, Said(Greeting, ok)) => if ok then NoSession else Refused
    // A session begins with EHLO, also after the handshake that STARTTLS agreed on.
    case (NoSession, Said(Ehlo, ok)) => if ok then Idle else NoSession
    case (NoSession, Said(Rset, _)) => NoSession
    case (NoSession, Said(Noop, _)) => NoSession
    case (Idle, Said(Ehlo, _)) => Idle
    // No second TLS inside the first.
    case (Idle, Said(StartTls, ok)) => if r.tls then Violation else if ok then TlsAgreed else Idle
    case (TlsAgreed, Said(Handshake, ok)) => if ok then NoSession else TlsLost
    // No second login.
    case (Idle, Said(AuthLogin, ok)) => if r.authed then Violation else if ok then Challenge(false) else Idle
    case (Challenge(false), Said(UserName, ok)) => if ok then Challenge(true) else Idle
    case (Challenge(true), Said(Password, _)) => Idle
    // One transaction at a time: MAIL, RCPT, DATA in that order.
    case (Idle, Said(MailFrom, ok)) => if ok then Transaction(false) else Idle
    case (Transaction(n), Said(RcptTo, ok)) => Transaction(n || ok)
    case (Transaction(true), Said(Data, ok)) => if ok then MailText else Transaction(true)
    case (MailText, Said(Content, _)) => Idle
    // RSET, NOOP and QUIT are allowed at any time between commands.
    case (Idle, Said(Rset, _)) => Idle
    case (Transaction(n), Said(Rset, ok)) => if ok then Idle else Transaction(n)
    case (Idle, Said(Noop, _)) => Idle
    case (Transaction(n), Said(Noop, _)) => Transaction(n)
    case (Refused, Said(Quit, _)) => Quitting
    case (NoSession, Said(Quit, _)) => Quitting
    case (Idle, Said(Quit, _)) => Quitting
    case (Transaction(_), Said(Quit, _)) => Quitting
    case _ => Violation
  }

  /** A handshake starts the session afresh: the login before it no longer counts. */
  function RfcNext(r: RfcState, e: Event): RfcState {
    RfcState(RfcStep(r, e),
             r.tls || e == Said(Handshake, true),
             e != Said(Handshake, true) && (r.authed || e == Said(Password, true)))
  }

  function RfcRun(t: Trace): RfcState {
    if t == [] then RfcState(NoBanner, false, false) else RfcNext(RfcRun(t[..|t| - 1]), t[|t| - 1])
  }

  /** Where the standards' automaton may stand while the discipline's stands at `p`. */
  ghost predicate Simulates(p: Phase, r: RfcState) {
    match p
    case Opened(secure) => r == RfcState(NoBanner, secure, false)
    case Greeted(secure) => r == RfcState(NoSession, secure, false)
    case Hello(secure) => r == RfcState(Idle, secure, false)
    case Upgrading => r == RfcState(TlsAgreed, false, false)
    case AskedUser => r.stage == Challenge(false)
    case AskedPassword => r.stage == Challenge(true)
    case Ready => r.stage == Idle
    case InMail(n) => r.stage == Transaction(n)
    case InData => r.stage == MailText
    case Delivered => r.stage == Idle
    case Broken => !r.stage.Violation? && !r.stage.Quitting? && !r.stage.Over? && !r.stage.Unquit?
    case Ended => r.stage.Unquit? || r.stage.Over?
    case Bad => true
  }

  lemma NextSimulates(p: Phase, r: RfcState, e: Event)
    requires Simulates(p, r) && Next(p, e) != Bad
    ensures Simulates(Next(p, e), RfcNext(r, e))
  {
  }

  /** A trace that keeps the discipline breaks no rule about order. */
  lemma {:induction false} DisciplineSimulates(t: Trace)
    requires Run(t) != Bad
    ensures Simulates(Run(t), RfcRun(t)) && RfcRun(t).stage != Violation
  {
    hide Next, RfcNext, Simulates;
    if t == [] {
      AtTheStart();
    } else {
      PrefixKeeps(t, |t| - 1);
      DisciplineSimulates(t[..|t| - 1]);
      NextSimulates(Run(t[..|t| - 1]), RfcRun(t[..|t| - 1]), t[|t| - 1]);
    }
    InOrder(Run(t), RfcRun(t));
  }

  lemma AtTheStart()
    ensures Simulates(Opened(false), RfcState(NoBanner, false, false))
  {
  }

  lemma InOrder(p: Phase, r: RfcState)
    requires p != Bad && Simulates(p, r)
    ensures r.stage != Violation
  {
  }

  // ----- the rule about QUIT

  /** The discipline knows no QUIT. */
  lemma {:induction false} NeverQuits(t: Trace, ok: bool)
    requires Run(t) != Bad
    ensures Said(Quit, ok) !in t
  {
    if t != [] {
      NeverQuits(t[..|t| - 1], ok);
    }
  }

  lemma LostOnlyByHandshake(r: RfcState, e: Event)
    requires RfcStep(r, e) == TlsLost
    ensures e == Said(Handshake, false)
  {
  }

  lemma NotLost(t: Trace)
    requires Said(Handshake, false) !in t
    ensures RfcRun(t).stage != TlsLost
  {
    if t != [] {
      assert t[|t| - 1] in t;
      if RfcRun(t).stage == TlsLost {
        LostOnlyByHandshake(RfcRun(t[..|t| - 1]), t[|t| - 1]);
      }
    }
    hide RfcStep;
  }

  lemma ClosedUnquit(p: Phase, r: RfcState)
    requires Simulates(p, r) && !p.Bad? && !p.Ended? && r.stage != TlsLost
    ensures RfcNext(r, Closed).stage == Unquit
  {
  }

  /** So every session it closes is closed without QUIT, a lost handshake apart, and no other session is. */
  lemma UnquitWhenClosed(t: Trace)
    requires Run(t) != Bad && Said(Handshake, false) !in t
    ensures RfcRun(t).stage == Unquit <==> Closed in t
    ensures Closed in t <==> Run(t) == Ended
  {
    DisciplineSimulates(t);
    if Closed in t {
      var i :| 0 <= i < |t| && t[i] == Closed;
      ClosedIsLast(t, i);
      StepAt(t, i);
      assert t[..i + 1] == t;
      DisciplineSimulates(t[..i]);
      NotLost(t[..i]);
      ClosedUnquit(Run(t[..i]), RfcRun(t[..i]));
    } else {
      NotEnded(t);
    }
  }

  lemma NotEnded(t: Trace)
    requires Run(t) != Bad && Closed !in t && Simulates(Run(t), RfcRun(t))
    ensures Run(t) != Ended && RfcRun(t).stage != Unquit
  {
    if t != [] {
      assert t[|t| - 1] in t;
      OnlyClosedEnds(Run(t[..|t| - 1]), RfcRun(t[..|t| - 1]), t[|t| - 1]);
    }
  }

  lemma OnlyClosedEnds(p: Phase, r: RfcState, e: Event)
    requires e != Closed
    ensures Next(p, e) != Ended && RfcStep(r, e) != Unquit
  {
  }
}
