/**
 The dialogue that the code holds is the one that the interleaving model takes step by step, and it keeps
 the discipline of the session.
 */
module Speaking {
  import opened Lines
  import opened Dialogue
  import opened Verdict
  import B = Base64
  import S = Session
  import Invariant
  import System

  // ----- the stages of a call

  /** What is left to say in a stage and the stages before it, to count down. */
  function Left(g: System.Stage, n: nat): nat {
    match g
    case Resetting => n + 5
    case Mailing => n + 4
    case Recipients(left) => left + 3
    case DataCommand => 2
    case Sending => 1
    case _ => 0
  }

  /** What a call says from a stage on, as long as the server agrees. */
  function Saying(g: System.Stage, n: nat): seq<S.Verb>
    requires n > 0
    decreases Left(g, n)
  {
    if System.Talking(g) then [System.Spoken(g)] + Saying(System.After(g, n), n) else []
  }

  lemma {:induction false} SayingRecipients(left: nat, to: seq<string>, n: nat)
    requires n > 0 && left == |to| > 0
    ensures Saying(System.Recipients(left), n) == Verbs(RcptSteps(to)) + [S.Data, S.Content]
  {
    assert Saying(System.DataCommand, n) == [S.Data, S.Content] by {
      assert Saying(System.Counting, n) == [];
      assert Saying(System.Sending, n) == [S.Content];
    }
    if left > 1 {
      SayingRecipients(left - 1, to[1..], n);
      VerbsCons(to);
    } else {
      assert Verbs(RcptSteps(to)) == [S.RcptTo];
    }
  }

  lemma VerbsCons(to: seq<string>)
    requires to != []
    ensures Verbs(RcptSteps(to)) == [S.RcptTo] + Verbs(RcptSteps(to[1..]))
  {
    assert RcptSteps(to)[1..] == RcptSteps(to[1..]);
  }

  lemma VerbsAppend(a: seq<Step>, b: seq<Step>)
    ensures Verbs(a + b) == Verbs(a) + Verbs(b)
  {
  }

  lemma MailVerbsInOrder(isNew: bool, from: string, to: seq<string>, data: string)
    ensures Verbs(MailSteps(isNew, from, to, data))
         == (if isNew then [] else [S.Rset]) + [S.MailFrom] + Verbs(RcptSteps(to)) + [S.Data, S.Content]
  {
    var first := if isNew then [] else RSET;
    FewVerbs(first, from, data);
    assert Verbs(first) == if isNew then [] else [S.Rset];
    hide Verbs, RcptSteps, DataSteps, MailFromStep, RSET;
    VerbsAppend(first, MailFromStep(from));
    VerbsAppend(first + MailFromStep(from), RcptSteps(to));
    VerbsAppend(first + MailFromStep(from) + RcptSteps(to), DataSteps(data));
  }

  lemma FewVerbs(first: seq<Step>, from: string, data: string)
    requires first == [] || first == RSET
    ensures Verbs(first) == if first == [] then [] else [S.Rset]
    ensures Verbs(MailFromStep(from)) == [S.MailFrom]
    ensures Verbs(DataSteps(data)) == [S.Data, S.Content]
  {
  }

  lemma Nested(first: seq<S.Verb>, v: S.Verb, middle: seq<S.Verb>, last: seq<S.Verb>)
    ensures first + [v] + middle + last == first + ([v] + (middle + last))
    ensures [] + ([v] + (middle + last)) == [v] + (middle + last)
  {
  }

  lemma MailVerbs(isNew: bool, from: string, to: seq<string>, data: string)
    ensures var mail := [S.MailFrom] + (Verbs(RcptSteps(to)) + [S.Data, S.Content]);
      Verbs(MailSteps(isNew, from, to, data)) == if isNew then mail else [S.Rset] + mail
  {
    hide Verbs, MailSteps, RcptSteps;
    MailVerbsInOrder(isNew, from, to, data);
    Nested(if isNew then [] else [S.Rset], S.MailFrom, Verbs(RcptSteps(to)), [S.Data, S.Content]);
  }

  lemma SayingOpens(n: nat)
    requires n > 0
    ensures Saying(System.Mailing, n) == [S.MailFrom] + Saying(System.Recipients(n), n)
    ensures Saying(System.Resetting, n) == [S.Rset] + Saying(System.Mailing, n)
  {
  }

  /** The stages of a call in the interleaving model say what `tpSendMail` says. */
  lemma {:induction false} StagesSayTheMail(isNew: bool, from: string, to: seq<string>, data: string)
    requires to != []
    ensures Saying(if isNew then System.Mailing else System.Resetting, |to|) == Verbs(MailSteps(isNew, from, to, data))
  {
    MailVerbs(isNew, from, to, data);
    SayingRecipients(|to|, to, |to|);
    SayingOpens(|to|);
    hide MailSteps, RcptSteps, Verbs, Saying;
  }

  /** The modes that `checkTp` lets pass. */
  function SecurityOf(mode: string): System.Security {
    if mode == "SSL" then System.Ssl else if mode == "TLS" then System.StartTls else System.Plain
  }

  /** A setup that succeeds says what the interleaving model lets a new connection start with. */
  lemma SetupSaysTheTrace(acc: Account, script: seq<Fate>, res: string, cfg: System.Config)
    requires Setup(acc, script, res).ok
    requires cfg.skipAuth == (acc.password == SKIP_AUTH)
    requires cfg.security == SecurityOf(acc.ssl)
    ensures Setup(acc, script, res).log == System.SetupTrace(cfg)
  {
    var steps := EhloSteps(acc.ssl) + AuthSteps(acc);
    PlayLog(steps, script, false, res);
    SetupVerbs(acc, cfg);
    var log, trace := Play(steps, script, false, res).log, System.SetupTrace(cfg);
    assert forall k :: 0 <= k < |log| ==> log[k] == S.Said(Verbs(steps)[k], true);
  }

  lemma EhloVerbs(mode: string)
    ensures Verbs(EhloSteps(mode)) ==
      if mode == "SSL" then [S.Handshake, S.Greeting, S.Ehlo]
      else if mode == "TLS" then [S.Greeting, S.Ehlo, S.StartTls, S.Handshake, S.Ehlo]
      else [S.Greeting, S.Ehlo]
  {
  }

  lemma AuthVerbs(acc: Account)
    ensures Verbs(AuthSteps(acc)) == if acc.password == SKIP_AUTH then [] else [S.AuthLogin, S.UserName, S.Password]
  {
    hide B.Encoding, Octets;
  }

  lemma {:induction false} SetupVerbs(acc: Account, cfg: System.Config)
    requires cfg.skipAuth == (acc.password == SKIP_AUTH)
    requires cfg.security == SecurityOf(acc.ssl)
    ensures var verbs, trace := Verbs(EhloSteps(acc.ssl) + AuthSteps(acc)), System.SetupTrace(cfg);
      |verbs| == |trace| && forall k :: 0 <= k < |verbs| ==> trace[k] == S.Said(verbs[k], true)
  {
    VerbsAppend(EhloSteps(acc.ssl), AuthSteps(acc));
    EhloVerbs(acc.ssl);
    AuthVerbs(acc);
    hide Verbs, EhloSteps, AuthSteps;
  }

  // ----- the discipline

  /** The phase after a row of exchanges that all go well. */
  function AcceptedAll(p: S.Phase, verbs: seq<S.Verb>): S.Phase
    decreases |verbs|
  {
    if verbs == [] then p else AcceptedAll(S.Accepted(p, verbs[0]), verbs[1..])
  }

  lemma {:induction false} StaysBad(verbs: seq<S.Verb>)
    ensures AcceptedAll(S.Bad, verbs) == S.Bad
  {
    if verbs != [] {
      StaysBad(verbs[1..]);
    }
  }

  lemma RunAppend(t: S.Trace, e: S.Event)
    ensures S.Run(t + [e]) == S.Next(S.Run(t), e)
  {
    assert (t + [e])[..|t|] == t;
  }

  /** A row of exchanges that the discipline allows leaves the session where it leads, or broken. */
  lemma {:induction false} PlayKeepsDiscipline(t: S.Trace, steps: seq<Step>, script: seq<Fate>, ssl: bool, res: string)
    requires AcceptedAll(S.Run(t), Verbs(steps)) != S.Bad
    ensures var p := Play(steps, script, ssl, res);
      S.Run(t + p.log) == if p.ok then AcceptedAll(S.Run(t), Verbs(steps)) else S.Broken
    decreases |steps|
  {
    hide Accepts, Leaves, S.Run, S.Accepted;
    var p := Play(steps, script, ssl, res);
    if steps == [] {
      assert t + p.log == t;
    } else {
      var v := steps[0].verb;
      StaysBad(Verbs(steps[1..]));
      var e := S.Said(v, Accepts(v, Head(script)));
      RunAppend(t, e);
      if e.ok {
        PlayKeepsDiscipline(t + [e], steps[1..], Rest(script), ssl || v.Handshake?, Leaves(v, ssl, Head(script), res));
        var q := Play(steps[1..], Rest(script), ssl || v.Handshake?, Leaves(v, ssl, Head(script), res));
        assert t + p.log == t + [e] + q.log;
      }
    }
  }

  lemma RcptAccepted(p: S.Phase)
    requires p.InMail?
    ensures S.Accepted(p, S.RcptTo) == S.InMail(true)
  {
  }

  lemma AcceptedCons(p: S.Phase, v: S.Verb, verbs: seq<S.Verb>)
    ensures AcceptedAll(p, [v] + verbs) == AcceptedAll(S.Accepted(p, v), verbs)
  {
    assert ([v] + verbs)[1..] == verbs;
  }

  lemma {:induction false} RecipientsAccepted(p: S.Phase, to: seq<string>, more: seq<S.Verb>)
    requires p.InMail?
    ensures AcceptedAll(p, Verbs(RcptSteps(to)) + more)
         == AcceptedAll(if to == [] then p else S.InMail(true), more)
    decreases |to|
  {
    if to == [] {
      assert Verbs(RcptSteps(to)) + more == more;
    } else {
      VerbsCons(to);
      var rest := Verbs(RcptSteps(to[1..])) + more;
      assert Verbs(RcptSteps(to)) + more == [S.RcptTo] + rest;
      AcceptedCons(p, S.RcptTo, rest);
      hide S.Accepted, RcptSteps;
      assert S.Accepted(p, S.RcptTo) == S.InMail(true) by { RcptAccepted(p); }
      RecipientsAccepted(S.InMail(true), to[1..], more);
    }
  }

  /** The mail of a call takes a session from where it may begin to a delivery, or breaks it off. */
  lemma {:induction false} MailKeepsDiscipline(t: S.Trace, isNew: bool, from: string, to: seq<string>, data: string,
                            script: seq<Fate>, ssl: bool, res: string)
    requires to != []
    requires if isNew then S.Run(t).Hello? || S.Run(t).Ready? else S.Run(t).Delivered?
    ensures var p := Play(MailSteps(isNew, from, to, data), script, ssl, res);
      S.Run(t + p.log) == if p.ok then S.Delivered else S.Broken
  {
    MailAccepted(S.Run(t), isNew, from, to, data);
    PlayKeepsDiscipline(t, MailSteps(isNew, from, to, data), script, ssl, res);
  }

  lemma DataAccepted()
    ensures AcceptedAll(S.InMail(true), [S.Data, S.Content]) == S.Delivered
  {
    assert [S.Data, S.Content] == [S.Data] + ([S.Content] + []);
    AcceptedCons(S.InMail(true), S.Data, [S.Content] + []);
    AcceptedCons(S.InData, S.Content, []);
  }

  lemma MailAccepted(p: S.Phase, isNew: bool, from: string, to: seq<string>, data: string)
    requires to != []
    requires if isNew then p.Hello? || p.Ready? else p.Delivered?
    ensures AcceptedAll(p, Verbs(MailSteps(isNew, from, to, data))) == S.Delivered
  {
    MailVerbs(isNew, from, to, data);
    DataAccepted();
    RecipientsAccepted(S.InMail(false), to, [S.Data, S.Content]);
    assert S.Accepted(S.Ready, S.MailFrom) == S.InMail(false);
    assert if isNew then S.Accepted(p, S.MailFrom) == S.InMail(false) else S.Accepted(p, S.Rset) == S.Ready;
    hide RcptSteps, MailSteps, AcceptedAll, Verbs, S.Accepted;
    var tail := Verbs(RcptSteps(to)) + [S.Data, S.Content];
    var mail := [S.MailFrom] + tail;
    AcceptedCons(S.Ready, S.MailFrom, tail);
    AcceptedCons(p, S.MailFrom, tail);
    AcceptedCons(p, S.Rset, mail);
  }

  // ----- the session that does end with QUIT

  lemma SetupRuns(cfg: System.Config)
    ensures S.Run(System.SetupTrace(cfg)).Hello? || S.Run(System.SetupTrace(cfg)).Ready?
  {
    hide S.Summary;
    Invariant.SetupSummary(cfg);
    S.SummaryRuns(System.SetupTrace(cfg));
  }

  /** The trial of a transport that `loadTpConfig` makes, closed when it went well, keeps every rule. */
  lemma TestKeepsTheRules(acc: Account, script: seq<Fate>)
    requires TestSession(acc, script).ok
    ensures S.RfcRun(TestSession(acc, script).log + [S.Closed]).stage == S.Over
  {
    hide Play, Setup, S.Run, S.RfcRun, System.SetupTrace;
    var cfg := System.Config(1, 0, 0, SecurityOf(acc.ssl), acc.password == SKIP_AUTH);
    var p := Setup(acc, script, "");
    SetupSaysTheTrace(acc, script, "", cfg);
    SetupRuns(cfg);
    S.DisciplineSimulates(p.log);
    hide S.RfcStep, Verdict.LastSays;
    PlayLog(QUIT, p.script, p.ssl, p.res);
    assert TestSession(acc, script).log == p.log + [S.Said(S.Quit, true)];
    QuitEnds(p.log);
  }

  /** QUIT between transactions, and the closing after it, end a session as they should. */
  lemma QuitEnds(t: S.Trace)
    requires S.RfcRun(t).stage.Idle?
    ensures S.RfcRun(t + [S.Said(S.Quit, true)] + [S.Closed]).stage == S.Over
  {
    hide S.RfcRun;
    RfcAppend(t, S.Said(S.Quit, true));
    RfcAppend(t + [S.Said(S.Quit, true)], S.Closed);
  }

  lemma RfcAppend(t: S.Trace, e: S.Event)
    ensures S.RfcRun(t + [e]) == S.RfcNext(S.RfcRun(t), e)
  {
    assert (t + [e])[..|t|] == t;
  }

  // ----- a setup that fails

  /** The events of a row that goes well. */
  function Friendly(verbs: seq<S.Verb>): S.Trace {
    seq(|verbs|, k requires 0 <= k < |verbs| => S.Said(verbs[k], true))
  }

  lemma {:induction false} AcceptedIsRun(t: S.Trace, verbs: seq<S.Verb>)
    requires S.Run(t + Friendly(verbs)) != S.Bad
    ensures AcceptedAll(S.Run(t), verbs) == S.Run(t + Friendly(verbs))
    decreases |verbs|
  {
    if verbs == [] {
      assert t + Friendly(verbs) == t;
    } else {
      var u := t + [S.Said(verbs[0], true)];
      RunAppend(t, S.Said(verbs[0], true));
      assert t + Friendly(verbs) == u + Friendly(verbs[1..]);
      S.PrefixKeeps(t + Friendly(verbs), |u|);
      assert (t + Friendly(verbs))[..|u|] == u;
      hide S.Run;
      AcceptedIsRun(u, verbs[1..]);
    }
  }

  /** The discipline allows the setup. */
  lemma SetupAllowed(acc: Account)
    ensures var verbs := Verbs(EhloSteps(acc.ssl) + AuthSteps(acc));
      AcceptedAll(S.Opened(false), verbs) in {S.Hello(true), S.Hello(false), S.Ready}
  {
    hide Verbs, EhloSteps, AuthSteps, S.Run, System.SetupTrace;
    var cfg := System.Config(1, 0, 0, SecurityOf(acc.ssl), acc.password == SKIP_AUTH);
    var verbs := Verbs(EhloSteps(acc.ssl) + AuthSteps(acc));
    SetupVerbs(acc, cfg);
    SetupRuns(cfg);
    assert [] + Friendly(verbs) == System.SetupTrace(cfg);
    AtFirst();
    AcceptedIsRun([], verbs);
  }

  lemma AtFirst()
    ensures S.Run([]) == S.Opened(false)
  {
  }

  lemma PlayFromTheStart(steps: seq<Step>, script: seq<Fate>, res: string)
    requires AcceptedAll(S.Opened(false), Verbs(steps)) in {S.Hello(true), S.Hello(false), S.Ready}
    ensures var p := Play(steps, script, false, res);
      S.Run(p.log) == if p.ok then AcceptedAll(S.Opened(false), Verbs(steps)) else S.Broken
  {
    hide Play, Verbs, AcceptedAll, S.Run;
    AtFirst();
    PlayKeepsDiscipline([], steps, script, false, res);
    assert [] + Play(steps, script, false, res).log == Play(steps, script, false, res).log;
  }

  /** `newConn` closes such a connection: again without QUIT, a lost handshake apart. */
  lemma FailedSetupIsUnquit(acc: Account, script: seq<Fate>, res: string)
    requires !Setup(acc, script, res).ok
    requires S.Said(S.Handshake, false) !in Setup(acc, script, res).log
    ensures S.RfcRun(Setup(acc, script, res).log + [S.Closed]).stage == S.Unquit
  {
    hide Play, Verbs, EhloSteps, AuthSteps, AcceptedAll, S.Run, S.RfcRun, S.RfcStep;
    var log := Setup(acc, script, res).log;
    SetupAllowed(acc);
    PlayFromTheStart(EhloSteps(acc.ssl) + AuthSteps(acc), script, res);
    NoAuthSteps(acc.(password := SKIP_AUTH));
    SetupAllowed(acc.(password := SKIP_AUTH));
    assert EhloSteps(acc.ssl) + [] == EhloSteps(acc.ssl);
    PlayFromTheStart(EhloSteps(acc.ssl), script, res);
    S.DisciplineSimulates(log);
    S.NotLost(log);
    S.ClosedUnquit(S.Run(log), S.RfcRun(log));
    RfcAppend(log, S.Closed);
  }

  // ----- the text of the commands

  lemma CutShort(address: string)
    requires OneLine(address) && |address| > 1011
    ensures var sent := Cut("RCPT TO:<" + address + ">\r\n"); |sent| == 1023 && !CrlfAt(sent, 1021)
  {
    assert !CrlfAt(address, 1012);
  }

  /** A recipient is named in a command of its own line exactly when the address is not too long for the buffer. */
  lemma CommandIsALine(address: string)
    requires OneLine(address)
    ensures |address| <= 1011 ==> Cut("RCPT TO:<" + address + ">\r\n") == "RCPT TO:<" + address + ">\r\n"
    ensures (exists line :: Cut("RCPT TO:<" + address + ">\r\n") == line + CRLF) <==> |address| <= 1011
  {
    var whole := "RCPT TO:<" + address + ">\r\n";
    if |address| <= 1011 {
      assert Cut(whole) == "RCPT TO:<" + address + ">" + CRLF;
    } else {
      CutShort(address);
      forall line: string
        ensures Cut(whole) != line + CRLF
      {
        assert CrlfAt(line + CRLF, |line|);
      }
    }
  }
}
