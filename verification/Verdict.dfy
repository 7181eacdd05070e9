/** What a call of `tpSendMail` says on the connection, and what its reply tells the client. */
module Verdict {
  import opened Lines
  import opened Replies
  import opened Dialogue
  import B = Base64
  import S = Session
  import System

  function Verbs(steps: seq<Step>): (verbs: seq<S.Verb>)
    ensures |verbs| == |steps|
    ensures forall k :: 0 <= k < |steps| ==> verbs[k] == steps[k].verb
  {
    if steps == [] then [] else [steps[0].verb] + Verbs(steps[1..])
  }

  // ----- what is logged

  /** Every exchange but the last went well. */
  predicate LogOf(log: S.Trace, verbs: seq<S.Verb>, ok: bool) {
    && |log| <= |verbs|
    && (ok ==> |log| == |verbs|)
    && (!ok ==> log != [])
    && forall k :: 0 <= k < |log| ==> log[k] == S.Said(verbs[k], ok || k + 1 < |log|)
  }

  /** The connection is encrypted after `log`. */
  predicate Secure(ssl: bool, log: S.Trace) { ssl || S.Said(S.Handshake, true) in log }

  /** The text after the exchange `k` is the one that this exchange leaves, and it went as logged. */
  predicate LastSays(p: Played, script: seq<Fate>, ssl: bool) {
    p.log != [] ==>
      var k := |p.log| - 1;
      p.log[k].Said?
      && (p.ok <==> Accepts(p.log[k].verb, FateAt(script, k)))
      && (!p.log[k].verb.Handshake? || !p.ok ==>
            p.res == Leaves(p.log[k].verb, Secure(ssl, p.log[..k]), FateAt(script, k), ""))
  }

  lemma LogCons(log: S.Trace, v: S.Verb, verbs: seq<S.Verb>, ok: bool)
    requires LogOf(log, verbs, ok)
    ensures LogOf([S.Said(v, true)] + log, [v] + verbs, ok)
  {
  }

  lemma {:induction false} PlayLog(steps: seq<Step>, script: seq<Fate>, ssl: bool, res: string)
    ensures var p := Play(steps, script, ssl, res);
      LogOf(p.log, Verbs(steps), p.ok) && (steps != [] ==> p.log != [])
  {
    hide Accepts, Leaves;
    if steps != [] {
      var v := steps[0].verb;
      var secure, left := ssl || v.Handshake?, Leaves(v, ssl, Head(script), res);
      PlayLog(steps[1..], Rest(script), secure, left);
      var q := Play(steps[1..], Rest(script), secure, left);
      LogCons(q.log, v, Verbs(steps[1..]), q.ok);
      assert Verbs(steps) == [v] + Verbs(steps[1..]);
      if !Accepts(v, Head(script)) {
        assert LogOf([S.Said(v, false)], Verbs(steps), false);
      } else {
        hide LogOf;
      }
    }
  }

  lemma {:induction false} PlayLast(steps: seq<Step>, script: seq<Fate>, ssl: bool, res: string)
    ensures LastSays(Play(steps, script, ssl, res), script, ssl)
  {
    hide Accepts, LogOf, LastSays;
    if steps == [] {
      NothingSaid(Play(steps, script, ssl, res), script, ssl);
    } else {
      var v, f := steps[0].verb, Head(script);
      var secure, left := ssl || v.Handshake?, Leaves(v, ssl, f, res);
      var p, q := Play(steps, script, ssl, res), Play(steps[1..], Rest(script), secure, left);
      PlayLast(steps[1..], Rest(script), secure, left);
      PlayLog(steps[1..], Rest(script), secure, left);
      if !Accepts(v, f) || steps[1..] == [] {
        OnceSaid(p, v, script, ssl, res);
      } else {
        Shifted(q, v, script, ssl);
        assert p.log == [S.Said(v, true)] + q.log;
        SameTail(p, q.(log := p.log), script, ssl);
      }
    }
  }

  lemma NothingSaid(p: Played, script: seq<Fate>, ssl: bool)
    requires p.log == []
    ensures LastSays(p, script, ssl)
  {
  }

  lemma SameTail(p: Played, q: Played, script: seq<Fate>, ssl: bool)
    requires p.log == q.log && p.ok == q.ok && p.res == q.res && LastSays(q, script, ssl)
    ensures LastSays(p, script, ssl)
  {
  }

  lemma OnceSaid(p: Played, v: S.Verb, script: seq<Fate>, ssl: bool, res: string)
    requires p.ok == Accepts(v, Head(script)) && p.log == [S.Said(v, p.ok)]
    requires p.res == Leaves(v, ssl, Head(script), res)
    ensures LastSays(p, script, ssl)
  {
    assert p.log[..0] == [];
  }

  lemma Shifted(q: Played, v: S.Verb, script: seq<Fate>, ssl: bool)
    requires q.log != [] && LastSays(q, Rest(script), ssl || v.Handshake?)
    ensures LastSays(q.(log := [S.Said(v, true)] + q.log), script, ssl)
  {
    hide Accepts, Leaves;
    var k := |q.log| - 1;
    var log := [S.Said(v, true)] + q.log;
    assert log[..k + 1] == [S.Said(v, true)] + q.log[..k];
    assert FateAt(script, k + 1) == FateAt(Rest(script), k);
  }

  // ----- which replies a success takes

  /** Every exchange ends well, each with its own fate, of which the first is at `from`. */
  ghost predicate AllAccepted(steps: seq<Step>, script: seq<Fate>, from: nat) {
    forall k :: 0 <= k < |steps| ==> Accepts(steps[k].verb, FateAt(script, from + k))
  }

  lemma AllAcceptedCons(steps: seq<Step>, script: seq<Fate>)
    requires steps != []
    ensures AllAccepted(steps, script, 0)
      <==> Accepts(steps[0].verb, Head(script)) && AllAccepted(steps[1..], Rest(script), 0)
  {
    hide Accepts;
    assert Head(script) == FateAt(script, 0);
    forall k | 1 <= k < |steps|
      ensures steps[k] == steps[1..][k - 1] && FateAt(script, k) == FateAt(Rest(script), k - 1)
    {
    }
    if AllAccepted(steps, script, 0) {
      forall k | 0 <= k < |steps[1..]|
        ensures Accepts(steps[1..][k].verb, FateAt(Rest(script), k))
      {
        assert Accepts(steps[k + 1].verb, FateAt(script, 0 + (k + 1)));
      }
    }
    if Accepts(steps[0].verb, Head(script)) && AllAccepted(steps[1..], Rest(script), 0) {
      forall k | 0 <= k < |steps|
        ensures Accepts(steps[k].verb, FateAt(script, 0 + k))
      {
        assert k > 0 ==> Accepts(steps[1..][k - 1].verb, FateAt(Rest(script), 0 + (k - 1)));
      }
    }
  }

  lemma AllAcceptedAppend(a: seq<Step>, b: seq<Step>, script: seq<Fate>, from: nat)
    ensures AllAccepted(a + b, script, from) <==> AllAccepted(a, script, from) && AllAccepted(b, script, from + |a|)
  {
    hide Accepts;
    if AllAccepted(a + b, script, from) {
      forall k | 0 <= k < |a|
        ensures Accepts(a[k].verb, FateAt(script, from + k))
      {
        assert (a + b)[k] == a[k];
      }
      forall k | 0 <= k < |b|
        ensures Accepts(b[k].verb, FateAt(script, from + |a| + k))
      {
        assert (a + b)[|a| + k] == b[k];
        assert from + |a| + k == from + (|a| + k);
      }
    }
    if AllAccepted(a, script, from) && AllAccepted(b, script, from + |a|) {
      forall k | 0 <= k < |a + b|
        ensures Accepts((a + b)[k].verb, FateAt(script, from + k))
      {
        if k >= |a| {
          assert Accepts(b[k - |a|].verb, FateAt(script, from + |a| + (k - |a|)));
        }
      }
    }
  }

  lemma OneAccepted(step: Step, script: seq<Fate>, from: nat)
    ensures AllAccepted([step], script, from) <==> Accepts(step.verb, FateAt(script, from))
  {
    hide Accepts;
    if AllAccepted([step], script, from) {
      assert Accepts([step][0].verb, FateAt(script, from + 0));
    }
  }

  /** A row goes well exactly when each of its exchanges does. */
  lemma {:induction false} PlayOk(steps: seq<Step>, script: seq<Fate>, ssl: bool, res: string)
    ensures Play(steps, script, ssl, res).ok <==> AllAccepted(steps, script, 0)
  {
    hide Accepts, Leaves;
    if steps != [] {
      AllAcceptedCons(steps, script);
      var v := steps[0].verb;
      PlayOk(steps[1..], Rest(script), ssl || v.Handshake?, Leaves(v, ssl, Head(script), res));
    }
  }

  /** A command is sent whole and answered with this code. */
  predicate Answered(f: Fate, code: string) { f.written.Wrote? && Matches(f.reading, code) }

  /** The recipient `k` of a row that starts at exchange `at` is welcome. */
  predicate Welcome(script: seq<Fate>, at: nat, k: nat) {
    Answered(FateAt(script, at + k), "250") || Answered(FateAt(script, at + k), "251")
  }

  /** So are the first `n` of them. */
  predicate AllWelcome(script: seq<Fate>, at: nat, n: nat) { forall k :: 0 <= k < n ==> Welcome(script, at, k) }

  lemma {:induction false} RcptAnswered(to: seq<string>, script: seq<Fate>, at: nat)
    ensures AllAccepted(RcptSteps(to), script, at) <==> AllWelcome(script, at, |to|)
  {
    var steps := RcptSteps(to);
    hide Matches, Accepts, FateAt;
    if AllAccepted(steps, script, at) {
      forall k | 0 <= k < |to|
        ensures Welcome(script, at, k)
      {
        assert Accepts(steps[k].verb, FateAt(script, at + k));
        TwoCodes(S.RcptTo, FateAt(script, at + k), "250", "251");
      }
    }
    if AllWelcome(script, at, |to|) {
      forall k | 0 <= k < |to|
        ensures Accepts(steps[k].verb, FateAt(script, at + k))
      {
        assert Welcome(script, at, k);
        TwoCodes(S.RcptTo, FateAt(script, at + k), "250", "251");
      }
    }
  }

  /** The recipients are accepted exactly when each of them, in order, is answered with 250 or 251. */
  lemma EveryRecipient(to: seq<string>, script: seq<Fate>, ssl: bool, res: string)
    ensures Play(RcptSteps(to), script, ssl, res).ok
      <==> forall k :: 0 <= k < |to| ==>
             var f := FateAt(script, k);
             f.written.Wrote? && (Matches(f.reading, "250") || Matches(f.reading, "251"))
  {
    hide Play, Matches, FateAt, AllAccepted, RcptSteps;
    PlayOk(RcptSteps(to), script, ssl, res);
    RcptAnswered(to, script, 0);
    assert forall k: nat ::
        Welcome(script, 0, k) == (Answered(FateAt(script, k), "250") || Answered(FateAt(script, k), "251"));
  }

  /** What each command of a mail wants to hear. */
  lemma {:induction false} MailAnswered(isNew: bool, from: string, to: seq<string>, data: string,
                                        script: seq<Fate>, ssl: bool, res: string)
    ensures var at := if isNew then 0 else 1;
      Play(MailSteps(isNew, from, to, data), script, ssl, res).ok
      <==>
      && (!isNew ==> Answered(FateAt(script, 0), "250") || Answered(FateAt(script, 0), "220"))
      && Answered(FateAt(script, at), "250")
      && AllWelcome(script, at + 1, |to|)
      && Answered(FateAt(script, at + 1 + |to|), "354")
      && Answered(FateAt(script, at + 2 + |to|), "250")
  {
    var at := if isNew then 0 else 1;
    var first := if isNew then [] else RSET;
    var content := [Step(S.Content, data)];
    hide Play, Matches, Accepts, AllAccepted, RcptSteps, FateAt, AllWelcome, Cut;
    PlayOk(MailSteps(isNew, from, to, data), script, ssl, res);
    AllAcceptedAppend(first + MailFromStep(from) + RcptSteps(to), DATA + content, script, 0);
    AllAcceptedAppend(first + MailFromStep(from), RcptSteps(to), script, 0);
    AllAcceptedAppend(first, MailFromStep(from), script, 0);
    AllAcceptedAppend(DATA, content, script, at + 1 + |to|);
    RcptAnswered(to, script, at + 1);
    FirstAnswered(isNew, script);
    CommandAnswered(MailFromStep(from)[0], script, at, "250");
    CommandAnswered(DATA[0], script, at + 1 + |to|, "354");
    CommandAnswered(content[0], script, at + 2 + |to|, "250");
  }

  lemma CommandAnswered(step: Step, script: seq<Fate>, at: nat, code: string)
    requires Codes(step.verb) == {code} && !Silent(step.verb)
    ensures AllAccepted([step], script, at) <==> Answered(FateAt(script, at), code)
  {
    OneAccepted(step, script, at);
    OneCode(step.verb, FateAt(script, at), code);
    hide Matches, Accepts, AllAccepted;
  }

  lemma FirstAnswered(isNew: bool, script: seq<Fate>)
    ensures AllAccepted(if isNew then [] else RSET, script, 0)
      <==> (!isNew ==> Answered(FateAt(script, 0), "250") || Answered(FateAt(script, 0), "220"))
  {
    if !isNew {
      OneAccepted(RSET[0], script, 0);
      TwoCodes(S.Rset, FateAt(script, 0), "250", "220");
    }
    hide Matches, Accepts;
  }

  /** How many exchanges there are before the login. */
  function BeforeLogin(mode: string): nat { if mode == "SSL" then 3 else if mode == "TLS" then 5 else 2 }

  predicate Connected(f: Fate) { f.connected }

  /** The handshake, the greeting, EHLO and STARTTLS get what they want, in the order of the mode. */
  predicate HelloAnswered(mode: string, script: seq<Fate>) {
    if mode == "SSL" then
      && Connected(FateAt(script, 0))
      && Matches(FateAt(script, 1).reading, "220")
      && Answered(FateAt(script, 2), "250")
    else if mode == "TLS" then
      && Matches(FateAt(script, 0).reading, "220")
      && Answered(FateAt(script, 1), "250")
      && Answered(FateAt(script, 2), "220")
      && Connected(FateAt(script, 3))
      && Answered(FateAt(script, 4), "250")
    else
      && Matches(FateAt(script, 0).reading, "220")
      && Answered(FateAt(script, 1), "250")
  }

  predicate LoginAnswered(script: seq<Fate>, at: nat) {
    && Answered(FateAt(script, at), "334")
    && Answered(FateAt(script, at + 1), "334")
    && Answered(FateAt(script, at + 2), "235")
  }

  lemma HandshakeAnswered(script: seq<Fate>, at: nat)
    ensures AllAccepted(HANDSHAKE, script, at) <==> Connected(FateAt(script, at))
  {
    OneAccepted(HANDSHAKE[0], script, at);
    hide AllAccepted, FateAt, Matches;
  }

  lemma GreetingAnswered(script: seq<Fate>, at: nat)
    ensures AllAccepted(GREETING, script, at) <==> Matches(FateAt(script, at).reading, "220")
  {
    OneAccepted(GREETING[0], script, at);
    OneCode(S.Greeting, FateAt(script, at), "220");
    hide AllAccepted, FateAt, Matches, Accepts;
  }

  lemma UpgradeAnswered(script: seq<Fate>, at: nat)
    ensures AllAccepted(EHLO + STARTTLS + HANDSHAKE, script, at) <==>
      && Answered(FateAt(script, at), "250")
      && Answered(FateAt(script, at + 1), "220")
      && Connected(FateAt(script, at + 2))
  {
    CommandAnswered(EHLO[0], script, at, "250");
    CommandAnswered(STARTTLS[0], script, at + 1, "220");
    HandshakeAnswered(script, at + 2);
    hide AllAccepted, FateAt, Answered, Connected;
    AllAcceptedAppend(EHLO, STARTTLS, script, at);
    AllAcceptedAppend(EHLO + STARTTLS, HANDSHAKE, script, at);
  }

  lemma NoneAccepted(script: seq<Fate>, at: nat)
    ensures AllAccepted([], script, at)
  {
  }

  lemma EhloAnswered(mode: string, script: seq<Fate>)
    ensures |EhloSteps(mode)| == BeforeLogin(mode)
    ensures AllAccepted(EhloSteps(mode), script, 0) <==> HelloAnswered(mode, script)
  {
    var first := if mode == "SSL" then HANDSHAKE else [];
    var tls := if mode == "TLS" then EHLO + STARTTLS + HANDSHAKE else [];
    HandshakeAnswered(script, 0);
    GreetingAnswered(script, |first|);
    UpgradeAnswered(script, 1);
    NoneAccepted(script, 0);
    NoneAccepted(script, |first| + 1);
    CommandAnswered(EHLO[0], script, BeforeLogin(mode) - 1, "250");
    hide AllAccepted, FateAt, Answered, Connected, Matches;
    AllAcceptedAppend(first, GREETING, script, 0);
    AllAcceptedAppend(first + GREETING, tls, script, 0);
    AllAcceptedAppend(first + GREETING + tls, EHLO, script, 0);
  }

  lemma AuthAnswered(acc: Account, script: seq<Fate>, at: nat)
    requires acc.password != SKIP_AUTH
    ensures AllAccepted(AuthSteps(acc), script, at) <==> LoginAnswered(script, at)
  {
    hide B.Encoding, Octets;
    var user := Step(S.UserName, B.Encoding(Octets(acc.username)) + CRLF);
    var pass := Step(S.Password, B.Encoding(Octets(acc.password)) + CRLF);
    CommandAnswered(AUTH_LOGIN[0], script, at, "334");
    CommandAnswered(user, script, at + 1, "334");
    CommandAnswered(pass, script, at + 2, "235");
    hide AllAccepted, FateAt, Answered;
    AllAcceptedAppend(AUTH_LOGIN, [user], script, at);
    AllAcceptedAppend(AUTH_LOGIN + [user], [pass], script, at);
  }

  /** What the setup of a connection wants to hear, mode by mode. */
  lemma {:induction false} SetupAnswered(acc: Account, script: seq<Fate>, res: string)
    ensures Setup(acc, script, res).ok
      <==>
      && HelloAnswered(acc.ssl, script)
      && (acc.password != "__OUR_SMTP_PROXY_SKIP_AUTH__" ==>
            acc.auth == "LOGIN" && LoginAnswered(script, BeforeLogin(acc.ssl)))
  {
    hide Play, EhloSteps, AuthSteps, AllAccepted, HelloAnswered, LoginAnswered, BeforeLogin, Cut;
    EhloAnswered(acc.ssl, script);
    PlayOk(EhloSteps(acc.ssl), script, false, res);
    PlayOk(EhloSteps(acc.ssl) + AuthSteps(acc), script, false, res);
    AllAcceptedAppend(EhloSteps(acc.ssl), AuthSteps(acc), script, 0);
    if acc.password != SKIP_AUTH {
      AuthAnswered(acc, script, BeforeLogin(acc.ssl));
    } else {
      NoAuthSteps(acc);
      NoneAccepted(script, BeforeLogin(acc.ssl));
    }
  }

  /** The trial of a transport wants 221 for its QUIT besides. */
  lemma {:induction false} TestAnswered(acc: Account, script: seq<Fate>)
    ensures TestSession(acc, script).ok
      <==> Setup(acc, script, "").ok && Answered(FateAt(Setup(acc, script, "").script, 0), "221")
    ensures TestSession(acc, script).ok ==>
      TestSession(acc, script).sent == Setup(acc, script, "").sent + ["QUIT\r\n"]
  {
    hide Setup;
    var p := Setup(acc, script, "");
    PlayOk(QUIT, p.script, p.ssl, p.res);
    CommandAnswered(QUIT[0], p.script, 0, "221");
    OneText(QUIT[0]);
    OneNulFree(QUIT[0]);
    AllSent(QUIT, p.script, p.ssl, p.res);
    hide Play, AllAccepted, Answered, FateAt, Texts, NulFreeSteps;
  }

  // ----- the reply and the verdict

  /** The exchange that failed awaited another code and was answered with 250. */
  predicate Misled(log: S.Trace, script: seq<Fate>) {
    log != [] &&
    var k := |log| - 1;
    log[k].Said? && !log[k].ok && Answered250(log[k].verb, FateAt(script, k))
  }

  predicate Answered250(v: S.Verb, f: Fate) {
    "250" !in Codes(v) && !v.Handshake? && (v.Greeting? || f.written.Wrote?) && Matches(f.reading, "250")
  }

  /** After a failed exchange the text starts with 250 exactly when the exchange was misled. */
  lemma FailureSays(v: S.Verb, ssl: bool, f: Fate)
    requires !Accepts(v, f)
    ensures "250" <= Leaves(v, ssl, f, "") <==> Answered250(v, f)
  {
    MatchesText(f.reading, "250");
    hide Matches, Text;
  }

  lemma SuccessSays(v: S.Verb, ssl: bool, f: Fate)
    requires Accepts(v, f) && Codes(v) == {"250"}
    ensures "250" <= Leaves(v, ssl, f, "")
  {
    MatchesText(f.reading, "250");
    OneCode(v, f, "250");
    hide Matches, Text;
  }

  lemma PlayVerdict(steps: seq<Step>, script: seq<Fate>, ssl: bool, res: string)
    requires steps != []
    ensures var p := Play(steps, script, ssl, res);
      && (p.ok && steps[|steps| - 1].verb.Content? ==> "250" <= p.res)
      && (p.ok ==> !Misled(p.log, script))
      && (!p.ok ==> ("250" <= p.res <==> Misled(p.log, script)))
  {
    hide Play, Accepts, Leaves, Answered250;
    PlayLog(steps, script, ssl, res);
    PlayLast(steps, script, ssl, res);
    var p := Play(steps, script, ssl, res);
    var k := |p.log| - 1;
    var v, secure, f := p.log[k].verb, Secure(ssl, p.log[..k]), FateAt(script, k);
    if p.ok {
      if v.Content? {
        SuccessSays(v, secure, f);
      }
    } else {
      FailureSays(v, secure, f);
    }
  }

  lemma MailStepsEnd(isNew: bool, from: string, to: seq<string>, data: string)
    ensures var steps := MailSteps(isNew, from, to, data); steps != [] && steps[|steps| - 1].verb.Content?
  {
  }

  lemma FreshIsOneRow(acc: Account, from: string, to: seq<string>, data: string, script: seq<Fate>, ssl: bool)
    requires acc.password == SKIP_AUTH || acc.auth == "LOGIN"
    ensures Attempt(Fresh, acc, from, to, data, script, ssl)
         == Play(EhloSteps(acc.ssl) + AuthSteps(acc) + MailSteps(true, from, to, data), script, false, "")
  {
    hide Play, EhloSteps, AuthSteps, MailSteps;
    PlayAppend(EhloSteps(acc.ssl) + AuthSteps(acc), MailSteps(true, from, to, data), script, false, "");
  }

  /**
   A call that returns 1 leaves a reply that starts with 250. A call that returns 0 leaves such a reply
   exactly when the exchange that failed awaited another code and the server said 250.
   */
  lemma ReplyTells(got: Acquired, acc: Account, from: string, to: seq<string>, data: string,
                   script: seq<Fate>, ssl: bool)
    requires got.Fresh? ==> !ssl
    ensures var a := Attempt(got, acc, from, to, data, script, ssl);
      && (a.ok ==> "250" <= a.res)
      && (!a.ok ==> ("250" <= a.res <==> Misled(a.log, script)))
  {
    hide Play, EhloSteps, AuthSteps, MailSteps, Misled;
    match got
    case TimedOut =>
      NotMisled(script);
      assert TOO_BUSY[0] == '5';
    case NoSocket =>
      NotMisled(script);
      assert CANNOT_CONNECT[0] == '5';
    case Reused =>
      MailStepsEnd(false, from, to, data);
      PlayVerdict(MailSteps(false, from, to, data), script, ssl, "");
    case Fresh =>
      EhloStepsBegin(acc.ssl);
      if acc.password == SKIP_AUTH || acc.auth == "LOGIN" {
        FreshIsOneRow(acc, from, to, data, script, ssl);
        MailStepsEnd(true, from, to, data);
        var mail := MailSteps(true, from, to, data);
        var steps := EhloSteps(acc.ssl) + AuthSteps(acc) + mail;
        assert steps[|steps| - 1] == mail[|mail| - 1];
        PlayVerdict(steps, script, false, "");
      } else {
        PlayVerdict(EhloSteps(acc.ssl), script, false, "");
        assert NO_SUCH_AUTH[0] == '5';
      }
  }

  lemma NotMisled(script: seq<Fate>)
    ensures !Misled([], script)
  {
  }

  lemma EhloStepsBegin(mode: string)
    ensures EhloSteps(mode) != []
  {
  }

  /** The server never says 250 where the proxy awaits another code. */
  predicate Honest(log: S.Trace, script: seq<Fate>) {
    forall k :: 0 <= k < |log| && log[k].Said? && "250" !in Codes(log[k].verb) ==>
      !Matches(FateAt(script, k).reading, "250")
  }

  /** Against such a server the prefix test of the PHP client is exact. */
  lemma PrefixTestIsExact(got: Acquired, acc: Account, from: string, to: seq<string>, data: string,
                          script: seq<Fate>, ssl: bool)
    requires got.Fresh? ==> !ssl
    requires Honest(Attempt(got, acc, from, to, data, script, ssl).log, script)
    ensures var a := Attempt(got, acc, from, to, data, script, ssl); a.ok <==> "250" <= a.res
  {
    hide Attempt, Matches;
    ReplyTells(got, acc, from, to, data, script, ssl);
  }

  /** DATA is answered as everything else is, and that is not what the proxy awaits. */
  lemma DataRefused(steps: seq<Step>, script: seq<Fate>, yes: Fate)
    requires Verbs(steps) == [S.Rset, S.MailFrom, S.RcptTo, S.Data, S.Content]
    requires forall k :: 0 <= k < 5 ==> FateAt(script, k) == yes
    requires !Accepts(S.Data, yes) && Accepts(S.Content, yes) && Answered250(S.Data, yes)
    requires Accepts(S.Rset, yes) && Accepts(S.MailFrom, yes) && Accepts(S.RcptTo, yes)
    ensures var p := Play(steps, script, false, ""); !p.ok && "250" <= p.res
  {
    hide Matches, Text, Accepts, Leaves, Play, Answered250;
    PlayOk(steps, script, false, "");
    assert !Accepts(steps[3].verb, FateAt(script, 0 + 3));
    PlayVerdict(steps, script, false, "");
    PlayLog(steps, script, false, "");
    PlayLast(steps, script, false, "");
    var p := Play(steps, script, false, "");
    var k := |p.log| - 1;
    assert p.log[k] == S.Said(Verbs(steps)[k], false);
    assert S.Said(S.Handshake, true) !in p.log;
  }

  lemma YesMeans(yes: Fate)
    requires yes.written.Wrote? && Matches(yes.reading, "250") && !Matches(yes.reading, "354")
    ensures !Accepts(S.Data, yes) && Accepts(S.Content, yes) && Answered250(S.Data, yes)
    ensures Accepts(S.Rset, yes) && Accepts(S.MailFrom, yes) && Accepts(S.RcptTo, yes)
  {
    TwoCodes(S.Rset, yes, "250", "220");
    OneCode(S.MailFrom, yes, "250");
    TwoCodes(S.RcptTo, yes, "250", "251");
    OneCode(S.Data, yes, "354");
    OneCode(S.Content, yes, "250");
    hide Matches, Accepts;
    assert "250" != "354";
  }

  /** Against another one it is not: a server that answers everything with 250, DATA included. */
  lemma PrefixTestMayFail(acc: Account) returns (script: seq<Fate>)
    ensures var a := Attempt(Reused, acc, "us", ["x@y"], "mail", script, false); !a.ok && "250" <= a.res
  {
    hide MailSteps, Matches, Text, Accepts, Leaves, Play, Answered250;
    var yes := Fate(Wrote, Got("250 OK\r\n"), true);
    script := [yes, yes, yes, yes, yes];
    FiveSteps("us", "x@y", "mail");
    SaysOk(yes.reading);
    YesMeans(yes);
    DataRefused(MailSteps(false, "us", ["x@y"], "mail"), script, yes);
  }

  lemma FiveSteps(from: string, to: string, data: string)
    ensures Verbs(MailSteps(false, from, [to], data)) == [S.Rset, S.MailFrom, S.RcptTo, S.Data, S.Content]
  {
  }

  lemma SaysOk(r: Reading)
    requires r == Got("250 OK\r\n")
    ensures Matches(r, "250") && !Matches(r, "354")
  {
    LastLineAfter("", "250 OK\r");
    assert "" + "250 OK\r" + "\n" == "250 OK\r\n";
  }
}
