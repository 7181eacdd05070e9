/**
 The commands of src/smtp.c and the order in which src/transport.c gives them, against a network of
 which nothing is known: every exchange has a fate of its own.
 */
module Dialogue {
  import opened CStrings
  import opened Lines
  import opened Replies
  import B = Base64
  import S = Session
  import System

  /** How sending a command turns out. A write over TLS is whole or fails: there `Partial` is a failure, too. */
  datatype Written = Wrote | Failed | Partial

  /** What happens to one exchange: to the sending, the reply, the handshake. */
  datatype Fate = Fate(written: Written, reading: Reading, connected: bool)

  const DOWN := Fate(Failed, PollError, false)

  const SSL_WRITE_ERROR := "500 SSL_write error\r\n"
  const SEND_ERROR := "500 send error\r\n"
  const PARTIAL_SEND := "500 partial send\r\n"
  const SSL_CONNECT_ERROR := "500 SSL_connect error\r\n"
  const NO_SUCH_AUTH := "500 unsupported smtp auth method\r\n"
  const CANNOT_CONNECT := "500 cannot connect to smtp server\r\n"
  const TOO_BUSY := "500 proxy too busy, try later\r\n"

  /** A read takes at most 1023 bytes. */
  predicate Fits(f: Fate) { f.reading.Got? ==> |f.reading.bytes| <= 1023 }

  function Head(script: seq<Fate>): Fate { if script == [] then DOWN else script[0] }

  function Rest(script: seq<Fate>): seq<Fate> { if script == [] then [] else script[1..] }

  function FateAt(script: seq<Fate>, k: nat): Fate { if k < |script| then script[k] else DOWN }

  // ----- one exchange

  /** What is said, and the text of the command; a greeting and a handshake have none. */
  datatype Step = Step(verb: S.Verb, text: string)

  predicate Silent(v: S.Verb) { v.Greeting? || v.Handshake? }

  /** The codes with which a server agrees. */
  function Codes(v: S.Verb): set<string> {
    match v
    case Handshake => {}
    case Greeting => {"220"}
    case StartTls => {"220"}
    case AuthLogin => {"334"}
    case UserName => {"334"}
    case Password => {"235"}
    case Data => {"354"}
    case RcptTo => {"250", "251"}
    case Rset => {"250", "220"}
    case Quit => {"221"}
    case _ => {"250"}
  }

  function WriteError(ssl: bool, w: Written): string {
    if ssl then SSL_WRITE_ERROR else if w.Partial? then PARTIAL_SEND else SEND_ERROR
  }

  /** The exchange ends in a reply that the code is content with. */
  predicate Accepts(v: S.Verb, f: Fate) {
    if v.Handshake? then f.connected
    else (v.Greeting? || f.written.Wrote?) && exists code :: code in Codes(v) && Matches(f.reading, code)
  }

  /** The text that the exchange leaves for the client of the proxy. */
  function Leaves(v: S.Verb, ssl: bool, f: Fate, res: string): string {
    if v.Handshake? then if f.connected then res else SSL_CONNECT_ERROR
    else if v.Greeting? || f.written.Wrote? then Text(f.reading)
    else WriteError(ssl, f.written)
  }

  lemma OneCode(v: S.Verb, f: Fate, code: string)
    requires Codes(v) == {code}
    ensures Accepts(v, f) <==> (v.Greeting? || f.written.Wrote?) && Matches(f.reading, code)
  {
  }

  lemma TwoCodes(v: S.Verb, f: Fate, code: string, other: string)
    requires Codes(v) == {code, other} && !Silent(v)
    ensures Accepts(v, f) <==> f.written.Wrote? && (Matches(f.reading, code) || Matches(f.reading, other))
  {
  }

  /** An error of the proxy's own is no reply of the server. */
  lemma MatchesText(r: Reading, code: string)
    requires |code| == 3 && code[0] == '2'
    ensures Matches(r, code) <==> code <= Text(r)
  {
  }

  // ----- a row of exchanges

  datatype Played = Played(ok: bool, res: string, log: S.Trace, sent: seq<string>, ssl: bool, script: seq<Fate>)

  /** Exchanges in order, up to the first that fails. */
  function Play(steps: seq<Step>, script: seq<Fate>, ssl: bool, res: string): Played {
    if steps == [] then Played(true, res, [], [], ssl, script)
    else
      var v, f := steps[0].verb, Head(script);
      var ok := Accepts(v, f);
      var left := Leaves(v, ssl, f, res);
      var sent := if Silent(v) then [] else [CStr(steps[0].text, 0)];
      var secure := ssl || v.Handshake?;
      if !ok then Played(false, left, [S.Said(v, false)], sent, secure, Rest(script))
      else
        var p := Play(steps[1..], Rest(script), secure, left);
        p.(log := [S.Said(v, true)] + p.log, sent := sent + p.sent)
  }

  /** One row of exchanges after another. */
  function Then(p: Played, q: Played): Played {
    q.(log := p.log + q.log, sent := p.sent + q.sent)
  }

  lemma {:induction false} PlayCons(step: Step, more: seq<Step>, script: seq<Fate>, ssl: bool, res: string)
    ensures var p := Play([step], script, ssl, res);
      Play([step] + more, script, ssl, res) == if p.ok then Then(p, Play(more, p.script, p.ssl, p.res)) else p
    ensures Play([step], script, ssl, res).ok <==> Accepts(step.verb, Head(script))
    ensures var p := Play([step], script, ssl, res);
      p.script == Rest(script) && p.log == [S.Said(step.verb, p.ok)] && p.ssl == (ssl || step.verb.Handshake?)
  {
    hide Accepts, Leaves, Head, Rest;
    assert ([step] + more)[1..] == more;
    assert Play([], Rest(script), ssl || step.verb.Handshake?, Leaves(step.verb, ssl, Head(script), res)).log == [];
  }

  lemma {:induction false} PlayAppend(a: seq<Step>, b: seq<Step>, script: seq<Fate>, ssl: bool, res: string)
    ensures var p := Play(a, script, ssl, res);
      Play(a + b, script, ssl, res) == if p.ok then Then(p, Play(b, p.script, p.ssl, p.res)) else p
  {
    if a == [] {
      assert a + b == b;
      Empty(Play(b, script, ssl, res), script, ssl, res);
    } else {
      var p := Play([a[0]], script, ssl, res);
      assert a == [a[0]] + a[1..] && a + b == [a[0]] + (a[1..] + b);
      PlayCons(a[0], a[1..], script, ssl, res);
      PlayCons(a[0], a[1..] + b, script, ssl, res);
      PlayAppend(a[1..], b, p.script, p.ssl, p.res);
      var q := Play(a[1..], p.script, p.ssl, p.res);
      ThenThen(p, q, Play(b, q.script, q.ssl, q.res));
    }
    hide Play;
  }

  lemma Empty(q: Played, script: seq<Fate>, ssl: bool, res: string)
    ensures Then(Played(true, res, [], [], ssl, script), q) == q
  {
    assert [] + q.log == q.log && [] + q.sent == q.sent;
  }

  lemma ThenThen(p: Played, q: Played, r: Played)
    ensures Then(Then(p, q), r) == Then(p, Then(q, r))
  {
    assert p.log + q.log + r.log == p.log + (q.log + r.log);
    assert p.sent + q.sent + r.sent == p.sent + (q.sent + r.sent);
  }

  // ----- the rows that the code plays

  /** What `loadTpConfig` stored of an account. */
  datatype Account = Account(ssl: string, auth: string, username: string, password: string)

  const SKIP_AUTH := "__OUR_SMTP_PROXY_SKIP_AUTH__"

  /** What `snprintf` leaves of a text in a buffer of 1024 bytes. */
  function Cut(s: string): string { if |s| <= 1023 then s else s[..1023] }

  /** The bytes of a C string. */
  function Octets(s: string): seq<B.byte> {
    seq(|s|, i requires 0 <= i < |s| => (s[i] as int % 256) as B.byte)
  }

  /** The byte at every index is the character there, of which only the byte counts. */
  predicate IsText(s: string, bytes: seq<B.byte>) {
    |bytes| == |s| && forall i :: 0 <= i < |s| ==> bytes[i] as int == s[i] as int % 256
  }

  lemma OctetsAre(s: string)
    ensures IsText(s, Octets(s))
  {
    forall i | 0 <= i < |s|
      ensures Octets(s)[i] as int == s[i] as int % 256
    {
      ByteIs(s[i] as int % 256);
    }
  }

  lemma {:induction false} ByteIs(n: nat)
    requires n < 256
    ensures (n as B.byte) as int == n
  {
    if n > 0 {
      ByteIs(n - 1);
      NextByte((n - 1) as B.byte);
    }
  }

  lemma NextByte(b: B.byte)
    requires b < 255
    ensures (b + 1) as int == b as int + 1
  {
  }

  const GREETING := [Step(S.Greeting, "")]
  const HANDSHAKE := [Step(S.Handshake, "")]
  const EHLO := [Step(S.Ehlo, "EHLO localhost\r\n")]
  const AUTH_LOGIN := [Step(S.AuthLogin, "AUTH LOGIN\r\n")]
  const STARTTLS := [Step(S.StartTls, "STARTTLS\r\n")]

  function EhloSteps(mode: string): seq<Step> {
    (if mode == "SSL" then HANDSHAKE else [])
    + GREETING
    + (if mode == "TLS" then EHLO + STARTTLS + HANDSHAKE else [])
    + EHLO
  }

  function AuthSteps(acc: Account): seq<Step> {
    if acc.password == SKIP_AUTH then []
    else
      AUTH_LOGIN
      + [Step(S.UserName, B.Encoding(Octets(acc.username)) + CRLF)]
      + [Step(S.Password, B.Encoding(Octets(acc.password)) + CRLF)]
  }

  function RcptSteps(to: seq<string>): (steps: seq<Step>)
    ensures |steps| == |to|
  {
    seq(|to|, k requires 0 <= k < |to| => Step(S.RcptTo, Cut("RCPT TO:<" + to[k] + ">\r\n")))
  }

  const DATA := [Step(S.Data, "DATA\r\n")]
  const QUIT := [Step(S.Quit, "QUIT\r\n")]
  const RSET := [Step(S.Rset, "RSET\r\n")]

  function MailFromStep(from: string): seq<Step> { [Step(S.MailFrom, Cut("MAIL FROM:<" + from + ">\r\n"))] }

  function DataSteps(data: string): seq<Step> { DATA + [Step(S.Content, data)] }

  function MailSteps(isNew: bool, from: string, to: seq<string>, data: string): seq<Step> {
    (if isNew then [] else RSET) + MailFromStep(from) + RcptSteps(to) + DataSteps(data)
  }

  predicate AllFit(script: seq<Fate>) { forall k :: 0 <= k < |script| ==> Fits(script[k]) }

  lemma {:induction false} PlayFits(steps: seq<Step>, script: seq<Fate>, ssl: bool, res: string)
    requires AllFit(script)
    ensures AllFit(Play(steps, script, ssl, res).script)
  {
    hide Accepts, Leaves;
    if steps != [] {
      var v := steps[0].verb;
      PlayFits(steps[1..], Rest(script), ssl || v.Handshake?, Leaves(v, ssl, Head(script), res));
    }
  }

  // ----- what is sent

  function Texts(steps: seq<Step>): seq<string> {
    if steps == [] then []
    else (if Silent(steps[0].verb) then [] else [steps[0].text]) + Texts(steps[1..])
  }

  predicate NulFreeSteps(steps: seq<Step>) {
    forall k :: 0 <= k < |steps| ==> NUL !in steps[k].text
  }

  /** A row that goes well has sent every command, in order. */
  lemma {:induction false} AllSent(steps: seq<Step>, script: seq<Fate>, ssl: bool, res: string)
    requires NulFreeSteps(steps)
    ensures Play(steps, script, ssl, res).ok ==> Play(steps, script, ssl, res).sent == Texts(steps)
  {
    hide Accepts, Leaves, CStr;
    if steps != [] {
      CStrIsPrefix(steps[0].text);
      AllSent(steps[1..], Rest(script), ssl || steps[0].verb.Handshake?, Leaves(steps[0].verb, ssl, Head(script), res));
    }
  }

  lemma {:induction false} TextsAppend(a: seq<Step>, b: seq<Step>)
    ensures Texts(a + b) == Texts(a) + Texts(b)
  {
    if a == [] {
      assert a + b == b;
    } else {
      assert (a + b)[1..] == a[1..] + b;
      TextsAppend(a[1..], b);
    }
  }

  lemma OneText(step: Step)
    requires !Silent(step.verb)
    ensures Texts([step]) == [step.text]
  {
  }

  lemma NulFreeAppend(a: seq<Step>, b: seq<Step>)
    ensures NulFreeSteps(a) && NulFreeSteps(b) ==> NulFreeSteps(a + b)
  {
  }

  lemma FewTexts()
    ensures Texts(HANDSHAKE) == [] && Texts(GREETING) == []
    ensures Texts(EHLO) == ["EHLO localhost\r\n"] && Texts(STARTTLS) == ["STARTTLS\r\n"]
  {
    NoText(HANDSHAKE[0]);
    NoText(GREETING[0]);
    OneText(EHLO[0]);
    OneText(STARTTLS[0]);
    hide Texts;
  }

  lemma NoText(step: Step)
    requires Silent(step.verb)
    ensures Texts([step]) == []
  {
  }

  lemma OneNulFree(step: Step)
    requires NUL !in step.text
    ensures NulFreeSteps([step])
  {
  }

  lemma FewNulFree()
    ensures NulFreeSteps(HANDSHAKE) && NulFreeSteps(GREETING) && NulFreeSteps(EHLO) && NulFreeSteps(STARTTLS)
  {
    hide NulFreeSteps;
    OneNulFree(HANDSHAKE[0]);
    OneNulFree(GREETING[0]);
    OneNulFree(EHLO[0]);
    OneNulFree(STARTTLS[0]);
  }

  lemma UpgradeSays()
    ensures Texts(EHLO + STARTTLS + HANDSHAKE) == ["EHLO localhost\r\n", "STARTTLS\r\n"]
    ensures NulFreeSteps(EHLO + STARTTLS + HANDSHAKE)
  {
    FewTexts();
    FewNulFree();
    hide EHLO, STARTTLS, HANDSHAKE, Texts, NulFreeSteps;
    TextsAppend(EHLO, STARTTLS);
    TextsAppend(EHLO + STARTTLS, HANDSHAKE);
    NulFreeAppend(EHLO, STARTTLS);
    NulFreeAppend(EHLO + STARTTLS, HANDSHAKE);
  }

  lemma EhloSays(mode: string)
    ensures NulFreeSteps(EhloSteps(mode))
    ensures Texts(EhloSteps(mode)) ==
      (if mode == "TLS" then ["EHLO localhost\r\n", "STARTTLS\r\n"] else []) + ["EHLO localhost\r\n"]
  {
    var first := if mode == "SSL" then HANDSHAKE else [];
    var tls := if mode == "TLS" then EHLO + STARTTLS + HANDSHAKE else [];
    FewTexts();
    FewNulFree();
    UpgradeSays();
    NoSteps();
    hide EHLO, STARTTLS, HANDSHAKE, GREETING, Texts, NulFreeSteps;
    TextsAppend(first, GREETING);
    TextsAppend(first + GREETING, tls);
    TextsAppend(first + GREETING + tls, EHLO);
    NulFreeAppend(first, GREETING);
    NulFreeAppend(first + GREETING, tls);
    NulFreeAppend(first + GREETING + tls, EHLO);
  }

  lemma NoSteps()
    ensures Texts([]) == [] && NulFreeSteps([])
  {
  }

  /** The login names the user first and then the password. */
  lemma AuthSays(acc: Account)
    ensures NulFreeSteps(AuthSteps(acc))
    ensures Texts(AuthSteps(acc)) ==
      if acc.password == "__OUR_SMTP_PROXY_SKIP_AUTH__" then []
      else ["AUTH LOGIN\r\n", B.Encoding(Octets(acc.username)) + "\r\n", B.Encoding(Octets(acc.password)) + "\r\n"]
  {
    B.EncodingHasNoNul(Octets(acc.username));
    B.EncodingHasNoNul(Octets(acc.password));
    hide B.Encoding, Octets;
    if acc.password != SKIP_AUTH {
      var user := Step(S.UserName, B.Encoding(Octets(acc.username)) + CRLF);
      var pass := Step(S.Password, B.Encoding(Octets(acc.password)) + CRLF);
      OneText(AUTH_LOGIN[0]);
      OneText(user);
      OneText(pass);
      TextsAppend(AUTH_LOGIN, [user]);
      TextsAppend(AUTH_LOGIN + [user], [pass]);
    }
  }

  lemma LoginSent(acc: Account, script: seq<Fate>, ssl: bool, res: string)
    requires acc.password != SKIP_AUTH
    ensures var p := Play(AuthSteps(acc), script, ssl, res);
      p.ok ==> p.sent == ["AUTH LOGIN\r\n",
        B.Encoding(Octets(acc.username)) + "\r\n", B.Encoding(Octets(acc.password)) + "\r\n"]
  {
    AuthSays(acc);
    hide Play, AuthSteps, B.Encoding, Octets, Texts, NulFreeSteps;
    AllSent(AuthSteps(acc), script, ssl, res);
  }

  /** Setting up a session; an unknown way to log in fails without a word to the server. */
  function Setup(acc: Account, script: seq<Fate>, res: string): Played {
    var p := Play(EhloSteps(acc.ssl), script, false, res);
    if acc.password != SKIP_AUTH && acc.auth != "LOGIN" then if p.ok then p.(ok := false, res := NO_SUCH_AUTH) else p
    else Play(EhloSteps(acc.ssl) + AuthSteps(acc), script, false, res)
  }

  /** What `doTestTp` says: the setup, and QUIT. */
  function TestSession(acc: Account, script: seq<Fate>): Played {
    var p := Setup(acc, script, "");
    if p.ok then Then(p, Play(QUIT, p.script, p.ssl, p.res)) else p
  }

  /** What `getAnIdleConn` comes back with: nothing in time, no socket, a new connection, a used one. */
  datatype Acquired = TimedOut | NoSocket | Fresh | Reused

  /** Everything that one call of `tpSendMail` says. */
  function Attempt(got: Acquired, acc: Account, from: string, to: seq<string>, data: string,
                   script: seq<Fate>, ssl: bool): Played {
    match got
    case TimedOut => Played(false, TOO_BUSY, [], [], ssl, script)
    case NoSocket => Played(false, CANNOT_CONNECT, [], [], ssl, script)
    case Fresh =>
      var p := Setup(acc, script, "");
      if p.ok then Then(p, Play(MailSteps(true, from, to, data), p.script, p.ssl, p.res)) else p
    case Reused => Play(MailSteps(false, from, to, data), script, ssl, "")
  }

  /** The connection as the dialogue sees it; the script is what the network will do. */
  class Conn {
    var ssl: bool
    ghost var log: S.Trace
    var sent: seq<string>
    var script: seq<Fate>

    /** What happened since `p` began, and it ended in `ok` with the text `res`. */
    ghost predicate Is(log0: S.Trace, sent0: seq<string>, p: Played, ok: bool, res: string)
      reads this
    {
      ok == p.ok && res == p.res && log == log0 + p.log && sent == sent0 + p.sent && ssl == p.ssl && script == p.script
    }

    constructor (script: seq<Fate>)
      ensures this.script == script && !ssl && log == [] && sent == []
    {
      this.script := script;
      ssl, log, sent := false, [], [];
    }

    /** `smtpWrite`: the C string that the text holds, up to its first NUL. */
    method Write(data: string, res: string) returns (ok: bool, err: string)
      modifies this`sent
      ensures sent == old(sent) + [CStr(data, 0)]
      ensures ok <==> Head(script).written.Wrote?
      ensures err == if ok then res else WriteError(ssl, Head(script).written)
      ensures !ok && ssl ==> err == "500 SSL_write error\r\n"
      ensures !ok && !ssl && Head(script).written.Partial? ==> err == "500 partial send\r\n"
      ensures !ok && !ssl && Head(script).written.Failed? ==> err == "500 send error\r\n"
    {
      sent := sent + [CStr(data, 0)];
      var w := Head(script).written;
      if ssl {
        if !w.Wrote? { return false, SSL_WRITE_ERROR; }
        return true, res;
      }
      if w.Failed? { return false, SEND_ERROR; }
      if w.Partial? { return false, PARTIAL_SEND; }
      return true, res;
    }

    /** `smtpExpect` */
    method Expect(code: string) returns (ok: bool, err: string)
      requires Fits(Head(script)) && |code| == 3
      ensures ok <==> Matches(Head(script).reading, code)
      ensures err == Text(Head(script).reading)
    {
      ok, err := SmtpExpect(Head(script).reading, code);
    }

    /** The end of an exchange: it is noted, and the next one has its own fate. */
    method Note(verb: S.Verb, ok: bool)
      modifies this`log, this`script
      ensures log == old(log) + [S.Said(verb, ok)] && script == Rest(old(script))
    {
      log := log + [S.Said(verb, ok)];
      script := Rest(script);
    }

    /** Sends a command and, if that went well, awaits one code: the body of most commands. */
    method Command(verb: S.Verb, text: string, code: string, res: string) returns (ok: bool, err: string)
      requires AllFit(script) && |code| == 3 && Codes(verb) == {code} && !Silent(verb)
      modifies this`log, this`sent, this`script
      ensures Is(old(log), old(sent), Play([Step(verb, text)], old(script), ssl, res), ok, err)
      ensures AllFit(script)
    {
      hide Matches, Text;
      OneCode(verb, Head(script), code);
      ok, err := Write(text, res);
      if ok {
        ok, err := Expect(code);
      }
      Note(verb, ok);
    }

    /** `smtpExpect` without a command before it. */
    method AwaitGreeting(res: string) returns (ok: bool, err: string)
      requires AllFit(script)
      modifies this`log, this`script
      ensures Is(old(log), old(sent), Play([Step(S.Greeting, "")], old(script), ssl, res), ok, err)
      ensures AllFit(script)
    {
      hide Matches, Text;
      OneCode(S.Greeting, Head(script), "220");
      ok, err := Expect("220");
      Note(S.Greeting, ok);
    }

    /** `smtpSSLConnect` */
    method SslConnect(res: string) returns (ok: bool, err: string)
      requires AllFit(script)
      modifies this`log, this`script, this`ssl
      ensures Is(old(log), old(sent), Play([Step(S.Handshake, "")], old(script), old(ssl), res), ok, err)
      ensures AllFit(script)
    {
      ssl := true;
      ok, err := Head(script).connected, res;
      if !ok {
        err := SSL_CONNECT_ERROR;
      }
      Note(S.Handshake, ok);
    }

    /** A row of exchanges went well and another followed it. */
    lemma Chain(a: seq<Step>, b: seq<Step>, log0: S.Trace, sent0: seq<string>, script0: seq<Fate>,
                ssl0: bool, res0: string, ok: bool, err: string)
      requires var p := Play(a, script0, ssl0, res0);
        p.ok && Is(log0 + p.log, sent0 + p.sent, Play(b, p.script, p.ssl, p.res), ok, err)
      ensures Is(log0, sent0, Play(a + b, script0, ssl0, res0), ok, err)
    {
      hide Play;
      PlayAppend(a, b, script0, ssl0, res0);
      var p := Play(a, script0, ssl0, res0);
      var q := Play(b, p.script, p.ssl, p.res);
      assert log0 + p.log + q.log == log0 + (p.log + q.log);
      assert sent0 + p.sent + q.sent == sent0 + (p.sent + q.sent);
    }

    /** The row stops where an exchange fails. */
    lemma Stop(a: seq<Step>, b: seq<Step>, all: seq<Step>, log0: S.Trace, sent0: seq<string>, script0: seq<Fate>,
               ssl0: bool, res0: string, err: string)
      requires a + b == all && Is(log0, sent0, Play(a, script0, ssl0, res0), false, err)
      ensures Is(log0, sent0, Play(all, script0, ssl0, res0), false, err)
    {
      hide Play;
      PlayAppend(a, b, script0, ssl0, res0);
    }

    /** The part of `smtpEHLO` for TLS on the plain port. */
    method UpgradeToTls(res: string) returns (ok: bool, err: string)
      requires AllFit(script) && !ssl
      modifies this
      ensures Is(old(log), old(sent), Play(EHLO + STARTTLS + HANDSHAKE, old(script), old(ssl), res), ok, err)
      ensures AllFit(script)
    {
      hide Play, AllFit;
      ghost var l, s, sc, all := log, sent, script, EHLO + STARTTLS + HANDSHAKE;
      ok, err := Command(S.Ehlo, "EHLO localhost\r\n", "250", res);
      if !ok {
        Stop(EHLO, STARTTLS + HANDSHAKE, all, l, s, sc, false, res, err);
        return;
      }
      ok, err := Command(S.StartTls, "STARTTLS\r\n", "220", err);
      Chain(EHLO, STARTTLS, l, s, sc, false, res, ok, err);
      if !ok {
        Stop(EHLO + STARTTLS, HANDSHAKE, all, l, s, sc, false, res, err);
        return;
      }
      ok, err := SslConnect(err);
      Chain(EHLO + STARTTLS, HANDSHAKE, l, s, sc, false, res, ok, err);
    }

    /** `smtpEHLO` up to the last EHLO. */
    method Greet(mode: string, res: string) returns (ok: bool, err: string)
      requires AllFit(script) && !ssl
      modifies this
      ensures var steps := (if mode == "SSL" then HANDSHAKE else []) + GREETING;
        Is(old(log), old(sent), Play(steps, old(script), old(ssl), res), ok, err)
      ensures AllFit(script)
      ensures mode != "SSL" ==> !ssl
    {
      hide Play, AllFit;
      ghost var l, s, sc := log, sent, script;
      if mode == "SSL" {
        ok, err := SslConnect(res);
        if !ok {
          Stop(HANDSHAKE, GREETING, HANDSHAKE + GREETING, l, s, sc, false, res, err);
          return;
        }
        ok, err := AwaitGreeting(err);
        Chain(HANDSHAKE, GREETING, l, s, sc, false, res, ok, err);
      } else {
        ok, err := AwaitGreeting(res);
        assert [] + GREETING == GREETING;
        PlayCons(GREETING[0], [], sc, false, res);
      }
    }

    /** `smtpEHLO` */
    method SmtpEhlo(mode: string, res: string) returns (ok: bool, err: string)
      requires AllFit(script) && !ssl
      modifies this
      ensures Is(old(log), old(sent), Play(EhloSteps(mode), old(script), old(ssl), res), ok, err)
      ensures AllFit(script)
    {
      hide Play, AllFit;
      ghost var l, s, sc, all := log, sent, script, EhloSteps(mode);
      ghost var done := (if mode == "SSL" then HANDSHAKE else []) + GREETING;
      ok, err := Greet(mode, res);
      if !ok {
        Stop(done, (if mode == "TLS" then EHLO + STARTTLS + HANDSHAKE else []) + EHLO, all, l, s, sc, false, res, err);
        return;
      }
      if mode == "TLS" {
        ok, err := UpgradeToTls(err);
        Chain(done, EHLO + STARTTLS + HANDSHAKE, l, s, sc, false, res, ok, err);
        done := done + (EHLO + STARTTLS + HANDSHAKE);
        if !ok {
          Stop(done, EHLO, all, l, s, sc, false, res, err);
          return;
        }
      }
      ok, err := Command(S.Ehlo, "EHLO localhost\r\n", "250", err);
      Chain(done, EHLO, l, s, sc, false, res, ok, err);
      assert done + EHLO == all;
    }

    /** The text that is sent for a secret: what `base64_encode` returns, as a C string. */
    method Encoded(secret: string) returns (text: string)
      ensures text == B.Encoding(Octets(secret)) + CRLF
    {
      var out := B.Encode(Octets(secret));
      ghost var w := B.Encoding(Octets(secret)) + CRLF;
      B.EncodingHasNoNul(Octets(secret));
      hide B.Encoding;
      assert out[..] == w + "\0";
      assert out[..][0..|w|] == w;
      HoldsIsCStr(out[..], 0, w);
      text := CStr(out[..], 0);
    }

    /** `smtpAuth` past the two tests at its start. */
    method Login(acc: Account, res: string) returns (ok: bool, err: string)
      requires AllFit(script) && acc.password != SKIP_AUTH
      modifies this
      ensures Is(old(log), old(sent), Play(AuthSteps(acc), old(script), old(ssl), res), ok, err)
      ensures ok ==> sent == old(sent) + ["AUTH LOGIN\r\n",
        B.Encoding(Octets(acc.username)) + "\r\n", B.Encoding(Octets(acc.password)) + "\r\n"]
      ensures AllFit(script)
    {
      hide Play, AllFit, B.Encoding, Octets;
      LoginSent(acc, script, ssl, res);
      ghost var l, s, sc, ssl0, all := log, sent, script, ssl, AuthSteps(acc);
      ghost var user := [Step(S.UserName, B.Encoding(Octets(acc.username)) + CRLF)];
      ghost var pass := [Step(S.Password, B.Encoding(Octets(acc.password)) + CRLF)];
      ok, err := Command(S.AuthLogin, "AUTH LOGIN\r\n", "334", res);
      if !ok {
        Stop(AUTH_LOGIN, user + pass, all, l, s, sc, ssl0, res, err);
        return;
      }
      var u64 := Encoded(acc.username);
      ok, err := Command(S.UserName, u64, "334", err);
      Chain(AUTH_LOGIN, user, l, s, sc, ssl0, res, ok, err);
      if !ok {
        Stop(AUTH_LOGIN + user, pass, all, l, s, sc, ssl0, res, err);
        return;
      }
      var p64 := Encoded(acc.password);
      ok, err := Command(S.Password, p64, "235", err);
      Chain(AUTH_LOGIN + user, pass, l, s, sc, ssl0, res, ok, err);
    }

    /** Greeting and login, one after the other, as `newConn` has them. */
    method SetUp(acc: Account, res: string) returns (ok: bool, err: string)
      requires AllFit(script) && !ssl
      modifies this
      ensures Is(old(log), old(sent), Setup(acc, old(script), res), ok, err)
      ensures acc.password != "__OUR_SMTP_PROXY_SKIP_AUTH__" && acc.auth != "LOGIN" ==> !ok
      ensures acc.password != "__OUR_SMTP_PROXY_SKIP_AUTH__" && acc.auth != "LOGIN" ==>
        var hello := Play(EhloSteps(acc.ssl), old(script), false, res);
        log == old(log) + hello.log && err == if hello.ok then "500 unsupported smtp auth method\r\n" else hello.res
      ensures AllFit(script)
    {
      hide Play, AllFit, EhloSteps, AuthSteps;
      ghost var l, s, sc := log, sent, script;
      ghost var hello, all := EhloSteps(acc.ssl), EhloSteps(acc.ssl) + AuthSteps(acc);
      ok, err := SmtpEhlo(acc.ssl, res);
      if !ok {
        Stop(hello, AuthSteps(acc), all, l, s, sc, false, res, err);
        return;
      }
      if acc.password == SKIP_AUTH {
        NoAuthSteps(acc);
        assert hello + [] == hello;
        return;
      }
      if acc.auth != "LOGIN" {
        return false, NO_SUCH_AUTH;
      }
      ok, err := Login(acc, err);
      Chain(hello, AuthSteps(acc), l, s, sc, false, res, ok, err);
    }

    /** `smtpRCPTTO` for one recipient: 251 will do as well. */
    method RcptOne(email: string, res: string) returns (ok: bool, err: string)
      requires AllFit(script)
      modifies this`log, this`sent, this`script
      ensures var step := Step(S.RcptTo, Cut("RCPT TO:<" + email + ">\r\n"));
        Is(old(log), old(sent), Play([step], old(script), ssl, res), ok, err)
      ensures AllFit(script)
    {
      hide Matches, Text;
      TwoCodes(S.RcptTo, Head(script), "250", "251");
      MatchesText(Head(script).reading, "251");
      ok, err := Write(Cut("RCPT TO:<" + email + ">\r\n"), res);
      if ok {
        ok, err := Expect("250");
      }
      if !ok && "251" <= err {
        ok := true;
      }
      Note(S.RcptTo, ok);
    }

    /** `smtpRCPTTO` */
    method SmtpRcptTo(to: seq<string>, res: string) returns (ok: bool, err: string)
      requires AllFit(script)
      modifies this`log, this`sent, this`script
      ensures Is(old(log), old(sent), Play(RcptSteps(to), old(script), ssl, res), ok, err)
      ensures AllFit(script)
    {
      hide Play, AllFit;
      ghost var l, s, sc := log, sent, script;
      ok, err := true, res;
      PlayNothing(sc, ssl, res);
      assert l + [] == l && s + [] == s && RcptSteps(to[..0]) == [];
      for i := 0 to |to|
        invariant ok && AllFit(script)
        invariant Is(l, s, Play(RcptSteps(to[..i]), sc, ssl, res), ok, err)
      {
        ghost var one := [Step(S.RcptTo, Cut("RCPT TO:<" + to[i] + ">\r\n"))];
        ok, err := RcptOne(to[i], err);
        Chain(RcptSteps(to[..i]), one, l, s, sc, ssl, res, ok, err);
        assert RcptSteps(to[..i]) + one == RcptSteps(to[..i + 1]);
        if !ok {
          assert RcptSteps(to[..i + 1]) + RcptSteps(to)[i + 1..] == RcptSteps(to);
          Stop(RcptSteps(to[..i + 1]), RcptSteps(to)[i + 1..], RcptSteps(to), l, s, sc, ssl, res, err);
          return;
        }
      }
      assert to[..|to|] == to;
    }

    /** `smtpDATA` */
    method SmtpData(data: string, res: string) returns (ok: bool, err: string)
      requires AllFit(script)
      modifies this`log, this`sent, this`script
      ensures Is(old(log), old(sent), Play(DataSteps(data), old(script), ssl, res), ok, err)
      ensures AllFit(script)
    {
      hide Play, AllFit;
      ghost var l, s, sc, body := log, sent, script, [Step(S.Content, data)];
      ok, err := Command(S.Data, "DATA\r\n", "354", res);
      if !ok {
        Stop(DATA, body, DATA + body, l, s, sc, ssl, res, err);
        return;
      }
      ok, err := Command(S.Content, data, "250", err);
      Chain(DATA, body, l, s, sc, ssl, res, ok, err);
    }

    /** `smtpRSET`: 220 will do as well. */
    method SmtpRset(res: string) returns (ok: bool, err: string)
      requires AllFit(script)
      modifies this`log, this`sent, this`script
      ensures Is(old(log), old(sent), Play(RSET, old(script), ssl, res), ok, err)
      ensures AllFit(script)
    {
      hide Matches, Text;
      TwoCodes(S.Rset, Head(script), "250", "220");
      MatchesText(Head(script).reading, "220");
      ok, err := Write("RSET\r\n", res);
      if ok {
        ok, err := Expect("250");
        ok := ok || "220" <= err;
      }
      Note(S.Rset, ok);
    }

    /** The exchanges of `tpSendMail` after RSET. */
    method SendMail(from: string, to: seq<string>, data: string, res: string) returns (ok: bool, err: string)
      requires AllFit(script)
      modifies this`log, this`sent, this`script
      ensures var steps := MailFromStep(from) + RcptSteps(to) + DataSteps(data);
        Is(old(log), old(sent), Play(steps, old(script), ssl, res), ok, err)
      ensures AllFit(script)
    {
      hide Play, AllFit, RcptSteps, DataSteps, MailFromStep;
      ghost var l, s, sc := log, sent, script;
      ghost var mail, rcpt, body := MailFromStep(from), RcptSteps(to), DataSteps(data);
      ok, err := SmtpMailFrom(from, res);
      if !ok {
        Stop(mail, rcpt + body, mail + rcpt + body, l, s, sc, ssl, res, err);
        return;
      }
      ok, err := SmtpRcptTo(to, err);
      Chain(mail, rcpt, l, s, sc, ssl, res, ok, err);
      if !ok {
        Stop(mail + rcpt, body, mail + rcpt + body, l, s, sc, ssl, res, err);
        return;
      }
      ok, err := SmtpData(data, err);
      Chain(mail + rcpt, body, l, s, sc, ssl, res, ok, err);
    }

    /** `smtpMAILFROM` */
    method SmtpMailFrom(from: string, res: string) returns (ok: bool, err: string)
      requires AllFit(script)
      modifies this`log, this`sent, this`script
      ensures Is(old(log), old(sent), Play(MailFromStep(from), old(script), ssl, res), ok, err)
      ensures AllFit(script)
    {
      ok, err := Command(S.MailFrom, Cut("MAIL FROM:<" + from + ">\r\n"), "250", res);
    }

    /** The exchanges of `tpSendMail` on the connection that it got. */
    method Converse(isNew: bool, from: string, to: seq<string>, data: string, res: string)
        returns (ok: bool, err: string)
      requires AllFit(script)
      modifies this`log, this`sent, this`script
      ensures Is(old(log), old(sent), Play(MailSteps(isNew, from, to, data), old(script), ssl, res), ok, err)
      ensures AllFit(script)
    {
      hide Play, AllFit, RcptSteps, DataSteps, MailFromStep;
      ghost var l, s, sc := log, sent, script;
      ghost var rest := MailFromStep(from) + RcptSteps(to) + DataSteps(data);
      ok, err := true, res;
      if !isNew {
        ok, err := SmtpRset(res);
        if !ok {
          Stop(RSET, rest, RSET + rest, l, s, sc, ssl, res, err);
          assert RSET + rest == MailSteps(isNew, from, to, data);
          return;
        }
        ok, err := SendMail(from, to, data, err);
        Chain(RSET, rest, l, s, sc, ssl, res, ok, err);
        assert RSET + rest == MailSteps(isNew, from, to, data);
      } else {
        ok, err := SendMail(from, to, data, err);
        assert rest == MailSteps(isNew, from, to, data);
      }
    }

    /** `doTestTp` once it is connected: it alone says QUIT before it closes. */
    method TestTp(acc: Account) returns (ok: bool, res: string)
      requires AllFit(script) && !ssl
      modifies this
      ensures Is(old(log), old(sent), TestSession(acc, old(script)), ok, res)
    {
      hide Play, AllFit, Setup;
      ghost var l, s, sc := log, sent, script;
      ok, res := SetUp(acc, "");
      if ok {
        ghost var p := Setup(acc, sc, "");
        ok, res := Command(S.Quit, "QUIT\r\n", "221", res);
        ghost var q := Play(QUIT, p.script, p.ssl, p.res);
        assert l + p.log + q.log == l + (p.log + q.log);
        assert s + p.sent + q.sent == s + (p.sent + q.sent);
      }
    }

    /** `tpSendMail`, as far as it speaks; how the connection is got and given back is the pool's business. */
    method TpSendMail(got: Acquired, acc: Account, from: string, to: seq<string>, data: string)
        returns (ret: bool, res: string)
      requires AllFit(script) && (got.Fresh? ==> !ssl)
      modifies this
      ensures Is(old(log), old(sent), Attempt(got, acc, from, to, data, old(script), old(ssl)), ret, res)
      ensures got.TimedOut? ==> !ret && log == old(log) && res == "500 proxy too busy, try later\r\n"
      ensures got.NoSocket? ==> !ret && log == old(log) && res == "500 cannot connect to smtp server\r\n"
      ensures AllFit(script)
    {
      hide Play, AllFit, MailSteps, Setup;
      ghost var l, s, sc := log, sent, script;
      assert l + [] == l && s + [] == s;
      match got
      case TimedOut => return false, TOO_BUSY;
      case NoSocket => return false, CANNOT_CONNECT;
      case Reused => ret, res := Converse(false, from, to, data, "");
      case Fresh =>
        ret, res := SetUp(acc, "");
        if ret {
          ghost var p := Setup(acc, sc, "");
          ret, res := Converse(true, from, to, data, res);
          ghost var q := Play(MailSteps(true, from, to, data), p.script, p.ssl, p.res);
          assert l + p.log + q.log == l + (p.log + q.log);
          assert s + p.sent + q.sent == s + (p.sent + q.sent);
        }
    }
  }

  lemma NoAuthSteps(acc: Account)
    requires acc.password == SKIP_AUTH
    ensures AuthSteps(acc) == []
  {
  }

  lemma PlayNothing(script: seq<Fate>, ssl: bool, res: string)
    ensures Play([], script, ssl, res) == Played(true, res, [], [], ssl, script)
  {
  }
}
