/**
 `sendMail` of src/client.c: one message in, one reply out. And what the PHP client may conclude from the
 reply.
 */
module Service {
  import opened CStrings
  import opened Lines
  import opened Recipients
  import opened Parser
  import opened Printer
  import opened Wire
  import opened EndToEnd
  import opened Replies
  import opened Dialogue
  import opened Verdict
  import opened Settings
  import Base64
  import Ini
  import IniLines
  import S = Session

  function TextOf(tp: Profile, item: string): string { if item in tp.texts then tp.texts[item] else "" }

  /** What `tpSendMail` needs of a transport. */
  function AccountOf(tp: Profile): Account {
    Account(TextOf(tp, "ssl"), TextOf(tp, "auth"), TextOf(tp, "username"), TextOf(tp, "password"))
  }

  function NoTransport(from: string): string { Cut("500 invalid transport, " + from + " not found\r\n") }

  /** What is said on the connection for a message, and the reply to the client. */
  function Serve(text: string, tps: seq<Profile>, got: Acquired, script: seq<Fate>, ssl: bool): Played {
    var idle := Played(false, "", [], [], ssl, script);
    match Understood(text)
    case Bad(err) => idle.(res := err)
    case Ok(from, to, data) =>
      var k := IndexOf(tps, from);
      if k < 0 then idle.(res := NoTransport(from))
      else Attempt(got, AccountOf(tps[k]), from, to, data, script, ssl)
  }

  /** The addresses that the list points to. */
  method Collect(msg: array<char>, toList: ToList, ghost words: seq<string>) returns (to: seq<string>)
    requires toList.Valid() && AllHold(msg[..], toList.Emails(), words)
    ensures to == words
  {
    to := [];
    var rcpt := toList.head;
    ghost var k := 0;
    while rcpt != null
      invariant 0 <= k <= |toList.nodes| && rcpt == NodeAt(toList.nodes, k)
      invariant to == words[..k]
      decreases |toList.nodes| - k
    {
      assert Holds(msg[..], toList.Emails()[k], words[k]);
      HoldsIsCStr(msg[..], rcpt.email, words[k]);
      to := to + [CStr(msg[..], rcpt.email)];
      rcpt := rcpt.next;
      k := k + 1;
    }
  }

  lemma FirstHolds(s: string, from: nat, emails: seq<nat>, sender: string, words: seq<string>)
    requires AllHold(s, [from] + emails, [sender] + words)
    ensures Holds(s, from, sender) && AllHold(s, emails, words)
  {
    assert ([from] + emails)[0] == from;
    forall k | 0 <= k < |emails|
      ensures Holds(s, emails[k], words[k])
    {
      assert ([from] + emails)[k + 1] == emails[k] && ([sender] + words)[k + 1] == words[k];
    }
  }

  method SendMail(msg: array<char>, config: Config, conn: Conn, got: Acquired, ghost text: string)
      returns (ret: bool, res: string)
    requires Holds(msg[..], 0, CStr(text, 0)) && AllFit(conn.script) && (got.Fresh? ==> !conn.ssl)
    modifies msg, conn
    ensures var p := Serve(text, config.transports, got, old(conn.script), old(conn.ssl));
      conn.Is(old(conn.log), old(conn.sent), p, ret, res)
  {
    hide Parse, CStr, Holds, AllHold, Attempt, Cut, AllFit;
    var toList := new ToList();
    assert conn.log + [] == conn.log && conn.sent + [] == conn.sent;
    var ok, at, data, err := PrepareSendMail(msg, toList, CStr(text, 0));
    if !ok {
      return false, err;
    }
    FirstHolds(msg[..], at, toList.Emails(), Understood(text).from, Understood(text).to);
    var to := Collect(msg, toList, Understood(text).to);
    var from := StringAt(msg, at, Understood(text).from);
    var k := config.FindTpByName(from);
    if k < 0 {
      return false, NoTransport(from);
    }
    var content := StringAt(msg, data, Understood(text).data);
    ret, res := conn.TpSendMail(got, AccountOf(config.transports[k]), from, to, content);
  }

  method StringAt(msg: array<char>, o: nat, ghost w: string) returns (s: string)
    requires Holds(msg[..], o, w)
    ensures s == w
  {
    HoldsIsCStr(msg[..], o, w);
    s := CStr(msg[..], o);
  }

  // ----- what the reply means

  lemma BadIsNo250(text: string)
    requires Understood(text).Bad?
    ensures !("250" <= Understood(text).err)
  {
    assert NO_DATA[0] == '5' && NO_RECIPIENTS[0] == '5';
  }

  lemma NoTransportIsNo250(from: string)
    ensures !("250" <= NoTransport(from))
  {
    assert NoTransport(from)[0] == '5';
  }

  /** The reply starts with 250 exactly when the mail was delivered, or the failing exchange was misled. */
  lemma ReplyToClient(text: string, tps: seq<Profile>, got: Acquired, script: seq<Fate>, ssl: bool)
    requires got.Fresh? ==> !ssl
    ensures var p := Serve(text, tps, got, script, ssl);
      "250" <= p.res <==> p.ok || Misled(p.log, script)
  {
    hide Understood, Attempt, NoTransport, Misled;
    NotMisled(script);
    match Understood(text)
    case Bad(err) => BadIsNo250(text);
    case Ok(from, to, data) =>
      var k := IndexOf(tps, from);
      if k < 0 {
        NoTransportIsNo250(from);
      } else {
        ReplyTells(got, AccountOf(tps[k]), from, to, data, script, ssl);
      }
  }

  /** A message that is not understood, or whose sender has no transport, is answered so and nothing is said for it. */
  lemma RefusedAtOnce(text: string, tps: seq<Profile>, got: Acquired, script: seq<Fate>, ssl: bool)
    ensures var p, m := Serve(text, tps, got, script, ssl), Understood(text);
      && (m.Bad? ==> !p.ok && p.log == [] && p.res == m.err)
      && (m.Ok? && (forall k :: 0 <= k < |tps| ==> tps[k].name != m.from) ==>
            !p.ok && p.log == [] && p.res == Cut("500 invalid transport, " + m.from + " not found\r\n"))
  {
    hide Understood, Attempt, Cut;
  }

  // ----- what was sent

  lemma {:induction false} RcptTexts(to: seq<string>)
    ensures Texts(RcptSteps(to)) == seq(|to|, k requires 0 <= k < |to| => Cut("RCPT TO:<" + to[k] + ">\r\n"))
  {
    hide Cut;
    if to != [] {
      assert RcptSteps(to)[1..] == RcptSteps(to[1..]);
      RcptTexts(to[1..]);
    }
  }

  /** The commands of a mail: the sender, every recipient in order, and the data as they are. */
  function MailTexts(from: string, to: seq<string>, data: string): seq<string> {
    [Cut("MAIL FROM:<" + from + ">\r\n")]
    + seq(|to|, k requires 0 <= k < |to| => Cut("RCPT TO:<" + to[k] + ">\r\n"))
    + ["DATA\r\n", data]
  }

  /** The same with every address in full. */
  function FullTexts(from: string, to: seq<string>, data: string): seq<string> {
    ["MAIL FROM:<" + from + ">\r\n"]
    + seq(|to|, k requires 0 <= k < |to| => "RCPT TO:<" + to[k] + ">\r\n")
    + ["DATA\r\n", data]
  }

  lemma ShortEnough(from: string, to: seq<string>, data: string)
    requires |from| <= 1009 && forall k :: 0 <= k < |to| ==> |to[k]| <= 1011
    ensures MailTexts(from, to, data) == FullTexts(from, to, data)
  {
    forall k | 0 <= k < |to|
      ensures Cut("RCPT TO:<" + to[k] + ">\r\n") == "RCPT TO:<" + to[k] + ">\r\n"
    {
    }
  }

  /** What goes before the mail: the setup of a new connection, or the RSET of a used one. */
  function FirstTexts(got: Acquired, acc: Account): seq<string> {
    match got
    case Fresh =>
      (if acc.ssl == "TLS" then ["EHLO localhost\r\n", "STARTTLS\r\n"] else []) + ["EHLO localhost\r\n"]
      + (if acc.password == "__OUR_SMTP_PROXY_SKIP_AUTH__" then []
         else ["AUTH LOGIN\r\n",
               Base64.Encoding(Octets(acc.username)) + "\r\n",
               Base64.Encoding(Octets(acc.password)) + "\r\n"])
    case Reused => ["RSET\r\n"]
    case _ => []
  }

  lemma DataTexts(data: string)
    ensures Texts(DataSteps(data)) == ["DATA\r\n", data]
  {
    OneText(Step(S.Content, data));
    OneText(DATA[0]);
    TextsAppend(DATA, [Step(S.Content, data)]);
  }

  lemma MailStepTexts(isNew: bool, from: string, to: seq<string>, data: string)
    ensures Texts(MailSteps(isNew, from, to, data)) == (if isNew then [] else ["RSET\r\n"]) + MailTexts(from, to, data)
  {
    var first := if isNew then [] else RSET;
    OneText(RSET[0]);
    OneText(MailFromStep(from)[0]);
    DataTexts(data);
    RcptTexts(to);
    assert Texts(first) == if isNew then [] else ["RSET\r\n"];
    hide Cut, RcptSteps, DataSteps, MailFromStep, Texts, RSET;
    TextsAppend(first, MailFromStep(from));
    TextsAppend(first + MailFromStep(from), RcptSteps(to));
    TextsAppend(first + MailFromStep(from) + RcptSteps(to), DataSteps(data));
  }

  lemma MailNulFree(isNew: bool, from: string, to: seq<string>, data: string)
    requires NulFree(from, to, data)
    ensures NulFreeSteps(MailSteps(isNew, from, to, data))
  {
    var rcpts := RcptSteps(to);
    forall k | 0 <= k < |to|
      ensures NUL !in rcpts[k].text
    {
      assert NUL !in "RCPT TO:<" + to[k] + ">\r\n";
    }
    assert NUL !in "MAIL FROM:<" + from + ">\r\n";
    hide RcptSteps;
  }

  /** A setup that goes well has said what goes before the first mail. */
  lemma SetupSends(acc: Account, script: seq<Fate>, res: string)
    requires Setup(acc, script, res).ok
    ensures Setup(acc, script, res).sent == FirstTexts(Fresh, acc)
  {
    EhloSays(acc.ssl);
    hide Play, EhloSteps, AuthSteps, Texts, NulFreeSteps, Octets, Base64.Encoding;
    AuthSays(acc);
    TextsAppend(EhloSteps(acc.ssl), AuthSteps(acc));
    NulFreeAppend(EhloSteps(acc.ssl), AuthSteps(acc));
    AllSent(EhloSteps(acc.ssl) + AuthSteps(acc), script, false, res);
  }

  /**
   A login that goes well ends in three texts: the command, one that decodes to the user name, and one that decodes
   to the password, each with its line end.
   */
  lemma LoginSays(acc: Account, script: seq<Fate>, res: string) returns (user: string, pass: string)
    requires Setup(acc, script, res).ok && acc.password != "__OUR_SMTP_PROXY_SKIP_AUTH__"
    ensures acc.auth == "LOGIN"
    ensures var sent := Setup(acc, script, res).sent;
      |sent| >= 3 && sent[|sent| - 3..] == ["AUTH LOGIN\r\n", user + "\r\n", pass + "\r\n"]
    ensures IsText(acc.username, Base64.Decode(user)) && IsText(acc.password, Base64.Decode(pass))
  {
    user, pass := Base64.Encoding(Octets(acc.username)), Base64.Encoding(Octets(acc.password));
    SetupSends(acc, script, res);
    Base64.DecodeEncoding(Octets(acc.username));
    Base64.DecodeEncoding(Octets(acc.password));
    OctetsAre(acc.username);
    OctetsAre(acc.password);
    hide Base64.Encoding, Base64.Decode, Octets, Play, EhloSteps, AuthSteps, IsText;
  }

  /** A delivered mail has sent what goes before it and then exactly its own commands. */
  lemma {:induction false} DeliveredMeansSent(got: Acquired, acc: Account, from: string, to: seq<string>, data: string,
                                              script: seq<Fate>, ssl: bool)
    requires NulFree(from, to, data) && Attempt(got, acc, from, to, data, script, ssl).ok
    ensures Attempt(got, acc, from, to, data, script, ssl).sent == FirstTexts(got, acc) + MailTexts(from, to, data)
  {
    hide Play, MailSteps, MailTexts, EhloSteps, AuthSteps, Texts, NulFreeSteps;
    var mail := MailSteps(got.Fresh?, from, to, data);
    MailStepTexts(got.Fresh?, from, to, data);
    MailNulFree(got.Fresh?, from, to, data);
    if got.Fresh? {
      var p := Setup(acc, script, "");
      SetupSends(acc, script, "");
      AllSent(mail, p.script, p.ssl, p.res);
      assert [] + MailTexts(from, to, data) == MailTexts(from, to, data);
    } else {
      AllSent(mail, script, ssl, "");
    }
  }

  // ----- whose account it is

  function OrEmpty(v: Option<string>): string { if v.Some? then v.value else "" }

  /** The account of a sender is what the configuration says last of these four items. */
  lemma {:induction false} AccountIsAsWritten(lines: seq<IniLines.Entry>, sender: string)
    requires IniLines.AllProper(lines)
    requires exists k :: 0 <= k < |IniLines.CallsOf(lines)| && IniLines.CallsOf(lines)[k].section == sender
    ensures var tps := Fold(Ini.Parsed(Ini.START, IniLines.FileOf(lines), Known).calls);
      var calls := IniLines.CallsOf(lines);
      && IndexOf(tps, sender) >= 0
      && var acc := AccountOf(tps[IndexOf(tps, sender)]);
      && acc.ssl == OrEmpty(LastValue(calls, sender, "ssl"))
      && acc.auth == OrEmpty(LastValue(calls, sender, "auth"))
      && acc.username == OrEmpty(LastValue(calls, sender, "username"))
      && acc.password == OrEmpty(LastValue(calls, sender, "password"))
  {
    LoadsEveryLine(lines);
    IniLines.ReadsEveryLine(lines, Known);
    var calls := IniLines.CallsOf(lines);
    FindsTheTransport(calls, sender);
    var tp := Fold(calls)[IndexOf(Fold(calls), sender)];
    hide Fold, LastValue, IniLines.CallsOf, IniLines.FileOf, IniLines.AllProper, IniLines.Faulty, Ini.Parsed, HoldsLast;
    TextHeld(tp, calls, "ssl");
    TextHeld(tp, calls, "auth");
    TextHeld(tp, calls, "username");
    TextHeld(tp, calls, "password");
  }

  lemma TextHeld(tp: Profile, calls: seq<Ini.Call>, item: string)
    requires HoldsLast(tp, calls) && item in TEXTS
    ensures TextOf(tp, item) == OrEmpty(LastValue(calls, tp.name, item))
  {
    hide LastValue;
  }

  // ----- from the PHP client to the server and back

  /**
   For a mail that the format can carry, sent to a transport that exists, against a server that never says
   250 where another code is awaited: the client sees success exactly when every exchange went well, and
   then the server was sent the setup or RSET, this sender, these recipients in order - every address that
   fits the buffer in full - and the mail, which a receiver reads as it was written.
   */
  lemma ClientSeesTheOutcome(from: string, to: seq<string>, header: string, body: string, tps: seq<Profile>,
                             got: Acquired, script: seq<Fate>, ssl: bool)
    requires OneLine(from) && AllOneLine(to) && Carried(from, to, header, body)
    requires IndexOf(tps, from) >= 0 && (got.Fresh? ==> !ssl)
    requires Honest(Serve(Message(from, to, MailData(header, body)), tps, got, script, ssl).log, script)
    ensures var p := Serve(Message(from, to, MailData(header, body)), tps, got, script, ssl);
      var first := FirstTexts(got, AccountOf(tps[IndexOf(tps, from)]));
      var data := MailData(header, body);
      && ("250" <= p.res <==> p.ok)
      && (p.ok ==> p.sent == first + MailTexts(from, to, data))
      && (p.ok && |from| <= 1009 && (forall k :: 0 <= k < |to| ==> |to[k]| <= 1011) ==>
            p.sent == first + FullTexts(from, to, data))
    ensures Receive(Split(CRLF, MailData(header, body))) == ContentLines(header) + [""] + ContentLines(body)
  {
    hide Attempt, ContentLines, MailData, OneLine, Receive, Understood, Message, Trim;
    hide MailTexts, FullTexts, Misled, Honest;
    var data := MailData(header, body);
    NulGoesOut(header, body);
    RoundTrip(from, to, data);
    StuffingIsTransparent(header, body);
    var text := Message(from, to, data);
    var acc := AccountOf(tps[IndexOf(tps, from)]);
    PrefixTestIsExact(got, acc, from, to, data, script, ssl);
    if Serve(text, tps, got, script, ssl).ok {
      DeliveredMeansSent(got, acc, from, to, data, script, ssl);
      if |from| <= 1009 && forall k :: 0 <= k < |to| ==> |to[k]| <= 1011 {
        ShortEnough(from, to, data);
      }
    }
  }
}
