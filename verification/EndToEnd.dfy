/** From the PHP client through the reading loop and the parser to a receiver: which mails arrive as written. */
module EndToEnd {
  import opened CStrings
  import opened Lines
  import opened Recipients
  import opened Printer
  import opened Parser
  import opened Wire
  import opened Framer

  // ----- which messages end early

  /** CRLF.CRLF stands somewhere else than at the end, and not at the very start, where the loop lets it pass. */
  ghost predicate Elsewhere(msg: string) {
    exists i :: 1 <= i && i != |msg| - 5 && At(msg, i, TERM)
  }

  lemma EarlyIsElsewhere(msg: string)
    ensures EndsEarly(msg) <==> Elsewhere(msg)
  {
    if EndsEarly(msg) {
      var n :| 0 <= n < |msg| && Ends(msg[..n]);
      assert msg[n - 5..n] == msg[..n][n - 5..];
      assert At(msg, n - 5, TERM);
    }
    if Elsewhere(msg) {
      var i :| 1 <= i && i != |msg| - 5 && At(msg, i, TERM);
      assert msg[..i + 5][i..] == msg[i..i + 5];
      assert Ends(msg[..i + 5]);
    }
  }

  lemma AfterEmptyLine(msg: string, rest: string)
    requires msg == CRLF + rest && |rest| >= 5
    ensures Elsewhere(msg) <==> exists j :: j != |rest| - 5 && At(rest, j, TERM)
  {
    if Elsewhere(msg) {
      var i :| 1 <= i && i != |msg| - 5 && At(msg, i, TERM);
      assert msg[i] == msg[i..i + 5][0];
      AtShift(CRLF, rest, TERM, i);
      assert At(rest, i - 2, TERM);
    }
    if j :| j != |rest| - 5 && At(rest, j, TERM) {
      AtShift(CRLF, rest, TERM, j + 2);
      assert At(msg, j + 2, TERM);
    }
  }

  lemma {:induction false} EarlyAfterNonEmpty(lines: seq<string>)
    requires lines != [] && AllOneLine(lines) && lines[0] != ""
    ensures Elsewhere(Join(CRLF, lines + [".", ""])) <==> "." in lines[1..]
  {
    hide Join, OneLine;
    var all := lines + [".", ""];
    EndsWhenNoDot(lines);
    JoinWithTerm(lines);
    AtTheEnd(Join(CRLF, all), Join(CRLF, lines));
    DataIsLine();
    NoLfOneLine("");
    Occurrences(all, ".", 0);
  }

  lemma EarlyAfterEmpty(lines: seq<string>)
    requires |lines| >= 2 && AllOneLine(lines) && lines[0] == ""
    ensures Elsewhere(Join(CRLF, lines + [".", ""])) <==> "." in lines[2..]
  {
    hide Join, At, OneLine;
    var tail := lines[1..];
    var rest := Join(CRLF, tail + [".", ""]);
    assert lines + [".", ""] == [""] + (tail + [".", ""]);
    JoinCons(CRLF, "", tail + [".", ""]);
    EndsWhenNoDot(tail);
    JoinWithTerm(tail);
    AtTheEnd(rest, Join(CRLF, tail));
    AfterEmptyLine("" + CRLF + rest, rest);
    assert tail[1..] == lines[2..];
  }

  /** Lines, then the dot: the text ends early if and only if a line after the first (or an empty first) is a dot. */
  lemma {:induction false} EndsEarlyByLines(lines: seq<string>)
    requires |lines| >= 2 && AllOneLine(lines)
    ensures EndsEarly(Join(CRLF, lines + [".", ""])) <==> "." in lines[if lines[0] == "" then 2 else 1..]
  {
    hide Join, EndsEarly, Elsewhere;
    EarlyIsElsewhere(Join(CRLF, lines + [".", ""]));
    if lines[0] == "" {
      EarlyAfterEmpty(lines);
    } else {
      EarlyAfterNonEmpty(lines);
    }
  }

  lemma AtTheEnd(msg: string, front: string)
    requires msg == front + TERM
    ensures At(msg, |msg| - 5, TERM)
  {
  }

  // ----- the whole way

  /**
   In whatever reads the bytes arrive: one message is passed on, it is understood as what was printed, and a
   receiver reads the mail.
   */
  ghost predicate Arrives(from: string, to: seq<string>, header: string, body: string) {
    var msg := Message(from, to, MailData(header, body));
    && (forall chunks :: Chunking(chunks, msg) ==> FeedAll(Fresh([]), chunks) == Fresh([msg]))
    && Understood(msg) == Ok(from, to, MailData(header, body))
    && Receive(Split(CRLF, MailData(header, body))) == ContentLines(header) + [""] + ContentLines(body)
  }

  /** No line of the header and not the first line of the body starts with a dot. */
  predicate NoLeadingDots(header: string, body: string) {
    && (forall k :: 0 <= k < |ContentLines(header)| ==> !Dotted(ContentLines(header)[k]))
    && !Dotted(ContentLines(body)[0])
  }

  lemma EarlyMessage(from: string, to: seq<string>, header: string, body: string)
    requires OneLine(from) && AllOneLine(to) && to != [] && NoLeadingDots(header, body)
    ensures var msg := Message(from, to, MailData(header, body));
      Ends(msg) && (EndsEarly(msg) <==> "." in to[if from == "" then 1 else 0..])
  {
    hide Join, ContentLines, BodyLines, OneLine, MailData, EndsEarly;
    var h, b := ContentLines(header), BodyLines(ContentLines(body));
    var lines := MessageLines(from, to, header, body);
    MessageByLines(from, to, header, body);
    EndsEarlyByLines(lines);
    StuffedIsNoDot(ContentLines(body));
    assert "." !in h + [""] + b;
    var k := if from == "" then 1 else 0;
    assert lines[k + 1..] == to[k..] + ["DATA"] + (h + [""] + b);
    JoinWithTerm(lines);
    LongEnough(lines);
  }

  lemma LongEnough(lines: seq<string>)
    requires |lines| >= 2
    ensures |Join(CRLF, lines)| >= 2
    ensures Ends(Join(CRLF, lines) + TERM)
  {
  }

  // ----- NUL

  lemma {:induction false} ReplaceKeepsNul(search: string, rep: string, s: string)
    requires search != "" && NUL !in rep && NUL !in search
    ensures NUL in Replace(search, rep, s) <==> NUL in s
  {
    if s != "" {
      if At(s, 0, search) {
        ReplaceKeepsNul(search, rep, s[|search|..]);
        assert s == search + s[|search|..];
      } else {
        ReplaceKeepsNul(search, rep, s[1..]);
        assert s == [s[0]] + s[1..];
      }
    }
  }

  /** A NUL goes out if one is left after trimming. */
  lemma NulGoesOut(header: string, body: string)
    ensures NUL in MailData(header, body) <==> NUL in Trim(header) || NUL in Trim(body)
  {
    ReplaceKeepsNul("\r\n", "\n", Trim(header));
    ReplaceKeepsNul("\n", "\r\n", CrlfToLf(Trim(header)));
    ReplaceKeepsNul("\r\n", "\n", Trim(body));
    ReplaceKeepsNul("\n.", "\n..", CrlfToLf(Trim(body)));
    ReplaceKeepsNul("\n", "\r\n", Stuff(CrlfToLf(Trim(body))));
    hide Replace, Trim;
  }

  lemma NotBlocked(msg: string)
    requires NUL !in msg
    ensures !Blocked(msg)
  {
  }

  // ----- what the format can carry

  /** No address, and nothing of the mail that trimming leaves, contains a NUL. */
  predicate NoNuls(from: string, to: seq<string>, header: string, body: string) {
    && NUL !in from && (forall k :: 0 <= k < |to| ==> NUL !in to[k])
    && NUL !in Trim(header) && NUL !in Trim(body)
  }

  /** The mails that the format can carry. */
  predicate Carried(from: string, to: seq<string>, header: string, body: string) {
    && to != []
    && "DATA" !in to && "." !in to[if from == "" then 1 else 0..]
    && NoLeadingDots(header, body)
    && NoNuls(from, to, header, body)
  }

  /**
   A mail arrives as it was written, in whatever reads, exactly when there is a recipient, no address contains
   a line end, no recipient is "DATA", none is "." (unless it is the first, after an empty sender), no header
   line and not the first line of the body starts with a dot, and there is no NUL.
   */
  lemma ArrivesAsWritten(from: string, to: seq<string>, header: string, body: string)
    ensures Arrives(from, to, header, body)
      <==> OneLine(from) && AllOneLine(to) && Carried(from, to, header, body)
  {
    hide ContentLines, MailData, EndsEarly, Blocked, Receive, Understood, OneLine, Message, Trim;
    var data := MailData(header, body);
    var msg := Message(from, to, data);
    RoundTrip(from, to, data);
    StuffingIsTransparent(header, body);
    NulGoesOut(header, body);
    if NoLeadingDots(header, body) && OneLine(from) && AllOneLine(to) && to != [] && NulFree(from, to, data) {
      EarlyMessage(from, to, header, body);
      ChunkingDoesNotMatter(msg);
      MessageNulFree(from, to, data);
      NotBlocked(msg);
    }
  }

  const NUL_BODY := "a" + "\0b"
  const BEFORE_NUL := "H" + CRLF + CRLF + "a"
  const FROM_NUL := "\0b" + CRLF + "." + CRLF

  lemma CutInside(h: string, a: string, b: string)
    ensures h + CRLF + CRLF + (a + b) + CRLF + "." + CRLF == (h + CRLF + CRLF + a) + (b + CRLF + "." + CRLF)
  {
  }

  lemma NulData()
    ensures MailData("H", NUL_BODY) == BEFORE_NUL + FROM_NUL
  {
    PlainRaw("H");
    PlainRaw(NUL_BODY);
    CutInside("H", "a", "\0b");
    hide RawHeader, RawBody;
  }

  lemma NulCuts()
    ensures CStr(BEFORE_NUL + FROM_NUL, 0) == BEFORE_NUL
  {
    CStrAfterFront(BEFORE_NUL, FROM_NUL, 0);
    assert CStr(FROM_NUL, 0) == "";
    hide CStr;
    assert BEFORE_NUL[0..] + "" == BEFORE_NUL;
  }

  /** A mail with a NUL inside: the server would be sent its beginning, and not even the final dot. */
  lemma InnerNulIsCut()
    ensures !Arrives("us", ["x@y"], "H", NUL_BODY)
    ensures Understood(Message("us", ["x@y"], MailData("H", NUL_BODY))) == Ok("us", ["x@y"], BEFORE_NUL)
  {
    NulData();
    NulCuts();
    NoLfOneLine("us");
    NoLfOneLine("x@y");
    assert ["x@y"] != ["DATA"];
    hide ContentLines, MailData, Understood, Message, Receive, OneLine, CStr, EndsEarly, Ends;
    DataCutAtNul("us", ["x@y"], BEFORE_NUL + FROM_NUL);
    assert |BEFORE_NUL + FROM_NUL| > |BEFORE_NUL|;
  }

  /** A text without white space and dots goes out as it is. */
  lemma PlainRaw(s: string)
    requires s == "H" || s == NUL_BODY
    ensures RawHeader(s) == s && RawBody(s) == s
  {
    TrimTrims(s);
    NothingReplaced("\r\n", "\n", s);
    NothingReplaced("\n", "\r\n", s);
    NothingReplaced("\n.", "\n..", s);
  }

  lemma NotThere(search: string, s: string)
    requires search != "" && search[0] !in s
    ensures !At(s, 0, search)
  {
    if |s| >= |search| {
      assert s[..|search|][0] == s[0];
    }
  }

  lemma {:induction false} NothingReplaced(search: string, rep: string, s: string)
    requires search != "" && search[0] !in s
    ensures Replace(search, rep, s) == s
  {
    NotThere(search, s);
    if s != "" {
      NothingReplaced(search, rep, s[1..]);
      assert s == [s[0]] + s[1..];
    }
  }

  // ----- the code, end to end

  /**
   What the client writes, read in pieces of any size into the growing buffer and cut up in place, is the
   sender, the recipients in order, and the text after DATA.
   */
  method Deliver(reader: Reader, from: string, to: Destination, header: string, body: string)
      returns (buf: array<char>, toList: ToList, sender: nat, data: nat)
    requires reader.Valid() && reader.Stands([]) == Fresh([])
    requires OneLine(from) && AllOneLine(Addresses(to)) && Carried(from, Addresses(to), header, body)
    modifies reader, reader.buf
    ensures reader.Valid() && reader.Stands([]) == Fresh([])
    ensures toList.Valid() && AllHold(buf[..], Starts(sender, toList), [from] + Addresses(to))
    ensures Holds(buf[..], data, MailData(header, body))
    ensures Receive(Split(CRLF, MailData(header, body))) == ContentLines(header) + [""] + ContentLines(body)
  {
    hide ContentLines, MailData, EndsEarly, Ends, Blocked, Receive, Parse, OneLine, Message, Holds, AllHold, Starts;
    var msg := SendRawMail(from, to, header, body);
    ghost var text := MailData(header, body);
    NulGoesOut(header, body);
    MessageNulFree(from, Addresses(to), text);
    NotBlocked(msg);
    EarlyMessage(from, Addresses(to), header, body);
    RoundTrip(from, Addresses(to), text);
    StuffingIsTransparent(header, body);
    buf := ReadMessage(reader, msg);
    toList := new ToList();
    var ok, err;
    ok, sender, data, err := PrepareSendMail(buf, toList, CStr(msg, 0));
  }
}
