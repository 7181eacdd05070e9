/** The format between the PHP client and the proxy: what is printed is what is read. */
module Wire {
  import opened CStrings
  import opened Lines
  import opened Printer
  import opened Parser

  const TERM := CRLF + "." + CRLF

  // ----- printing and parsing

  lemma MessageParts(from: string, to: seq<string>, data: string)
    ensures Message(from, to, data) == Join(CRLF, [from] + to) + MARK + data
  {
    assert [from] + to + ["DATA", data] == ([from] + to) + ["DATA", data];
    JoinAppend(CRLF, [from] + to, ["DATA", data]);
    assert Join(CRLF, ["DATA", data]) == "DATA" + CRLF + data;
    var head := Join(CRLF, [from] + to);
    assert head + CRLF + ("DATA" + CRLF + data) == head + (CRLF + "DATA" + CRLF) + data;
  }

  lemma DataIsLine()
    ensures OneLine("DATA") && OneLine(".")
  {
    NoLfOneLine("DATA");
    NoLfOneLine(".");
  }

  /** The mark is found after the first line that could be it. */
  lemma MarkFirst(head: seq<string>, data: string)
    requires head != [] && AllOneLine(head) && "DATA" !in head[1..]
    ensures Find(Join(CRLF, head) + MARK + data, MARK) == |Join(CRLF, head)|
  {
    var rest := Split(CRLF, data);
    var lines := head + ["DATA"] + rest;
    SplitIsOneLine(data);
    JoinOfSplit(CRLF, data);
    DataIsLine();
    JoinAppend(CRLF, head + ["DATA"], rest);
    JoinAppend(CRLF, head, ["DATA"]);
    var text := Join(CRLF, lines);
    assert text == Join(CRLF, head) + MARK + data;
    FirstHit(head, "DATA", rest);
    forall i
      ensures At(text, i, MARK) <==> Hits(lines, "DATA", i)
    {
      Occurrences(lines, "DATA", i);
    }
    FindIs(text, MARK, |Join(CRLF, head)|);
  }

  lemma ParseHead(from: string, to: seq<string>, data: string)
    requires OneLine(from) && AllOneLine(to) && "DATA" !in to
    ensures Parse(Message(from, to, data)) == if to == [] then Bad(NO_RECIPIENTS) else Ok(from, to, data)
  {
    hide Find, Split, Join, OneLine;
    var head := [from] + to;
    assert head[1..] == to;
    MessageParts(from, to, data);
    MarkFirst(head, data);
    SplitOfJoin(head);
    var text, at := Join(CRLF, head) + MARK + data, |Join(CRLF, head)|;
    assert text[..at] == Join(CRLF, head) && text[at + |MARK|..] == data;
  }

  lemma FirstIn(to: seq<string>, x: string) returns (k: nat)
    requires x in to
    ensures k < |to| && to[k] == x && x !in to[..k]
  {
    k := 0;
    while to[k] != x
      invariant k < |to| && x !in to[..k] && x in to[k..]
      decreases |to| - k
    {
      k := k + 1;
    }
  }

  /** A recipient called DATA ends the list of recipients early. */
  lemma ParseCutShort(from: string, to: seq<string>, data: string) returns (k: nat)
    requires OneLine(from) && AllOneLine(to) && "DATA" in to
    ensures k < |to|
    ensures var p := Parse(Message(from, to, data)); p == Bad(NO_RECIPIENTS) || (p.Ok? && p.to == to[..k])
  {
    k := FirstIn(to, "DATA");
    var rest := Join(CRLF, to[k + 1..] + ["DATA", data]);
    ParseHead(from, to[..k], rest);
    assert [from] + to + ["DATA", data] == ([from] + to[..k] + ["DATA"]) + (to[k + 1..] + ["DATA", data]);
    JoinAppend(CRLF, [from] + to[..k] + ["DATA"], to[k + 1..] + ["DATA", data]);
    assert [from] + to[..k] + ["DATA", rest] == ([from] + to[..k] + ["DATA"]) + [rest];
    JoinAppend(CRLF, [from] + to[..k] + ["DATA"], [rest]);
  }

  lemma ParseGivesLines(msg: string)
    requires Parse(msg).Ok?
    ensures OneLine(Parse(msg).from) && AllOneLine(Parse(msg).to) && Parse(msg).to != []
  {
    var at := Find(msg, MARK);
    SplitIsOneLine(msg[..at]);
  }

  /** Reading a text whole gives back what was printed exactly for addresses of one line, none of them "DATA". */
  lemma ParsesBack(from: string, to: seq<string>, data: string)
    ensures Parse(Message(from, to, data)) == Ok(from, to, data)
      <==> to != [] && OneLine(from) && AllOneLine(to) && "DATA" !in to
  {
    if OneLine(from) && AllOneLine(to) {
      if "DATA" in to {
        var k := ParseCutShort(from, to, data);
        assert |to[..k]| < |to|;
      } else {
        ParseHead(from, to, data);
      }
    } else if Parse(Message(from, to, data)) == Ok(from, to, data) {
      ParseGivesLines(Message(from, to, data));
    }
  }

  // ----- any text, line by line

  /** Line `k` is the first inner line that is DATA. */
  predicate FirstData(lines: seq<string>, k: nat) {
    1 <= k < |lines| - 1 && lines[k] == "DATA" && "DATA" !in lines[1..k]
  }

  /** No line but the first and the last is DATA. */
  predicate NoInnerData(lines: seq<string>) { |lines| >= 2 ==> "DATA" !in lines[1..|lines| - 1] }

  lemma {:induction false} NoInnerNoHit(lines: seq<string>, x: string, i: int)
    requires |lines| >= 2 && x !in lines[1..|lines| - 1]
    ensures !Hits(lines, x, i)
  {
    if |lines| >= 3 {
      var inner := lines[1..|lines| - 1];
      assert inner[0] == lines[1];
      assert lines[1..][1..|lines| - 2] == inner[1..];
      NoInnerNoHit(lines[1..], x, i - |lines[0]| - 2);
    }
  }

  /** A text none of whose inner lines is DATA is refused for that. */
  lemma {:induction false} ParseWithoutData(msg: string)
    requires NoInnerData(Split(CRLF, msg))
    ensures Parse(msg) == Bad("500 " + "invalid msg format, DATA command not found\r\n")
  {
    var lines := Split(CRLF, msg);
    SplitIsOneLine(msg);
    JoinOfSplit(CRLF, msg);
    DataIsLine();
    FindFirst(msg, MARK);
    hide Split, Find, OneLine;
    var at := Find(msg, MARK);
    if at >= 0 {
      Occurrences(lines, "DATA", at);
      if |lines| >= 2 {
        NoInnerNoHit(lines, "DATA", at);
      }
    }
    hide Hits, Join, At;
  }

  /** Otherwise the first such line ends the addresses: without a recipient that is refused, too. */
  lemma {:induction false} ParseAtData(msg: string, k: nat)
    requires FirstData(Split(CRLF, msg), k)
    ensures var lines := Split(CRLF, msg);
      Parse(msg) ==
        if k == 1 then Bad("500 " + "invalid msg format, recipients not found\r\n")
        else Ok(lines[0], lines[1..k], Join(CRLF, lines[k + 1..]))
  {
    var lines := Split(CRLF, msg);
    var head, rest := lines[..k], lines[k + 1..];
    SplitIsOneLine(msg);
    JoinOfSplit(CRLF, msg);
    hide Split, Find, OneLine, Parse;
    assert lines == head + ["DATA"] + rest;
    assert AllOneLine(head);
    assert head == [lines[0]] + lines[1..k] && head[1..] == lines[1..k];
    JoinAppend(CRLF, head + ["DATA"], rest);
    JoinAppend(CRLF, head, ["DATA"]);
    JoinSingle("DATA");
    assert [lines[0]] + lines[1..k] + ["DATA", Join(CRLF, rest)] == (head + ["DATA"]) + [Join(CRLF, rest)];
    JoinAppend(CRLF, head + ["DATA"], [Join(CRLF, rest)]);
    JoinSingle(Join(CRLF, rest));
    assert msg == Message(lines[0], lines[1..k], Join(CRLF, rest));
    ParseHead(lines[0], lines[1..k], Join(CRLF, rest));
  }

  /**
   What is made of a text, by its lines: the first inner line that is DATA ends the addresses. Without such a line, and
   with no line between the sender and it, the text is refused, each with its own words.
   */
  lemma {:induction false} ParseByLines(msg: string) returns (k: nat)
    ensures var lines := Split(CRLF, msg);
      if NoInnerData(lines) then Parse(msg) == Bad("500 " + "invalid msg format, DATA command not found\r\n")
      else
        && FirstData(lines, k)
        && Parse(msg) ==
           if k == 1 then Bad("500 " + "invalid msg format, recipients not found\r\n")
           else Ok(lines[0], lines[1..k], Join(CRLF, lines[k + 1..]))
  {
    var lines := Split(CRLF, msg);
    hide Split, Parse;
    k := 0;
    if NoInnerData(lines) {
      ParseWithoutData(msg);
    } else {
      var inner := lines[1..|lines| - 1];
      var j := FirstIn(inner, "DATA");
      k := j + 1;
      assert inner[..j] == lines[1..k];
      ParseAtData(msg, k);
    }
  }

  // ----- NUL

  predicate NulFree(from: string, to: seq<string>, data: string) {
    NUL !in from && NUL !in data && forall k :: 0 <= k < |to| ==> NUL !in to[k]
  }

  lemma {:induction false} SplitOfNulFree(s: string)
    requires NUL !in s
    ensures forall k :: 0 <= k < |Split(CRLF, s)| ==> NUL !in Split(CRLF, s)[k]
  {
    if s != "" {
      if At(s, 0, CRLF) {
        SplitOfNulFree(s[2..]);
      } else {
        SplitOfNulFree(s[1..]);
      }
    }
  }

  lemma UnderstoodIsNulFree(msg: string)
    requires Understood(msg).Ok?
    ensures NulFree(Understood(msg).from, Understood(msg).to, Understood(msg).data)
  {
    var text := CStr(msg, 0);
    CStrIsPrefix(msg);
    hide CStr, Find, Split;
    SplitOfNulFree(text[..Find(text, MARK)]);
  }

  lemma {:induction false} JoinNulFree(parts: seq<string>)
    requires parts != [] && forall k :: 0 <= k < |parts| ==> NUL !in parts[k]
    ensures NUL !in Join(CRLF, parts)
  {
    if |parts| > 1 {
      JoinNulFree(parts[1..]);
    }
  }

  lemma MessageNulFree(from: string, to: seq<string>, data: string)
    requires NulFree(from, to, data)
    ensures NUL !in Message(from, to, data)
  {
    hide Join;
    JoinNulFree([from] + to + ["DATA", data]);
  }

  /** A NUL after DATA cuts the mail there. */
  lemma DataCutAtNul(from: string, to: seq<string>, data: string)
    requires OneLine(from) && AllOneLine(to) && to != [] && "DATA" !in to && NulFree(from, to, "")
    ensures Understood(Message(from, to, data)) == Ok(from, to, CStr(data, 0))
  {
    hide OneLine, Parse, Join, CStr;
    MessageParts(from, to, data);
    MessageParts(from, to, CStr(data, 0));
    JoinNulFree([from] + to);
    var front := Join(CRLF, [from] + to) + MARK;
    CStrAfterFront(front, data, 0);
    assert front[0..] == front;
    ParsesBack(from, to, CStr(data, 0));
  }

  /**
   Reading gives back what was printed exactly if there is a recipient, every address is one line, none is
   "DATA", and nothing contains a NUL.
   */
  lemma RoundTrip(from: string, to: seq<string>, data: string)
    ensures Understood(Message(from, to, data)) == Ok(from, to, data)
      <==> to != [] && OneLine(from) && AllOneLine(to) && "DATA" !in to && NulFree(from, to, data)
  {
    hide OneLine, Parse, Message;
    var msg := Message(from, to, data);
    if NulFree(from, to, data) {
      MessageNulFree(from, to, data);
      CStrIsPrefix(msg);
      hide CStr;
      ParsesBack(from, to, data);
    } else if Understood(msg) == Ok(from, to, data) {
      UnderstoodIsNulFree(msg);
    }
  }

  // ----- the end of a message

  /** CRLF.CRLF stands at the end and nowhere else. */
  ghost predicate EndsOnlyAtEnd(msg: string) {
    forall i :: At(msg, i, TERM) <==> i == |msg| - |TERM|
  }

  lemma JoinWithTerm(lines: seq<string>)
    requires lines != []
    ensures Join(CRLF, lines + [".", ""]) == Join(CRLF, lines) + TERM
  {
    JoinAppend(CRLF, lines, [".", ""]);
    assert Join(CRLF, [".", ""]) == "." + CRLF;
    assert Join(CRLF, lines) + CRLF + ("." + CRLF) == Join(CRLF, lines) + TERM;
  }

  /** Where CRLF.CRLF stands in lines that the dot ends. */
  lemma TermHits(lines: seq<string>, i: int)
    requires lines != [] && AllOneLine(lines)
    ensures At(Join(CRLF, lines + [".", ""]), i, TERM) <==> Hits(lines + [".", ""], ".", i)
  {
    hide Join, At, Hits;
    DataIsLine();
    NoLfOneLine("");
    Occurrences(lines + [".", ""], ".", i);
  }

  lemma EndsEarlierAtDot(lines: seq<string>)
    requires lines != [] && AllOneLine(lines) && "." in lines[1..]
    ensures !EndsOnlyAtEnd(Join(CRLF, lines + [".", ""]))
  {
    hide At, OneLine;
    var all := lines + [".", ""];
    var msg := Join(CRLF, all);
    var k := FirstIn(lines[1..], ".");
    var before, after := lines[..k + 1], lines[k + 2..] + [".", ""];
    assert all == before + ["."] + after;
    assert before[1..] == lines[1..][..k];
    FirstHit(before, ".", after);
    TermHits(lines, |Join(CRLF, before)|);
    hide Hits;
    assert lines == before + lines[k + 1..];
    JoinAppend(CRLF, before, lines[k + 1..]);
    JoinWithTerm(lines);
    hide Join;
    assert |Join(CRLF, before)| < |msg| - |TERM|;
  }

  lemma EndsOnceWithoutDot(lines: seq<string>)
    requires lines != [] && AllOneLine(lines) && "." !in lines[1..]
    ensures EndsOnlyAtEnd(Join(CRLF, lines + [".", ""]))
  {
    hide At, OneLine;
    var all := lines + [".", ""];
    var msg := Join(CRLF, all);
    assert all == lines + ["."] + [""];
    FirstHit(lines, ".", [""]);
    JoinWithTerm(lines);
    hide Join, Hits;
    forall i
      ensures At(msg, i, TERM) <==> i == |msg| - |TERM|
    {
      TermHits(lines, i);
      if At(msg, i, TERM) {
        FitsIn(msg, i);
      }
    }
  }

  lemma FitsIn(msg: string, i: int)
    requires At(msg, i, TERM)
    ensures i <= |msg| - |TERM|
  {
  }

  /** Lines, then the dot: the text ends only at its end exactly when no line after the first is a dot. */
  lemma EndsWhenNoDot(lines: seq<string>)
    requires lines != [] && AllOneLine(lines)
    ensures EndsOnlyAtEnd(Join(CRLF, lines + [".", ""])) <==> "." !in lines[1..]
  {
    hide EndsOnlyAtEnd, Join;
    if "." in lines[1..] {
      EndsEarlierAtDot(lines);
    } else {
      EndsOnceWithoutDot(lines);
    }
  }

  /** The lines of a message before the line that ends it. */
  function MessageLines(from: string, to: seq<string>, header: string, body: string): seq<string> {
    [from] + to + ["DATA"] + ContentLines(header) + [""] + BodyLines(ContentLines(body))
  }

  lemma MessageByLines(from: string, to: seq<string>, header: string, body: string)
    requires OneLine(from) && AllOneLine(to)
    ensures Message(from, to, MailData(header, body)) == Join(CRLF, MessageLines(from, to, header, body) + [".", ""])
    ensures AllOneLine(MessageLines(from, to, header, body))
  {
    hide Join, Split, OneLine, MailData, ContentLines, BodyLines;
    var head, rest := [from] + to + ["DATA"], DataLines(header, body);
    DataByLines(header, body);
    DataIsOneLine(header, body);
    DataIsLine();
    JoinAppend(CRLF, head, rest);
    assert [from] + to + ["DATA", MailData(header, body)] == head + [MailData(header, body)];
    JoinAppend(CRLF, head, [MailData(header, body)]);
    JoinSingle(MailData(header, body));
    var lines := MessageLines(from, to, header, body);
    assert head + rest == lines + [".", ""];
    assert lines == head + rest[..|rest| - 2];
  }

  lemma JoinSingle(s: string)
    ensures Join(CRLF, [s]) == s
  {
  }

  lemma StuffedIsNoDot(lines: seq<string>)
    requires lines != []
    ensures "." in BodyLines(lines) <==> lines[0] == "."
  {
    var b := BodyLines(lines);
    assert b[0] == lines[0];
    assert forall k :: 0 < k < |b| ==> b[k] == StuffLine(lines[k]);
  }

  /**
   What is printed contains CRLF.CRLF only as its end exactly when no recipient and no header line is a
   single dot and the first line of the body is not one either.
   */
  lemma PrintedEndsOnce(from: string, to: seq<string>, header: string, body: string)
    requires OneLine(from) && AllOneLine(to)
    ensures EndsOnlyAtEnd(Message(from, to, MailData(header, body)))
      <==> "." !in to && "." !in ContentLines(header) && ContentLines(body)[0] != "."
  {
    hide Join, ContentLines, BodyLines, OneLine, EndsOnlyAtEnd, MailData;
    var lines := MessageLines(from, to, header, body);
    MessageByLines(from, to, header, body);
    EndsWhenNoDot(lines);
    StuffedIsNoDot(ContentLines(body));
    assert lines[1..] == to + ["DATA"] + ContentLines(header) + [""] + BodyLines(ContentLines(body));
  }
}
