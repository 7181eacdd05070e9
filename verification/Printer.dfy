/**
 `sendRawMail` of php-scripts/Transport.php: how a mail becomes the text that the proxy reads, and what
 a receiver that follows RFC 5321, section 4.5.2, makes of the part after DATA.
 */
module Printer {
  import opened Lines

  // ----- trim

  /** The characters that PHP's `trim` strips. */
  predicate Strips(c: char) { c in " \t\n\r\0\U{0B}" }

  function TrimLeft(s: string): string {
    if s != "" && Strips(s[0]) then TrimLeft(s[1..]) else s
  }

  function TrimRight(s: string): string {
    if s != "" && Strips(s[|s| - 1]) then TrimRight(s[..|s| - 1]) else s
  }

  function Trim(s: string): string { TrimRight(TrimLeft(s)) }

  /** Nothing to strip on either side. */
  predicate Trimmed(s: string) {
    s == "" || (!Strips(s[0]) && !Strips(s[|s| - 1]))
  }

  predicate AllStripped(s: string) { forall k :: 0 <= k < |s| ==> Strips(s[k]) }

  /** `front` is what is cut off the left. */
  lemma {:induction false} TrimLeftCuts(s: string) returns (front: string)
    ensures s == front + TrimLeft(s) && AllStripped(front)
    ensures TrimLeft(s) == "" || !Strips(TrimLeft(s)[0])
  {
    hide Strips;
    front := "";
    if s != "" && Strips(s[0]) {
      var more := TrimLeftCuts(s[1..]);
      front := [s[0]] + more;
      assert s == [s[0]] + s[1..];
    }
  }

  /** `back` is what is cut off the right. */
  lemma {:induction false} TrimRightCuts(s: string) returns (back: string)
    ensures s == TrimRight(s) + back && AllStripped(back)
    ensures TrimRight(s) == "" || !Strips(TrimRight(s)[|TrimRight(s)| - 1])
  {
    hide Strips;
    back := "";
    if s != "" && Strips(s[|s| - 1]) {
      var more := TrimRightCuts(s[..|s| - 1]);
      back := more + [s[|s| - 1]];
      assert s == TrimRight(s) + more + [s[|s| - 1]];
    }
  }

  /** Trimming cuts off what it strips, all of it on either side, and nothing else. */
  lemma TrimCuts(s: string) returns (front: string, back: string)
    ensures s == front + Trim(s) + back && AllStripped(front) && AllStripped(back)
    ensures Trimmed(Trim(s))
  {
    hide Strips;
    front := TrimLeftCuts(s);
    var t := TrimLeft(s);
    back := TrimRightCuts(t);
    assert Trim(s) != "" ==> Trim(s)[0] == t[0];
    assert s == front + (Trim(s) + back);
  }

  /** A text that does so is the trimmed one. */
  lemma TrimIs(front: string, t: string, back: string)
    requires AllStripped(front) && AllStripped(back) && Trimmed(t)
    ensures Trim(front + t + back) == t
  {
    var s := front + t + back;
    var f, b := TrimCuts(s);
    var u := Trim(s);
    if u != "" || t != "" {
      SameMiddle(front, t, back, f, u, b);
    }
  }

  lemma SameMiddle(front: string, t: string, back: string, f: string, u: string, b: string)
    requires front + t + back == f + u + b && (t != "" || u != "")
    requires AllStripped(front) && AllStripped(back) && AllStripped(f) && AllStripped(b) && Trimmed(t) && Trimmed(u)
    ensures t == u
  {
    hide Strips;
    var s := front + t + back;
    assert forall k :: 0 <= k < |front| ==> s[k] == front[k];
    assert forall k :: 0 <= k < |back| ==> s[|front| + |t| + k] == back[k];
    assert forall k :: 0 <= k < |f| ==> s[k] == f[k];
    assert forall k :: 0 <= k < |b| ==> s[|f| + |u| + k] == b[k];
    assert t != "" ==> s[|front|] == t[0] && s[|front| + |t| - 1] == t[|t| - 1];
    assert u != "" ==> s[|f|] == u[0] && s[|f| + |u| - 1] == u[|u| - 1];
    assert |front| == |f| && |back| == |b|;
    assert t == s[|front|..|front| + |t|] == u;
  }

  lemma TrimTrims(s: string)
    ensures Trimmed(Trim(s))
    ensures Trimmed(s) ==> Trim(s) == s
  {
    var front, back := TrimCuts(s);
    if Trimmed(s) {
      TrimIs("", s, "");
      assert "" + s + "" == s;
    }
  }

  // ----- line ends

  function CrlfToLf(s: string): string { Replace("\r\n", "\n", s) }

  function LfToCrlf(s: string): string { Replace("\n", "\r\n", s) }

  /** A dot at the start of any line but the first is doubled. */
  function Stuff(s: string): string { Replace("\n.", "\n..", s) }

  function RawHeader(header: string): string { LfToCrlf(CrlfToLf(Trim(header))) }

  function RawBody(body: string): string { LfToCrlf(Stuff(CrlfToLf(Trim(body)))) }

  lemma NeverStartsWithLf(t: string)
    ensures LfToCrlf(t) == "" || LfToCrlf(t)[0] != '\n'
  {
    assert t != "" ==> (At(t, 0, "\n") <==> t[..1] == "\n");
    assert t != "" ==> t[..1] == [t[0]];
  }

  lemma {:induction false} LfThereAndBack(t: string)
    ensures CrlfToLf(LfToCrlf(t)) == t
  {
    if t != "" {
      var u := LfToCrlf(t[1..]);
      LfThereAndBack(t[1..]);
      NeverStartsWithLf(t[1..]);
      assert t[..1] == [t[0]];
      assert t == [t[0]] + t[1..];
      if t[0] == '\n' {
        assert LfToCrlf(t) == CRLF + u;
        assert (CRLF + u)[..2] == CRLF && (CRLF + u)[2..] == u;
      } else {
        var v := [t[0]] + u;
        assert LfToCrlf(t) == v;
        CrlfIsAt(v, 0);
        assert v[1..] == u;
      }
    }
  }

  /** Every LF of a text that goes out has a CR before it. */
  lemma {:induction false} EveryLfAfterCr(t: string, i: nat)
    requires i < |LfToCrlf(t)| && LfToCrlf(t)[i] == '\n'
    ensures i > 0 && LfToCrlf(t)[i - 1] == '\r'
  {
    NeverStartsWithLf(t);
    assert t[..1] == [t[0]];
    var u := LfToCrlf(t[1..]);
    NeverStartsWithLf(t[1..]);
    if t[0] == '\n' {
      assert LfToCrlf(t) == CRLF + u;
      if i >= 2 { EveryLfAfterCr(t[1..], i - 2); }
    } else {
      assert LfToCrlf(t) == [t[0]] + u;
      EveryLfAfterCr(t[1..], i - 1);
    }
  }

  lemma {:induction false} ReplaceKeepsLast(search: string, rep: string, s: string)
    requires search != "" && s != "" && s[|s| - 1] != search[|search| - 1]
    ensures var r := Replace(search, rep, s); r != "" && r[|r| - 1] == s[|s| - 1]
  {
    if At(s, 0, search) {
      assert s[|search| - 1] == search[|search| - 1];
      ReplaceKeepsLast(search, rep, s[|search|..]);
    } else if |s| > 1 {
      ReplaceKeepsLast(search, rep, s[1..]);
    }
  }

  lemma ReplaceKeepsFirst(search: string, rep: string, s: string)
    requires search != "" && s != "" && s[0] != search[0]
    ensures var r := Replace(search, rep, s); r != "" && r[0] == s[0]
  {
    if |s| >= |search| {
      assert s[..|search|][0] == s[0];
    }
  }

  lemma ReplaceKeepsTrimmed(search: string, rep: string, s: string)
    requires search != "" && Strips(search[0]) && Strips(search[|search| - 1]) && Trimmed(s)
    ensures Trimmed(Replace(search, rep, s))
  {
    if s != "" {
      ReplaceKeepsFirst(search, rep, s);
      ReplaceKeepsLast(search, rep, s);
    }
  }

  /** Sending a header that was sent before changes nothing. */
  lemma HeaderIdempotent(header: string)
    ensures RawHeader(RawHeader(header)) == RawHeader(header)
  {
    var t := CrlfToLf(Trim(header));
    TrimTrims(header);
    ReplaceKeepsTrimmed("\r\n", "\n", Trim(header));
    ReplaceKeepsTrimmed("\n", "\r\n", t);
    TrimTrims(LfToCrlf(t));
    LfThereAndBack(t);
  }

  // ----- the same, line by line

  /** The lines of a header or a body as its author wrote it. */
  function ContentLines(text: string): (lines: seq<string>)
    ensures lines != []
  {
    Split("\n", CrlfToLf(Trim(text)))
  }

  predicate Dotted(line: string) { line != "" && line[0] == '.' }

  function StuffLine(line: string): string { if Dotted(line) then "." + line else line }

  function StuffLines(lines: seq<string>): (r: seq<string>)
    ensures |r| == |lines|
    ensures forall k :: 0 <= k < |lines| ==> r[k] == StuffLine(lines[k])
  {
    if lines == [] then [] else [StuffLine(lines[0])] + StuffLines(lines[1..])
  }

  /** Every line but the first is stuffed. */
  function BodyLines(lines: seq<string>): (r: seq<string>)
    requires lines != []
    ensures |r| == |lines|
  {
    [lines[0]] + StuffLines(lines[1..])
  }

  lemma LfAt(t: string)
    ensures At(t, 0, "\n") <==> t != "" && t[0] == '\n'
    ensures At(t, 0, "\n.") <==> |t| >= 2 && t[0] == '\n' && t[1] == '.'
  {
    if |t| >= 1 { assert t[..1] == [t[0]]; }
    if |t| >= 2 { assert t[..2] == [t[0], t[1]]; }
  }

  lemma SplitLfCons(c: char, t: string)
    ensures c == '\n' ==> Split("\n", [c] + t) == [""] + Split("\n", t)
    ensures c != '\n' ==> Split("\n", [c] + t) == [[c] + Split("\n", t)[0]] + Split("\n", t)[1..]
  {
    LfAt([c] + t);
    assert ([c] + t)[1..] == t;
  }

  lemma StuffCons(c: char, t: string)
    ensures !(c == '\n' && Dotted(t)) ==> Stuff([c] + t) == [c] + Stuff(t)
    ensures c == '\n' && Dotted(t) ==> Stuff([c] + t) == "\n" + (".." + Stuff(t[1..]))
  {
    LfAt([c] + t);
    assert ([c] + t)[1..] == t;
    if c == '\n' && Dotted(t) {
      assert ([c] + t)[2..] == t[1..];
      assert "\n.." + Stuff(t[1..]) == "\n" + (".." + Stuff(t[1..]));
    }
  }

  lemma FirstLineDotted(t: string)
    ensures Dotted(Split("\n", t)[0]) <==> Dotted(t)
  {
    LfAt(t);
  }

  /** Stuffing a text doubles the dots of its lines. */
  lemma {:induction false} StuffByLines(t: string)
    ensures Split("\n", Stuff(t)) == BodyLines(Split("\n", t))
  {
    hide Stuff;
    if t == "" {
      StuffEmpty();
    } else {
      var c, u := t[0], t[1..];
      assert t == [c] + u;
      var lines := Split("\n", u);
      FirstLineDotted(u);
      SplitLfCons(c, u);
      StuffCons(c, u);
      if c == '\n' && Dotted(u) {
        var v := u[1..];
        assert u == "." + v;
        StuffByLines(v);
        TwoDots(v);
        SplitLfCons('\n', ".." + Stuff(v));
        SplitLfCons('.', v);
      } else {
        StuffByLines(u);
        SplitLfCons(c, Stuff(u));
        if c != '\n' {
          assert ([[c] + lines[0]] + lines[1..])[1..] == lines[1..];
          var stuffed := BodyLines(lines);
          assert stuffed[0] == lines[0] && stuffed[1..] == StuffLines(lines[1..]);
        } else {
          assert ([""] + lines)[1..] == lines;
        }
      }
    }
  }

  lemma StuffEmpty()
    ensures Stuff("") == ""
  {
  }

  lemma TwoDots(v: string)
    requires Split("\n", Stuff(v)) == BodyLines(Split("\n", v))
    ensures Split("\n", ".." + Stuff(v)) == StuffLines(Split("\n", "." + v))
  {
    hide Stuff;
    var s := Stuff(v);
    var lines := Split("\n", v);
    assert ".." + s == "." + ("." + s);
    SplitLfCons('.', "." + s);
    SplitLfCons('.', s);
    SplitLfCons('.', v);
    var first := "." + lines[0];
    var dotted := [first] + lines[1..];
    assert dotted[1..] == lines[1..];
    assert BodyLines(lines)[1..] == StuffLines(lines[1..]);
    assert "." + first == "." + ("." + lines[0]);
  }

  lemma {:induction false} SplitLfHasNoLf(t: string)
    ensures forall k :: 0 <= k < |Split("\n", t)| ==> '\n' !in Split("\n", t)[k]
  {
    LfAt(t);
    if t != "" {
      SplitLfHasNoLf(t[1..]);
    }
  }

  lemma ContentIsOneLine(text: string)
    ensures AllOneLine(ContentLines(text))
    ensures AllOneLine(BodyLines(ContentLines(text)))
  {
    var lines := ContentLines(text);
    SplitLfHasNoLf(CrlfToLf(Trim(text)));
    forall k | 0 <= k < |lines|
      ensures OneLine(lines[k]) && OneLine(BodyLines(lines)[k])
    {
      NoLfOneLine(lines[k]);
      NoLfOneLine(BodyLines(lines)[k]);
    }
  }

  lemma RawByLines(header: string, body: string)
    ensures RawHeader(header) == Join(CRLF, ContentLines(header))
    ensures RawBody(body) == Join(CRLF, BodyLines(ContentLines(body)))
  {
    ReplaceIsSplitJoin("\n", "\r\n", CrlfToLf(Trim(header)));
    ReplaceIsSplitJoin("\n", "\r\n", Stuff(CrlfToLf(Trim(body))));
    StuffByLines(CrlfToLf(Trim(body)));
  }

  // ----- texts that are written line by line

  predicate Unbroken(line: string) { '\r' !in line && '\n' !in line }

  predicate AllUnbroken(lines: seq<string>) { forall k :: 0 <= k < |lines| ==> Unbroken(lines[k]) }

  lemma {:induction false} SplitLfLine(p: string)
    requires '\n' !in p
    ensures Split("\n", p) == [p]
  {
    if p != "" {
      SplitLfLine(p[1..]);
      SplitLfCons(p[0], p[1..]);
      assert [p[0]] + p[1..] == p;
    }
  }

  lemma {:induction false} SplitLfAtFirst(p: string, rest: string)
    requires '\n' !in p
    ensures Split("\n", p + "\n" + rest) == [p] + Split("\n", rest)
  {
    if p == "" {
      SplitLfCons('\n', rest);
      assert p + "\n" + rest == ['\n'] + rest;
    } else {
      SplitLfAtFirst(p[1..], rest);
      SplitLfCons(p[0], p[1..] + "\n" + rest);
      assert p + "\n" + rest == [p[0]] + (p[1..] + "\n" + rest);
      assert [p[0]] + p[1..] == p;
    }
  }

  lemma {:induction false} SplitLfOfJoin(lines: seq<string>)
    requires lines != [] && AllUnbroken(lines)
    ensures Split("\n", Join("\n", lines)) == lines
  {
    hide Split;
    if |lines| == 1 {
      SplitLfLine(lines[0]);
    } else {
      SplitLfAtFirst(lines[0], Join("\n", lines[1..]));
      SplitLfOfJoin(lines[1..]);
    }
  }

  lemma {:induction false} JoinHasNoCr(lines: seq<string>)
    requires lines != [] && AllUnbroken(lines)
    ensures '\r' !in Join("\n", lines)
  {
    if |lines| > 1 {
      JoinHasNoCr(lines[1..]);
    }
  }

  lemma {:induction false} NothingToReplace(s: string)
    requires '\r' !in s
    ensures CrlfToLf(s) == s
  {
    if s != "" {
      CrlfIsAt(s, 0);
      NothingToReplace(s[1..]);
      assert [s[0]] + s[1..] == s;
    }
  }

  /**
   Lines written one after the other, with LF or with CRLF between them and whatever is stripped around them, are
   the lines of the text.
   */
  lemma {:induction false} ContentIsWhatWasWritten(lines: seq<string>, eol: string, front: string, back: string)
    requires lines != [] && AllUnbroken(lines) && (eol == "\n" || eol == "\r\n")
    requires AllStripped(front) && AllStripped(back) && Trimmed(Join(eol, lines))
    ensures ContentLines(front + Join(eol, lines) + back) == lines
  {
    hide Split, Join, Trimmed, AllStripped, CrlfToLf, Trim;
    TrimIs(front, Join(eol, lines), back);
    var t := Join("\n", lines);
    SplitLfOfJoin(lines);
    if eol == "\n" {
      JoinHasNoCr(lines);
      NothingToReplace(t);
    } else {
      ReplaceIsSplitJoin("\n", "\r\n", t);
      LfThereAndBack(t);
    }
  }

  // ----- the message

  /** The header, an empty line, the body, and the line that ends the mail. */
  function MailData(header: string, body: string): string {
    RawHeader(header) + CRLF + CRLF + RawBody(body) + CRLF + "." + CRLF
  }

  function Message(from: string, to: seq<string>, data: string): string {
    Join(CRLF, [from] + to + ["DATA", data])
  }

  datatype Destination = Many(list: seq<string>) | One(address: string)

  function Addresses(to: Destination): seq<string> {
    match to
    case Many(list) => list
    case One(address) => [address]
  }

  /** `sendRawMail`, up to the writing of the message. */
  method SendRawMail(from: string, to: Destination, header: string, body: string) returns (msg: string)
    ensures msg == Message(from, Addresses(to), MailData(header, body))
  {
    var rawHeader := Trim(header);
    rawHeader := Replace("\r\n", "\n", rawHeader);
    rawHeader := Replace("\n", "\r\n", rawHeader);
    var rawBody := Trim(body);
    rawBody := Replace("\r\n", "\n", rawBody);
    rawBody := Replace("\n.", "\n..", rawBody);
    rawBody := Replace("\n", "\r\n", rawBody);
    var parts := [from];
    if to.Many? {
      for i := 0 to |to.list|
        invariant parts == [from] + to.list[..i]
      {
        parts := parts + [to.list[i]];
      }
      assert to.list[..|to.list|] == to.list;
    } else {
      parts := parts + [to.address];
    }
    ghost var start := [from] + Addresses(to);
    parts := parts + ["DATA"];
    parts := parts + [rawHeader + CRLF];
    parts := parts + [rawBody + "\r\n.\r\n"];
    assert parts == start + ["DATA", rawHeader + CRLF, rawBody + "\r\n.\r\n"];
    LastTwo(start + ["DATA"], rawHeader + CRLF, rawBody + "\r\n.\r\n");
    msg := Join(CRLF, parts);
    assert start + ["DATA"] + [rawHeader + CRLF, rawBody + "\r\n.\r\n"] == parts;
    assert start + ["DATA"] + [rawHeader + CRLF + CRLF + (rawBody + "\r\n.\r\n")]
        == start + ["DATA", rawHeader + CRLF + CRLF + (rawBody + "\r\n.\r\n")];
    assert rawHeader + CRLF + CRLF + (rawBody + "\r\n.\r\n") == MailData(header, body);
  }

  lemma LastTwo(parts: seq<string>, a: string, b: string)
    requires parts != []
    ensures Join(CRLF, parts + [a, b]) == Join(CRLF, parts + [a + CRLF + b])
  {
    JoinAppend(CRLF, parts, [a, b]);
    JoinAppend(CRLF, parts, [a + CRLF + b]);
  }

  /** The lines of the part after DATA. */
  function DataLines(header: string, body: string): seq<string> {
    ContentLines(header) + [""] + BodyLines(ContentLines(body)) + [".", ""]
  }

  lemma DataIsOneLine(header: string, body: string)
    ensures AllOneLine(DataLines(header, body))
  {
    hide ContentLines, BodyLines, OneLine;
    ContentIsOneLine(header);
    ContentIsOneLine(body);
    NoLfOneLine("");
    NoLfOneLine(".");
  }

  lemma JoinData(h: seq<string>, b: seq<string>)
    requires h != [] && b != []
    ensures Join(CRLF, h + [""] + b + [".", ""]) == Join(CRLF, h) + CRLF + CRLF + Join(CRLF, b) + CRLF + "." + CRLF
  {
    JoinAppend(CRLF, h + [""] + b, [".", ""]);
    JoinAppend(CRLF, h + [""], b);
    JoinAppend(CRLF, h, [""]);
    assert Join(CRLF, [".", ""]) == "." + CRLF;
    hide Join;
    var front := Join(CRLF, h) + CRLF + CRLF + Join(CRLF, b);
    assert Join(CRLF, h) + CRLF + "" + CRLF + Join(CRLF, b) == front;
    assert front + CRLF + ("." + CRLF) == front + CRLF + "." + CRLF;
  }

  lemma DataByLines(header: string, body: string)
    ensures MailData(header, body) == Join(CRLF, DataLines(header, body))
    ensures Split(CRLF, MailData(header, body)) == DataLines(header, body)
  {
    RawByLines(header, body);
    JoinData(ContentLines(header), BodyLines(ContentLines(body)));
    DataIsOneLine(header, body);
    SplitOfJoin(DataLines(header, body));
  }

  // ----- the receiver

  /** Takes the dot off a line that starts with one. */
  function Unstuff(line: string): string { if Dotted(line) then line[1..] else line }

  /** The lines of a mail, up to the line that is a single dot. */
  function Receive(lines: seq<string>): seq<string> {
    if lines == [] || lines[0] == "." then [] else [Unstuff(lines[0])] + Receive(lines[1..])
  }

  /** `sent` says `line` to a receiver. */
  predicate Stuffed(line: string, sent: string) { sent == line || (Dotted(line) && sent == "." + line) }

  predicate AllDoubled(lines: seq<string>, sent: seq<string>)
    requires |lines| == |sent|
  {
    forall k :: 0 <= k < |lines| && Dotted(lines[k]) ==> sent[k] != lines[k]
  }

  lemma AllDoubledCons(lines: seq<string>, sent: seq<string>)
    requires |lines| == |sent| && lines != []
    ensures AllDoubled(lines, sent) <==> (Dotted(lines[0]) ==> sent[0] != lines[0]) && AllDoubled(lines[1..], sent[1..])
  {
    if AllDoubled(lines[1..], sent[1..]) {
      forall k | 1 <= k < |lines| && Dotted(lines[k])
        ensures sent[k] != lines[k]
      {
        assert lines[1..][k - 1] == lines[k];
      }
    }
  }

  /** A receiver gets the lines back exactly when every line that starts with a dot has it doubled. */
  lemma {:induction false} ReceiveExactly(lines: seq<string>, sent: seq<string>)
    requires |lines| == |sent| && forall k :: 0 <= k < |lines| ==> Stuffed(lines[k], sent[k])
    ensures Receive(sent + [".", ""]) == lines <==> AllDoubled(lines, sent)
  {
    var all := sent + [".", ""];
    if lines != [] {
      var line, said := lines[0], sent[0];
      ReceiveExactly(lines[1..], sent[1..]);
      AllDoubledCons(lines, sent);
      assert all[1..] == sent[1..] + [".", ""];
      assert lines == [line] + lines[1..];
      assert Stuffed(line, said);
      assert Dotted(line) && said != line ==> said[1..] == line;
      if said != "." {
        assert Receive(all) == [Unstuff(said)] + Receive(all[1..]);
        assert Receive(all)[1..] == Receive(all[1..]);
      }
    }
  }

  /**
   Stuffing is transparent exactly when no header line and not the first line of the body starts with a
   dot: the code stuffs neither.
   */
  lemma StuffingIsTransparent(header: string, body: string)
    ensures Receive(Split(CRLF, MailData(header, body))) == ContentLines(header) + [""] + ContentLines(body)
      <==> (forall k :: 0 <= k < |ContentLines(header)| ==> !Dotted(ContentLines(header)[k]))
           && !Dotted(ContentLines(body)[0])
  {
    var h, b := ContentLines(header), ContentLines(body);
    var lines, sent := h + [""] + b, h + [""] + BodyLines(b);
    DataByLines(header, body);
    forall k | 0 <= k < |lines|
      ensures Stuffed(lines[k], sent[k])
      ensures Dotted(lines[k]) ==> (sent[k] == lines[k] <==> k <= |h| + 1)
    {
    }
    ReceiveExactly(lines, sent);
    if AllDoubled(lines, sent) {
      forall k | 0 <= k < |h|
        ensures !Dotted(h[k])
      {
        assert lines[k] == h[k];
      }
      assert lines[|h| + 1] == b[0];
    }
  }
}
