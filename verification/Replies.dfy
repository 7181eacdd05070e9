/** `smtpExpect` of src/smtp.c: what is made of the bytes of a reply. */
module Replies {
  import opened CStrings

  /** How waiting for a reply and reading it may turn out. */
  datatype Reading = PollError | Unexpected | SslReadError | RecvError | Got(bytes: string)

  const POLL_ERROR := "500 poll error\r\n"
  const UNEXPECTED := "500 poll error, unexpected revents\r\n"
  const SSL_READ_ERROR := "500 SSL_read error\r\n"
  const RECV_ERROR := "500 recv error\r\n"
  const INVALID := "500 smtp server error, invalid response\r\n"

  /** `strrchr`: the last index of `c`, -1 if there is none. */
  function LastIndex(s: string, c: char): (r: int)
    ensures -1 <= r < |s|
    ensures r >= 0 ==> s[r] == c
    ensures forall k :: r < k < |s| ==> s[k] != c
  {
    if s == "" then -1
    else if s[|s| - 1] == c then |s| - 1
    else LastIndex(s[..|s| - 1], c)
  }

  /** The C string that starts after the last line end but the final one. */
  function LastLine(bytes: string): string
    requires bytes != ""
  {
    CStr(bytes, LastIndex(CStr(bytes[..|bytes| - 1], 0), '\n') + 1)
  }

  predicate Malformed(bytes: string) {
    |bytes| < 4 || bytes[|bytes| - 1] != '\n'
  }

  /** The text left in `err`. */
  function Text(r: Reading): string {
    match r
    case PollError => POLL_ERROR
    case Unexpected => UNEXPECTED
    case SslReadError => SSL_READ_ERROR
    case RecvError => RECV_ERROR
    case Got(bytes) => if Malformed(bytes) then INVALID else LastLine(bytes)
  }

  /** Whether the reply is the expected one. */
  predicate Matches(r: Reading, code: string) {
    r.Got? && !Malformed(r.bytes) && code <= LastLine(r.bytes)
  }

  /** The zeroed buffer after a read. */
  method ReadInto(bytes: string) returns (buf: array<char>)
    requires |bytes| <= 1023
    ensures fresh(buf) && buf.Length == 1024 && buf[..|bytes|] == bytes
    ensures forall k :: |bytes| <= k < 1024 ==> buf[k] == NUL
  {
    buf := new char[1024](_ => NUL);
    for i := 0 to |bytes|
      invariant buf[..i] == bytes[..i]
      invariant forall k :: i <= k < 1024 ==> buf[k] == NUL
    {
      buf[i] := bytes[i];
    }
  }

  /** Hides the final line end, looks for the one before it, puts it back. */
  method KeepLastLine(buf: array<char>, n: nat, ghost bytes: string) returns (err: string)
    requires 0 < n == |bytes| < buf.Length && buf[..n] == bytes && buf[n] == NUL && bytes[n - 1] == '\n'
    modifies buf
    ensures err == LastLine(bytes)
  {
    buf[n - 1] := NUL;
    assert buf[..n - 1] == bytes[..n - 1];
    CStrOfPrefix(bytes[..n - 1], buf[..], 0);
    hide CStr;
    var start := LastIndex(CStr(buf[..], 0), '\n') + 1;
    buf[n - 1] := '\n';
    assert buf[..n] == bytes[..n - 1] + "\n" == bytes;
    CStrOfPrefix(bytes, buf[..], start);
    err := CStr(buf[..], start);
  }

  /** `smtpExpect`, on the buffer of 1024 zeroed bytes that it reads into. */
  method SmtpExpect(r: Reading, code: string) returns (ok: bool, err: string)
    requires r.Got? ==> |r.bytes| <= 1023
    requires |code| == 3
    ensures ok <==> Matches(r, code)
    ensures err == Text(r)
    ensures r.PollError? ==> err == "500 poll error\r\n"
    ensures r.Unexpected? ==> err == "500 poll error, unexpected revents\r\n"
    ensures r.SslReadError? ==> err == "500 SSL_read error\r\n"
    ensures r.RecvError? ==> err == "500 recv error\r\n"
    ensures r.Got? && (|r.bytes| < 4 || r.bytes[|r.bytes| - 1] != '\n') ==>
      !ok && err == "500 smtp server error, invalid response\r\n"
  {
    hide LastLine;
    match r
    case PollError => return false, POLL_ERROR;
    case Unexpected => return false, UNEXPECTED;
    case SslReadError => return false, SSL_READ_ERROR;
    case RecvError => return false, RECV_ERROR;
    case Got(bytes) =>
      var buf := ReadInto(bytes);
      var n := |bytes|;
      assert n > 0 ==> buf[..n][n - 1] == bytes[n - 1];
      if n < 4 || buf[n - 1] != '\n' {
        return false, INVALID;
      }
      err := KeepLastLine(buf, n, bytes);
      ok := code <= err;
  }

  // ----- replies of several lines

  /** Lines, each with the LF that ends it. */
  function Ended(lines: seq<string>): string {
    if lines == [] then "" else Ended(lines[..|lines| - 1]) + lines[|lines| - 1] + "\n"
  }

  predicate Plain(line: string) { '\n' !in line && NUL !in line }

  lemma {:induction false} EndedHasNoNul(lines: seq<string>)
    requires forall k :: 0 <= k < |lines| ==> Plain(lines[k])
    ensures NUL !in Ended(lines)
    ensures lines != [] ==> Ended(lines) != "" && Ended(lines)[|Ended(lines)| - 1] == '\n'
  {
    if lines != [] {
      EndedHasNoNul(lines[..|lines| - 1]);
    }
  }

  lemma LastIndexIs(s: string, c: char, r: int)
    requires -1 <= r < |s| && (r >= 0 ==> s[r] == c) && forall k :: r < k < |s| ==> s[k] != c
    ensures LastIndex(s, c) == r
  {
  }

  lemma LastLineAfter(front: string, line: string)
    requires NUL !in front && Plain(line) && (front != "" ==> front[|front| - 1] == '\n')
    ensures LastLine(front + line + "\n") == line + "\n"
  {
    hide CStr;
    var bytes := front + line + "\n";
    assert bytes[..|bytes| - 1] == front + line;
    CStrWhole(front + line, 0);
    assert (front + line)[0..] == front + line;
    LastIndexIs(front + line, '\n', |front| - 1);
    CStrWhole(bytes, |front|);
    assert bytes[|front|..] == line + "\n";
  }

  /** Of any number of lines read at once the last one is kept. */
  lemma {:induction false} LastLineOf(lines: seq<string>)
    requires lines != [] && forall k :: 0 <= k < |lines| ==> Plain(lines[k])
    ensures Ended(lines) != "" && LastLine(Ended(lines)) == lines[|lines| - 1] + "\n"
  {
    EndedHasNoNul(lines[..|lines| - 1]);
    LastLineAfter(Ended(lines[..|lines| - 1]), lines[|lines| - 1]);
  }

  /**
   Lines that arrive in one read count as expected exactly when there are four bytes at least and the last line starts
   with the code; that line is the text, if there are four bytes.
   */
  lemma {:induction false} LinesMatch(lines: seq<string>, expected: string)
    requires lines != [] && forall k :: 0 <= k < |lines| ==> Plain(lines[k])
    ensures var r, last := Got(Ended(lines)), lines[|lines| - 1] + "\n";
      && (Matches(r, expected) <==> |Ended(lines)| >= 4 && expected <= last)
      && (|Ended(lines)| >= 4 ==> Text(r) == last)
  {
    LastLineOf(lines);
    EndedHasNoNul(lines);
    hide LastLine, Ended;
  }

  /**
   The lines of a reply as section 4.2.1 of RFC 5321 has them: a hyphen after every code but the last, and after that a
   space and its text, or nothing.
   */
  function ReplyLines(code: string, texts: seq<string>, bare: bool): (lines: seq<string>)
    ensures |lines| == |texts|
  {
    seq(|texts|, k requires 0 <= k < |texts| =>
        if k + 1 < |texts| then code + "-" + texts[k] + "\r" else code + (if bare then "" else " " + texts[k]) + "\r")
  }

  lemma ReplyIsPlain(code: string, texts: seq<string>, bare: bool)
    requires Plain(code) && forall k :: 0 <= k < |texts| ==> Plain(texts[k])
    ensures forall k :: 0 <= k < |texts| ==> Plain(ReplyLines(code, texts, bare)[k])
  {
    forall k | 0 <= k < |texts|
      ensures Plain(ReplyLines(code, texts, bare)[k])
    {
    }
  }

  /** A well-formed reply that arrives in one read counts as expected exactly when it carries that code. */
  lemma MultiLineReply(code: string, texts: seq<string>, bare: bool, expected: string)
    requires |code| == |expected| == 3 && Plain(code)
    requires texts != [] && forall k :: 0 <= k < |texts| ==> Plain(texts[k])
    ensures var r := Got(Ended(ReplyLines(code, texts, bare)));
      && (Matches(r, expected) <==> code == expected)
      && Text(r) == if bare then code + "\r\n" else code + " " + texts[|texts| - 1] + "\r\n"
  {
    var lines := ReplyLines(code, texts, bare);
    var last := if bare then code + "\r" else code + " " + texts[|texts| - 1] + "\r";
    assert lines[|lines| - 1] == last;
    ReplyIsPlain(code, texts, bare);
    LinesMatch(lines, expected);
    hide Plain, Matches, Text;
    assert Ended(lines) == Ended(lines[..|lines| - 1]) + last + "\n";
    assert (last + "\n")[..3] == code;
    assert last + "\n" == if bare then code + "\r\n" else code + " " + texts[|texts| - 1] + "\r\n";
  }
}
