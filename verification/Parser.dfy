/**
 `prepareSendMail` of src/client.c: the message is cut up where it stands, by writing NULs over the
 line ends, into a sender, a list of recipients, and the text after DATA.
 */
module Parser {
  import opened CStrings
  import opened Lines
  import opened Recipients

  /** What a message says, or what is wrong with it. */
  datatype Parsed =
    | Ok(from: string, to: seq<string>, data: string)
    | Bad(err: string)

  const NO_DATA := "500 " + "invalid msg format, DATA command not found\r\n"
  const NO_RECIPIENTS := "500 " + "invalid msg format, recipients not found\r\n"

  const MARK := CRLF + "DATA" + CRLF

  function Parse(msg: string): Parsed {
    var at := Find(msg, MARK);
    if at < 0 || at + |MARK| > |msg| then Bad(NO_DATA)
    else
      var head := Split(CRLF, msg[..at]);
      if |head| == 1 then Bad(NO_RECIPIENTS) else Ok(head[0], head[1..], msg[at + |MARK|..])
  }

  /** What the code makes of a message: it reads it as a C string. */
  function Understood(msg: string): Parsed { Parse(CStr(msg, 0)) }

  // ----- the parser

  /** The strings at the offsets `offs` are `words`. */
  predicate AllHold(s: string, offs: seq<nat>, words: seq<string>) {
    |offs| == |words| && forall k :: 0 <= k < |offs| ==> Holds(s, offs[k], words[k])
  }

  /** They all end before `limit`. */
  predicate Below(offs: seq<nat>, words: seq<string>, limit: nat) {
    |offs| == |words| && forall k :: 0 <= k < |offs| ==> offs[k] + |words[k]| < limit
  }

  lemma AllStillHold(s: string, t: string, offs: seq<nat>, words: seq<string>, limit: nat)
    requires AllHold(s, offs, words) && Below(offs, words, limit) && limit <= |s| == |t|
    requires forall k :: 0 <= k < limit ==> t[k] == s[k]
    ensures AllHold(t, offs, words)
  {
    forall k | 0 <= k < |offs|
      ensures Holds(t, offs[k], words[k])
    {
      StillHolds(s, t, offs[k], words[k]);
    }
  }

  lemma {:induction false} BeforeFirstIsOneLine(h: string, i: int)
    requires Find(h, CRLF) == i && i >= 0
    ensures i + 2 <= |h| && OneLine(h[..i]) && h == h[..i] + CRLF + h[i + 2..]
  {
    FindFirst(h, CRLF);
    hide Find;
    var p := h[..i];
    forall j
      ensures !CrlfAt(p, j)
    {
      CrlfIsAt(h, j);
    }
  }

  lemma {:induction false} SplitNext(h: string, i: nat)
    requires Find(h, CRLF) == i
    ensures i + 2 <= |h| && Split(CRLF, h) == [h[..i]] + Split(CRLF, h[i + 2..])
  {
    hide Find, Split, OneLine;
    BeforeFirstIsOneLine(h, i);
    SplitAtFirst(h[..i], h[i + 2..]);
  }

  lemma SplitLast(h: string)
    requires Find(h, CRLF) < 0
    ensures Split(CRLF, h) == [h]
  {
    FindFirst(h, CRLF);
    forall j
      ensures !CrlfAt(h, j)
    {
      CrlfIsAt(h, j);
    }
    SplitOneLine(h);
  }

  /** The words found so far, then the word at `cur`, not yet cut. */
  ghost predicate Cutting(s: string, head: string, done: seq<string>, offs: seq<nat>, cur: nat) {
    && cur <= |head|
    && |offs| == |done| + 1 && offs[|done|] == cur
    && AllHold(s, offs[..|done|], done) && Below(offs[..|done|], done, cur)
    && Holds(s, cur, head[cur..])
    && Split(CRLF, head) == done + Split(CRLF, head[cur..])
  }

  /** One more line end is overwritten and the word after it noted. */
  lemma CutNext(s: string, t: string, head: string, done: seq<string>, offs: seq<nat>, cur: nat, i: nat)
    requires Cutting(s, head, done, offs, cur) && Find(head[cur..], CRLF) == i
    requires |t| == |s|
    requires forall k :: 0 <= k < |s| ==> t[k] == if cur + i <= k < cur + i + 2 then NUL else s[k]
    ensures cur + i + 2 <= |head|
    ensures Cutting(t, head, done + [head[cur..cur + i]], offs + [cur + i + 2], cur + i + 2)
  {
    hide Find, Split;
    var word, next := head[cur..], cur + i + 2;
    SplitNext(word, i);
    CutHolds(s, t, cur, word, i, i + 2);
    AllStillHold(s, t, offs[..|done|], done, cur);
    assert word[..i] == head[cur..next - 2] && word[i + 2..] == head[next..];
    var more := offs + [next];
    assert more[..|done| + 1] == offs == offs[..|done|] + [cur];
    assert done + ([word[..i]] + Split(CRLF, head[next..])) == done + [word[..i]] + Split(CRLF, head[next..]);
  }

  /** The offsets of the sender and of the recipients on the list. */
  ghost function Starts(from: nat, toList: ToList): seq<nat>
    reads toList, toList.nodes
  {
    [from] + toList.Emails()
  }

  /** One turn of the `do` loop: cuts at the CRLF at `to` and notes the word after it. */
  method CutOne(msg: array<char>, toList: ToList, to: nat,
                ghost head: string, ghost done: seq<string>, ghost cur: nat)
    requires toList.Valid() && Cutting(msg[..], head, done, Starts(0, toList), cur)
    requires to - cur == Find(head[cur..], CRLF) && to >= cur
    modifies msg, toList, toList.nodes
    ensures toList.Valid() && toList.nodes != []
    ensures toList.nodes == old(toList.nodes) + [toList.nodes[|toList.nodes| - 1]]
    ensures fresh(toList.nodes[|toList.nodes| - 1])
    ensures to + 2 <= |head|
    ensures Cutting(msg[..], head, done + [head[cur..to]], Starts(0, toList), to + 2)
    ensures forall k :: |head| <= k < msg.Length ==> msg[k] == old(msg[k])
  {
    hide Find, Split, Holds, AllHold, Below;
    ghost var before, starts := msg[..], Starts(0, toList);
    CutStays(head[cur..], to - cur);
    CuttingFits(before, head, done, starts, cur);
    Wipe(msg, to, 2);
    CutNext(before, msg[..], head, done, starts, cur, to - cur);
    hide Cutting;
    toList.NewTo(to + 2);
    assert Starts(0, toList) == starts + [to + 2];
  }

  /** Looks for the next CRLF behind the word noted last. */
  method NextCrlf(msg: array<char>, toList: ToList, ghost head: string, ghost done: seq<string>, cur: nat)
      returns (more: bool, to: nat)
    requires Cutting(msg[..], head, done, Starts(0, toList), cur)
    ensures more ==> to - cur == Find(head[cur..], CRLF) && to >= cur
    ensures !more ==> Find(head[cur..], CRLF) < 0
  {
    hide Find;
    LastHolds(msg[..], head, done, Starts(0, toList), cur);
    var next := StrStr(msg, cur, CRLF, head[cur..]);
    more := next >= 0;
    to := if more then cur + next else cur;
  }

  /** The `do` loop: cuts the head at every CRLF, of which there is one at `first`. */
  method CutRecipients(msg: array<char>, toList: ToList, first: nat, ghost head: string)
    requires Holds(msg[..], 0, head) && toList.Valid() && toList.nodes == []
    requires Find(head, CRLF) == first
    modifies msg, toList
    ensures toList.Valid()
    ensures AllHold(msg[..], Starts(0, toList), Split(CRLF, head))
    ensures forall k :: |head| < k < msg.Length ==> msg[k] == old(msg[k])
  {
    hide Find, Split, Holds, AllHold, Below;
    ghost var done: seq<string> := [];
    var cur: nat := 0;
    var to := first;
    var more := true;
    assert head[0..] == head && Starts(0, toList) == [0];
    NothingCut(msg[..], head);
    hide Cutting;
    while more
      invariant toList.Valid() && fresh(toList.nodes)
      invariant cur <= |head| && Cutting(msg[..], head, done, Starts(0, toList), cur)
      invariant forall k :: |head| < k < msg.Length ==> msg[k] == old(msg[k])
      invariant more ==> to - cur == Find(head[cur..], CRLF) && to >= cur
      invariant !more ==> Find(head[cur..], CRLF) < 0
      decreases |head| - cur, more
    {
      CutOne(msg, toList, to, head, done, cur);
      done := done + [head[cur..to]];
      cur := to + 2;
      more, to := NextCrlf(msg, toList, head, done, cur);
    }
    AllCut(msg[..], head, done, Starts(0, toList), cur);
  }

  lemma LastHolds(s: string, head: string, done: seq<string>, offs: seq<nat>, cur: nat)
    requires Cutting(s, head, done, offs, cur)
    ensures Holds(s, cur, head[cur..])
  {
  }

  lemma NothingCut(s: string, head: string)
    requires Holds(s, 0, head)
    ensures Cutting(s, head, [], [0], 0)
  {
    assert head[0..] == head;
    assert [] + Split(CRLF, head) == Split(CRLF, head);
  }

  lemma {:induction false} CutStays(w: string, i: nat)
    requires Find(w, CRLF) == i
    ensures i + 2 <= |w|
  {
    FindFirst(w, CRLF);
  }

  lemma CuttingFits(s: string, head: string, done: seq<string>, offs: seq<nat>, cur: nat)
    requires Cutting(s, head, done, offs, cur)
    ensures |head| < |s|
  {
  }

  /** No line end is left: every word of the head is a string of its own. */
  lemma AllCut(s: string, head: string, done: seq<string>, offs: seq<nat>, cur: nat)
    requires Cutting(s, head, done, offs, cur) && Find(head[cur..], CRLF) < 0
    ensures AllHold(s, offs, Split(CRLF, head))
  {
    SplitLast(head[cur..]);
    assert offs == offs[..|done|] + [cur];
  }

  /** Overwrites the mark before the data, if there is one. */
  method CutData(msg: array<char>, ghost text: string) returns (at: int)
    requires Holds(msg[..], 0, text)
    modifies msg
    ensures at == Find(text, MARK)
    ensures at >= 0 ==> at + 8 <= |text| && Holds(msg[..], 0, text[..at]) && Holds(msg[..], at + 8, text[at + 8..])
  {
    at := StrStr(msg, 0, MARK, text);
    FindFirst(text, MARK);
    hide Find;
    if at >= 0 {
      ghost var before := msg[..];
      Wipe(msg, at, 8);
      CutHolds(before, msg[..], 0, text, at, at + 8);
    }
  }

  /** `prepareSendMail`: where the parts start, and that each of them is a C string there. */
  method PrepareSendMail(msg: array<char>, toList: ToList, ghost text: string)
      returns (ok: bool, from: nat, data: nat, err: string)
    requires Holds(msg[..], 0, text) && toList.Valid() && toList.nodes == []
    modifies msg, toList
    ensures toList.Valid()
    ensures ok <==> Parse(text).Ok?
    ensures !ok ==> err == Parse(text).err
    ensures ok ==> AllHold(msg[..], Starts(from, toList), [Parse(text).from] + Parse(text).to)
    ensures ok ==> Holds(msg[..], data, Parse(text).data)
  {
    hide Split, Find, AllHold;
    from, data, err := 0, 0, "";
    var at := CutData(msg, text);
    if at < 0 {
      return false, from, data, NO_DATA;
    }
    data := at + 8;
    ghost var head := text[..at];
    var to := StrStr(msg, 0, CRLF, head);
    if to < 0 {
      SplitLast(head);
      return false, from, data, NO_RECIPIENTS;
    }
    SplitNext(head, to);
    ghost var cut := msg[..];
    CutRecipients(msg, toList, to, head);
    StillHolds(cut, msg[..], data, text[data..]);
    ok := true;
    assert Split(CRLF, head) == [Parse(text).from] + Parse(text).to;
  }
}
