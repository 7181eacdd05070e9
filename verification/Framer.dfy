/**
 The reading loop of `handleClient` in src/client.c: bytes arrive in chunks of any size, are collected
 in a buffer that grows, and go on as a message when they end in CRLF.CRLF.
 */
module Framer {
  import opened CStrings
  import opened Lines
  import opened Parser
  import opened Wire

  const BLOCK := 8192

  // ----- what the loop does to the stream

  /**
   The bytes since the last message, the size of the buffer they are in, and the messages passed on; or the
   client was dropped, because a read of length zero looks like the end of the stream.
   */
  datatype Framing = Framing(pending: string, size: nat, sent: seq<string>) | Dropped(sent: seq<string>)

  function Fresh(sent: seq<string>): Framing { Framing("", BLOCK, sent) }

  /** The test that a message is complete. */
  predicate Ends(s: string) {
    |s| > 5 && s[|s| - 5..] == TERM
  }

  /** A read that returns `chunk`: a full buffer grows, but is taken to have room left if it ends in NUL. */
  function Feed(f: Framing, chunk: string): Framing {
    match f
    case Dropped(_) => f
    case Framing(pending, size, sent) =>
      var s := pending + chunk;
      if Ends(s) then Fresh(sent + [s])
      else if |s| < size || s == "" then Framing(s, size, sent)
      else if s[|s| - 1] != NUL then Framing(s, size + BLOCK, sent)
      else Dropped(sent)
  }

  function FeedAll(f: Framing, chunks: seq<string>): Framing {
    if chunks == [] then f else Feed(FeedAll(f, chunks[..|chunks| - 1]), chunks[|chunks| - 1])
  }

  function Concat(chunks: seq<string>): string {
    if chunks == [] then "" else Concat(chunks[..|chunks| - 1]) + chunks[|chunks| - 1]
  }

  /** A read returns at least a byte, and no more than the buffer has room for. */
  predicate Readable(f: Framing, chunk: string) {
    chunk != "" && (f.Framing? ==> |f.pending| + |chunk| <= f.size)
  }

  predicate Reads(f: Framing, chunks: seq<string>) {
    chunks == [] || (
      && Reads(f, chunks[..|chunks| - 1])
      && Readable(FeedAll(f, chunks[..|chunks| - 1]), chunks[|chunks| - 1]))
  }

  /** A way in which `msg` may arrive: reads that fit the buffer, and together everything. */
  ghost predicate Chunking(chunks: seq<string>, msg: string) {
    Concat(chunks) == msg && Reads(Fresh([]), chunks)
  }

  /** A proper prefix looks like a complete message. */
  ghost predicate EndsEarly(msg: string) {
    exists n :: 0 <= n < |msg| && Ends(msg[..n])
  }

  /** Before the end, a byte that fills the buffer is NUL. */
  ghost predicate Blocked(msg: string) {
    exists n :: 0 < n < |msg| && n % BLOCK == 0 && msg[n - 1] == NUL
  }

  /** It is not so in the first `at` bytes. */
  ghost predicate Clear(msg: string, at: nat) {
    forall n :: 0 < n <= at && n < |msg| && n % BLOCK == 0 ==> msg[n - 1] != NUL
  }

  /** The size of the buffer that `n` bytes have come into. */
  function Size(n: nat): nat { (n / BLOCK + 1) * BLOCK }

  lemma Sizes(at: nat, n: nat)
    requires at < n <= Size(at)
    ensures Size(n) == if n == Size(at) then Size(at) + BLOCK else Size(at)
    ensures n == Size(at) ==> n % BLOCK == 0
    ensures forall m :: at < m <= n && m % BLOCK == 0 ==> m == Size(at)
  {
  }

  lemma StaysClear(msg: string, at: nat, n: nat)
    requires at < n < |msg| && n <= Size(at) && Clear(msg, at)
    requires n == Size(at) ==> msg[n - 1] != NUL
    ensures Clear(msg, n)
  {
    Sizes(at, n);
    hide Size;
  }

  /** One read that does not reach the end of a message that does not end early. */
  lemma Advances(sent: seq<string>, msg: string, at: nat, n: nat)
    requires at < n < |msg| && n <= Size(at) && !EndsEarly(msg)
    ensures Feed(Framing(msg[..at], Size(at), sent), msg[at..n])
         == if n == Size(at) && msg[n - 1] == NUL then Dropped(sent) else Framing(msg[..n], Size(n), sent)
  {
    assert msg[..at] + msg[at..n] == msg[..n];
    assert !Ends(msg[..n]);
    hide EndsEarly, Ends;
    Sizes(at, n);
    hide Size;
  }

  /** The read that reaches it. */
  lemma Completes(sent: seq<string>, msg: string, at: nat, size: nat)
    requires at < |msg| && Ends(msg)
    ensures Feed(Framing(msg[..at], size, sent), msg[at..]) == Fresh(sent + [msg])
    ensures |msg| <= size == Size(at) && Clear(msg, at) ==> !Blocked(msg)
  {
    assert msg[..at] + msg[at..] == msg;
  }

  /** One read of a message that does not end early, whether or not it is the last. */
  lemma OneRead(msg: string, at: nat, n: nat)
    requires at < n <= |msg| && n <= Size(at) && Ends(msg) && !EndsEarly(msg) && Clear(msg, at)
    ensures msg[..at] + msg[at..n] == msg[..n] && (Ends(msg[..n]) <==> n == |msg|)
    ensures n == |msg| ==>
              && msg[..n] == msg && !Blocked(msg)
              && Feed(Framing(msg[..at], Size(at), []), msg[at..n]) == Fresh([msg])
    ensures n < |msg| && n == Size(at) && msg[n - 1] == NUL ==>
              Blocked(msg) && Feed(Framing(msg[..at], Size(at), []), msg[at..n]) == Dropped([])
    ensures n < |msg| && !(n == Size(at) && msg[n - 1] == NUL) ==>
              Clear(msg, n) && Feed(Framing(msg[..at], Size(at), []), msg[at..n]) == Framing(msg[..n], Size(n), [])
  {
    if n == |msg| {
      Completes([], msg, at, Size(at));
      assert msg[..n] == msg && msg[at..n] == msg[at..];
      assert [] + [msg] == [msg];
    } else {
      Advances([], msg, at, n);
      Sizes(at, n);
      if !(n == Size(at) && msg[n - 1] == NUL) {
        StaysClear(msg, at, n);
      }
    }
    hide Feed, Size;
  }

  /** Nothing is passed on, and nobody dropped, while a message that is neither early nor blocked arrives. */
  lemma {:induction false} Collects(sent: seq<string>, chunks: seq<string>, msg: string)
    requires Concat(chunks) <= msg && Concat(chunks) != msg && Reads(Fresh(sent), chunks)
    requires !EndsEarly(msg) && !Blocked(msg)
    ensures FeedAll(Fresh(sent), chunks) == Framing(Concat(chunks), Size(|Concat(chunks)|), sent)
  {
    hide Ends, EndsEarly, Feed;
    if chunks != [] {
      var less, last := chunks[..|chunks| - 1], chunks[|chunks| - 1];
      assert Concat(less) <= Concat(chunks);
      Collects(sent, less, msg);
      var at, n := |Concat(less)|, |Concat(chunks)|;
      assert Concat(less) == msg[..at] && Concat(chunks) == msg[..n] && last == msg[at..n];
      Advances(sent, msg, at, n);
      Sizes(at, n);
    }
  }

  /** A message is passed on once, when its last chunk arrives. */
  lemma {:induction false} Dispatches(sent: seq<string>, chunks: seq<string>, msg: string)
    requires Concat(chunks) == msg && Reads(Fresh(sent), chunks)
    requires Ends(msg) && !EndsEarly(msg) && !Blocked(msg)
    ensures FeedAll(Fresh(sent), chunks) == Fresh(sent + [msg])
    ensures FeedAll(Fresh(sent), chunks[..|chunks| - 1]).Framing?
         && FeedAll(Fresh(sent), chunks[..|chunks| - 1]).sent == sent
  {
    hide EndsEarly, Blocked, Feed;
    var less, last := chunks[..|chunks| - 1], chunks[|chunks| - 1];
    assert Concat(less) <= msg;
    Collects(sent, less, msg);
    var at := |Concat(less)|;
    assert Concat(less) == msg[..at] && last == msg[at..];
    Completes(sent, msg, at, Size(at));
  }

  // ----- a message that does not get through

  function Bytes(msg: string): (chunks: seq<string>)
    ensures |chunks| == |msg|
  {
    seq(|msg|, i requires 0 <= i < |msg| => [msg[i]])
  }

  predicate HasRoom(f: Framing) { f.Framing? ==> |f.pending| < f.size }

  lemma {:induction false} BytewiseReads(msg: string)
    ensures Reads(Fresh([]), Bytes(msg)) && HasRoom(FeedAll(Fresh([]), Bytes(msg)))
    ensures Concat(Bytes(msg)) == msg
    decreases |msg|
  {
    if msg != "" {
      var less := msg[..|msg| - 1];
      BytewiseReads(less);
      assert Bytes(msg)[..|msg| - 1] == Bytes(less);
      assert less + [msg[|msg| - 1]] == msg;
    }
  }

  /** Whatever was passed on stays so, and a client that was dropped stays away. */
  lemma {:induction false} Stays(f: Framing, chunks: seq<string>)
    ensures f.sent <= FeedAll(f, chunks).sent
    ensures f.Dropped? ==> FeedAll(f, chunks) == f
  {
    if chunks != [] {
      Stays(f, chunks[..|chunks| - 1]);
    }
  }

  lemma {:induction false} FeedAppend(f: Framing, a: seq<string>, b: seq<string>)
    ensures FeedAll(f, a + b) == FeedAll(FeedAll(f, a), b)
  {
    if b == [] {
      assert a + b == a;
    } else {
      assert (a + b)[..|a + b| - 1] == a + b[..|b| - 1];
      FeedAppend(f, a, b[..|b| - 1]);
    }
  }

  /** After `n` bytes the message is taken to be complete, or the client is dropped. */
  ghost predicate Bad(msg: string, n: nat) {
    0 < n < |msg| && (Ends(msg[..n]) || (n % BLOCK == 0 && msg[n - 1] == NUL))
  }

  lemma FirstBad(msg: string) returns (n: nat)
    requires EndsEarly(msg) || Blocked(msg)
    ensures Bad(msg, n) && forall k :: 0 <= k < n ==> !Bad(msg, k)
  {
    var w: nat;
    if EndsEarly(msg) {
      w :| 0 <= w < |msg| && Ends(msg[..w]);
    } else {
      w :| 0 < w < |msg| && w % BLOCK == 0 && msg[w - 1] == NUL;
    }
    assert Bad(msg, w);
    hide Bad;
    n := 0;
    while !Bad(msg, n)
      invariant n <= w && forall k :: 0 <= k < n ==> !Bad(msg, k)
      decreases w - n
    {
      n := n + 1;
    }
  }

  lemma GoodBefore(msg: string, n: nat)
    requires Bad(msg, n) && forall k :: 0 <= k < n ==> !Bad(msg, k)
    ensures !EndsEarly(msg[..n]) && !Blocked(msg[..n])
  {
    forall k | 0 <= k < n
      ensures !Ends(msg[..n][..k])
    {
      assert msg[..n][..k] == msg[..k] && !Bad(msg, k);
    }
    forall k | 0 < k < n && k % BLOCK == 0
      ensures msg[..n][k - 1] != NUL
    {
      assert !Bad(msg, k);
    }
  }

  /** The bytes before the first bad one are collected. */
  lemma CollectsBefore(msg: string, n: nat)
    requires Bad(msg, n) && forall k :: 0 <= k < n ==> !Bad(msg, k)
    ensures FeedAll(Fresh([]), Bytes(msg[..n - 1])) == Framing(msg[..n - 1], Size(n - 1), [])
  {
    var front := msg[..n - 1];
    GoodBefore(msg, n);
    BytewiseReads(front);
    assert front <= msg[..n];
    Collects([], Bytes(front), msg[..n]);
  }

  /** The bad one makes a message that is none, or drops the client. */
  lemma BadByte(msg: string, n: nat)
    requires Bad(msg, n)
    ensures Feed(Framing(msg[..n - 1], Size(n - 1), []), [msg[n - 1]]) in {Fresh([msg[..n]]), Dropped([])}
  {
    assert msg[..n - 1] + [msg[n - 1]] == msg[..n];
    assert [] + [msg[..n]] == [msg[..n]];
    assert n % BLOCK == 0 ==> n == Size(n - 1);
    hide Ends;
  }

  lemma BytesAround(msg: string, n: nat)
    requires 0 < n <= |msg|
    ensures Bytes(msg) == Bytes(msg[..n - 1]) + ([[msg[n - 1]]] + Bytes(msg[n..]))
  {
  }

  /** What comes after a bad byte does not make it good. */
  lemma TooLate(msg: string, n: nat, after: Framing, rest: seq<string>)
    requires n < |msg| && after in {Fresh([msg[..n]]), Dropped([])}
    ensures FeedAll(after, rest) != Fresh([msg])
  {
    hide Feed, FeedAll;
    Stays(after, rest);
    if after.Framing? {
      assert FeedAll(after, rest).sent[0] == after.sent[0] == msg[..n];
    }
  }

  lemma FeedThrough(f: Framing, front: seq<string>, c: string, rest: seq<string>)
    ensures FeedAll(f, front + ([c] + rest)) == FeedAll(Feed(FeedAll(f, front), c), rest)
  {
    FeedAppend(f, front, [c] + rest);
    FeedAppend(FeedAll(f, front), [c], rest);
    OneFed(FeedAll(f, front), c);
    hide FeedAll, Feed;
  }

  /** Arriving byte by byte such a message is not what is passed on. */
  lemma Fails(msg: string, n: nat)
    requires Bad(msg, n) && forall k :: 0 <= k < n ==> !Bad(msg, k)
    ensures FeedAll(Fresh([]), Bytes(msg)) != Fresh([msg])
  {
    hide Ends, Size, Feed, FeedAll, Bytes, Fresh;
    var front, c := msg[..n - 1], [msg[n - 1]];
    BytesAround(msg, n);
    CollectsBefore(msg, n);
    BadByte(msg, n);
    FeedThrough(Fresh([]), Bytes(front), c, Bytes(msg[n..]));
    TooLate(msg, n, Feed(Framing(front, Size(n - 1), []), c), Bytes(msg[n..]));
  }

  lemma OneFed(f: Framing, chunk: string)
    ensures FeedAll(f, [chunk]) == Feed(f, chunk)
  {
    assert [chunk][..0] == [];
  }

  /**
   What is passed on is the message, in whatever reads it arrives, exactly when it does not end early and no
   NUL fills the buffer.
   */
  lemma ChunkingDoesNotMatter(msg: string)
    requires Ends(msg)
    ensures (forall chunks :: Chunking(chunks, msg) ==> FeedAll(Fresh([]), chunks) == Fresh([msg]))
      <==> !EndsEarly(msg) && !Blocked(msg)
  {
    if EndsEarly(msg) || Blocked(msg) {
      var n := FirstBad(msg);
      Fails(msg, n);
      BytewiseReads(msg);
      assert Chunking(Bytes(msg), msg);
    } else {
      forall chunks | Chunking(chunks, msg)
        ensures FeedAll(Fresh([]), chunks) == Fresh([msg])
      {
        Dispatches([], chunks, msg);
        assert [] + [msg] == [msg];
      }
    }
  }

  // ----- one message after the other

  /** The same with other messages passed on before. */
  function After(sent: seq<string>, f: Framing): Framing { f.(sent := sent + f.sent) }

  lemma FeedAfter(sent: seq<string>, f: Framing, chunk: string)
    ensures Feed(After(sent, f), chunk) == After(sent, Feed(f, chunk))
  {
    if f.Framing? {
      var s := f.pending + chunk;
      assert sent + f.sent + [s] == sent + (f.sent + [s]);
    }
  }

  lemma {:induction false} ReadsAfter(sent: seq<string>, f: Framing, chunks: seq<string>)
    ensures FeedAll(After(sent, f), chunks) == After(sent, FeedAll(f, chunks))
    ensures Reads(After(sent, f), chunks) <==> Reads(f, chunks)
  {
    hide Feed;
    if chunks != [] {
      ReadsAfter(sent, f, chunks[..|chunks| - 1]);
      FeedAfter(sent, FeedAll(f, chunks[..|chunks| - 1]), chunks[|chunks| - 1]);
    }
  }

  function Flatten(chunkings: seq<seq<string>>): seq<string> {
    if chunkings == [] then [] else Flatten(chunkings[..|chunkings| - 1]) + chunkings[|chunkings| - 1]
  }

  /** A message that arrives in these reads, complete when and only when all of it is there. */
  ghost predicate Proper(chunks: seq<string>, msg: string) {
    Chunking(chunks, msg) && Ends(msg) && !EndsEarly(msg) && !Blocked(msg)
  }

  lemma OneMore(sent: seq<string>, chunks: seq<string>, msg: string)
    requires Proper(chunks, msg)
    ensures FeedAll(Fresh(sent), chunks) == Fresh(sent + [msg])
  {
    ReadsAfter(sent, Fresh([]), chunks);
    assert sent + [] == sent;
    Dispatches(sent, chunks, msg);
  }

  /** A client that sends one message after the other has every one of them passed on, in order. */
  lemma {:induction false} Conversation(chunkings: seq<seq<string>>, msgs: seq<string>)
    requires |chunkings| == |msgs| && forall k :: 0 <= k < |msgs| ==> Proper(chunkings[k], msgs[k])
    ensures FeedAll(Fresh([]), Flatten(chunkings)) == Fresh(msgs)
  {
    hide Proper, Feed;
    if msgs != [] {
      var n := |msgs| - 1;
      Conversation(chunkings[..n], msgs[..n]);
      FeedAppend(Fresh([]), Flatten(chunkings[..n]), chunkings[n]);
      hide FeedAll;
      OneMore(msgs[..n], chunkings[n], msgs[n]);
      assert msgs[..n] + [msgs[n]] == msgs;
    }
  }

  // ----- the loop itself

  /** The local variables of `handleClient`. */
  class Reader {
    var buf: array<char>
    var ptr: nat
    var buflen: nat
    var ptrlen: nat
    var msglen: nat

    ghost predicate Valid()
      reads this, buf
    {
      && 0 < buflen == buf.Length
      && ptr == msglen
      && ptrlen == buflen - msglen
      && forall k :: msglen <= k < buflen ==> buf[k] == NUL
    }

    ghost function Pending(): string
      requires Valid()
      reads this, buf
    {
      buf[..msglen]
    }

    constructor ()
      ensures Valid() && Pending() == "" && ptrlen == BLOCK && fresh(buf)
    {
      buf := new char[BLOCK](_ => NUL);
      ptr, buflen, ptrlen, msglen := 0, BLOCK, BLOCK, 0;
    }

    method Reset()
      modifies this
      ensures Valid() && Pending() == "" && ptrlen == BLOCK && fresh(buf)
    {
      buf := new char[BLOCK](_ => NUL);
      ptr, buflen, ptrlen, msglen := 0, BLOCK, BLOCK, 0;
    }

    /** `realloc`: what the buffer held, and room for `more`. */
    method Enlarged(more: nat) returns (larger: array<char>)
      requires buflen == buf.Length
      ensures fresh(larger) && larger.Length == buflen + more && larger[..buflen] == buf[..]
    {
      larger := new char[buflen + more];
      for i := 0 to buflen
        invariant larger[..i] == buf[..i]
      {
        larger[i] := buf[i];
      }
    }

    /** The bytes that `read` puts at `ptr`. */
    method Store(chunk: string)
      requires Valid() && |chunk| <= ptrlen
      modifies buf, this`msglen
      ensures msglen == old(msglen) + |chunk|
      ensures buf[..msglen] == old(buf[..msglen]) + chunk
      ensures forall k :: msglen <= k < buf.Length ==> buf[k] == NUL
    {
      for i := 0 to |chunk|
        invariant msglen == old(msglen) && buf[..msglen] == old(buf[..msglen])
        invariant buf[msglen..msglen + i] == chunk[..i]
        invariant forall k :: msglen + i <= k < buf.Length ==> buf[k] == NUL
      {
        buf[ptr + i] := chunk[i];
      }
      assert buf[..msglen + |chunk|] == buf[..msglen] + buf[msglen..msglen + |chunk|];
      msglen := msglen + |chunk|;
    }

    /** A buffer that holds a whole message is made to end in NUL, and a new one takes its place. */
    method Complete(ghost all: string) returns (ready: array<char>)
      requires msglen <= buflen == buf.Length && buf[..msglen] == all
      requires forall k :: msglen <= k < buflen ==> buf[k] == NUL
      modifies this
      ensures Valid() && Pending() == "" && ptrlen == BLOCK && fresh(buf)
      ensures (ready == old(buf) || fresh(ready)) && ready != buf
      ensures |all| < ready.Length && ready[..|all|] == all && ready[|all|] == NUL
    {
      ready := buf;
      if buflen == msglen {
        ready := Enlarged(1);
        ready[buflen] := NUL;
        assert ready[..buflen] == buf[..];
      }
      Reset();
    }

    /** The bytes stay; a full buffer grows by a block. */
    method Continue(n: nat)
      requires 0 < msglen <= buflen == buf.Length && ptr + n == msglen && ptrlen == buflen - ptr
      requires forall k :: msglen <= k < buflen ==> buf[k] == NUL
      modifies this
      ensures Valid() && Pending() == old(buf[..msglen]) && (buf == old(buf) || fresh(buf))
      ensures buflen == old(if buflen == msglen && buf[msglen - 1] != NUL then buflen + BLOCK else buflen)
    {
      if buf[buflen - 1] != NUL {
        ghost var was := buf[..];
        buf := Enlarged(BLOCK);
        ptr := buflen;
        buflen := buflen + BLOCK;
        ptrlen := BLOCK;
        ghost var kept := buf[..ptr];
        Wipe(buf, ptr, ptrlen);
        assert buf[..ptr] == kept == was;
      } else {
        ptr := ptr + n;
        ptrlen := ptrlen - n;
      }
    }

    /** What the local variables stand for: with no room left the next read has length zero. */
    ghost function Stands(sent: seq<string>): Framing
      requires Valid()
      reads this, buf
    {
      if ptrlen == 0 then Dropped(sent) else Framing(Pending(), buflen, sent)
    }

    /** The rest of the loop after a read that returned `chunk`; `ready` is the buffer of a complete message. */
    method OnRead(chunk: string, ghost sent: seq<string>) returns (ready: array?<char>)
      requires Valid() && 0 < |chunk| <= ptrlen
      modifies this, buf
      ensures Valid() && (buf == old(buf) || fresh(buf))
      ensures ready != null <==> Ends(old(Pending()) + chunk)
      ensures Stands(if ready != null then sent + [old(Pending()) + chunk] else sent) == Feed(old(Stands(sent)), chunk)
      ensures ready != null ==>
                && (ready == old(buf) || fresh(ready)) && ready != buf
                && |old(Pending()) + chunk| < ready.Length
                && ready[..|old(Pending()) + chunk|] == old(Pending()) + chunk
                && ready[|old(Pending()) + chunk|] == NUL
    {
      ghost var all := Pending() + chunk;
      var n := |chunk|;
      Store(chunk);
      assert msglen > 5 ==> all[|all| - 5..] == buf[ptr + n - 5..ptr + n];
      assert buf[msglen - 1] == all[msglen - 1];
      ready := null;
      if msglen > 5 && buf[ptr + n - 5..ptr + n] == TERM {
        ready := Complete(all);
      } else {
        Continue(n);
      }
    }
  }

  /**
   Reads of any size until a message is complete, or one of length zero drops the client: that happens
   exactly when a NUL fills the buffer. What is handed on is the message as a C string.
   */
  method ReadMessage(reader: Reader, stream: string) returns (ready: array?<char>)
    requires reader.Valid() && reader.Stands([]) == Fresh([])
    requires Ends(stream) && !EndsEarly(stream)
    modifies reader, reader.buf
    ensures reader.Valid()
    ensures ready != null <==> !Blocked(stream)
    ensures ready == null ==> reader.ptrlen == 0
    ensures ready != null ==> Holds(ready[..], 0, CStr(stream, 0)) && reader.Stands([]) == Fresh([])
    ensures ready != null ==> (ready == old(reader.buf) || fresh(ready)) && ready != reader.buf
    ensures reader.buf == old(reader.buf) || fresh(reader.buf)
  {
    hide Feed, EndsEarly, Ends, Holds;
    ready := null;
    var at := 0;
    SomethingEnds(stream);
    assert stream[..0] == "" && Size(0) == BLOCK;
    while ready == null && reader.ptrlen > 0
      invariant reader.Valid()
      invariant reader.buf == old(reader.buf) || fresh(reader.buf)
      invariant at <= |stream| && (ready == null ==> at < |stream|)
      invariant ready == null && reader.ptrlen > 0 ==>
                  reader.Stands([]) == Framing(stream[..at], Size(at), []) && Clear(stream, at)
      invariant reader.ptrlen == 0 ==> ready == null && Blocked(stream)
      invariant ready != null ==> !Blocked(stream) && reader.Stands([]) == Fresh([])
      invariant ready != null ==> Holds(ready[..], 0, CStr(stream, 0))
      invariant ready != null ==> (ready == old(reader.buf) || fresh(ready)) && ready != reader.buf
      decreases |stream| - at, if ready == null && reader.ptrlen > 0 then 1 else 0
    {
      var n :| 0 < n <= reader.ptrlen && at + n <= |stream|;
      OneRead(stream, at, at + n);
      ready := reader.OnRead(stream[at..at + n], []);
      at := at + n;
      if ready != null {
        HoldsItsCStr(ready[..], stream);
      }
    }
  }

  lemma SomethingEnds(msg: string)
    requires Ends(msg)
    ensures |msg| > 0
  {
  }
}
