/** C strings: characters in memory up to a NUL. */
module CStrings {
  import opened Lines

  const NUL := '\0'

  /** The C string at `o` is `w`. */
  predicate Holds(s: string, o: nat, w: string) {
    o + |w| < |s| && s[o..o + |w|] == w && s[o + |w|] == NUL && NUL !in w
  }

  function CStr(s: string, o: nat): (w: string)
    requires o <= |s|
    ensures |w| <= |s| - o
    decreases |s| - o
  {
    if o == |s| || s[o] == NUL then "" else [s[o]] + CStr(s, o + 1)
  }

  lemma {:induction false} HoldsIsCStr(s: string, o: nat, w: string)
    requires Holds(s, o, w)
    ensures CStr(s, o) == w
    decreases |w|
  {
    if w != "" {
      assert s[o] == s[o..o + |w|][0];
      assert s[o + 1..o + |w|] == w[1..];
      HoldsIsCStr(s, o + 1, w[1..]);
    }
  }

  /** A string is still there if the memory it takes is unchanged. */
  lemma StillHolds(s: string, t: string, o: nat, w: string)
    requires Holds(s, o, w) && |s| == |t|
    requires forall k :: o <= k <= o + |w| ==> t[k] == s[k]
    ensures Holds(t, o, w)
  {
    assert t[o..o + |w|] == s[o..o + |w|];
  }

  /** A NUL written into a string cuts it there; the rest still ends where the string did. */
  lemma CutHolds(s: string, t: string, o: nat, w: string, cut: nat, rest: nat)
    requires Holds(s, o, w) && |s| == |t| && cut <= rest <= |w|
    requires forall k :: o <= k < o + cut || o + rest <= k <= o + |w| ==> t[k] == s[k]
    requires t[o + cut] == NUL
    ensures Holds(t, o, w[..cut]) && Holds(t, o + rest, w[rest..])
  {
    assert t[o..o + cut] == s[o..o + |w|][..cut];
    assert t[o + rest..o + |w|] == s[o..o + |w|][rest..];
  }

  /** `strstr` on the C string at `o`. */
  method StrStr(buf: array<char>, o: nat, pat: string, ghost w: string) returns (r: int)
    requires Holds(buf[..], o, w)
    ensures r == Find(w, pat)
  {
    HoldsIsCStr(buf[..], o, w);
    r := Find(CStr(buf[..], o), pat);
  }

  /** `memset` with zero. */
  method Wipe(buf: array<char>, at: nat, n: nat)
    requires at + n <= buf.Length
    modifies buf
    ensures forall k :: 0 <= k < buf.Length ==> buf[k] == if at <= k < at + n then NUL else old(buf[k])
  {
    for i := 0 to n
      invariant forall k :: 0 <= k < buf.Length ==> buf[k] == if at <= k < at + i then NUL else old(buf[k])
    {
      buf[at + i] := NUL;
    }
  }

  lemma {:induction false} CStrOfPrefix(s: string, t: string, o: nat)
    requires o <= |s| < |t| && t[..|s|] == s && t[|s|] == NUL
    ensures CStr(t, o) == CStr(s, o)
    decreases |s| - o
  {
    if o < |s| {
      assert t[o] == t[..|s|][o];
      CStrOfPrefix(s, t, o + 1);
    }
  }

  lemma {:induction false} CStrWhole(s: string, o: nat)
    requires o <= |s| && NUL !in s
    ensures CStr(s, o) == s[o..]
    decreases |s| - o
  {
    if o < |s| {
      CStrWhole(s, o + 1);
    }
  }

  /** A C string is a prefix of what it stands in, and holds no NUL. */
  lemma {:induction false} CStrIsPrefix(s: string)
    ensures CStr(s, 0) <= s && NUL !in CStr(s, 0)
    ensures NUL !in s <==> CStr(s, 0) == s
  {
    CStrFrom(s, 0);
    assert s[0..] == s;
  }

  lemma {:induction false} CStrFrom(s: string, o: nat)
    requires o <= |s|
    ensures var w := CStr(s, o); w == s[o..o + |w|] && NUL !in w && (o + |w| < |s| ==> s[o + |w|] == NUL)
    decreases |s| - o
  {
    if o < |s| && s[o] != NUL {
      CStrFrom(s, o + 1);
    }
  }

  /** A front without NUL stays in front. */
  lemma {:induction false} CStrAfterFront(front: string, s: string, o: nat)
    requires NUL !in front && o <= |front|
    ensures CStr(front + s, o) == front[o..] + CStr(s, 0)
    decreases |front| - o
  {
    if o < |front| {
      CStrAfterFront(front, s, o + 1);
    } else {
      CStrSkips(front, s, 0);
      assert front[o..] == "";
    }
  }

  lemma {:induction false} CStrSkips(front: string, s: string, o: nat)
    requires o <= |s|
    ensures CStr(front + s, |front| + o) == CStr(s, o)
    decreases |s| - o
  {
    if o < |s| {
      CStrSkips(front, s, o + 1);
    }
  }

  /** A buffer that ends in NUL behind a text holds the C string of that text. */
  lemma HoldsItsCStr(buf: string, text: string)
    requires |text| < |buf| && buf[..|text|] == text && buf[|text|] == NUL
    ensures Holds(buf, 0, CStr(text, 0))
  {
    CStrFrom(text, 0);
    var w := CStr(text, 0);
    assert buf[0..|w|] == text[..|w|];
  }
}
