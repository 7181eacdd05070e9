/**
 Texts and the lines they are made of: `implode`, `explode` and `str_replace` as PHP has them, `strstr`
 as C has it, and where a line of a given content stands in a text whose lines end in CRLF.
 */
module Lines {

  const CRLF := "\r\n"

  /** `pat` stands in `s` at index `i`. */
  predicate At(s: string, i: int, pat: string) {
    0 <= i && i + |pat| <= |s| && s[i..i + |pat|] == pat
  }

  /** `strstr`: the first index of `pat` in `s`, -1 if there is none. */
  function Find(s: string, pat: string): (r: int)
    ensures -1 <= r <= |s|
  {
    if |s| < |pat| then -1
    else if s[..|pat|] == pat then 0
    else if s == "" then -1
    else
      var r := Find(s[1..], pat);
      if r < 0 then -1 else r + 1
  }

  lemma {:induction false} FindFirst(s: string, pat: string)
    ensures Find(s, pat) >= 0 ==> At(s, Find(s, pat), pat)
    ensures forall i :: At(s, i, pat) ==> 0 <= Find(s, pat) <= i
  {
    if |s| >= |pat| && s[..|pat|] != pat && s != "" {
      FindFirst(s[1..], pat);
      forall i | At(s, i, pat)
        ensures 0 <= Find(s, pat) <= i
      {
        assert i > 0;
        assert s[1..][i - 1..i - 1 + |pat|] == s[i..i + |pat|];
        assert At(s[1..], i - 1, pat);
      }
      var r := Find(s[1..], pat);
      if r >= 0 {
        assert s[1..][r..r + |pat|] == s[r + 1..r + 1 + |pat|];
      }
    }
  }

  lemma FindIs(s: string, pat: string, i: int)
    requires At(s, i, pat) && forall j :: At(s, j, pat) ==> i <= j
    ensures Find(s, pat) == i
  {
    FindFirst(s, pat);
  }

  // ----- implode, explode, str_replace

  function Join(sep: string, parts: seq<string>): string
    requires parts != []
  {
    if |parts| == 1 then parts[0] else parts[0] + sep + Join(sep, parts[1..])
  }

  function Split(sep: string, s: string): (parts: seq<string>)
    requires sep != ""
    ensures parts != []
  {
    if s == "" then [""]
    else if At(s, 0, sep) then [""] + Split(sep, s[|sep|..])
    else
      var parts := Split(sep, s[1..]);
      [[s[0]] + parts[0]] + parts[1..]
  }

  function Replace(search: string, rep: string, s: string): string
    requires search != ""
  {
    if s == "" then ""
    else if At(s, 0, search) then rep + Replace(search, rep, s[|search|..])
    else [s[0]] + Replace(search, rep, s[1..])
  }

  lemma JoinCons(sep: string, p: string, parts: seq<string>)
    requires parts != []
    ensures Join(sep, [p] + parts) == p + sep + Join(sep, parts)
  {
    assert ([p] + parts)[1..] == parts;
  }

  lemma {:induction false} JoinAppend(sep: string, a: seq<string>, b: seq<string>)
    requires a != [] && b != []
    ensures Join(sep, a + b) == Join(sep, a) + sep + Join(sep, b)
  {
    if |a| == 1 {
      assert a + b == [a[0]] + b;
      JoinCons(sep, a[0], b);
    } else {
      JoinAppend(sep, a[1..], b);
      assert a + b == [a[0]] + (a[1..] + b);
      JoinCons(sep, a[0], a[1..] + b);
    }
  }

  lemma JoinExtendsFirst(sep: string, c: char, parts: seq<string>)
    requires parts != []
    ensures Join(sep, [[c] + parts[0]] + parts[1..]) == [c] + Join(sep, parts)
  {
    var longer := [[c] + parts[0]] + parts[1..];
    if |parts| > 1 {
      assert longer[1..] == parts[1..];
      assert [c] + parts[0] + sep + Join(sep, parts[1..]) == [c] + (parts[0] + sep + Join(sep, parts[1..]));
    }
  }

  /** Replacing is splitting at the one text and joining with the other. */
  lemma {:induction false} ReplaceIsSplitJoin(search: string, rep: string, s: string)
    requires search != ""
    ensures Replace(search, rep, s) == Join(rep, Split(search, s))
  {
    if s != "" {
      if At(s, 0, search) {
        ReplaceIsSplitJoin(search, rep, s[|search|..]);
        JoinCons(rep, "", Split(search, s[|search|..]));
      } else {
        ReplaceIsSplitJoin(search, rep, s[1..]);
        JoinExtendsFirst(rep, s[0], Split(search, s[1..]));
      }
    }
  }

  lemma {:induction false} JoinOfSplit(sep: string, s: string)
    requires sep != ""
    ensures Join(sep, Split(sep, s)) == s
  {
    if s != "" {
      if At(s, 0, sep) {
        JoinOfSplit(sep, s[|sep|..]);
        JoinCons(sep, "", Split(sep, s[|sep|..]));
        assert s == s[..|sep|] + s[|sep|..];
      } else {
        JoinOfSplit(sep, s[1..]);
        JoinExtendsFirst(sep, s[0], Split(sep, s[1..]));
        assert s == [s[0]] + s[1..];
      }
    }
  }

  // ----- lines that end in CRLF

  predicate CrlfAt(s: string, i: int) {
    0 <= i && i + 1 < |s| && s[i] == '\r' && s[i + 1] == '\n'
  }

  lemma CrlfIsAt(s: string, i: int)
    ensures CrlfAt(s, i) <==> At(s, i, CRLF)
  {
    if 0 <= i && i + 2 <= |s| {
      assert s[i..i + 2] == [s[i], s[i + 1]];
    }
  }

  /** No CRLF inside. */
  ghost predicate OneLine(p: string) {
    forall i :: !CrlfAt(p, i)
  }

  ghost predicate AllOneLine(lines: seq<string>) {
    forall k :: 0 <= k < |lines| ==> OneLine(lines[k])
  }

  lemma TailOneLine(p: string)
    requires p != ""
    ensures OneLine(p) <==> OneLine(p[1..]) && !CrlfAt(p, 0)
  {
    var q := p[1..];
    if OneLine(p) {
      forall i
        ensures !CrlfAt(q, i)
      {
        assert !CrlfAt(p, i + 1);
      }
    } else {
      var i :| CrlfAt(p, i);
      assert i > 0 ==> CrlfAt(q, i - 1);
    }
  }

  /** The first CRLF after a line is the one that ends it. */
  lemma LineEndsFirst(p: string, rest: string, i: int)
    requires OneLine(p) && CrlfAt(p + CRLF + rest, i)
    ensures i >= |p|
  {
    assert !CrlfAt(p, i);
  }

  lemma {:induction false} SplitOneLine(p: string)
    requires OneLine(p)
    ensures Split(CRLF, p) == [p]
  {
    if p != "" {
      CrlfIsAt(p, 0);
      TailOneLine(p);
      SplitOneLine(p[1..]);
      SplitPrepends(p, p[1..], []);
      assert [p[0]] + p[1..] == p;
    }
  }

  lemma {:induction false} SplitAtFirst(p: string, rest: string)
    requires OneLine(p)
    ensures Split(CRLF, p + CRLF + rest) == [p] + Split(CRLF, rest)
  {
    var s := p + CRLF + rest;
    CrlfIsAt(s, 0);
    if p == "" {
      assert s[2..] == rest;
    } else {
      TailOneLine(p);
      assert s[1..] == p[1..] + CRLF + rest;
      if CrlfAt(s, 0) {
        LineEndsFirst(p, rest, 0);
      }
      SplitAtFirst(p[1..], rest);
      SplitPrepends(s, p[1..], Split(CRLF, rest));
      assert [s[0]] + p[1..] == p;
    }
  }

  lemma SplitPrepends(s: string, p: string, parts: seq<string>)
    requires s != "" && !At(s, 0, CRLF) && Split(CRLF, s[1..]) == [p] + parts
    ensures Split(CRLF, s) == [[s[0]] + p] + parts
  {
    var rest := Split(CRLF, s[1..]);
    assert rest[0] == p && rest[1..] == parts;
  }

  /** Splitting undoes joining on lines that hold no CRLF. */
  lemma {:induction false} SplitOfJoin(lines: seq<string>)
    requires lines != [] && AllOneLine(lines)
    ensures Split(CRLF, Join(CRLF, lines)) == lines
  {
    if |lines| == 1 {
      SplitOneLine(lines[0]);
    } else {
      SplitAtFirst(lines[0], Join(CRLF, lines[1..]));
      SplitOfJoin(lines[1..]);
    }
  }

  lemma SplitBegins(s: string)
    ensures Split(CRLF, s)[0] <= s
  {
    JoinOfSplit(CRLF, s);
  }

  lemma {:induction false} SplitIsOneLine(s: string)
    ensures AllOneLine(Split(CRLF, s))
  {
    if s != "" {
      if At(s, 0, CRLF) {
        SplitIsOneLine(s[2..]);
      } else {
        var parts := Split(CRLF, s[1..]);
        SplitIsOneLine(s[1..]);
        SplitBegins(s[1..]);
        var p := [s[0]] + parts[0];
        assert p[1..] == parts[0];
        TailOneLine(p);
        CrlfIsAt(s, 0);
        assert CrlfAt(p, 0) ==> CrlfAt(s, 0);
      }
    }
  }

  // ----- where a line of given content stands

  /** `i` is where the CRLF before an inner line `x` stands. */
  predicate Hits(lines: seq<string>, x: string, i: int) {
    |lines| >= 3 &&
    if i == |lines[0]| then lines[1] == x
    else i >= |lines[0]| + 2 && Hits(lines[1..], x, i - |lines[0]| - 2)
  }

  /** A text starts with the line `x` exactly when its first line is `x` and another follows. */
  lemma {:induction false} StartsWithLine(lines: seq<string>, x: string)
    requires lines != [] && AllOneLine(lines) && OneLine(x)
    ensures At(Join(CRLF, lines), 0, x + CRLF) <==> |lines| >= 2 && lines[0] == x
  {
    var t := Join(CRLF, lines);
    if |lines| >= 2 {
      SameLine(lines[0], Join(CRLF, lines[1..]), x);
    } else if At(t, 0, x + CRLF) {
      assert CrlfAt(x + CRLF, |x|);
      assert t[..|x| + 2] == x + CRLF;
      assert CrlfAt(t, |x|);
    }
  }

  lemma SameLine(q: string, rest: string, x: string)
    requires OneLine(q) && OneLine(x)
    ensures At(q + CRLF + rest, 0, x + CRLF) <==> q == x
  {
    var t := q + CRLF + rest;
    if At(t, 0, x + CRLF) {
      assert t == x + CRLF + t[|x| + 2..];
      assert CrlfAt(t, |x|) && CrlfAt(t, |q|);
      LineEndsFirst(q, rest, |x|);
      LineEndsFirst(x, t[|x| + 2..], |q|);
      assert x == t[..|x|] == q;
    }
  }

  /** A line stands in a text, CRLF before and after, exactly where an inner line has that content. */
  lemma {:induction false} Occurrences(lines: seq<string>, x: string, i: int)
    requires lines != [] && AllOneLine(lines) && OneLine(x)
    ensures At(Join(CRLF, lines), i, CRLF + x + CRLF) <==> Hits(lines, x, i)
  {
    var s := Join(CRLF, lines);
    var pat := CRLF + x + CRLF;
    if At(s, i, pat) {
      StartsWithCrlf(s, i, x);
    }
    if |lines| >= 2 {
      var p, t := lines[0], Join(CRLF, lines[1..]);
      if i == |p| {
        StartsWithLine(lines[1..], x);
        AtAfterLineEnd(p, t, x);
      } else if i >= |p| + 2 {
        Occurrences(lines[1..], x, i - |p| - 2);
        AtShift(p + CRLF, t, pat, i);
      } else if CrlfAt(s, i) {
        LineEndsFirst(p, t, i);
      }
    }
  }

  lemma StartsWithCrlf(s: string, i: int, x: string)
    requires At(s, i, CRLF + x + CRLF)
    ensures CrlfAt(s, i)
  {
    var found := s[i..i + |x| + 4];
    assert found[0] == '\r' && found[1] == '\n';
  }

  lemma AtShift(p: string, t: string, pat: string, i: int)
    requires i >= |p|
    ensures At(p + t, i, pat) <==> At(t, i - |p|, pat)
  {
    if i + |pat| <= |p + t| {
      assert (p + t)[i..i + |pat|] == t[i - |p|..i - |p| + |pat|];
    }
  }

  lemma AtAfterLineEnd(p: string, t: string, x: string)
    ensures At(p + CRLF + t, |p|, CRLF + x + CRLF) <==> At(t, 0, x + CRLF)
  {
    AtShift(p, CRLF + t, CRLF + x + CRLF, |p|);
    assert p + CRLF + t == p + (CRLF + t);
    var n := |x| + 2;
    if n <= |t| {
      assert (CRLF + t)[..n + 2] == CRLF + t[..n];
      assert CRLF + x + CRLF == CRLF + (x + CRLF);
      assert (CRLF + t[..n])[2..] == t[..n];
      assert (CRLF + (x + CRLF))[2..] == x + CRLF;
    }
  }

  /** The first inner line `x`, after `before`, is where the text up to it ends. */
  lemma {:induction false} FirstHit(before: seq<string>, x: string, after: seq<string>)
    requires before != [] && after != [] && x !in before[1..]
    ensures Hits(before + [x] + after, x, |Join(CRLF, before)|)
    ensures forall i :: Hits(before + [x] + after, x, i) ==> |Join(CRLF, before)| <= i
  {
    var all := before + [x] + after;
    if |before| > 1 {
      FirstHit(before[1..], x, after);
      assert all[1..] == before[1..] + [x] + after;
    }
  }

  /** Texts without CR hold no CRLF, and neither do texts without LF. */
  lemma NoLfOneLine(p: string)
    requires '\n' !in p
    ensures OneLine(p)
  {
  }
}
