/** A configuration file that is written down plainly, and that the parser reads it back. */
module IniText {
  import opened CStrings
  import opened Ini

  /** Sections with their items, as they stand in the file. */
  datatype Block = Block(title: string, items: seq<Item>)

  datatype Item = Item(name: string, value: string)

  function ItemLine(i: Item): string { i.name + " = " + i.value }

  function TitleLine(title: string): string { "[" + title + "]" }

  function ItemsText(items: seq<Item>): string {
    if items == [] then "" else ItemLine(items[0]) + "\n" + ItemsText(items[1..])
  }

  function FileText(blocks: seq<Block>): string {
    if blocks == [] then ""
    else TitleLine(blocks[0].title) + "\n" + ItemsText(blocks[0].items) + FileText(blocks[1..])
  }

  function ItemCalls(title: string, items: seq<Item>): seq<Call> {
    if items == [] then [] else [Call(title, items[0].name, items[0].value)] + ItemCalls(title, items[1..])
  }

  function FileCalls(blocks: seq<Block>): seq<Call> {
    if blocks == [] then [] else ItemCalls(blocks[0].title, blocks[0].items) + FileCalls(blocks[1..])
  }

  // ----- what may be written so

  /** No line end, no NUL, and no semicolon after white space. */
  predicate Sober(s: string) {
    && '\n' !in s && NUL !in s
    && forall k :: 0 < k < |s| && s[k] == ';' ==> !IsSpace(s[k - 1])
  }

  predicate Bare(s: string) { s == "" || (!IsSpace(s[0]) && !IsSpace(s[|s| - 1])) }

  predicate CleanTitle(title: string) {
    Sober(title) && ']' !in title && |title| < MAX_SECTION && (title != "" ==> title[0] != NUL)
  }

  predicate CleanItem(i: Item) {
    && Sober(i.name) && Bare(i.name) && i.name != ""
    && '=' !in i.name && ':' !in i.name && i.name[0] !in ";#["
    && Sober(i.value) && Bare(i.value)
    && |ItemLine(i)| < MAX_LINE - 1
  }

  predicate Clean(blocks: seq<Block>) {
    forall k :: 0 <= k < |blocks| ==>
      CleanTitle(blocks[k].title) && forall j :: 0 <= j < |blocks[k].items| ==> CleanItem(blocks[k].items[j])
  }

  // ----- the helpers on such text

  lemma RStripKeeps(s: string)
    requires s == "" || !IsSpace(s[|s| - 1])
    ensures RStripped(s) == s
  {
  }

  lemma RStripDrops(s: string, c: char)
    requires IsSpace(c)
    ensures RStripped(s + [c]) == RStripped(s)
  {
    assert (s + [c])[..|s|] == s;
  }

  lemma {:induction false} SpaceSkipped(space: string, s: string)
    requires AllSpace(space) && (s == "" || !IsSpace(s[0]))
    ensures LSkipped(space + s) == s
  {
    hide IsSpace;
    if space == "" {
      assert space + s == s;
    } else {
      assert (space + s)[1..] == space[1..] + s;
      SpaceSkipped(space[1..], s);
    }
  }

  lemma {:induction false} SpaceDropped(s: string, space: string)
    requires AllSpace(space) && (s == "" || !IsSpace(s[|s| - 1]))
    ensures RStripped(s + space) == s
  {
    hide IsSpace;
    if space == "" {
      assert s + space == s;
    } else {
      assert (s + space)[..|s| + |space| - 1] == s + space[..|space| - 1];
      SpaceDropped(s, space[..|space| - 1]);
    }
  }

  predicate Stops(s: string, c: char, k: nat)
    requires k < |s|
  {
    s[k] == c || (k > 0 && IsSpace(s[k - 1]) && s[k] == ';')
  }

  lemma {:induction false} StopIs(s: string, c: char, i: nat, r: nat)
    requires i <= r <= |s| && (r < |s| ==> Stops(s, c, r))
    requires forall k :: i <= k < r ==> !Stops(s, c, k)
    ensures Stop(s, c, i) == r
    decreases r - i
  {
    if i < r {
      assert !Stops(s, c, i);
      StopIs(s, c, i + 1, r);
    }
  }

  lemma TitleParsed(title: string)
    requires CleanTitle(title)
    ensures SectionOf(TitleLine(title)) == Section(title)
    ensures LSkipped(RStripped(TitleLine(title) + "\n")) == RStripped(TitleLine(title) + "\n") == TitleLine(title)
  {
    var line := TitleLine(title);
    RStripDrops(line, '\n');
    RStripKeeps(line);
    var text := line[1..];
    assert text == title + "]";
    forall k | 0 <= k < |title|
      ensures !Stops(text, ']', k)
    {
      assert text[k] == title[k];
    }
    StopIs(text, ']', 0, |title|);
    assert text[..|title|] == title;
  }

  /** What is left of the line of an item once the white space is gone. */
  function Start(i: Item): string { if i.value == "" then i.name + " =" else ItemLine(i) }

  lemma ItemStripped(i: Item)
    requires CleanItem(i)
    ensures LSkipped(RStripped(ItemLine(i) + "\n")) == RStripped(ItemLine(i) + "\n") == Start(i)
  {
    RStripDrops(ItemLine(i), '\n');
    if i.value == "" {
      assert ItemLine(i) == i.name + " =" + " ";
      RStripDrops(i.name + " =", ' ');
    }
    RStripKeeps(Start(i));
  }

  lemma EqualsFound(i: Item)
    requires CleanItem(i)
    ensures Stop(Start(i), '=', 0) == |i.name| + 1
  {
    var s, n := Start(i), |i.name|;
    forall k | 0 <= k < n + 1
      ensures !Stops(s, '=', k)
    {
      assert k < n ==> s[k] == i.name[k];
      assert 0 < k < n ==> s[k - 1] == i.name[k - 1];
    }
    StopIs(s, '=', 0, n + 1);
  }

  lemma NameParsed(i: Item)
    requires CleanItem(i)
    ensures RStripped(Start(i)[..|i.name| + 1]) == i.name
  {
    assert Start(i)[..|i.name| + 1] == i.name + [' '];
    RStripDrops(i.name, ' ');
    RStripKeeps(i.name);
  }

  lemma ValueParsed(i: Item)
    requires CleanItem(i)
    ensures LSkipped(Start(i)[|i.name| + 2..]) == i.value
    ensures RStripped(i.value[..Stop(i.value, NUL, 0)]) == i.value
  {
    var v := i.value;
    assert Start(i)[|i.name| + 2..] == if v == "" then "" else [' '] + v;
    assert ([' '] + v)[1..] == v;
    forall k | 0 <= k < |v|
      ensures !Stops(v, NUL, k)
    {
    }
    StopIs(v, NUL, 0, |v|);
    assert v[..|v|] == v;
    RStripKeeps(v);
  }

  lemma ItemParsed(i: Item)
    requires CleanItem(i)
    ensures PairOf(Start(i)) == Pair(i.name, i.value)
  {
    EqualsFound(i);
    assert Start(i)[|i.name| + 1] == '=';
    NameParsed(i);
    ValueParsed(i);
    hide Stop, RStripped, LSkipped, CleanItem;
  }

  // ----- the loop on such text

  /** The parser takes a line that is short enough at once. */
  lemma OneLineRead(s: State, line: string, rest: string, accepts: Call -> bool)
    requires '\n' !in line && NUL !in line && |line| < MAX_LINE - 1
    ensures Parsed(s, line + "\n" + rest, accepts) == Parsed(Next(s, line + "\n", accepts), rest, accepts)
  {
    hide Next;
    var text := line + "\n" + rest;
    var n := Chunk(text);
    assert n <= |line| + 1 by { assert text[|line|] == '\n'; }
    assert n == |line| + 1 by { assert forall k :: 0 <= k < |line| ==> text[k] == line[k]; }
    assert text[..n] == line + "\n" && text[n..] == rest;
    CStrWhole(line + "\n", 0);
    assert (line + "\n")[0..] == line + "\n";
  }

  lemma TitleRead(s: State, title: string, accepts: Call -> bool)
    requires CleanTitle(title)
    ensures Next(s, TitleLine(title) + "\n", accepts) == s.(section := title, prevName := "", lineno := s.lineno + 1)
  {
    hide SectionOf, PairOf, LSkipped, RStripped;
    TitleParsed(title);
  }

  lemma ItemRead(s: State, i: Item, accepts: Call -> bool)
    requires CleanItem(i) && s.lineno > 0
    ensures var t := s.(prevName := Bounded(i.name, MAX_NAME), lineno := s.lineno + 1);
      Next(s, ItemLine(i) + "\n", accepts) == Handled(t, Call(s.section, i.name, i.value), accepts)
  {
    hide SectionOf, PairOf, LSkipped, RStripped, Bounded, Handled;
    ItemStripped(i);
    ItemParsed(i);
    assert Start(i)[0] == i.name[0];
  }

  predicate AllAccepted(calls: seq<Call>, accepts: Call -> bool) {
    forall k :: 0 <= k < |calls| ==> accepts(calls[k])
  }

  /** The calls grow by `calls`, and there is no error exactly if the handler takes all of them. */
  predicate Grown(s: State, t: State, calls: seq<Call>, accepts: Call -> bool) {
    && t.calls == s.calls + calls
    && t.lineno >= s.lineno >= 0
    && (t.error == 0 <==> s.error == 0 && AllAccepted(calls, accepts))
  }

  lemma AllAcceptedAppend(a: seq<Call>, b: seq<Call>, accepts: Call -> bool)
    ensures AllAccepted(a + b, accepts) <==> AllAccepted(a, accepts) && AllAccepted(b, accepts)
  {
    if AllAccepted(a + b, accepts) {
      forall k | 0 <= k < |a|
        ensures accepts(a[k])
      {
        assert (a + b)[k] == a[k];
      }
      forall k | 0 <= k < |b|
        ensures accepts(b[k])
      {
        assert (a + b)[|a| + k] == b[k];
      }
    }
  }

  lemma GrownTwice(s: State, t: State, u: State, a: seq<Call>, b: seq<Call>, accepts: Call -> bool)
    requires Grown(s, t, a, accepts) && Grown(t, u, b, accepts)
    ensures Grown(s, u, a + b, accepts)
  {
    hide AllAccepted;
    AllAcceptedAppend(a, b, accepts);
    assert u.calls == s.calls + (a + b);
  }

  lemma OneHandled(s: State, i: Item, accepts: Call -> bool)
    requires CleanItem(i) && s.lineno > 0
    ensures var t := Next(s, ItemLine(i) + "\n", accepts);
      t.section == s.section && t.lineno > 0 && Grown(s, t, [Call(s.section, i.name, i.value)], accepts)
  {
    hide Next, CleanItem;
    ItemRead(s, i, accepts);
    var calls := [Call(s.section, i.name, i.value)];
    assert calls[0] == Call(s.section, i.name, i.value);
  }

  lemma {:induction false} ItemsRead(s: State, items: seq<Item>, rest: string, accepts: Call -> bool)
      returns (t: State)
    requires s.lineno > 0 && forall j :: 0 <= j < |items| ==> CleanItem(items[j])
    ensures Parsed(s, ItemsText(items) + rest, accepts) == Parsed(t, rest, accepts)
    ensures t.lineno > 0 && Grown(s, t, ItemCalls(s.section, items), accepts)
    decreases |items|
  {
    hide Next, Grown, Parsed, ItemLine;
    if items == [] {
      t := s;
      assert "" + rest == rest;
      NothingGrown(s, accepts);
    } else {
      var u := Next(s, ItemLine(items[0]) + "\n", accepts);
      OneHandled(s, items[0], accepts);
      CleanLine(items[0]);
      OneLineRead(s, ItemLine(items[0]), ItemsText(items[1..]) + rest, accepts);
      assert ItemsText(items) + rest == ItemLine(items[0]) + "\n" + (ItemsText(items[1..]) + rest);
      t := ItemsRead(u, items[1..], rest, accepts);
      GrownTwice(s, u, t, [Call(s.section, items[0].name, items[0].value)], ItemCalls(s.section, items[1..]), accepts);
    }
  }

  lemma NothingGrown(s: State, accepts: Call -> bool)
    requires s.lineno >= 0
    ensures Grown(s, s, [], accepts)
  {
    assert s.calls + [] == s.calls;
  }

  lemma CleanLine(i: Item)
    requires CleanItem(i)
    ensures '\n' !in ItemLine(i) && NUL !in ItemLine(i) && |ItemLine(i)| < MAX_LINE - 1
  {
  }

  lemma TitleGrown(s: State, title: string, accepts: Call -> bool)
    requires CleanTitle(title) && s.lineno >= 0
    ensures var t := Next(s, TitleLine(title) + "\n", accepts);
      t.section == title && t.lineno > 0 && Grown(s, t, [], accepts)
  {
    hide Next;
    TitleRead(s, title, accepts);
    assert s.calls + [] == s.calls;
  }

  lemma {:induction false} BlocksRead(s: State, blocks: seq<Block>, accepts: Call -> bool)
    requires Clean(blocks) && s.lineno >= 0
    ensures Grown(s, Parsed(s, FileText(blocks), accepts), FileCalls(blocks), accepts)
    decreases |blocks|
  {
    hide Next, Grown, ItemsText, TitleLine, CleanTitle, CleanItem;
    if blocks == [] {
      NothingGrown(s, accepts);
    } else {
      var b, rest := blocks[0], FileText(blocks[1..]);
      var t := Next(s, TitleLine(b.title) + "\n", accepts);
      TitleGrown(s, b.title, accepts);
      TitleIsALine(b.title);
      OneLineRead(s, TitleLine(b.title), ItemsText(b.items) + rest, accepts);
      assert FileText(blocks) == TitleLine(b.title) + "\n" + (ItemsText(b.items) + rest);
      hide Parsed, FileText;
      var u := ItemsRead(t, b.items, rest, accepts);
      LaterClean(blocks);
      BlocksRead(u, blocks[1..], accepts);
      var v := Parsed(u, rest, accepts);
      GrownTwice(t, u, v, ItemCalls(b.title, b.items), FileCalls(blocks[1..]), accepts);
      GrownTwice(s, t, v, [], FileCalls(blocks), accepts);
      assert [] + FileCalls(blocks) == FileCalls(blocks);
      hide FileCalls, ItemCalls;
    }
  }

  lemma LaterClean(blocks: seq<Block>)
    requires Clean(blocks) && blocks != []
    ensures Clean(blocks[1..])
  {
    hide CleanTitle, CleanItem;
  }

  lemma TitleIsALine(title: string)
    requires CleanTitle(title)
    ensures '\n' !in TitleLine(title) && NUL !in TitleLine(title) && |TitleLine(title)| < MAX_LINE - 1
  {
  }

  /** Reading a clean file calls the handler with exactly the items written, in order. */
  lemma {:induction false} ReadsWhatIsWritten(blocks: seq<Block>, accepts: Call -> bool)
    requires Clean(blocks)
    ensures var end := Parsed(START, FileText(blocks), accepts);
      end.calls == FileCalls(blocks) && (end.error == 0 <==> AllAccepted(FileCalls(blocks), accepts))
  {
    BlocksRead(START, blocks, accepts);
    assert [] + FileCalls(blocks) == FileCalls(blocks);
  }
}
