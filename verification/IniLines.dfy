/** Every kind of line that src/ini.c knows: what is read from a file, and which line is reported. */
module IniLines {
  import opened CStrings
  import opened Ini
  import opened IniText

  /** A line of a file. `before` and `note` are white space and a comment at the end, or nothing. */
  datatype Entry =
    | Blank(space: string)
    | Remark(indent: string, mark: char, text: string)
    | Title(indent: string, title: string, tail: string)
    | Setting(name: string, gap: string, mark: char, space: string, value: string, before: string, note: string)
    | More(indent: string, value: string, before: string)
    | Junk(text: string, before: string, note: string)

  function LineOf(e: Entry): string {
    match e
    case Blank(space) => space
    case Remark(indent, mark, text) => indent + [mark] + text
    case Title(indent, title, tail) => indent + "[" + title + "]" + tail
    case Setting(name, gap, mark, space, value, before, note) => name + gap + [mark] + space + value + before + note
    case More(indent, value, before) => indent + value + before
    case Junk(text, before, note) => text + before + note
  }

  /** A comment stands behind white space. */
  predicate IsNote(before: string, note: string) {
    AllSpace(before) && (note != "" ==> note[0] == ';' && before != "")
  }

  predicate IsName(name: string) {
    name != "" && Bare(name) && Sober(name) && '=' !in name && ':' !in name && name[0] !in ";#["
  }

  /** `named` says that a value may be continued: something was set since the last title. */
  predicate Proper(e: Entry, named: bool) {
    && |LineOf(e)| <= 198 && '\n' !in LineOf(e) && NUL !in LineOf(e) && !HasBom(LineOf(e))
    && match e
       case Blank(space) => AllSpace(space)
       case Remark(indent, mark, _) => AllSpace(indent) && (mark == ';' || mark == '#')
       case Title(indent, title, _) =>
         AllSpace(indent) && (indent == "" || !named) && Sober(title) && ']' !in title && |title| <= 49
       case Setting(name, gap, mark, space, value, before, note) =>
         && IsName(name) && AllSpace(gap) && AllSpace(space) && IsNote(before, note)
         && Bare(value) && Sober(value) && (value == "" ==> note == "")
         && (mark == '=' || (mark == ':' && '=' !in value))
       case More(indent, value, before) =>
         named && indent != "" && AllSpace(indent) && AllSpace(before)
         && value != "" && Bare(value) && value[0] != ';' && value[0] != '#'
       case Junk(text, before, note) =>
         && IsNote(before, note) && text != "" && Bare(text) && text[0] != ';' && text[0] != '#'
         && if text[0] == '[' then ']' !in text else '=' !in text && ':' !in text
  }

  /** What a line does to what the loop carries. */
  function Meant(s: State, e: Entry, accepts: Call -> bool): State {
    var t := s.(lineno := s.lineno + 1);
    match e
    case Blank(_) => t
    case Remark(_, _, _) => t
    case Title(_, title, _) => t.(section := title, prevName := "")
    case Setting(name, _, _, _, value, _, _) =>
      Handled(t.(prevName := Bounded(name, MAX_NAME)), Call(s.section, name, value), accepts)
    case More(_, value, _) => Handled(t, Call(s.section, s.prevName, value), accepts)
    case Junk(_, _, _) => Failed(t)
  }

  // ----- white space around a line

  /** What is left of a line once the white space around it is gone. */
  lemma StripBoth(front: string, core: string, back: string)
    requires AllSpace(front) && AllSpace(back) && Bare(core) && core != ""
    ensures RStripped(front + core + back) == front + core && LSkipped(front + core) == core
  {
    SpaceDropped(front + core, back);
    SpaceSkipped(front, core);
  }

  lemma {:induction false} StripAll(space: string)
    requires AllSpace(space)
    ensures RStripped(space) == "" && LSkipped("") == ""
  {
    SpaceDropped("", space);
    assert "" + space == space;
  }

  lemma AllSpaceAppend(a: string, b: string)
    requires AllSpace(a) && AllSpace(b)
    ensures AllSpace(a + b)
  {
  }

  /** The end of a text that starts with what is no white space, without the white space after it. */
  lemma StripEnd(note: string) returns (back: string)
    requires note != "" && !IsSpace(note[0])
    ensures note == RStripped(note) + back && AllSpace(back) && Bare(RStripped(note))
    ensures RStripped(note) != "" && RStripped(note)[0] == note[0]
  {
    RStrippedCutsEnd(note);
    back := note[|RStripped(note)|..];
    assert RStripped(note) == "" ==> note == back;
  }

  lemma NothingNoted(text: string, before: string)
    requires AllSpace(before) && Bare(text) && text != ""
    ensures RStripped(text + before + "" + "\n") == text && LSkipped(text) == text
  {
    LineEnd();
    AllSpaceAppend(before, "\n");
    assert text + before + "" + "\n" == "" + text + (before + "\n");
    StripBoth("", text, before + "\n");
    assert "" + text == text;
  }

  lemma SomethingNoted(text: string, before: string, note: string) returns (rest: string)
    requires IsNote(before, note) && note != "" && Bare(text) && text != ""
    ensures RStripped(text + before + note + "\n") == text + before + rest
    ensures LSkipped(text + before + rest) == text + before + rest
    ensures rest != "" && rest[0] == ';' && rest <= note
  {
    LineEnd();
    var back := StripEnd(note);
    rest := RStripped(note);
    AllSpaceAppend(back, "\n");
    var core := text + before + rest;
    assert text + before + note + "\n" == "" + core + (back + "\n");
    hide RStripped, LSkipped;
    StripBoth("", core, back + "\n");
    assert "" + core == core;
  }

  /** What follows a bare text: white space and perhaps a comment, of which stripping leaves the comment. */
  lemma NoteStripped(text: string, before: string, note: string) returns (rest: string)
    requires IsNote(before, note) && Bare(text) && text != ""
    ensures RStripped(text + before + note + "\n") == text + rest
    ensures LSkipped(text + rest) == text + rest
    ensures if note == "" then rest == "" else |rest| > |before| && rest[..|before|] == before && rest[|before|] == ';'
    ensures NUL !in note ==> NUL !in rest
  {
    rest := "";
    if note == "" {
      NothingNoted(text, before);
      assert text + "" == text;
    } else {
      var noted := SomethingNoted(text, before, note);
      rest := before + noted;
      assert text + before + noted == text + rest;
    }
    hide RStripped, LSkipped, Bare;
  }

  lemma LineEnd()
    ensures AllSpace("\n") && !IsSpace(';') && !IsSpace('#') && !IsSpace('[') && !IsSpace('=') && !IsSpace(':')
  {
  }

  // ----- what is found on a line

  lemma TitleFound(title: string, tail: string)
    requires Sober(title) && ']' !in title
    ensures SectionOf("[" + title + "]" + tail) == Section(title)
  {
    var start := "[" + title + "]" + tail;
    var text := start[1..];
    assert text == title + "]" + tail;
    forall k | 0 <= k < |title|
      ensures !Stops(text, ']', k)
    {
      assert text[k] == title[k];
      assert k > 0 ==> text[k - 1] == title[k - 1];
    }
    StopIs(text, ']', 0, |title|);
    assert text[..|title|] == title;
  }

  /** The scan ends at a place where it would stop, at the latest. */
  lemma {:induction false} StopsBy(s: string, c: char, i: nat, z: nat)
    requires i <= z <= |s| && (z < |s| ==> Stops(s, c, z))
    ensures Stop(s, c, i) <= z
    decreases z - i
  {
    if i < z {
      StopsBy(s, c, i + 1, z);
    }
  }

  /** Without the character before a comment, or the end, the scan does not find it. */
  lemma NotFoundBy(s: string, c: char, z: nat)
    requires z <= |s| && (z < |s| ==> s[z] == ';' && z > 0 && IsSpace(s[z - 1])) && c !in s[..z] && c != ';'
    ensures var r := Stop(s, c, 0); r <= z && (r < |s| ==> s[r] != c)
  {
    StopsBy(s, c, 0, z);
    var r := Stop(s, c, 0);
    assert r < z ==> s[r] == s[..z][r];
  }

  /** Two sober texts with white space between and perhaps behind the first are scanned over. */
  lemma HeadHasNoStop(name: string, gap: string, rest: string, c: char, k: nat)
    requires Sober(name) && AllSpace(gap) && c !in name && !IsSpace(c) && k < |name| + |gap|
    ensures !Stops(name + gap + rest, c, k)
  {
    var s := name + gap + rest;
    if k < |name| {
      assert s[k] == name[k];
      assert k > 0 ==> s[k - 1] == name[k - 1];
    } else {
      assert s[k] == gap[k - |name|];
    }
    LineEnd();
  }

  lemma {:induction false} MarkFound(name: string, gap: string, mark: char, rest: string)
    requires IsName(name) && AllSpace(gap) && (mark == '=' || mark == ':')
    ensures Stop(name + gap + [mark] + rest, mark, 0) == |name| + |gap|
  {
    LineEnd();
    var s := name + gap + [mark] + rest;
    assert s == name + gap + ([mark] + rest);
    forall k | 0 <= k < |name| + |gap|
      ensures !Stops(s, mark, k)
    {
      HeadHasNoStop(name, gap, [mark] + rest, mark, k);
    }
    StopIs(s, mark, 0, |name| + |gap|);
  }

  /** `rest` is a bare value, or a value with a comment behind white space, or nothing. */
  predicate IsRest(value: string, rest: string, before: string) {
    && AllSpace(before)
    && if rest == "" then true
       else value != "" && |rest| > |before| > 0 && rest[..|before|] == before && rest[|before|] == ';'
  }

  lemma {:induction false} ValueFound(value: string, rest: string, before: string)
    requires Bare(value) && Sober(value) && IsRest(value, rest, before) && NUL !in rest
    ensures var v := value + rest; RStripped(v[..Stop(v, NUL, 0)]) == value
  {
    var v := value + rest;
    var z := if rest == "" then |value| else |value| + |before|;
    LineEnd();
    forall k | 0 <= k < z
      ensures !Stops(v, NUL, k)
    {
      if k < |value| {
        assert v[k] == value[k];
        assert k > 0 ==> v[k - 1] == value[k - 1];
      } else {
        assert v[k] == rest[k - |value|] == before[k - |value|];
      }
    }
    if rest != "" {
      assert v[z] == rest[|before|] && v[z - 1] == rest[|before| - 1] == before[|before| - 1];
    }
    StopIs(v, NUL, 0, z);
    assert v[..z] == value + if rest == "" then "" else before;
    SpaceDropped(value, if rest == "" then "" else before);
  }

  /** A value behind an equals sign, or behind a colon when no equals sign is before the comment. */
  lemma {:induction false} PairFound(name: string, gap: string, mark: char, space: string, value: string,
                                     rest: string, before: string)
    requires IsName(name) && AllSpace(gap) && AllSpace(space) && (value == "" ==> space == "")
    requires Bare(value) && Sober(value) && IsRest(value, rest, before) && NUL !in rest
    requires mark == '=' || (mark == ':' && '=' !in value)
    ensures PairOf(name + gap + [mark] + (space + (value + rest))) == Pair(name, value)
  {
    var tail := space + (value + rest);
    var start := name + gap + [mark] + tail;
    MarkFound(name, gap, mark, tail);
    if mark == ':' {
      NoEquals(name, gap, space, value, rest, before);
    }
    NameStripped(name, gap);
    ValueFound(value, rest, before);
    TailSkipped(space, value, rest);
    var end := |name| + |gap|;
    assert start[..end] == name + gap && start[end + 1..] == tail && start[end] == mark;
    hide Stop, LSkipped, RStripped, Sober, IsName, Bare, IsRest, AllSpace, IsSpace;
    PairAt(start, mark, end);
  }

  /** What is on a line whose mark is at `end`. */
  lemma PairAt(start: string, mark: char, end: nat)
    requires end < |start| && start[end] == mark && Stop(start, mark, 0) == end
    requires mark == '=' || (mark == ':' && var r := Stop(start, '=', 0); r == |start| || start[r] != '=')
    ensures var v := LSkipped(start[end + 1..]);
      PairOf(start) == Pair(RStripped(start[..end]), RStripped(v[..Stop(v, NUL, 0)]))
  {
    hide Stop, LSkipped, RStripped;
  }

  lemma NameStripped(name: string, gap: string)
    requires IsName(name) && AllSpace(gap)
    ensures RStripped(name + gap) == name
  {
    SpaceDropped(name, gap);
  }

  lemma TailSkipped(space: string, value: string, rest: string)
    requires AllSpace(space) && Bare(value) && (value == "" ==> space == "" && rest == "")
    ensures LSkipped(space + (value + rest)) == value + rest
  {
    SpaceSkipped(space, value + rest);
  }

  lemma NoEquals(name: string, gap: string, space: string, value: string, rest: string, before: string)
    requires IsName(name) && AllSpace(gap) && AllSpace(space) && '=' !in value && IsRest(value, rest, before)
    ensures var s := name + gap + [':'] + (space + (value + rest));
      var r := Stop(s, '=', 0); r == |s| || s[r] != '='
  {
    var front := name + gap + [':'] + space + value;
    var s := name + gap + [':'] + (space + (value + rest));
    assert s == front + rest;
    LineEnd();
    var z := if rest == "" then |front| else |front| + |before|;
    if rest != "" {
      assert s[z] == rest[|before|] && s[z - 1] == rest[|before| - 1] == before[|before| - 1];
    }
    assert s[..z] == front + if rest == "" then "" else before;
    assert '=' !in gap && '=' !in space && '=' !in before;
    NotFoundBy(s, '=', z);
  }

  /** Where a scan of such a text stops at the latest: at the comment, or at the end. */
  function Limit(text: string, rest: string, before: string): nat {
    if rest == "" then |text| else |text| + |before|
  }

  lemma LimitStops(text: string, rest: string, before: string)
    requires text != "" && Bare(text) && IsRest(text, rest, before)
    ensures var s, z := text + rest, Limit(text, rest, before);
      && 0 < z <= |s| && (z < |s| ==> s[z] == ';' && z > 1 && IsSpace(s[z - 1]))
      && s[..z] == text + if rest == "" then "" else before
  {
    if rest != "" {
      var s, z := text + rest, Limit(text, rest, before);
      assert s[z] == rest[|before|] && s[z - 1] == rest[|before| - 1] == before[|before| - 1];
    }
  }

  lemma JunkTitle(text: string, rest: string, before: string)
    requires text != "" && Bare(text) && IsRest(text, rest, before) && text[0] == '[' && ']' !in text
    ensures SectionOf(text + rest) == Neither
  {
    var s, z := text + rest, Limit(text, rest, before);
    LimitStops(text, rest, before);
    assert ']' !in before by { assert !IsSpace(']'); }
    assert s[1..][..z - 1] == s[..z][1..];
    hide IsSpace;
    NotFoundBy(s[1..], ']', z - 1);
  }

  lemma JunkPair(text: string, rest: string, before: string)
    requires text != "" && Bare(text) && IsRest(text, rest, before) && '=' !in text && ':' !in text
    ensures PairOf(text + rest) == Neither
  {
    var s, z := text + rest, Limit(text, rest, before);
    LimitStops(text, rest, before);
    LineEnd();
    assert '=' !in before && ':' !in before;
    hide IsSpace, Stop, LSkipped, RStripped;
    NotFoundBy(s, '=', z);
    NotFoundBy(s, ':', z);
  }

  /** A comment behind an empty value is not seen: it is the value. */
  lemma NoteBehindNothing(name: string, note: string)
    requires IsName(name) && note != "" && note[0] == ';' && Bare(note) && Sober(note)
    ensures PairOf(name + " = " + note) == Pair(name, note)
  {
    hide IsName, PairOf, Sober;
    PairFound(name, " ", '=', " ", note, "", "");
    assert name + " = " + note == name + " " + ['='] + (" " + (note + ""));
  }

  // ----- one line

  lemma NextIs(s: State, line: string, indent: string, core: string, accepts: Call -> bool)
    requires !HasBom(line) && RStripped(line + "\n") == indent + core && LSkipped(indent + core) == core
    ensures Next(s, line + "\n", accepts) == Line(s.(lineno := s.lineno + 1), core, indent != "", accepts)
  {
    hide LSkipped, RStripped, Line;
    assert HasBom(line + "\n") ==> |line| >= 3;
  }

  lemma BlankRead(s: State, e: Entry, accepts: Call -> bool)
    requires e.Blank? && Proper(e, s.prevName != "")
    ensures Next(s, LineOf(e) + "\n", accepts) == Meant(s, e, accepts)
  {
    LineEnd();
    AllSpaceAppend(e.space, "\n");
    StripAll(e.space + "\n");
    NextIs(s, LineOf(e), "", "", accepts);
  }

  lemma RemarkStripped(indent: string, mark: char, text: string) returns (core: string)
    requires AllSpace(indent) && (mark == ';' || mark == '#')
    ensures RStripped(indent + [mark] + text + "\n") == indent + core && LSkipped(indent + core) == core
    ensures core != "" && core[0] == mark
  {
    LineEnd();
    var line := [mark] + text + "\n";
    var back := StripEnd(line);
    core := RStripped(line);
    assert indent + [mark] + text + "\n" == indent + line;
    assert indent + (core + back) == indent + core + back;
    StripBoth(indent, core, back);
  }

  lemma RemarkRead(s: State, e: Entry, accepts: Call -> bool)
    requires e.Remark? && Proper(e, s.prevName != "")
    ensures Next(s, LineOf(e) + "\n", accepts) == Meant(s, e, accepts)
  {
    var core := RemarkStripped(e.indent, e.mark, e.text);
    hide LSkipped, RStripped, AllSpace, Next, SectionOf, PairOf;
    NextIs(s, LineOf(e), e.indent, core, accepts);
  }

  lemma TitleStripped(indent: string, title: string, tail: string) returns (rest: string)
    requires AllSpace(indent)
    ensures var core := "[" + title + "]" + rest;
      RStripped(indent + "[" + title + "]" + tail + "\n") == indent + core && LSkipped(indent + core) == core
  {
    LineEnd();
    var text := tail + "\n";
    RStrippedCutsEnd(text);
    rest := RStripped(text);
    var back := text[|rest|..];
    var core := "[" + title + "]" + rest;
    assert core[|core| - 1] == if rest == "" then ']' else rest[|rest| - 1];
    assert indent + "[" + title + "]" + tail + "\n" == indent + core + back;
    hide LSkipped, RStripped, Bare;
    BareCore(core, rest);
    StripBoth(indent, core, back);
  }

  lemma TitleRead(s: State, e: Entry, accepts: Call -> bool)
    requires e.Title? && Proper(e, s.prevName != "")
    ensures Next(s, LineOf(e) + "\n", accepts) == Meant(s, e, accepts)
  {
    var tail := TitleStripped(e.indent, e.title, e.tail);
    TitleFound(e.title, tail);
    var core := "[" + e.title + "]" + tail;
    hide LSkipped, RStripped, AllSpace, Next, SectionOf, PairOf, Sober;
    NextIs(s, LineOf(e), e.indent, core, accepts);
  }

  lemma BareCore(core: string, tail: string)
    requires core != "" && core[0] == '[' && core[|core| - 1] == if tail == "" then ']' else tail[|tail| - 1]
    requires tail != "" ==> !IsSpace(tail[|tail| - 1])
    ensures Bare(core)
  {
  }

  /** What precedes the white space or the comment at the end of a setting. */
  function Core(e: Entry): string
    requires e.Setting?
  {
    e.name + e.gap + [e.mark] + if e.value == "" then "" else e.space + e.value
  }

  /** The white space behind the core of a setting. */
  function Behind(e: Entry): string
    requires e.Setting?
  {
    if e.value == "" then e.space + e.before else e.before
  }

  lemma SettingParts(e: Entry)
    requires e.Setting?
    ensures LineOf(e) + "\n" == Core(e) + Behind(e) + e.note + "\n"
  {
  }

  lemma BehindIsSpace(e: Entry, named: bool)
    requires e.Setting? && Proper(e, named)
    ensures AllSpace(Behind(e)) && IsNote(Behind(e), e.note) && (e.value == "" ==> e.note == "") && NUL !in e.note
  {
    AllSpaceAppend(e.space, e.before);
    NulOnLine(e);
    hide LineOf;
  }

  lemma SettingStripped(e: Entry, named: bool) returns (rest: string, before: string)
    requires e.Setting? && Proper(e, named)
    ensures RStripped(LineOf(e) + "\n") == Core(e) + rest && LSkipped(Core(e) + rest) == Core(e) + rest
    ensures IsRest(e.value, rest, before) && NUL !in rest
  {
    before := Behind(e);
    BehindIsSpace(e, named);
    SettingParts(e);
    CoreIsBare(e, named);
    hide Proper, LineOf, Core, Behind, RStripped, LSkipped, Bare, AllSpace;
    rest := NoteStripped(Core(e), before, e.note);
  }

  lemma NulOnLine(e: Entry)
    requires e.Setting? && NUL !in LineOf(e)
    ensures NUL !in e.note
  {
  }

  lemma CoreIsBare(e: Entry, named: bool)
    requires e.Setting? && Proper(e, named)
    ensures Core(e) != "" && Bare(Core(e)) && Core(e)[0] == e.name[0]
  {
    LineEnd();
    var c := Core(e);
    assert c[0] == e.name[0];
    assert c[|c| - 1] == if e.value == "" then e.mark else e.value[|e.value| - 1];
  }

  lemma CoreIs(e: Entry, rest: string)
    requires e.Setting? && (e.value == "" ==> rest == "")
    ensures var space := if e.value == "" then "" else e.space;
      Core(e) + rest == e.name + e.gap + [e.mark] + (space + (e.value + rest))
  {
  }

  lemma SettingFound(e: Entry, named: bool) returns (core: string)
    requires e.Setting? && Proper(e, named)
    ensures RStripped(LineOf(e) + "\n") == core && LSkipped(core) == core
    ensures core != "" && core[0] == e.name[0] && PairOf(core) == Pair(e.name, e.value)
  {
    var rest, before := SettingStripped(e, named);
    CoreIsBare(e, named);
    core := Core(e) + rest;
    CoreIs(e, rest);
    var space := if e.value == "" then "" else e.space;
    hide Core, LSkipped, RStripped, PairOf, LineOf, IsNote, Bare, Sober, IsName, IsRest, AllSpace;
    assert core[0] == Core(e)[0];
    PairFound(e.name, e.gap, e.mark, space, e.value, rest, before);
  }

  /** A setting that starts where its line starts continues nothing. */
  lemma SettingTaken(s: State, core: string, name: string, value: string, accepts: Call -> bool)
    requires core != "" && core[0] != ';' && core[0] != '#' && core[0] != '[' && PairOf(core) == Pair(name, value)
    ensures Line(s, core, false, accepts)
         == Handled(s.(prevName := Bounded(name, MAX_NAME)), Call(s.section, name, value), accepts)
  {
    hide PairOf, Bounded, Handled;
  }

  lemma SettingBegins(e: Entry, named: bool)
    requires e.Setting? && Proper(e, named)
    ensures !HasBom(LineOf(e)) && e.name != ""
    ensures e.name[0] != ';' && e.name[0] != '#' && e.name[0] != '['
  {
  }

  lemma SettingRead(s: State, e: Entry, accepts: Call -> bool)
    requires e.Setting? && Proper(e, s.prevName != "")
    ensures Next(s, LineOf(e) + "\n", accepts) == Meant(s, e, accepts)
  {
    hide Proper, LSkipped, RStripped, Next, Line, PairOf, Handled, Bounded, LineOf, HasBom;
    var core := SettingFound(e, s.prevName != "");
    SettingBegins(e, s.prevName != "");
    assert "" + core == core;
    NextIs(s, LineOf(e), "", core, accepts);
    SettingTaken(s.(lineno := s.lineno + 1), core, e.name, e.value, accepts);
  }

  lemma MoreRead(s: State, e: Entry, accepts: Call -> bool)
    requires e.More? && Proper(e, s.prevName != "")
    ensures Next(s, LineOf(e) + "\n", accepts) == Meant(s, e, accepts)
  {
    LineEnd();
    AllSpaceAppend(e.before, "\n");
    assert LineOf(e) + "\n" == e.indent + e.value + (e.before + "\n");
    StripBoth(e.indent, e.value, e.before + "\n");
    NextIs(s, LineOf(e), e.indent, e.value, accepts);
  }

  lemma JunkStripped(text: string, before: string, note: string) returns (core: string)
    requires IsNote(before, note) && text != "" && Bare(text)
    requires if text[0] == '[' then ']' !in text else '=' !in text && ':' !in text
    ensures RStripped(text + before + note + "\n") == core && LSkipped(core) == core
    ensures core != "" && core[0] == text[0]
    ensures if text[0] == '[' then SectionOf(core) == Neither else PairOf(core) == Neither
  {
    var rest := NoteStripped(text, before, note);
    if text[0] == '[' {
      JunkTitle(text, rest, before);
    } else {
      JunkPair(text, rest, before);
    }
    core := text + rest;
    hide LSkipped, RStripped, SectionOf, PairOf, IsNote, Bare;
  }

  lemma JunkRead(s: State, e: Entry, accepts: Call -> bool)
    requires e.Junk? && Proper(e, s.prevName != "")
    ensures Next(s, LineOf(e) + "\n", accepts) == Meant(s, e, accepts)
  {
    var core := JunkStripped(e.text, e.before, e.note);
    assert "" + core == core;
    hide LSkipped, RStripped, AllSpace, Next, SectionOf, PairOf, Bare, IsNote;
    NextIs(s, LineOf(e), "", core, accepts);
  }

  /** Each line does to the loop what it means. */
  lemma LineRead(s: State, e: Entry, accepts: Call -> bool)
    requires Proper(e, s.prevName != "")
    ensures Next(s, LineOf(e) + "\n", accepts) == Meant(s, e, accepts)
  {
    hide Next, Meant, Proper, LineOf;
    match e
    case Blank(_) => BlankRead(s, e, accepts);
    case Remark(_, _, _) => RemarkRead(s, e, accepts);
    case Title(_, _, _) => TitleRead(s, e, accepts);
    case Setting(_, _, _, _, _, _, _) => SettingRead(s, e, accepts);
    case More(_, _, _) => MoreRead(s, e, accepts);
    case Junk(_, _, _) => JunkRead(s, e, accepts);
  }

  // ----- a file

  function FileOf(lines: seq<Entry>): string {
    if lines == [] then "" else LineOf(lines[0]) + "\n" + FileOf(lines[1..])
  }

  /** The section that is open after these lines: the title of the last one, as much of it as is kept. */
  function OpenSection(lines: seq<Entry>): string {
    if lines == [] then ""
    else
      var e := lines[|lines| - 1];
      if e.Title? then e.title else OpenSection(lines[..|lines| - 1])
  }

  /** The name that a continuation after these lines goes to: the last one set since the last title, cut to 49. */
  function OpenName(lines: seq<Entry>): string {
    if lines == [] then ""
    else
      var e := lines[|lines| - 1];
      if e.Title? then ""
      else if e.Setting? then if |e.name| <= 49 then e.name else e.name[..49]
      else OpenName(lines[..|lines| - 1])
  }

  /** What the last line hands to the handler, if anything. */
  function LastCall(lines: seq<Entry>): seq<Call>
    requires lines != []
  {
    var less, e := lines[..|lines| - 1], lines[|lines| - 1];
    match e
    case Setting(name, _, _, _, value, _, _) => [Call(OpenSection(less), name, value)]
    case More(_, value, _) => [Call(OpenSection(less), OpenName(less), value)]
    case _ => []
  }

  function CallsOf(lines: seq<Entry>): seq<Call> {
    if lines == [] then [] else CallsOf(lines[..|lines| - 1]) + LastCall(lines)
  }

  /** The last line is in error: it is neither title nor setting, or the handler refuses it. */
  predicate Faulty(lines: seq<Entry>, accepts: Call -> bool)
    requires lines != []
  {
    lines[|lines| - 1].Junk? || (LastCall(lines) != [] && !accepts(LastCall(lines)[0]))
  }

  /** Every line is one of these, and a continuation follows a setting of its section. */
  predicate AllProper(lines: seq<Entry>) {
    lines == [] || (
      && AllProper(lines[..|lines| - 1])
      && Proper(lines[|lines| - 1], OpenName(lines[..|lines| - 1]) != ""))
  }

  function MeantAll(s: State, lines: seq<Entry>, accepts: Call -> bool): State {
    if lines == [] then s else Meant(MeantAll(s, lines[..|lines| - 1], accepts), lines[|lines| - 1], accepts)
  }

  /** What the loop carries after these lines. */
  predicate Carries(s: State, lines: seq<Entry>, accepts: Call -> bool) {
    && s.section == OpenSection(lines) && s.prevName == OpenName(lines) && s.lineno == |lines|
    && s.calls == CallsOf(lines)
    && (s.error == 0 ==> forall k :: 1 <= k <= |lines| ==> !Faulty(lines[..k], accepts))
    && (s.error != 0 ==>
          && 1 <= s.error <= |lines| && Faulty(lines[..s.error], accepts)
          && forall k :: 1 <= k < s.error ==> !Faulty(lines[..k], accepts))
  }

  lemma {:induction false} CarriesOn(s: State, lines: seq<Entry>, accepts: Call -> bool)
    requires lines != [] && Carries(s, lines[..|lines| - 1], accepts)
    requires Proper(lines[|lines| - 1], OpenName(lines[..|lines| - 1]) != "")
    ensures Carries(Meant(s, lines[|lines| - 1], accepts), lines, accepts)
  {
    hide Proper;
    var less, e, t := lines[..|lines| - 1], lines[|lines| - 1], Meant(s, lines[|lines| - 1], accepts);
    assert lines[..|lines|] == lines;
    assert forall k :: 1 <= k <= |less| ==> less[..k] == lines[..k];
    FaultShows(s, lines, accepts);
    TitleKept(e, OpenName(less) != "");
    hide Faulty;
  }

  lemma TitleKept(e: Entry, named: bool)
    requires Proper(e, named)
    ensures e.Title? ==> |e.title| < MAX_SECTION
  {
  }

  /** A line in error is noted, if it is the first. */
  lemma FaultShows(s: State, lines: seq<Entry>, accepts: Call -> bool)
    requires lines != [] && var less := lines[..|lines| - 1];
      s.section == OpenSection(less) && s.prevName == OpenName(less) && s.lineno == |less| && s.calls == CallsOf(less)
    ensures var t := Meant(s, lines[|lines| - 1], accepts);
      && t.calls == CallsOf(lines) && t.lineno == |lines|
      && t.error == if s.error == 0 && Faulty(lines, accepts) then |lines| else s.error
  {
    hide OpenSection, OpenName, Bounded;
    assert s.calls + [] == s.calls;
  }

  lemma {:induction false} AllCarried(lines: seq<Entry>, accepts: Call -> bool)
    requires AllProper(lines)
    ensures Carries(MeantAll(START, lines, accepts), lines, accepts)
  {
    if lines != [] {
      hide Proper, Meant, Carries;
      AllCarried(lines[..|lines| - 1], accepts);
      CarriesOn(MeantAll(START, lines[..|lines| - 1], accepts), lines, accepts);
    }
  }

  lemma {:induction false} FileAppend(a: seq<Entry>, b: seq<Entry>)
    ensures FileOf(a + b) == FileOf(a) + FileOf(b)
  {
    hide LineOf;
    if a == [] {
      assert a + b == b;
    } else {
      assert (a + b)[1..] == a[1..] + b;
      FileAppend(a[1..], b);
    }
  }

  lemma OneLine(e: Entry)
    ensures FileOf([e]) == LineOf(e) + "\n"
  {
  }

  /** The line after some others. */
  lemma OneMoreRead(s: State, e: Entry, rest: string, accepts: Call -> bool)
    requires Proper(e, s.prevName != "")
    ensures Parsed(s, LineOf(e) + "\n" + rest, accepts) == Parsed(Meant(s, e, accepts), rest, accepts)
  {
    LineFits(e, s.prevName != "");
    hide Parsed, LineOf, Proper, Next, Meant;
    OneLineRead(s, LineOf(e), rest, accepts);
    LineRead(s, e, accepts);
  }

  lemma FileGrows(less: seq<Entry>, e: Entry, rest: string)
    ensures FileOf(less + [e]) + rest == FileOf(less) + (LineOf(e) + "\n" + rest)
  {
    FileAppend(less, [e]);
    OneLine(e);
    hide FileOf, LineOf;
  }

  /** What the name is that the next line may continue. */
  lemma NameCarried(lines: seq<Entry>, accepts: Call -> bool)
    requires AllProper(lines)
    ensures MeantAll(START, lines, accepts).prevName == OpenName(lines)
  {
    AllCarried(lines, accepts);
    hide MeantAll, OpenName, AllProper, Faulty, CallsOf;
  }

  /** The parser goes through the lines one by one. */
  lemma {:induction false} FileRead(lines: seq<Entry>, rest: string, accepts: Call -> bool)
    requires AllProper(lines)
    ensures Parsed(START, FileOf(lines) + rest, accepts) == Parsed(MeantAll(START, lines, accepts), rest, accepts)
  {
    hide Parsed, FileOf, LineOf, Proper, Meant, OpenName;
    if lines == [] {
      NoLines(rest);
    } else {
      var less, e := lines[..|lines| - 1], lines[|lines| - 1];
      assert lines == less + [e];
      FileGrows(less, e, rest);
      FileRead(less, LineOf(e) + "\n" + rest, accepts);
      NameCarried(less, accepts);
      OneMoreRead(MeantAll(START, less, accepts), e, rest, accepts);
    }
  }

  lemma NoLines(rest: string)
    ensures FileOf([]) + rest == rest
  {
  }

  lemma LineFits(e: Entry, named: bool)
    requires Proper(e, named)
    ensures '\n' !in LineOf(e) && NUL !in LineOf(e) && |LineOf(e)| < MAX_LINE - 1
  {
  }

  /**
   Of a file of such lines the handler gets every setting and every continuation in order, each with the section and,
   if need be, the name it belongs to; comments and the white space around go. What is reported is the number of the
   first line in error, 0 if there is none.
   */
  lemma {:induction false} ReadsEveryLine(lines: seq<Entry>, accepts: Call -> bool)
    requires AllProper(lines)
    ensures var end := Parsed(START, FileOf(lines), accepts);
      && end.calls == CallsOf(lines)
      && (end.error == 0 <==> forall k :: 1 <= k <= |lines| ==> !Faulty(lines[..k], accepts))
      && (end.error != 0 ==>
            && 1 <= end.error <= |lines| && Faulty(lines[..end.error], accepts)
            && forall k :: 1 <= k < end.error ==> !Faulty(lines[..k], accepts))
  {
    FileRead(lines, "", accepts);
    AllCarried(lines, accepts);
    assert FileOf(lines) + "" == FileOf(lines);
    assert Parsed(MeantAll(START, lines, accepts), "", accepts) == MeantAll(START, lines, accepts);
    hide MeantAll, FileOf, CallsOf, Faulty, AllProper;
  }

  // ----- a byte order mark

  const BOM := "\U{EF}\U{BB}\U{BF}"

  lemma MarkSkipped(line: string, accepts: Call -> bool)
    requires !HasBom(line)
    ensures Next(START, BOM + line, accepts) == Next(START, line, accepts)
  {
    hide RStripped, LSkipped, SectionOf, PairOf, Bounded, Handled, Failed;
    assert HasBom(BOM + line) && (BOM + line)[3..] == line;
  }

  /** Before the first line of a file a byte order mark makes no difference. */
  lemma {:induction false} ReadsAfterMark(lines: seq<Entry>, accepts: Call -> bool)
    requires AllProper(lines) && lines != [] && |LineOf(lines[0])| <= 195
    ensures Parsed(START, BOM + FileOf(lines), accepts) == Parsed(START, FileOf(lines), accepts)
  {
    var line, rest := LineOf(lines[0]), FileOf(lines[1..]);
    FirstProper(lines);
    assert '\n' !in BOM && NUL !in BOM;
    hide Parsed, FileOf, LineOf, Next, AllProper;
    assert BOM + (line + "\n" + rest) == BOM + line + "\n" + rest;
    assert BOM + (line + "\n") == BOM + line + "\n";
    OneLineRead(START, BOM + line, rest, accepts);
    OneLineRead(START, line, rest, accepts);
    MarkSkipped(line + "\n", accepts);
    FileBegins(lines);
  }

  lemma FileBegins(lines: seq<Entry>)
    requires lines != []
    ensures FileOf(lines) == LineOf(lines[0]) + "\n" + FileOf(lines[1..])
  {
  }

  lemma {:induction false} FirstProper(lines: seq<Entry>)
    requires AllProper(lines) && lines != []
    ensures var line := LineOf(lines[0]);
      '\n' !in line && NUL !in line && !HasBom(line) && !HasBom(line + "\n")
  {
    if |lines| > 1 {
      FirstProper(lines[..|lines| - 1]);
    } else {
      var line := LineOf(lines[0]);
      LineFits(lines[0], OpenName([]) != "");
      assert Proper(lines[0], OpenName(lines[..0]) != "");
      assert HasBom(line + "\n") ==> HasBom(line);
    }
  }
}
