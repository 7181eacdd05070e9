/** The line-by-line parser of src/ini.c, with the options that src/ini.h sets. */
module Ini {
  import opened CStrings

  const MAX_SECTION := 50
  const MAX_NAME := 50
  const MAX_LINE := 200

  // ----- the helpers

  predicate IsSpace(c: char) { c in " \t\n\U{0B}\U{0C}\r" }

  predicate AllSpace(s: string) { forall k :: 0 <= k < |s| ==> IsSpace(s[k]) }

  /** White space is cut off the end, all of it and nothing else. */
  predicate CutsEnd(s: string, r: string) {
    r <= s && AllSpace(s[|r|..]) && (r != "" ==> !IsSpace(r[|r| - 1]))
  }

  /** White space is cut off the start, all of it and nothing else. */
  predicate CutsStart(s: string, r: string) {
    |r| <= |s| && r == s[|s| - |r|..] && AllSpace(s[..|s| - |r|]) && (r != "" ==> !IsSpace(r[0]))
  }

  function RStripped(s: string): (r: string)
    ensures r <= s
  {
    if s != "" && IsSpace(s[|s| - 1]) then RStripped(s[..|s| - 1]) else s
  }

  function LSkipped(s: string): (r: string)
    ensures |r| <= |s|
  {
    if s != "" && IsSpace(s[0]) then LSkipped(s[1..]) else s
  }

  lemma {:induction false} RStrippedCutsEnd(s: string)
    ensures CutsEnd(s, RStripped(s))
  {
    hide IsSpace;
    if s != "" && IsSpace(s[|s| - 1]) {
      RStrippedCutsEnd(s[..|s| - 1]);
      var r := RStripped(s);
      assert s[|r|..] == s[..|s| - 1][|r|..] + [s[|s| - 1]];
    }
  }

  lemma {:induction false} LSkippedCutsStart(s: string)
    ensures CutsStart(s, LSkipped(s))
  {
    hide IsSpace;
    if s != "" && IsSpace(s[0]) {
      LSkippedCutsStart(s[1..]);
      var r := LSkipped(s);
      assert s[..|s| - |r|] == [s[0]] + s[1..][..|s| - 1 - |r|];
    }
  }

  /** The first `c`, or `;` that follows white space, from index `i` on; the end if there is neither. */
  function Stop(s: string, c: char, i: nat): (r: nat)
    requires i <= |s|
    ensures i <= r <= |s|
    decreases |s| - i
  {
    if i == |s| || s[i] == c || (i > 0 && IsSpace(s[i - 1]) && s[i] == ';') then i else Stop(s, c, i + 1)
  }

  /** `rstrip` */
  method RStrip(s: string) returns (r: string)
    ensures r == RStripped(s)
    ensures CutsEnd(s, r)
  {
    hide IsSpace, CutsEnd;
    r := s;
    while r != "" && IsSpace(r[|r| - 1])
      invariant RStripped(r) == RStripped(s)
      decreases |r|
    {
      r := r[..|r| - 1];
    }
    RStrippedCutsEnd(s);
  }

  /** `lskip` */
  method LSkip(s: string) returns (r: string)
    ensures r == LSkipped(s)
    ensures CutsStart(s, r)
  {
    hide IsSpace, CutsStart;
    r := s;
    while r != "" && IsSpace(r[0])
      invariant LSkipped(r) == LSkipped(s)
      decreases |r|
    {
      r := r[1..];
    }
    LSkippedCutsStart(s);
  }

  /** `find_char_or_comment` */
  method FindCharOrComment(s: string, c: char) returns (at: nat)
    ensures at == Stop(s, c, 0)
  {
    var wasWhitespace := false;
    at := 0;
    while at < |s| && s[at] != c && !(wasWhitespace && s[at] == ';')
      invariant at <= |s| && Stop(s, c, 0) == Stop(s, c, at)
      invariant wasWhitespace <==> at > 0 && IsSpace(s[at - 1])
    {
      wasWhitespace := IsSpace(s[at]);
      at := at + 1;
    }
  }

  /** `strncpy0` */
  function Bounded(s: string, size: nat): string
    requires size > 0
  {
    if |s| < size then s else s[..size - 1]
  }

  // ----- what the parser makes of a line

  datatype Call = Call(section: string, name: string, value: string)

  /** The variables that the loop carries, and the calls of the handler so far. */
  datatype State = State(section: string, prevName: string, error: int, lineno: int, calls: seq<Call>)

  const START := State("", "", 0, 0, [])

  function Failed(s: State): State {
    if s.error == 0 then s.(error := s.lineno) else s
  }

  function Handled(s: State, call: Call, accepts: Call -> bool): State {
    var t := s.(calls := s.calls + [call]);
    if accepts(call) then t else Failed(t)
  }

  predicate HasBom(line: string) {
    |line| >= 3 && line[0] as int == 0xEF && line[1] as int == 0xBB && line[2] as int == 0xBF
  }

  datatype Found = Section(title: string) | Pair(name: string, value: string) | Neither

  /** What stands on a line that starts with a bracket. */
  function SectionOf(start: string): Found
    requires start != ""
  {
    var text := start[1..];
    var end := Stop(text, ']', 0);
    if end < |text| && text[end] == ']' then Section(text[..end]) else Neither
  }

  /** What stands on any other line. */
  function PairOf(start: string): Found {
    var equals := Stop(start, '=', 0);
    var end := if equals < |start| && start[equals] == '=' then equals else Stop(start, ':', 0);
    if end < |start| && (start[end] == '=' || start[end] == ':') then
      var value := LSkipped(start[end + 1..]);
      Pair(RStripped(start[..end]), RStripped(value[..Stop(value, NUL, 0)]))
    else Neither
  }

  method FindSection(start: string) returns (f: Found)
    requires start != ""
    ensures f == SectionOf(start)
  {
    var text := start[1..];
    var end := FindCharOrComment(text, ']');
    if end < |text| && text[end] == ']' {
      return Section(text[..end]);
    }
    return Neither;
  }

  method FindPair(start: string) returns (f: Found)
    ensures f == PairOf(start)
  {
    hide Stop, RStripped, LSkipped, IsSpace, CutsEnd, CutsStart;
    var end := FindCharOrComment(start, '=');
    if end == |start| || start[end] != '=' {
      end := FindCharOrComment(start, ':');
    }
    if end < |start| && (start[end] == '=' || start[end] == ':') {
      var name := RStrip(start[..end]);
      var value := LSkip(start[end + 1..]);
      end := FindCharOrComment(value, NUL);
      value := RStrip(value[..end]);
      return Pair(name, value);
    }
    return Neither;
  }

  /** A line whose text after the white space is `start`; `moved` if that is not where the line starts. */
  function Line(s: State, start: string, moved: bool, accepts: Call -> bool): State {
    if start == "" || start[0] == ';' || start[0] == '#' then s
    else if s.prevName != "" && moved then Handled(s, Call(s.section, s.prevName, start), accepts)
    else
      match (if start[0] == '[' then SectionOf(start) else PairOf(start))
      case Section(title) => s.(section := Bounded(title, MAX_SECTION), prevName := "")
      case Pair(name, value) => Handled(s.(prevName := Bounded(name, MAX_NAME)), Call(s.section, name, value), accepts)
      case Neither => Failed(s)
  }

  function Next(s: State, line: string, accepts: Call -> bool): State {
    var t := s.(lineno := s.lineno + 1);
    var start := if t.lineno == 1 && HasBom(line) then line[3..] else line;
    var text := LSkipped(RStripped(start));
    Line(t, text, |start| < |line| || |text| < |RStripped(start)|, accepts)
  }

  /** `fgets` on what is left of the file: up to a line end, at most 199 bytes. */
  function Chunk(text: string): (n: nat)
    requires text != ""
    ensures 0 < n <= |text| && n < MAX_LINE
    ensures forall k :: 0 <= k < n - 1 ==> text[k] != '\n'
    ensures n < |text| ==> text[n - 1] == '\n' || n == MAX_LINE - 1
  {
    ChunkFrom(text, 1)
  }

  function ChunkFrom(text: string, k: nat): (n: nat)
    requires 0 < k <= |text| && k < MAX_LINE && forall j :: 0 <= j < k - 1 ==> text[j] != '\n'
    ensures k <= n <= |text| && n < MAX_LINE
    ensures forall j :: 0 <= j < n - 1 ==> text[j] != '\n'
    ensures n < |text| ==> text[n - 1] == '\n' || n == MAX_LINE - 1
    decreases |text| - k
  {
    if k == |text| || k == MAX_LINE - 1 || text[k - 1] == '\n' then k else ChunkFrom(text, k + 1)
  }

  function Parsed(s: State, text: string, accepts: Call -> bool): State
    decreases |text|
  {
    if text == "" then s
    else
      var n := Chunk(text);
      Parsed(Next(s, CStr(text[..n], 0), accepts), text[n..], accepts)
  }

  /** `ini_parse_file`: the calls of the handler, and the number of the first line that was in error. */
  method IniParseFile(file: string, accepts: Call -> bool) returns (error: int, calls: seq<Call>)
    ensures error == Parsed(START, file, accepts).error && calls == Parsed(START, file, accepts).calls
  {
    hide SectionOf, PairOf, Stop, RStripped, LSkipped, Bounded, CutsEnd, CutsStart;
    var section, prevName, lineno := "", "", 0;
    error, calls := 0, [];
    var rest := file;
    while rest != ""
      invariant Parsed(State(section, prevName, error, lineno, calls), rest, accepts) == Parsed(START, file, accepts)
      decreases |rest|
    {
      ghost var before := State(section, prevName, error, lineno, calls);
      var n := Chunk(rest);
      var line := CStr(rest[..n], 0);
      rest := rest[n..];
      lineno := lineno + 1;
      var start := line;
      if lineno == 1 && HasBom(start) {
        start := start[3..];
      }
      start := RStrip(start);
      var stripped := start;
      start := LSkip(start);
      var moved := |start| < |stripped| || (lineno == 1 && HasBom(line));
      if start != "" && (start[0] == ';' || start[0] == '#') {
      } else if prevName != "" && start != "" && moved {
        calls := calls + [Call(section, prevName, start)];
        if !accepts(Call(section, prevName, start)) && error == 0 {
          error := lineno;
        }
      } else if start != "" {
        var found;
        if start[0] == '[' {
          found := FindSection(start);
        } else {
          found := FindPair(start);
        }
        match found
        case Section(title) =>
          section := Bounded(title, MAX_SECTION);
          prevName := "";
        case Pair(name, value) =>
          prevName := Bounded(name, MAX_NAME);
          calls := calls + [Call(section, name, value)];
          if !accepts(Call(section, name, value)) && error == 0 {
            error := lineno;
          }
        case Neither =>
          if error == 0 {
            error := lineno;
          }
      }
      assert State(section, prevName, error, lineno, calls) == Next(before, line, accepts);
    }
  }
}
