/** The transports that `tpIniHandler` of src/transport.c builds from the calls of the parser. */
module Settings {
  import opened Sequences
  import opened Ini
  import IniLines
  import IniText

  /** The fields of a `tp_t` that the file sets, each under the name it has there; unset ones are absent. */
  datatype Profile = Profile(name: string, texts: map<string, string>, numbers: map<string, int>)

  const TEXTS := {"host", "port", "ssl", "auth", "username", "password"}
  const NUMBERS := {"maxConn", "maxSendPerConn", "sleepSecondsPerSend", "maxNoop", "sleepSecondsPerNoop"}

  // ----- atoi

  function Digits(s: string, n: int): int {
    if s != "" && '0' <= s[0] <= '9' then Digits(s[1..], 10 * n + (s[0] as int - '0' as int)) else n
  }

  function Atoi(s: string): int {
    var t := LSkipped(s);
    if t != "" && t[0] == '-' then -Digits(t[1..], 0)
    else if t != "" && t[0] == '+' then Digits(t[1..], 0)
    else Digits(t, 0)
  }

  predicate IsDigit(c: char) { '0' <= c <= '9' }

  predicate AllDigits(s: string) { forall k :: 0 <= k < |s| ==> IsDigit(s[k]) }

  /** What a row of digits is worth: the last one counts for itself, all before it ten times. */
  function Worth(ds: string): (w: int)
    requires AllDigits(ds)
    ensures w >= 0
  {
    if ds == "" then 0 else 10 * Worth(ds[..|ds| - 1]) + (ds[|ds| - 1] as int - '0' as int)
  }

  /** A number as it is written. */
  function Numeral(n: nat): string {
    (if n < 10 then "" else Numeral(n / 10)) + ["0123456789"[n % 10]]
  }

  function Decimal(n: int): string { if n < 0 then "-" + Numeral(-n) else Numeral(n) }

  /** Reading goes on with the digits one by one and stops at the first character that is none. */
  lemma {:induction false} DigitsRead(ds: string, rest: string)
    requires AllDigits(ds)
    ensures Digits(ds + rest, 0) == Digits(rest, Worth(ds))
    decreases |ds|
  {
    if ds == "" {
      assert ds + rest == rest;
    } else {
      var front, d := ds[..|ds| - 1], ds[|ds| - 1];
      assert ds + rest == front + ([d] + rest);
      DigitsRead(front, [d] + rest);
      assert ([d] + rest)[1..] == rest;
    }
  }

  lemma {:induction false} NumeralIsWorth(n: nat)
    ensures Numeral(n) != "" && AllDigits(Numeral(n)) && Worth(Numeral(n)) == n
  {
    var d := "0123456789"[n % 10];
    assert d as int - '0' as int == n % 10;
    if n >= 10 {
      NumeralIsWorth(n / 10);
    }
    assert Numeral(n)[..|Numeral(n)| - 1] == if n < 10 then "" else Numeral(n / 10);
  }

  /** What comes after the digits, if anything. */
  predicate NoDigit(rest: string) { rest == "" || !IsDigit(rest[0]) }

  /** White space, a sign, digits, and anything else after them: the value of the digits with that sign. */
  lemma {:induction false} AtoiReads(space: string, sign: string, ds: string, rest: string)
    requires AllSpace(space) && (sign == "" || sign == "+" || sign == "-") && AllDigits(ds) && NoDigit(rest)
    requires sign == "" && ds == "" ==> rest == "" || (!IsSpace(rest[0]) && rest[0] != '+' && rest[0] != '-')
    ensures Atoi(space + sign + ds + rest) == if sign == "-" then -Worth(ds) else Worth(ds)
  {
    var t := sign + ds + rest;
    assert space + sign + ds + rest == space + t;
    assert sign == "" && ds != "" ==> t[0] == ds[0];
    IniText.SpaceSkipped(space, t);
    DigitsRead(ds, rest);
    assert t[|sign|..] == ds + rest;
    hide Digits, Worth, LSkipped;
    assert sign != "" ==> t[0] == sign[0];
  }

  lemma {:induction false} DigitsFirst(t: string) returns (ds: string, rest: string)
    ensures t == ds + rest && AllDigits(ds) && NoDigit(rest)
  {
    ds, rest := "", t;
    if t != "" && IsDigit(t[0]) {
      ds, rest := DigitsFirst(t[1..]);
      assert t == [t[0]] + t[1..];
      ds := [t[0]] + ds;
    }
  }

  lemma SignFirst(t: string) returns (sign: string, ds: string, rest: string)
    ensures t == sign + ds + rest && (sign == "" || sign == "+" || sign == "-") && AllDigits(ds) && NoDigit(rest)
    ensures sign == "" && ds == "" ==> rest == t && (t == "" || (t[0] != '+' && t[0] != '-'))
  {
    if t != "" && (t[0] == '+' || t[0] == '-') {
      sign := [t[0]];
      ds, rest := DigitsFirst(t[1..]);
      assert t == [t[0]] + t[1..];
      assert t == sign + ds + rest;
    } else {
      sign := "";
      ds, rest := DigitsFirst(t);
      assert sign + ds + rest == ds + rest;
    }
  }

  lemma SpaceFirst(s: string) returns (space: string, t: string)
    ensures s == space + t && AllSpace(space) && (t == "" || !IsSpace(t[0]))
  {
    LSkippedCutsStart(s);
    t := LSkipped(s);
    space := s[..|s| - |t|];
  }

  /** Every text is of that form. */
  lemma AtoiForm(s: string) returns (space: string, sign: string, ds: string, rest: string)
    ensures s == space + sign + ds + rest
    ensures AllSpace(space) && (sign == "" || sign == "+" || sign == "-") && AllDigits(ds) && NoDigit(rest)
    ensures sign == "" && ds == "" ==> rest == "" || (!IsSpace(rest[0]) && rest[0] != '+' && rest[0] != '-')
  {
    hide AllSpace, IsSpace, AllDigits, NoDigit;
    var t;
    space, t := SpaceFirst(s);
    sign, ds, rest := SignFirst(t);
    assert space + (sign + ds + rest) == space + sign + ds + rest;
  }

  /** Every integer is read as it is written in decimal. */
  lemma {:induction false} AtoiOfDecimal(n: int)
    ensures Atoi(Decimal(n)) == n
  {
    if n < 0 {
      SignRead("-", -n);
    } else {
      SignRead("", n);
      assert "" + Numeral(n) == Numeral(n);
    }
    hide Atoi, Numeral;
  }

  lemma SignRead(sign: string, n: nat)
    requires sign == "" || sign == "-"
    ensures Atoi(sign + Numeral(n)) == if sign == "-" then 0 - n else n
  {
    var w := Numeral(n);
    NumeralIsWorth(n);
    hide Numeral, Worth, Atoi, AllDigits;
    AtoiReads("", sign, w, "");
    assert "" + sign + w + "" == sign + w;
  }

  // ----- one call

  function NewProfile(name: string): Profile { Profile(name, map[], map[]) }

  function Put(tp: Profile, name: string, value: string): Profile {
    if name in TEXTS then tp.(texts := tp.texts[name := value])
    else if name in NUMBERS then tp.(numbers := tp.numbers[name := Atoi(value)])
    else tp
  }

  /** The first transport of that name, -1 if there is none. */
  function IndexOf(tps: seq<Profile>, name: string): (k: int)
    ensures -1 <= k < |tps|
    ensures k >= 0 ==> tps[k].name == name
    ensures forall j :: 0 <= j < (if k < 0 then |tps| else k) ==> tps[j].name != name
  {
    if tps == [] then -1
    else
      var k := IndexOf(tps[..|tps| - 1], name);
      if k >= 0 then k else if tps[|tps| - 1].name == name then |tps| - 1 else -1
  }

  function Handle(tps: seq<Profile>, c: Call): seq<Profile> {
    var k := IndexOf(tps, c.section);
    if k < 0 then tps + [Put(NewProfile(c.section), c.name, c.value)]
    else tps[k := Put(tps[k], c.name, c.value)]
  }

  /** All calls, in order. */
  function Fold(calls: seq<Call>): seq<Profile> {
    if calls == [] then [] else Handle(Fold(calls[..|calls| - 1]), calls[|calls| - 1])
  }

  predicate Known(c: Call) { c.name in TEXTS || c.name in NUMBERS }

  /** The list `transports` and the handler that changes it. */
  class Config {
    var transports: seq<Profile>

    constructor ()
      ensures transports == []
    {
      transports := [];
    }

    /** `dllistVisit` with `findTpByName`, as the handler and `sendMail` use it. */
    method FindTpByName(name: string) returns (k: int)
      ensures k == IndexOf(transports, name)
    {
      k := 0;
      while k < |transports|
        invariant 0 <= k <= |transports|
        invariant forall j :: 0 <= j < k ==> transports[j].name != name
      {
        if transports[k].name == name { return; }
        k := k + 1;
      }
      k := -1;
    }

    /** `tpIniHandler`: an unknown item is refused, but its transport is there from then on. */
    method TpIniHandler(section: string, name: string, value: string) returns (ok: bool)
      modifies this
      ensures transports == Handle(old(transports), Call(section, name, value))
      ensures ok <==> Known(Call(section, name, value))
      ensures ok <==> name in {"host", "port", "ssl", "auth", "username", "password",
        "maxConn", "maxSendPerConn", "sleepSecondsPerSend", "maxNoop", "sleepSecondsPerNoop"}
    {
      var k := FindTpByName(section);
      if k < 0 {
        k := |transports|;
        transports := transports + [NewProfile(section)];
      }
      ok := true;
      if name in TEXTS {
        transports := transports[k := transports[k].(texts := transports[k].texts[name := value])];
      } else if name in NUMBERS {
        transports := transports[k := transports[k].(numbers := transports[k].numbers[name := Atoi(value)])];
      } else {
        ok := false;
      }
    }
  }

  // ----- what the fold amounts to

  /** Index of the first call for a section, the number of calls if there is none. */
  function FirstCall(calls: seq<Call>, section: string): (k: nat)
    ensures k <= |calls|
    ensures k < |calls| ==> calls[k].section == section
    ensures forall j :: 0 <= j < k ==> calls[j].section != section
  {
    if calls == [] then 0
    else
      var k := FirstCall(calls[..|calls| - 1], section);
      if k < |calls| - 1 || calls[k].section == section then k else |calls|
  }

  datatype Option<T> = None | Some(value: T)

  /** The value of the last call for an item of a section. */
  function LastValue(calls: seq<Call>, section: string, name: string): Option<string> {
    if calls == [] then None
    else
      var c := calls[|calls| - 1];
      if c.section == section && c.name == name then Some(c.value)
      else LastValue(calls[..|calls| - 1], section, name)
  }

  /** It is the value of a call after which there is none for this item; without a value there is none at all. */
  lemma {:induction false} LastValueIs(calls: seq<Call>, section: string, name: string) returns (k: nat)
    ensures LastValue(calls, section, name).None? ==> k == 0
    ensures var v := LastValue(calls, section, name);
      v.Some? ==> k < |calls| && calls[k] == Call(section, name, v.value)
    ensures var from := if LastValue(calls, section, name).Some? then k + 1 else 0;
      forall j :: from <= j < |calls| ==> calls[j].section != section || calls[j].name != name
  {
    k := 0;
    if calls != [] {
      var last := |calls| - 1;
      if calls[last].section == section && calls[last].name == name {
        k := last;
      } else {
        k := LastValueIs(calls[..last], section, name);
      }
    }
  }

  ghost predicate EachCalled(tps: seq<Profile>, calls: seq<Call>) {
    forall i :: 0 <= i < |tps| ==> FirstCall(calls, tps[i].name) < |calls|
  }

  ghost predicate Ordered(tps: seq<Profile>, calls: seq<Call>) {
    forall i, j :: 0 <= i < j < |tps| ==> FirstCall(calls, tps[i].name) < FirstCall(calls, tps[j].name)
  }

  ghost predicate EachFound(tps: seq<Profile>, calls: seq<Call>) {
    forall k :: 0 <= k < |calls| ==> IndexOf(tps, calls[k].section) >= 0
  }

  /** Every transport is named once, by a call, in the order of the first calls. */
  ghost predicate InOrder(tps: seq<Profile>, calls: seq<Call>) {
    EachCalled(tps, calls) && Ordered(tps, calls) && EachFound(tps, calls)
  }

  lemma FirstCallGrows(calls: seq<Call>, section: string)
    requires calls != []
    ensures var less := calls[..|calls| - 1];
      FirstCall(calls, section) ==
        if FirstCall(less, section) < |less| then FirstCall(less, section)
        else if calls[|less|].section == section then |less| else |calls|
  {
  }

  lemma NamesKept(tps: seq<Profile>, c: Call)
    ensures var us := Handle(tps, c);
      && |tps| <= |us| <= |tps| + 1
      && (forall i :: 0 <= i < |tps| ==> us[i].name == tps[i].name)
      && (|us| > |tps| <==> IndexOf(tps, c.section) < 0)
      && (|us| > |tps| ==> us[|tps|].name == c.section)
  {
  }

  lemma IndexOfIs(tps: seq<Profile>, name: string, i: nat)
    requires i < |tps| && tps[i].name == name
    ensures IndexOf(tps, name) >= 0
  {
  }

  lemma {:induction false} FoldInOrder(calls: seq<Call>)
    ensures InOrder(Fold(calls), calls)
  {
    hide Handle;
    if calls != [] {
      hide InOrder;
      var less, c := calls[..|calls| - 1], calls[|calls| - 1];
      FoldInOrder(less);
      HandleInOrder(Fold(less), less, c);
      assert calls == less + [c];
    }
  }

  lemma {:induction false} HandleInOrder(tps: seq<Profile>, less: seq<Call>, c: Call)
    requires InOrder(tps, less)
    ensures InOrder(Handle(tps, c), less + [c])
  {
    var us, calls := Handle(tps, c), less + [c];
    FirstCalls(tps, us, less, c);
    assert EachFound(us, calls) by {
      forall k | 0 <= k < |calls|
        ensures IndexOf(us, calls[k].section) >= 0
      {
        StillFound(tps, us, less, c, k);
      }
    }
    hide Handle, IndexOf, FirstCall, EachFound;
    assert EachCalled(us, calls);
    assert Ordered(us, calls);
  }

  /** One more call moves no first call; a new transport's is the last. */
  lemma {:induction false} FirstCalls(tps: seq<Profile>, us: seq<Profile>, less: seq<Call>, c: Call)
    requires InOrder(tps, less) && us == Handle(tps, c)
    ensures |tps| <= |us| <= |tps| + 1
    ensures forall i :: 0 <= i < |tps| ==> FirstCall(less + [c], us[i].name) == FirstCall(less, tps[i].name) < |less|
    ensures |us| > |tps| ==> FirstCall(less + [c], us[|tps|].name) == |less|
  {
    var calls := less + [c];
    assert calls[..|calls| - 1] == less;
    NamesKept(tps, c);
    hide Handle, IndexOf, FirstCall;
    forall i | 0 <= i < |tps|
      ensures FirstCall(calls, us[i].name) == FirstCall(less, tps[i].name) < |less|
    {
      FirstCallGrows(calls, us[i].name);
    }
    if |us| > |tps| {
      FirstCallGrows(calls, c.section);
      NotCalled(tps, less, c.section);
    }
  }

  lemma NotCalled(tps: seq<Profile>, calls: seq<Call>, section: string)
    requires InOrder(tps, calls) && IndexOf(tps, section) < 0
    ensures FirstCall(calls, section) == |calls|
  {
    var k := FirstCall(calls, section);
    if k < |calls| {
      assert false;
    }
  }

  lemma StillFound(tps: seq<Profile>, us: seq<Profile>, less: seq<Call>, c: Call, k: nat)
    requires InOrder(tps, less) && us == Handle(tps, c) && k <= |less|
    ensures IndexOf(us, (less + [c])[k].section) >= 0
  {
    NamesKept(tps, c);
    var section := (less + [c])[k].section;
    var i := IndexOf(tps, section);
    if i >= 0 {
      IndexOfIs(us, section, i);
    } else {
      IndexOfIs(us, section, |tps|);
    }
  }

  /** A transport's fields hold the last values given for them. */
  ghost predicate HoldsLast(tp: Profile, calls: seq<Call>) {
    && (forall n :: n in tp.texts <==> n in TEXTS && LastValue(calls, tp.name, n).Some?)
    && (forall n :: n in tp.texts ==> tp.texts[n] == LastValue(calls, tp.name, n).value)
    && (forall n :: n in tp.numbers <==> n in NUMBERS && LastValue(calls, tp.name, n).Some?)
    && (forall n :: n in tp.numbers ==> tp.numbers[n] == Atoi(LastValue(calls, tp.name, n).value))
  }

  lemma LastValueGrows(less: seq<Call>, c: Call, section: string, name: string)
    ensures LastValue(less + [c], section, name) ==
      if c.section == section && c.name == name then Some(c.value) else LastValue(less, section, name)
  {
    assert (less + [c])[..|less|] == less;
  }

  lemma {:induction false} NoValue(calls: seq<Call>, section: string, name: string)
    requires FirstCall(calls, section) == |calls|
    ensures LastValue(calls, section, name).None?
  {
    if calls != [] {
      FirstCallGrows(calls, section);
      NoValue(calls[..|calls| - 1], section, name);
    }
  }

  /** The last values after one more call. */
  lemma LastValues(less: seq<Call>, c: Call, section: string)
    ensures forall n :: LastValue(less + [c], section, n)
                     == if c.section == section && c.name == n then Some(c.value) else LastValue(less, section, n)
  {
    hide LastValue;
    forall n: string
      ensures LastValue(less + [c], section, n) ==
        if c.section == section && c.name == n then Some(c.value) else LastValue(less, section, n)
    {
      LastValueGrows(less, c, section, n);
    }
  }

  lemma {:induction false} PutHoldsLast(tp: Profile, less: seq<Call>, c: Call)
    requires HoldsLast(tp, less) && tp.name == c.section
    ensures HoldsLast(Put(tp, c.name, c.value), less + [c])
  {
    hide Atoi, LastValue, TEXTS, NUMBERS;
    LastValues(less, c, tp.name);
    TextsAreNoNumbers(c.name);
  }

  lemma TextsAreNoNumbers(name: string)
    ensures name in TEXTS ==> name !in NUMBERS
  {
  }

  lemma OtherHoldsLast(tp: Profile, less: seq<Call>, c: Call)
    requires HoldsLast(tp, less) && tp.name != c.section
    ensures HoldsLast(tp, less + [c])
  {
    hide Atoi, LastValue, TEXTS, NUMBERS;
    LastValues(less, c, tp.name);
  }

  lemma NewHoldsLast(name: string, calls: seq<Call>)
    requires FirstCall(calls, name) == |calls|
    ensures HoldsLast(NewProfile(name), calls)
  {
    hide FirstCall, LastValue;
    forall n: string
      ensures LastValue(calls, name, n).None?
    {
      NoValue(calls, name, n);
    }
  }

  lemma DistinctNames(tps: seq<Profile>, calls: seq<Call>, i: nat, j: nat)
    requires InOrder(tps, calls) && i < |tps| && j < |tps| && tps[i].name == tps[j].name
    ensures i == j
  {
    hide FirstCall;
  }

  lemma HandleAt(tps: seq<Profile>, c: Call, i: nat)
    requires i < |Handle(tps, c)|
    ensures Handle(tps, c)[i] ==
      if i == |tps| then Put(NewProfile(c.section), c.name, c.value)
      else if i == IndexOf(tps, c.section) then Put(tps[i], c.name, c.value)
      else tps[i]
    ensures i == |tps| ==> IndexOf(tps, c.section) < 0
    ensures i <= |tps|
  {
    hide Put;
  }

  lemma {:induction false} FoldHoldsLast(calls: seq<Call>, i: nat)
    requires i < |Fold(calls)|
    ensures HoldsLast(Fold(calls)[i], calls)
  {
    var less, c := calls[..|calls| - 1], calls[|calls| - 1];
    var tps := Fold(less);
    assert calls == less + [c];
    FoldInOrder(less);
    hide HoldsLast, InOrder, Put, Handle, NewProfile;
    HandleAt(tps, c, i);
    if i == |tps| {
      NotCalled(tps, less, c.section);
      NewHoldsLast(c.section, less);
      NewIsNamed(c.section);
      PutHoldsLast(NewProfile(c.section), less, c);
    } else {
      FoldHoldsLast(less, i);
      if tps[i].name == c.section {
        IndexOfIs(tps, c.section, i);
        DistinctNames(tps, less, i, IndexOf(tps, c.section));
        PutHoldsLast(tps[i], less, c);
      } else {
        OtherHoldsLast(tps[i], less, c);
      }
    }
  }

  lemma NewIsNamed(name: string)
    ensures NewProfile(name).name == name
  {
  }

  /**
   The transports of a configuration have pairwise distinct names, stand in the order in which the file
   names them first, and hold for every item the last value given.
   */
  lemma {:induction false} TransportsOf(calls: seq<Call>)
    ensures NoDup(seq(|Fold(calls)|, i requires 0 <= i < |Fold(calls)| => Fold(calls)[i].name))
    ensures InOrder(Fold(calls), calls)
    ensures forall i :: 0 <= i < |Fold(calls)| ==> HoldsLast(Fold(calls)[i], calls)
  {
    hide HoldsLast;
    var tps := Fold(calls);
    FoldInOrder(calls);
    forall i, j | 0 <= i < j < |tps|
      ensures tps[i].name != tps[j].name
    {
      assert FirstCall(calls, tps[i].name) < FirstCall(calls, tps[j].name);
    }
    forall i | 0 <= i < |tps|
      ensures HoldsLast(tps[i], calls)
    {
      FoldHoldsLast(calls, i);
    }
  }

  lemma OnlyMatch(calls: seq<Call>, name: string, i: nat)
    requires i < |Fold(calls)| && Fold(calls)[i].name == name
    ensures IndexOf(Fold(calls), name) == i
  {
    FoldInOrder(calls);
    IndexOfIs(Fold(calls), name, i);
    DistinctNames(Fold(calls), calls, i, IndexOf(Fold(calls), name));
  }

  /** A sender finds a transport exactly when the file names it, and then the only one of that name. */
  lemma {:induction false} FindsTheTransport(calls: seq<Call>, name: string)
    ensures IndexOf(Fold(calls), name) >= 0 <==> exists k :: 0 <= k < |calls| && calls[k].section == name
    ensures forall i :: 0 <= i < |Fold(calls)| && Fold(calls)[i].name == name ==> IndexOf(Fold(calls), name) == i
  {
    var tps := Fold(calls);
    FoldInOrder(calls);
    if IndexOf(tps, name) >= 0 {
      assert FirstCall(calls, tps[IndexOf(tps, name)].name) < |calls|;
    }
    forall i | 0 <= i < |tps| && tps[i].name == name
      ensures IndexOf(tps, name) == i
    {
      OnlyMatch(calls, name, i);
    }
  }

  /** Writing sections with their items and loading the file gives exactly the transports written. */
  lemma {:induction false} LoadsWhatIsWritten(blocks: seq<IniText.Block>)
    requires IniText.Clean(blocks)
    ensures var end := Parsed(START, IniText.FileText(blocks), Known);
      var calls := IniText.FileCalls(blocks);
      && (end.error == 0 <==> forall k :: 0 <= k < |calls| ==> Known(calls[k]))
      && InOrder(Fold(end.calls), calls)
      && forall i :: 0 <= i < |Fold(end.calls)| ==> HoldsLast(Fold(end.calls)[i], calls)
  {
    hide InOrder, HoldsLast;
    IniText.ReadsWhatIsWritten(blocks, Known);
    TransportsOf(IniText.FileCalls(blocks));
  }

  /** So does a file with comments, continuations, and lines in error, of which the first is reported. */
  lemma {:induction false} LoadsEveryLine(lines: seq<IniLines.Entry>)
    requires IniLines.AllProper(lines)
    ensures var end := Parsed(START, IniLines.FileOf(lines), Known);
      var calls := IniLines.CallsOf(lines);
      && (end.error == 0 <==> forall k :: 1 <= k <= |lines| ==> !IniLines.Faulty(lines[..k], Known))
      && InOrder(Fold(end.calls), calls)
      && forall i :: 0 <= i < |Fold(end.calls)| ==> HoldsLast(Fold(end.calls)[i], calls)
  {
    hide InOrder, HoldsLast, IniLines.Faulty;
    IniLines.ReadsEveryLine(lines, Known);
    TransportsOf(IniLines.CallsOf(lines));
  }

  /** A number that is written in decimal is the number that the transport gets. */
  lemma {:induction false} LoadsNumbers(lines: seq<IniLines.Entry>, i: nat, item: string, n: int)
    requires IniLines.AllProper(lines)
    requires item in {"maxConn", "maxSendPerConn", "sleepSecondsPerSend", "maxNoop", "sleepSecondsPerNoop"}
    requires i < |Fold(Parsed(START, IniLines.FileOf(lines), Known).calls)|
    requires var tp := Fold(Parsed(START, IniLines.FileOf(lines), Known).calls)[i];
      LastValue(IniLines.CallsOf(lines), tp.name, item) == Some(Decimal(n))
    ensures var tp := Fold(Parsed(START, IniLines.FileOf(lines), Known).calls)[i];
      item in tp.numbers && tp.numbers[item] == n
  {
    LoadsEveryLine(lines);
    AtoiOfDecimal(n);
    hide Atoi, Decimal, Fold, Parsed, LastValue, IniLines.AllProper, IniLines.Faulty, IniLines.CallsOf;
  }
}
