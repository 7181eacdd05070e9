/** `base64_encode` of src/smtp.c, against the padded encoding of RFC 4648, section 4. */
module Base64 {

  type byte = bv8

  const UPPER := "ABCDEFGHIJKLMNOPQRSTUVWXYZ"
  const LOWER := "abcdefghijklmnopqrstuvwxyz"
  const DIGITS := "0123456789"
  const EN_MAP := UPPER + LOWER + DIGITS + "+/"

  /** The rows of the decoding table that hold values; -1 marks a character that has none. */
  const ROW_2: seq<int> := [-1, -1, -1, -1, -1, -1, -1, -1, -1, -1, -1, 62, -1, -1, -1, 63]
  const ROW_3: seq<int> := [52, 53, 54, 55, 56, 57, 58, 59, 60, 61, -1, -1, -1, -1, -1, -1]
  const ROW_4: seq<int> := [-1, 0, 1, 2, 3, 4, 5, 6, 7, 8, 9, 10, 11, 12, 13, 14]
  const ROW_5: seq<int> := [15, 16, 17, 18, 19, 20, 21, 22, 23, 24, 25, -1, -1, -1, -1, -1]
  const ROW_6: seq<int> := [-1, 26, 27, 28, 29, 30, 31, 32, 33, 34, 35, 36, 37, 38, 39, 40]
  const ROW_7: seq<int> := [41, 42, 43, 44, 45, 46, 47, 48, 49, 50, 51, -1, -1, -1, -1, -1]

  // ----- the encoding that the standard describes

  /** Three bytes concatenated, most significant first. */
  function Group(a: byte, b: byte, c: byte): bv24 {
    ((a as bv24) << 16) | ((b as bv24) << 8) | (c as bv24)
  }

  /** The four sextets of a group, from the left. */
  function Sextet(g: bv24, i: nat): bv8
    requires i < 4
  {
    var shifted := if i == 0 then g >> 18 else if i == 1 then g >> 12 else if i == 2 then g >> 6 else g;
    (shifted & 0x3f) as bv8
  }

  function Symbol(v: bv8): char {
    if v < 64 && v as int < |EN_MAP| then EN_MAP[v as int] else '='
  }

  /** The four symbols of a group, the last `pad` of them replaced by padding. */
  function Quantum(g: bv24, pad: nat): (q: string)
    ensures |q| == 4
  {
    [Symbol(Sextet(g, 0)), Symbol(Sextet(g, 1)),
     if pad > 1 then '=' else Symbol(Sextet(g, 2)),
     if pad > 0 then '=' else Symbol(Sextet(g, 3))]
  }

  /** Groups of 24 bits as four symbols; a last group that is short is filled with zero bits and padded. */
  function Encoding(s: seq<byte>): string {
    if s == [] then ""
    else if |s| == 1 then Quantum(Group(s[0], 0, 0), 2)
    else if |s| == 2 then Quantum(Group(s[0], s[1], 0), 1)
    else Quantum(Group(s[0], s[1], s[2]), 0) + Encoding(s[3..])
  }

  lemma {:induction false} EncodingLength(s: seq<byte>)
    ensures |Encoding(s)| == (|s| + 2) / 3 * 4
  {
    if |s| >= 3 {
      EncodingLength(s[3..]);
    }
  }

  // ----- the bit operations of the C code are those sextets

  lemma FirstSextet(a: byte, b: byte, c: byte)
    ensures a >> 2 == Sextet(Group(a, b, c), 0)
  {
  }

  lemma SecondSextet(a: byte, b: byte, c: byte)
    ensures ((a << 4) & 0x30) | (b >> 4) == Sextet(Group(a, b, c), 1)
  {
  }

  lemma ThirdSextet(a: byte, b: byte, c: byte)
    ensures ((b << 2) & 0x3c) | (c >> 6) == Sextet(Group(a, b, c), 2)
  {
  }

  lemma FourthSextet(a: byte, b: byte, c: byte)
    ensures c & 0x3f == Sextet(Group(a, b, c), 3)
  {
  }

  lemma BitOperations(a: byte, b: byte, c: byte)
    ensures a >> 2 == Sextet(Group(a, b, c), 0)
    ensures ((a << 4) & 0x30) | (b >> 4) == Sextet(Group(a, b, c), 1)
    ensures ((b << 2) & 0x3c) | (c >> 6) == Sextet(Group(a, b, c), 2)
    ensures c & 0x3f == Sextet(Group(a, b, c), 3)
  {
    hide Sextet, Group;
    FirstSextet(a, b, c);
    SecondSextet(a, b, c);
    ThirdSextet(a, b, c);
    FourthSextet(a, b, c);
  }

  lemma SextetInTable(g: bv24, i: nat)
    requires i < 4
    ensures Sextet(g, i) < 64 && Sextet(g, i) as int < 64
  {
  }

  /** `enMap[v]` for an index that the bit operations keep below 64. */
  method EnMap(v: bv8) returns (c: char)
    requires v < 64
    ensures c == Symbol(v)
  {
    assert v as int < 64;
    c := EN_MAP[v as int];
  }

  /** The four symbols that the C code writes for three bytes. */
  method Quad(out: array<char>, ptr: nat, a: byte, b: byte, c: byte)
    requires ptr + 4 <= out.Length
    modifies out
    ensures out[..ptr + 4] == old(out[..ptr]) + Quantum(Group(a, b, c), 0)
  {
    BitOperations(a, b, c);
    ghost var g := Group(a, b, c);
    SextetInTable(g, 0);
    SextetInTable(g, 1);
    SextetInTable(g, 2);
    SextetInTable(g, 3);
    var w := EnMap(a >> 2);
    var x := EnMap(((a << 4) & 0x30) | (b >> 4));
    var y := EnMap(((b << 2) & 0x3c) | (c >> 6));
    var z := EnMap(c & 0x3f);
    out[ptr], out[ptr + 1], out[ptr + 2], out[ptr + 3] := w, x, y, z;
  }

  /** The symbols and padding for one or two bytes that are left over. */
  method Tail(out: array<char>, ptr: nat, rest: seq<byte>)
    requires ptr + 4 <= out.Length && (|rest| == 1 || |rest| == 2)
    modifies out
    ensures out[..ptr + 4] == old(out[..ptr]) + Encoding(rest)
  {
    var a := rest[0];
    ghost var g := Group(a, if |rest| == 2 then rest[1] else 0, 0);
    SextetInTable(g, 0);
    SextetInTable(g, 1);
    SextetInTable(g, 2);
    if |rest| == 1 {
      BitOperations(a, 0, 0);
      var w := EnMap(a >> 2);
      var x := EnMap(((a << 4) & 0x30) | 0);
      out[ptr], out[ptr + 1], out[ptr + 2], out[ptr + 3] := w, x, '=', '=';
    } else {
      var b := rest[1];
      BitOperations(a, b, 0);
      var w := EnMap(a >> 2);
      var x := EnMap(((a << 4) & 0x30) | (b >> 4));
      var y := EnMap(((b << 2) & 0x3c) | 0);
      out[ptr], out[ptr + 1], out[ptr + 2], out[ptr + 3] := w, x, y, '=';
    }
  }

  lemma OneGroup(s: seq<byte>, at: nat, done: string)
    requires at + 3 <= |s|
    ensures var q := Quantum(Group(s[at], s[at + 1], s[at + 2]), 0);
      && done + Encoding(s[at..]) == (done + q) + Encoding(s[at + 3..])
      && |Encoding(s[at..])| == 4 + |Encoding(s[at + 3..])|
  {
    hide Quantum, Group;
    assert s[at..][3..] == s[at + 3..];
    var q := Quantum(Group(s[at], s[at + 1], s[at + 2]), 0);
    assert done + (q + Encoding(s[at + 3..])) == (done + q) + Encoding(s[at + 3..]);
  }

  /** The whole groups, up to a last group that is short. */
  method Groups(input: seq<byte>, out: array<char>) returns (at: nat, ptr: nat)
    requires |input| / 3 * 4 <= out.Length
    modifies out
    ensures at == |input| / 3 * 3 && ptr == |input| / 3 * 4
    ensures out[..ptr] + Encoding(input[at..]) == Encoding(input)
  {
    hide Quantum, Group, Encoding;
    var inlen := |input|;
    at, ptr := 0, 0;
    assert input[0..] == input;
    while inlen >= 3
      invariant inlen >= 0 && at + inlen == |input|
      invariant at % 3 == 0 && ptr == at / 3 * 4
      invariant out[..ptr] + Encoding(input[at..]) == Encoding(input)
    {
      OneGroup(input, at, out[..ptr]);
      Quad(out, ptr, input[at], input[at + 1], input[at + 2]);
      at := at + 3;
      ptr := ptr + 4;
      inlen := inlen - 3;
    }
  }

  /** The line end and the terminating NUL fill the buffer. */
  method LineEnd(out: array<char>, ptr: nat)
    requires ptr + 3 == out.Length
    modifies out
    ensures out[..] == old(out[..ptr]) + "\r\n\0"
  {
    out[ptr], out[ptr + 1], out[ptr + 2] := '\r', '\n', '\0';
  }

  /** `base64_encode`: writes exactly the bytes it allocates. */
  method Encode(input: seq<byte>) returns (out: array<char>)
    ensures fresh(out)
    ensures out.Length == |input| / 3 * 4 + 3 + if |input| % 3 != 0 then 4 else 0
    ensures out[..] == Encoding(input) + "\r\n\0"
  {
    var inlen := |input|;
    var outlen := inlen / 3 * 4 + 3;
    if inlen % 3 != 0 {
      outlen := outlen + 4;
    }
    out := new char[outlen];
    var at, ptr := Groups(input, out);
    if inlen - at > 0 {
      hide Encoding;
      Tail(out, ptr, input[at..]);
      ptr := ptr + 4;
    }
    LineEnd(out, ptr);
  }

  // ----- and back

  /** `deMap`, sixteen characters to a row. */
  function Value(c: char): int {
    var row, column := c as int / 16, c as int % 16;
    if row == 2 then ROW_2[column]
    else if row == 3 then ROW_3[column]
    else if row == 4 then ROW_4[column]
    else if row == 5 then ROW_5[column]
    else if row == 6 then ROW_6[column]
    else if row == 7 then ROW_7[column]
    else -1
  }

  /** `deMap` inverts entry `k` of `enMap`. */
  predicate Inverts(k: int)
    requires 0 <= k < 64
  {
    Value(EN_MAP[k]) == k && EN_MAP[k] != '='
  }

  lemma Runs(k: int)
    ensures 0 <= k < 26 ==> UPPER[k] as int == 65 + k
    ensures 0 <= k < 26 ==> LOWER[k] as int == 97 + k
    ensures 0 <= k < 10 ==> DIGITS[k] as int == 48 + k
  {
  }

  lemma RowRuns(k: int)
    ensures 0 <= k < 15 ==> ROW_4[k + 1] == k && ROW_6[k + 1] == 26 + k
    ensures 0 <= k < 11 ==> ROW_5[k] == 15 + k && ROW_7[k] == 41 + k
    ensures 0 <= k < 10 ==> ROW_3[k] == 52 + k
  {
  }

  lemma UpperAgrees(k: int)
    requires 0 <= k < 26
    ensures Value(UPPER[k]) == k && UPPER[k] != '='
  {
    Runs(k);
    RowRuns(k);
    RowRuns(k - 15);
    hide UPPER, ROW_2, ROW_3, ROW_4, ROW_5, ROW_6, ROW_7;
  }

  lemma LowerAgrees(k: int)
    requires 0 <= k < 26
    ensures Value(LOWER[k]) == 26 + k && LOWER[k] != '='
  {
    Runs(k);
    RowRuns(k);
    RowRuns(k - 15);
    hide LOWER, ROW_2, ROW_3, ROW_4, ROW_5, ROW_6, ROW_7;
  }

  lemma DigitsAgree(k: int)
    requires 0 <= k < 10
    ensures Value(DIGITS[k]) == 52 + k && DIGITS[k] != '='
  {
    Runs(k);
    RowRuns(k);
    hide DIGITS, ROW_2, ROW_3, ROW_4, ROW_5, ROW_6, ROW_7;
  }

  /** `deMap` is the inverse of `enMap`. */
  lemma {:induction false} TablesAgree(k: int)
    requires 0 <= k < 64
    ensures Inverts(k)
  {
    if k < 26 {
      UpperAgrees(k);
    } else if k < 52 {
      LowerAgrees(k - 26);
    } else if k < 62 {
      DigitsAgree(k - 52);
    }
    hide UPPER, LOWER, DIGITS, ROW_3, ROW_4, ROW_5, ROW_6, ROW_7;
  }

  /** The sextet that a symbol stands for. */
  function Sixth(c: char): bv8 {
    var v := Value(c);
    if 0 <= v < 64 then v as bv8 else 0
  }

  lemma {:induction false} SixthOfSymbol(v: bv8)
    requires v < 64
    ensures Sixth(Symbol(v)) == v && Symbol(v) != '='
  {
    assert v as int < 64;
    TablesAgree(v as int);
  }

  /** The bytes that four sextets make up. */
  function ByteA(w: bv8, x: bv8): byte { (w << 2) | (x >> 4) }

  function ByteB(x: bv8, y: bv8): byte { (x << 4) | (y >> 2) }

  function ByteC(y: bv8, z: bv8): byte { (y << 6) | z }

  /** The bytes of four symbols, as many as the padding leaves. */
  function Bytes(q: string): seq<byte>
    requires |q| == 4
  {
    var w, x, y, z := Sixth(q[0]), Sixth(q[1]), Sixth(q[2]), Sixth(q[3]);
    if q[2] == '=' then [ByteA(w, x)]
    else if q[3] == '=' then [ByteA(w, x), ByteB(x, y)]
    else [ByteA(w, x), ByteB(x, y), ByteC(y, z)]
  }

  function Decode(t: string): seq<byte> {
    if |t| < 4 then [] else Bytes(t[..4]) + Decode(t[4..])
  }

  lemma FirstByte(a: byte, b: byte)
    ensures ByteA(a >> 2, ((a << 4) & 0x30) | (b >> 4)) == a
  {
  }

  lemma SecondByte(a: byte, b: byte, c: byte)
    ensures ByteB(((a << 4) & 0x30) | (b >> 4), ((b << 2) & 0x3c) | (c >> 6)) == b
  {
  }

  lemma ThirdByte(b: byte, c: byte)
    ensures ByteC(((b << 2) & 0x3c) | (c >> 6), c & 0x3f) == c
  {
  }

  lemma SextetsMakeBytes(a: byte, b: byte, c: byte)
    ensures var g := Group(a, b, c);
      && ByteA(Sextet(g, 0), Sextet(g, 1)) == a
      && ByteB(Sextet(g, 1), Sextet(g, 2)) == b
      && ByteC(Sextet(g, 2), Sextet(g, 3)) == c
  {
    hide Sextet, Group, ByteA, ByteB, ByteC;
    BitOperations(a, b, c);
    FirstByte(a, b);
    SecondByte(a, b, c);
    ThirdByte(b, c);
  }

  lemma {:induction false} QuantumBytes(a: byte, b: byte, c: byte, pad: nat)
    requires pad <= 2
    ensures Bytes(Quantum(Group(a, b, c), pad)) == [a, b, c][..3 - pad]
  {
    hide Group, Sextet, Symbol, Sixth, ByteA, ByteB, ByteC;
    var g := Group(a, b, c);
    SextetsMakeBytes(a, b, c);
    SymbolBack(g, 0);
    SymbolBack(g, 1);
    SymbolBack(g, 2);
    SymbolBack(g, 3);
  }

  lemma {:induction false} SymbolBack(g: bv24, i: nat)
    requires i < 4
    ensures Sixth(Symbol(Sextet(g, i))) == Sextet(g, i) && Symbol(Sextet(g, i)) != '='
  {
    SextetInTable(g, i);
    SixthOfSymbol(Sextet(g, i));
  }

  /** Decoding with `deMap` gives back every byte string. */
  lemma {:induction false} DecodeEncoding(s: seq<byte>)
    ensures Decode(Encoding(s)) == s
  {
    hide Quantum, Group, Bytes;
    if |s| == 0 {
    } else if |s| == 1 {
      QuantumBytes(s[0], 0, 0, 2);
      LastQuantum(Quantum(Group(s[0], 0, 0), 2));
    } else if |s| == 2 {
      QuantumBytes(s[0], s[1], 0, 1);
      LastQuantum(Quantum(Group(s[0], s[1], 0), 1));
    } else {
      var q := Quantum(Group(s[0], s[1], s[2]), 0);
      QuantumBytes(s[0], s[1], s[2], 0);
      DecodeEncoding(s[3..]);
      assert (q + Encoding(s[3..]))[..4] == q && (q + Encoding(s[3..]))[4..] == Encoding(s[3..]);
      assert s == [s[0], s[1], s[2]] + s[3..];
    }
  }

  lemma LastQuantum(q: string)
    requires |q| == 4
    ensures Decode(q) == Bytes(q)
  {
    assert q[..4] == q && q[4..] == "";
  }

  /** No two byte strings are encoded alike. */
  lemma EncodingIsInjective(s: seq<byte>, t: seq<byte>)
    requires Encoding(s) == Encoding(t)
    ensures s == t
  {
    DecodeEncoding(s);
    DecodeEncoding(t);
  }

  lemma SymbolIsNotNul(g: bv24, i: nat)
    requires i < 4
    ensures Symbol(Sextet(g, i)) != '\0'
  {
    hide Sextet;
    SextetInTable(g, i);
    TablesAgree(Sextet(g, i) as int);
    assert Value('\0') == -1;
  }

  /** The NUL that ends the output is its only one: as a C string it is all of it. */
  lemma {:induction false} EncodingHasNoNul(s: seq<byte>)
    ensures '\0' !in Encoding(s)
  {
    hide Symbol, Sextet, Group;
    if s != [] {
      var g := if |s| == 1 then Group(s[0], 0, 0)
        else if |s| == 2 then Group(s[0], s[1], 0)
        else Group(s[0], s[1], s[2]);
      SymbolIsNotNul(g, 0);
      SymbolIsNotNul(g, 1);
      SymbolIsNotNul(g, 2);
      SymbolIsNotNul(g, 3);
      if |s| >= 3 {
        EncodingHasNoNul(s[3..]);
      }
    }
  }
}
