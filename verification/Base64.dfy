/** src/cdecode.c and src/base64.cpp: a base64 decoder that can stop after any input character and
    go on with the next block. */
module Base64 {
  import opened Bytes
  import opened Collections

  // ---------------------------------------------------------------- the table

  /** The lookup table, ten entries a row. */
  function Row(r: int): (s: seq<int>)
    requires 0 <= r < 8
    ensures |s| == 10
  {
    match r
    case 0 => [62, -1, -1, -1, 63, 52, 53, 54, 55, 56]
    case 1 => [57, 58, 59, 60, 61, -1, -1, -1, -2, -1]
    case 2 => [-1, -1, 0, 1, 2, 3, 4, 5, 6, 7]
    case 3 => [8, 9, 10, 11, 12, 13, 14, 15, 16, 17]
    case 4 => [18, 19, 20, 21, 22, 23, 24, 25, -1, -1]
    case 5 => [-1, -1, -1, -1, 26, 27, 28, 29, 30, 31]
    case 6 => [32, 33, 34, 35, 36, 37, 38, 39, 40, 41]
    case 7 => [42, 43, 44, 45, 46, 47, 48, 49, 50, 51]
  }

  const TABLE_SIZE := 80

  const BRACE := 123

  /** A byte minus 43, as a signed char. */
  function Offset(c: Byte): int {
    var signed := if c < 128 then c as int else c - 256;
    if signed - 43 < -128 then signed - 43 + 256 else signed - 43
  }

  /** The range check lets one index too many through. */
  predicate PassesCheck(c: Byte) {
    0 <= Offset(c) <= TABLE_SIZE
  }

  /** The lookup stays inside the table for every byte but the opening brace. */
  lemma LookupInBoundsIff(c: Byte)
    ensures (PassesCheck(c) ==> Offset(c) < TABLE_SIZE) <==> c != BRACE
  {
  }

  type Code = c: Byte | c != BRACE witness 0

  function DecodeValue(c: Code): int {
    if PassesCheck(c) then Row(Offset(c) / 10)[Offset(c) % 10] else -1
  }

  /** The table is the inverse of the alphabet of RFC 4648, section 4, and negative elsewhere. */
  lemma TableIsAlphabet(c: Code)
    ensures DecodeValue(c) < 64
    ensures forall v | 0 <= v < 64 :: DecodeValue(c) == v <==> c == Letter(v)
  {
    hide Row;
    if PassesCheck(c) {
      RowsAre(Offset(c));
    }
  }

  predicate RowIs(k: int, v: int) {
    if 22 <= k < 48 then v == k - 22 else if 54 <= k then v == k - 28
    else if 5 <= k < 15 then v == k + 47 else if k == 0 then v == 62 else if k == 4 then v == 63 else v < 0
  }

  lemma OneRow(r: int)
    requires 0 <= r < 8
    ensures forall j | 0 <= j < 10 :: RowIs(10 * r + j, Row(r)[j])
  {
  }

  lemma RowsAre(k: int)
    requires 0 <= k < TABLE_SIZE
    ensures RowIs(k, Row(k / 10)[k % 10])
  {
    hide Row, RowIs;
    OneRow(k / 10);
  }

  /** The alphabet: A to Z, a to z, 0 to 9, '+' and '/'. */
  function Letter(v: int): Code
    requires 0 <= v < 64
  {
    if v < 26 then 65 + v else if v < 52 then 71 + v else if v < 62 then v - 4 else if v == 62 then 43 else 47
  }

  // ---------------------------------------------------------------- one character

  datatype Step = A | B | C | D

  datatype Carry = Carry(step: Step, plain: Byte)

  /** The bits still to come are zero in the byte carried over, so `|=` adds. */
  type State = s: Carry |
    match s.step
    case A => true
    case B => s.plain % 4 == 0
    case C => s.plain % 16 == 0
    case D => s.plain % 64 == 0
    witness Carry(A, 0)

  const START: State := Carry(A, 0)

  function Feed(s: State, f: int): (State, seq<Byte>)
    requires 0 <= f < 64
  {
    match s.step
    case A => (Carry(B, f * 4), [])
    case B => (Carry(C, f % 16 * 16), [s.plain + f / 16])
    case C => (Carry(D, f % 4 * 64), [s.plain + f / 4])
    case D => (Carry(A, 0), [s.plain + f])
  }

  /** State and output after a text, one character after the other; characters without a value are skipped. */
  function Decode(s: State, code: seq<Code>): (State, seq<Byte>)
    decreases |code|
  {
    if code == [] then (s, [])
    else
      var before := Decode(s, code[..|code| - 1]);
      TableIsAlphabet(code[|code| - 1]);
      var f := DecodeValue(code[|code| - 1]);
      if f < 0 then before
      else
        var after := Feed(before.0, f);
        (after.0, before.1 + after.1)
  }

  /** Bits read but not yet part of an output byte. */
  function Pending(step: Step): nat {
    match step
    case A => 0
    case B => 6
    case C => 4
    case D => 2
  }

  /** What is saved at step A is overwritten before it is used. */
  predicate Same(a: Carry, b: Carry) {
    a.step == b.step && (a.step.A? || a.plain == b.plain)
  }

  /** Every input character yields at most six bits. */
  lemma {:induction false} OutputBound(s: State, code: seq<Code>)
    ensures var (t, out) := Decode(s, code); 8 * |out| + Pending(t.step) <= 6 * |code| + Pending(s.step)
    decreases |code|
  {
    if code != [] {
      OutputBound(s, code[..|code| - 1]);
    }
  }

  /** Decoding in two blocks is decoding in one. */
  lemma {:induction false} ChunksDoNotMatter(s: State, a: seq<Code>, b: seq<Code>)
    ensures var (t, x) := Decode(s, a);
            var (u, y) := Decode(t, b);
            Decode(s, a + b) == (u, x + y)
    decreases |b|
  {
    hide DecodeValue, Feed, Letter;
    if b == [] {
      NilRight(a);
      NilRight(Decode(s, a).1);
    } else {
      var n := |b| - 1;
      ChunksDoNotMatter(s, a, b[..n]);
      assert (a + b)[..|a + b| - 1] == a + b[..n];
      TableIsAlphabet(b[n]);
      if DecodeValue(b[n]) >= 0 {
        var t := Decode(s, a).0;
        Assoc(Decode(s, a).1, Decode(t, b[..n]).1, Feed(Decode(t, b[..n]).0, DecodeValue(b[n])).1);
      }
    }
  }

  /** Characters outside the alphabet, line breaks and padding say, leave no trace. */
  lemma JunkIsSkipped(s: State, a: seq<Code>, junk: seq<Code>, b: seq<Code>)
    requires forall i | 0 <= i < |junk| :: DecodeValue(junk[i]) < 0
    ensures Decode(s, a + junk + b) == Decode(s, a + b)
  {
    hide DecodeValue;
    ChunksDoNotMatter(s, a + junk, b);
    ChunksDoNotMatter(s, a, junk);
    ChunksDoNotMatter(s, a, b);
    OnlyJunk(Decode(s, a).0, junk);
    NilRight(Decode(s, a).1);
  }

  lemma {:induction false} OnlyJunk(s: State, junk: seq<Code>)
    requires forall i | 0 <= i < |junk| :: DecodeValue(junk[i]) < 0
    ensures Decode(s, junk) == (s, [])
    decreases |junk|
  {
    hide DecodeValue;
    if junk != [] {
      OnlyJunk(s, junk[..|junk| - 1]);
    }
  }

  // ---------------------------------------------------------------- the decoder

  class DecodeState {
    var step: Step
    var plainchar: Byte

    constructor ()
      ensures step == A && plainchar == 0
    {
      step, plainchar := A, 0;
    }

    ghost function Model(): Carry
      reads this
    {
      Carry(step, plainchar)
    }

    /** base64_decode_block: resumes at `step`, writes no further than its room allows, and saves
        where it stopped. */
    method DecodeBlock(code: seq<Code>, out: array<Byte>, ghost s: State) returns (length: nat)
      requires Same(s, Model())
      requires 8 * out.Length > 6 * |code| + Pending(step)
      modifies this, out
      ensures length == |Decode(s, code).1| < out.Length && out[..length] == Decode(s, code).1
      ensures Same(Decode(s, code).0, Model())
    {
      hide DecodeValue, Decode;
      var at: nat := 0;
      var now := step;
      out[0] := plainchar;
      DecodeNothing(s, code);
      for i := 0 to |code|
        invariant at == |Decode(s, code[..i]).1| < out.Length
        invariant var (t, bytes) := Decode(s, code[..i]);
                  t.step == now && out[..at] == bytes && (now.A? || out[at] == t.plain)
      {
        ghost var t := Decode(s, code[..i]).0;
        TableIsAlphabet(code[i]);
        DecodeOneMore(s, code, i);
        OutputBound(s, code[..i + 1]);
        var fragment := DecodeValue(code[i]);
        if fragment >= 0 {
          at, now := Emit(out, at, now, fragment, t);
        }
      }
      assert code[..|code|] == code;
      step, plainchar := now, out[at];
      length := at;
    }
  }

  lemma DecodeEmpty(s: State)
    ensures Decode(s, []) == (s, [])
  {
  }

  lemma DecodeNothing(s: State, code: seq<Code>)
    ensures Decode(s, code[..0]) == (s, [])
  {
  }

  lemma DecodeOneMore(s: State, code: seq<Code>, i: nat)
    requires i < |code|
    ensures var before := Decode(s, code[..i]);
            var f := DecodeValue(code[i]);
            && f < 64
            && Decode(s, code[..i + 1])
               == if f < 0 then before else (Feed(before.0, f).0, before.1 + Feed(before.0, f).1)
  {
    hide DecodeValue, Feed, Letter;
    TableIsAlphabet(code[i]);
    assert code[..i + 1][..i] == code[..i];
  }

  /** What one fragment does to the output. */
  method Emit(out: array<Byte>, at: nat, step: Step, fragment: int, ghost t: State) returns (next: nat, nextStep: Step)
    requires 0 <= fragment < 64 && at + |Feed(t, fragment).1| < out.Length
    requires t.step == step && (step.A? || out[at] == t.plain)
    modifies out
    ensures next == at + |Feed(t, fragment).1| && nextStep == Feed(t, fragment).0.step
    ensures out[..next] == old(out[..at]) + Feed(t, fragment).1
    ensures nextStep.A? || out[next] == Feed(t, fragment).0.plain
  {
    match step {
      case A =>
        out[at] := fragment * 4;
        NilRight(out[..at]);
        next, nextStep := at, B;
      case B =>
        next := PutBits(out, at, fragment / 16);
        out[next] := fragment % 16 * 16;
        nextStep := C;
      case C =>
        next := PutBits(out, at, fragment / 4);
        out[next] := fragment % 4 * 64;
        nextStep := D;
      case D =>
        next := PutBits(out, at, fragment);
        nextStep := A;
    }
  }

  /** `*plainchar++ |= bits`, where those bits are still zero. */
  method PutBits(out: array<Byte>, at: nat, bits: int) returns (next: nat)
    requires at < out.Length && 0 <= bits && out[at] + bits < 256
    modifies out
    ensures next == at + 1 && out[..next] == old(out[..at]) + [old(out[at]) + bits]
  {
    out[at] := out[at] + bits;
    next := at + 1;
    assert out[..next] == out[..at] + [out[at]];
  }

  /** base64decode: fewer than four characters decode to nothing. */
  function Decoded(code: seq<Code>): seq<Byte> {
    if |code| < 4 then [] else Decode(START, code).1
  }

  method Base64Decode(code: seq<Code>) returns (r: seq<Byte>)
    ensures r == Decoded(code)
  {
    if |code| < 4 {
      return [];
    }
    var buffer := new Byte[|code| * 6 / 8 + 1](_ => 0);
    var state := new DecodeState();
    var length := state.DecodeBlock(code, buffer, START);
    r := buffer[..length];
  }

  // ---------------------------------------------------------------- the encoding of RFC 4648, section 4

  const PAD: Code := 61

  /** Three bytes make four characters. */
  function Quad(a: Byte, b: Byte, c: Byte): seq<Code> {
    [Letter(a / 4), Letter(a % 4 * 16 + b / 16), Letter(b % 16 * 4 + c / 64), Letter(c % 64)]
  }

  function Triple(a: Byte, b: Byte): seq<Code> {
    [Letter(a / 4), Letter(a % 4 * 16 + b / 16), Letter(b % 16 * 4)]
  }

  function Pair(a: Byte): seq<Code> {
    [Letter(a / 4), Letter(a % 4 * 16)]
  }

  function Encode(data: seq<Byte>): seq<Code>
    decreases |data|
  {
    if data == [] then []
    else if |data| == 1 then Pair(data[0]) + [PAD, PAD]
    else if |data| == 2 then Triple(data[0], data[1]) + [PAD]
    else Quad(data[0], data[1], data[2]) + Encode(data[3..])
  }

  lemma LetterInverts(v: int)
    requires 0 <= v < 64
    ensures DecodeValue(Letter(v)) == v
  {
    hide DecodeValue, Letter;
    TableIsAlphabet(Letter(v));
  }

  lemma PadIsSkipped()
    ensures DecodeValue(PAD) < 0
  {
    assert Row(1)[8] == -2;
  }

  /** One more letter. */
  lemma LetterFed(s: State, code: seq<Code>, v: int)
    requires 0 <= v < 64
    ensures Decode(s, code + [Letter(v)])
         == (Feed(Decode(s, code).0, v).0, Decode(s, code).1 + Feed(Decode(s, code).0, v).1)
  {
    hide DecodeValue, Feed, Letter;
    LetterInverts(v);
    assert (code + [Letter(v)])[..|code|] == code;
  }

  lemma OneLetter(a: int)
    requires 0 <= a < 64
    ensures Decode(START, [Letter(a)]) == (Carry(B, a * 4), [])
  {
    hide DecodeValue, Letter;
    LetterInverts(a);
    var none: seq<Code> := [];
    LetterFed(START, none, a);
    assert none + [Letter(a)] == [Letter(a)];
    assert Decode(START, none) == (START, []);
    NilLeft<Byte>([]);
  }

  lemma TwoLetters(a: int, b: int)
    requires 0 <= a < 64 && 0 <= b < 64
    ensures Decode(START, [Letter(a), Letter(b)]) == (Carry(C, b % 16 * 16), [a * 4 + b / 16])
  {
    hide DecodeValue, Letter, Decode;
    OneLetter(a);
    LetterFed(START, [Letter(a)], b);
    assert [Letter(a)] + [Letter(b)] == [Letter(a), Letter(b)];
    NilLeft<Byte>([a * 4 + b / 16]);
  }

  lemma ThreeLetters(a: int, b: int, c: int)
    requires 0 <= a < 64 && 0 <= b < 64 && 0 <= c < 64
    ensures Decode(START, [Letter(a), Letter(b), Letter(c)])
         == (Carry(D, c % 4 * 64), [a * 4 + b / 16, b % 16 * 16 + c / 4])
  {
    hide DecodeValue, Letter, Decode;
    TwoLetters(a, b);
    LetterFed(START, [Letter(a), Letter(b)], c);
    assert [Letter(a), Letter(b)] + [Letter(c)] == [Letter(a), Letter(b), Letter(c)];
    AppendTwo<Byte>(a * 4 + b / 16, b % 16 * 16 + c / 4);
  }

  lemma FourLetters(a: int, b: int, c: int, d: int)
    requires 0 <= a < 64 && 0 <= b < 64 && 0 <= c < 64 && 0 <= d < 64
    ensures Decode(START, [Letter(a), Letter(b), Letter(c), Letter(d)])
         == (START, [a * 4 + b / 16, b % 16 * 16 + c / 4, c % 4 * 64 + d])
  {
    hide DecodeValue, Letter, Decode;
    ThreeLetters(a, b, c);
    LetterFed(START, [Letter(a), Letter(b), Letter(c)], d);
    assert [Letter(a), Letter(b), Letter(c)] + [Letter(d)] == [Letter(a), Letter(b), Letter(c), Letter(d)];
    AppendThree<Byte>(a * 4 + b / 16, b % 16 * 16 + c / 4, c % 4 * 64 + d);
  }

  lemma AppendTwo<T>(x: T, y: T)
    ensures [x] + [y] == [x, y]
  {
  }

  lemma AppendThree<T>(x: T, y: T, z: T)
    ensures [x, y] + [z] == [x, y, z]
  {
  }

  lemma PadsSkipped(code: seq<Code>)
    ensures Decode(START, code + [PAD]).1 == Decode(START, code).1
    ensures Decode(START, code + [PAD, PAD]).1 == Decode(START, code).1
  {
    hide DecodeValue, Decode;
    PadIsSkipped();
    JunkIsSkipped(START, code, [PAD], []);
    JunkIsSkipped(START, code, [PAD, PAD], []);
    NilRight(code);
    NilRight(code + [PAD]);
    NilRight(code + [PAD, PAD]);
  }

  /** Splitting three bytes into sextets and joining them again. */
  lemma Sextets(a: Byte, b: Byte, c: Byte)
    ensures 0 <= a / 4 < 64 && 0 <= a % 4 * 16 + b / 16 < 64 && 0 <= b % 16 * 4 + c / 64 < 64 && 0 <= c % 64 < 64
    ensures a / 4 * 4 + (a % 4 * 16 + b / 16) / 16 == a
    ensures (a % 4 * 16 + b / 16) % 16 * 16 + (b % 16 * 4 + c / 64) / 4 == b
    ensures (b % 16 * 4 + c / 64) % 4 * 64 + c % 64 == c
  {
    assert (a % 4 * 16 + b / 16) / 16 == a % 4 && (a % 4 * 16 + b / 16) % 16 == b / 16;
    assert (b % 16 * 4 + c / 64) / 4 == b % 16 && (b % 16 * 4 + c / 64) % 4 == c / 64;
  }

  lemma OneByteDecodes(a: Byte)
    ensures Decode(START, Pair(a) + [PAD, PAD]).1 == [a]
  {
    hide DecodeValue, Letter, Decode, PAD;
    Sextets(a, 0, 0);
    TwoLetters(a / 4, a % 4 * 16);
    PadsSkipped(Pair(a));
  }

  lemma TwoBytesDecode(a: Byte, b: Byte)
    ensures Decode(START, Triple(a, b) + [PAD]).1 == [a, b]
  {
    hide DecodeValue, Letter, Decode, PAD;
    Sextets(a, b, 0);
    ThreeLetters(a / 4, a % 4 * 16 + b / 16, b % 16 * 4);
    PadsSkipped(Triple(a, b));
  }

  lemma ThreeBytesDecode(a: Byte, b: Byte, c: Byte)
    ensures Decode(START, Quad(a, b, c)) == (START, [a, b, c])
  {
    hide DecodeValue, Letter, Decode;
    Sextets(a, b, c);
    FourLetters(a / 4, a % 4 * 16 + b / 16, b % 16 * 4 + c / 64, c % 64);
  }

  lemma QuadDecodes(data: seq<Byte>)
    requires 1 <= |data| <= 3
    ensures |Encode(data)| == 4 && Decode(START, Encode(data)).1 == data
    ensures |data| == 3 ==> Decode(START, Encode(data)).0 == START
  {
    hide Letter, Decode, PAD;
    if |data| == 1 {
      OneByteDecodes(data[0]);
    } else if |data| == 2 {
      TwoBytesDecode(data[0], data[1]);
    } else {
      EncodeGroup(data);
      ThreeBytesDecode(data[0], data[1], data[2]);
    }
  }

  lemma EncodeGroup(data: seq<Byte>)
    requires |data| == 3
    ensures Encode(data) == Quad(data[0], data[1], data[2]) && |Encode(data)| == 4
  {
    hide Letter;
    assert Encode(data[3..]) == [];
  }

  lemma {:induction false} EncodeInverts(data: seq<Byte>)
    ensures Decode(START, Encode(data)).1 == data && (data != [] ==> |Encode(data)| >= 4)
    decreases |data|
  {
    hide Decode, Letter;
    if data == [] {
      DecodeEmpty(START);
    } else if |data| <= 3 {
      QuadDecodes(data);
    } else {
      QuadDecodes(data[..3]);
      EncodeInverts(data[3..]);
      SplitEncode(data);
      ChunksDoNotMatter(START, Encode(data[..3]), Encode(data[3..]));
      assert data == data[..3] + data[3..];
    }
  }

  lemma SplitEncode(data: seq<Byte>)
    requires |data| > 3
    ensures Encode(data) == Encode(data[..3]) + Encode(data[3..])
  {
    hide Letter, Quad, Encode;
    EncodeGroup(data[..3]);
    EncodeStep(data);
  }

  lemma EncodeStep(data: seq<Byte>)
    requires |data| > 3
    ensures Encode(data) == Quad(data[0], data[1], data[2]) + Encode(data[3..])
  {
    hide Letter, Quad;
  }

  /** The round trip, for every byte string. */
  lemma DecodedInverts(data: seq<Byte>)
    ensures Decoded(Encode(data)) == data
  {
    hide Decode, Letter;
    EncodeInverts(data);
  }
}
