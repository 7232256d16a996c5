/** Numbers in text: std::from_chars, strtoll, and the decimal notation they read. */
module Numbers {
  import opened Basics

  const INT64_MAX := 0x7fff_ffff_ffff_ffff

  predicate IsDigit(c: char) {
    '0' <= c <= '9'
  }

  predicate AllDigits(s: string) {
    forall i | 0 <= i < |s| :: IsDigit(s[i])
  }

  function DigitOf(c: char): int {
    c as int - '0' as int
  }

  function Value(digits: string): int
    decreases |digits|
  {
    if |digits| == 0 then 0 else 10 * Value(digits[..|digits| - 1]) + DigitOf(digits[|digits| - 1])
  }

  /** std::from_chars for a signed 64-bit integer, when the whole string must be consumed. */
  function FromChars(s: string): Option<int> {
    var negative := s != "" && s[0] == '-';
    var digits := if negative then s[1..] else s;
    var value := if negative then -Value(digits) else Value(digits);
    if digits == "" || !AllDigits(digits) then None
    else if -INT64_MAX - 1 <= value <= INT64_MAX then Some(value)
    else None
  }

  function Decimal(n: nat): (r: string)
    ensures r != "" && forall i | 0 <= i < |r| :: IsDigit(r[i])
  {
    (if n < 10 then "" else Decimal(n / 10)) + [('0' as int + n % 10) as char]
  }

  lemma {:induction false} DecimalValue(n: nat)
    ensures Value(Decimal(n)) == n
    decreases n
  {
    var r := Decimal(n);
    assert DigitOf(r[|r| - 1]) == n % 10;
    if n >= 10 {
      DecimalValue(n / 10);
      assert r[..|r| - 1] == Decimal(n / 10);
    } else {
      assert r[..|r| - 1] == "";
    }
  }

  /** from_chars reads back what was printed. */
  lemma FromCharsInverts(n: nat)
    requires n <= INT64_MAX
    ensures FromChars(Decimal(n)) == Some(n)
  {
    DecimalValue(n);
    assert IsDigit(Decimal(n)[0]);
  }

  function Zeros(n: nat): string {
    seq(n, _ => '0')
  }

  /** The notations of a number: a minus sign or none, any zeros, then the digits it is printed with. */
  function Written(negative: bool, zeros: nat, n: nat): string {
    (if negative then "-" else "") + (Zeros(zeros) + Decimal(n))
  }

  ghost predicate Denotes(s: string, v: int) {
    exists negative, zeros, n: nat :: s == Written(negative, zeros, n) && v == (if negative then 0 - n else n)
  }

  /** Digits are zeros and a printed number. */
  lemma {:induction false} DigitsAreWritten(d: string) returns (zeros: nat)
    requires d != "" && AllDigits(d)
    ensures 0 <= Value(d) && d == Zeros(zeros) + Decimal(Value(d))
    decreases |d|
  {
    hide Zeros, Decimal;
    var init, c := d[..|d| - 1], d[|d| - 1];
    assert d == init + [c] && IsDigit(c);
    if init == "" {
      LastDigit(c);
      NoZeros();
      zeros := 0;
    } else {
      var k := DigitsAreWritten(init);
      OneMoreDigit(Value(init), c);
      MoreZeros(k);
      zeros := if Value(init) == 0 then k + 1 else k;
    }
  }

  lemma NoZeros()
    ensures Zeros(0) == ""
  {
  }

  lemma MoreZeros(n: nat)
    ensures Zeros(n + 1) == Zeros(n) + "0"
  {
  }

  lemma OneMoreDigit(n: nat, c: char)
    requires IsDigit(c)
    ensures Decimal(10 * n + DigitOf(c)) == if n == 0 then [c] else Decimal(n) + [c]
    ensures Decimal(0) == "0"
  {
    LastDigit(c);
    var m := 10 * n + DigitOf(c);
    assert m / 10 == n && m % 10 == DigitOf(c);
  }

  lemma LastDigit(c: char)
    requires IsDigit(c)
    ensures 0 <= DigitOf(c) < 10 && Decimal(DigitOf(c)) == [c]
  {
  }

  lemma {:induction false} ZerosDoNotCount(zeros: nat, d: string)
    ensures Value(Zeros(zeros) + d) == Value(d)
    decreases zeros + |d|
  {
    var z := Zeros(zeros);
    if d != "" {
      assert (z + d)[..|z + d| - 1] == z + d[..|d| - 1];
      ZerosDoNotCount(zeros, d[..|d| - 1]);
    } else if zeros > 0 {
      assert (z + d)[..|z + d| - 1] == Zeros(zeros - 1) + d;
      ZerosDoNotCount(zeros - 1, d);
    }
  }

  /** from_chars accepts exactly the notations of the numbers of 64 bits. */
  lemma FromCharsIff(s: string, v: int)
    ensures FromChars(s) == Some(v)
       <==> Denotes(s, v) && -0x8000_0000_0000_0000 <= v < 0x8000_0000_0000_0000
  {
    hide Value, Decimal;
    if FromChars(s) == Some(v) {
      var negative := s[0] == '-';
      var digits := if negative then s[1..] else s;
      var zeros := DigitsAreWritten(digits);
      assert s == Written(negative, zeros, Value(digits));
    }
    forall negative, zeros, n: nat | s == Written(negative, zeros, n)
      ensures var value := if negative then 0 - n else n;
              FromChars(s) == if -INT64_MAX - 1 <= value <= INT64_MAX then Some(value) else None
    {
      WrittenReads(negative, zeros, n);
    }
  }

  lemma WrittenReads(negative: bool, zeros: nat, n: nat)
    ensures var value := if negative then 0 - n else n;
            FromChars(Written(negative, zeros, n)) == if -INT64_MAX - 1 <= value <= INT64_MAX then Some(value) else None
  {
    hide Value, Decimal;
    var s, digits := Written(negative, zeros, n), Zeros(zeros) + Decimal(n);
    assert forall i | 0 <= i < |digits| :: IsDigit(digits[i]);
    assert IsDigit(digits[0]);
    assert (if negative then s[1..] else s) == digits;
    ZerosDoNotCount(zeros, Decimal(n));
    DecimalValue(n);
  }

  // ---------------------------------------------------------------- strtoll

  /** isspace in the "C" locale. */
  predicate IsBlank(c: char) {
    c == ' ' || '\t' <= c <= '\r'
  }

  function SkipBlanks(s: string): string {
    if s != "" && IsBlank(s[0]) then SkipBlanks(s[1..]) else s
  }

  function LeadingDigits(s: string): string {
    if s == "" || !IsDigit(s[0]) then "" else [s[0]] + LeadingDigits(s[1..])
  }

  function Clamp(n: int): int {
    Max(-INT64_MAX - 1, Min(n, INT64_MAX))
  }

  /** strtoll in base 10: blanks, a sign, the digits that follow; 0 without digits, and the nearest
      64-bit integer when the number does not fit. */
  function Strtoll(s: string): int {
    var t := SkipBlanks(s);
    var signed := t != "" && (t[0] == '-' || t[0] == '+');
    var n := Value(LeadingDigits(if signed then t[1..] else t));
    Clamp(if signed && t[0] == '-' then -n else n)
  }

  lemma {:induction false} DigitsLead(digits: string, rest: string)
    requires AllDigits(digits)
    requires rest == "" || !IsDigit(rest[0])
    ensures LeadingDigits(digits + rest) == digits
    decreases |digits|
  {
    if digits == "" {
      assert digits + rest == rest;
    } else {
      assert (digits + rest)[1..] == digits[1..] + rest;
      DigitsLead(digits[1..], rest);
    }
  }

  lemma {:induction false} BlanksSkipped(blanks: string, s: string)
    requires forall i | 0 <= i < |blanks| :: blanks[i] == ' ' || 9 <= blanks[i] as int <= 13
    requires s == "" || (s[0] != ' ' && !(9 <= s[0] as int <= 13))
    ensures SkipBlanks(blanks + s) == s
    decreases |blanks|
  {
    if blanks == "" {
      assert blanks + s == s;
    } else {
      assert (blanks + s)[1..] == blanks[1..] + s;
      BlanksSkipped(blanks[1..], s);
    }
  }

  /** The nearest number of 64 bits. */
  function Nearest(v: int): int {
    if v < -0x8000_0000_0000_0000 then -0x8000_0000_0000_0000
    else if v >= 0x8000_0000_0000_0000 then 0x7fff_ffff_ffff_ffff
    else v
  }

  lemma SignedReads(sign: string, digits: string, rest: string)
    requires sign in {"", "+", "-"} && AllDigits(digits) && (rest == "" || !IsDigit(rest[0]))
    requires sign == "" ==> digits != "" || rest == "" || (!IsBlank(rest[0]) && rest[0] != '+' && rest[0] != '-')
    ensures Strtoll(sign + (digits + rest)) == Nearest(if sign == "-" then -Value(digits) else Value(digits))
  {
    hide Value;
    DigitsLead(digits, rest);
    var s := sign + (digits + rest);
    if digits != "" {
      assert IsDigit((digits + rest)[0]);
    }
    assert (if sign == "" then s else s[1..]) == digits + rest;
  }

  /** strtoll reads a number in any notation, blanks and zeros in front and anything behind it
      included, as that number or the nearest one that fits. */
  lemma StrtollReads(blanks: string, sign: string, zeros: nat, n: nat, rest: string)
    requires forall i | 0 <= i < |blanks| :: blanks[i] == ' ' || 9 <= blanks[i] as int <= 13
    requires sign in {"", "+", "-"} && (rest == "" || !('0' <= rest[0] <= '9'))
    ensures Strtoll(blanks + (sign + (Zeros(zeros) + Decimal(n) + rest))) == Nearest(if sign == "-" then 0 - n else n)
  {
    hide Decimal, Value, Strtoll;
    var digits := Zeros(zeros) + Decimal(n);
    assert IsDigit(digits[0]);
    ZerosDoNotCount(zeros, Decimal(n));
    DecimalValue(n);
    SignedReads(sign, digits, rest);
    SkipsTo(blanks, sign + (digits + rest));
  }

  /** Without digits it reads 0. */
  lemma StrtollZero(blanks: string, sign: string, rest: string)
    requires forall i | 0 <= i < |blanks| :: blanks[i] == ' ' || 9 <= blanks[i] as int <= 13
    requires sign in {"", "+", "-"} && (rest == "" || !('0' <= rest[0] <= '9'))
    requires sign == "" && rest != "" ==> rest[0] !in " +-" && !(9 <= rest[0] as int <= 13)
    ensures Strtoll(blanks + (sign + rest)) == 0
  {
    hide Value, Strtoll;
    assert "" + rest == rest;
    NoDigits();
    SignedReads(sign, "", rest);
    SkipsTo(blanks, sign + rest);
  }

  lemma NoDigits()
    ensures Value("") == 0
  {
  }

  lemma SkipsTo(blanks: string, s: string)
    requires forall i | 0 <= i < |blanks| :: blanks[i] == ' ' || 9 <= blanks[i] as int <= 13
    requires s == "" || (s[0] != ' ' && !(9 <= s[0] as int <= 13))
    ensures Strtoll(blanks + s) == Strtoll(s)
  {
    BlanksSkipped(blanks, s);
    BlanksSkipped("", s);
    assert "" + s == s;
  }
}
