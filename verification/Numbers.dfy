/**
 Number text: the printf conversions of the emitter, and strtoull with base 0 (section 7.22.1.4 of
 ISO/IEC 9899:2011).
 */
module Numbers {
  import opened Arith
  import opened Common

  function Digit(d: nat): char
    requires d < 16
  {
    "0123456789abcdef"[d]
  }

  /** The value of a digit in any base up to 16, or 16. */
  function Value(c: char): (v: nat)
    ensures v <= 16
  {
    if '0' <= c <= '9' then c as int - '0' as int
    else if 'a' <= c <= 'f' then c as int - 'a' as int + 10
    else if 'A' <= c <= 'F' then c as int - 'A' as int + 10
    else 16
  }

  lemma ValueOfDigit(d: nat)
    requires d < 16
    ensures Value(Digit(d)) == d
  {
    var digits := "0123456789abcdef";
    assert digits[d] == if d < 10 then ('0' as int + d) as char else ('a' as int + d - 10) as char;
  }

  /** Digits without leading zeros. */
  function Print(n: nat, base: nat): (s: string)
    requires 2 <= base <= 16
    ensures |s| > 0
    decreases n
  {
    if n < base then [Digit(n)]
    else
      DivMod(n, base);
      assert n / base < n by { Smaller(n, base); }
      Print(n / base, base) + [Digit(n % base)]
  }

  lemma Smaller(n: nat, base: nat)
    requires base >= 2 && n > 0
    ensures n / base < n
  {
  }

  /** The value of the longest prefix of digits. */
  function Digits(s: string, base: nat, acc: nat): nat {
    if s == "" || Value(s[0]) >= base then acc else Digits(s[1..], base, Shift(acc, base, Value(s[0])))
  }

  function Shift(acc: nat, base: nat, v: nat): nat {
    MulMonotone(0, acc, base);
    acc * base + v
  }

  predicate AllDigits(s: string, base: nat) {
    forall i :: 0 <= i < |s| ==> Value(s[i]) < base
  }

  lemma {:induction false} DigitsSnoc(s: string, c: char, base: nat, acc: nat)
    requires AllDigits(s, base) && Value(c) < base
    ensures Digits(s + [c], base, acc) == Shift(Digits(s, base, acc), base, Value(c))
    decreases |s|
  {
    hide Value, Shift;
    if s == "" {
      assert s + [c] == [c] && [c][1..] == "";
      assert Digits([c], base, acc) == Digits("", base, Shift(acc, base, Value(c)));
    } else {
      assert (s + [c])[1..] == s[1..] + [c] && (s + [c])[0] == s[0];
      DigitsSnoc(s[1..], c, base, Shift(acc, base, Value(s[0])));
    }
  }

  lemma {:induction false} PrintDigits(n: nat, base: nat)
    requires 2 <= base <= 16
    ensures AllDigits(Print(n, base), base) && Digits(Print(n, base), base, 0) == n
    decreases n
  {
    hide Value, Digit;
    if n < base {
      ValueOfDigit(n);
      assert Print(n, base)[1..] == "";
      assert Digits("", base, Shift(0, base, n)) == n;
    } else {
      DivMod(n, base);
      Smaller(n, base);
      PrintDigits(n / base, base);
      ValueOfDigit(n % base);
      DigitsSnoc(Print(n / base, base), Digit(n % base), base, 0);
    }
  }

  /** Only zero prints with a leading zero. */
  lemma {:induction false} LeadingDigit(n: nat, base: nat)
    requires 2 <= base <= 16
    ensures Print(n, base)[0] == '0' <==> n == 0
    decreases n
  {
    if n < base {
      ValueOfDigit(n);
    } else {
      Smaller(n, base);
      LeadingDigit(n / base, base);
    }
  }

  // ---------- strtoull(s, 0, 0) ----------

  predicate IsSpace(c: char) {
    c == ' ' || '\t' <= c <= '\r'
  }

  function SkipSpace(s: string): string {
    if s != "" && IsSpace(s[0]) then SkipSpace(s[1..]) else s
  }

  /** Base 0: hexadecimal after 0x, octal after 0, decimal otherwise. */
  function Unsigned(s: string): nat {
    if |s| >= 3 && s[0] == '0' && (s[1] == 'x' || s[1] == 'X') && Value(s[2]) < 16 then Digits(s[2..], 16, 0)
    else if s != "" && s[0] == '0' then Digits(s, 8, 0)
    else Digits(s, 10, 0)
  }

  /** Out of range gives the largest value; a minus sign negates in the unsigned type. */
  function Strtoull(s: string): (v: nat)
    ensures v < U64
  {
    var t := SkipSpace(s);
    var minus := t != "" && t[0] == '-';
    var v := Unsigned(if t != "" && (t[0] == '-' || t[0] == '+') then t[1..] else t);
    if v >= U64 then U64 - 1 else if minus && v > 0 then U64 - v else v
  }

  // ---------- what the emitter prints ----------

  /** "%lld" and "%d" of an unsigned value below `range`. */
  function Signed(x: nat, range: nat): string {
    if x < range / 2 || x >= range then Print(x, 10) else "-" + Print(range - x, 10)
  }

  /** "0x%llx" */
  function Hex(x: nat): string {
    "0x" + Print(x, 16)
  }

  /** "0%o" */
  function Octal(x: nat): string {
    "0" + Print(x, 8)
  }

  lemma StartsPlain(s: string)
    requires s != "" && Value(s[0]) < 16
    ensures SkipSpace(s) == s && s[0] != '-' && s[0] != '+' && s[0] != 'x' && s[0] != 'X'
  {
  }

  lemma DecimalText(x: nat)
    ensures Unsigned(Print(x, 10)) == x && SkipSpace(Print(x, 10)) == Print(x, 10)
    ensures Print(x, 10)[0] != '-' && Print(x, 10)[0] != '+'
  {
    var s := Print(x, 10);
    PrintDigits(x, 10);
    LeadingDigit(x, 10);
    StartsPlain(s);
    if x == 0 {
      assert s == "0" && s[1..] == "";
      assert Digits(s, 8, 0) == Digits("", 8, 0);
    }
  }

  /** Reading back "%lld" of a 64-bit value, large ones printed as negative numbers. */
  lemma SignedRoundTrip(x: nat)
    requires x < U64
    ensures Strtoull(Signed(x, U64)) == x
  {
    hide Unsigned, Print;
    if x < U64 / 2 {
      DecimalText(x);
    } else {
      DecimalText(U64 - x);
      assert ("-" + Print(U64 - x, 10))[1..] == Print(U64 - x, 10);
    }
  }

  /** Reading back "%d" of a 32-bit value into a 32-bit field. */
  lemma SignedRoundTrip32(x: nat)
    requires x < U32
    ensures Strtoull(Signed(x, U32)) % U32 == x
  {
    hide Unsigned, Print;
    if x < U32 / 2 {
      DecimalText(x);
      DivModUnique(x, 0, x, U32);
    } else {
      DecimalText(U32 - x);
      assert ("-" + Print(U32 - x, 10))[1..] == Print(U32 - x, 10);
      assert Strtoull(Signed(x, U32)) == U64 - (U32 - x) == (U32 - 1) * U32 + x;
      DivModUnique(U64 - (U32 - x), U32 - 1, x, U32);
    }
  }

  lemma HexRoundTrip(x: nat)
    requires x < U64
    ensures Strtoull(Hex(x)) == x
  {
    PrintDigits(x, 16);
    hide Print, Digits;
    var s := Hex(x);
    assert s[2..] == Print(x, 16) && Value(s[0]) == 0;
    StartsPlain(s);
  }

  lemma OctalRoundTrip(x: nat)
    requires x < U64
    ensures Strtoull(Octal(x)) == x
  {
    PrintDigits(x, 8);
    hide Print;
    var s := Octal(x);
    assert s[1..] == Print(x, 8) && Value(s[0]) == 0 && s[1] == Print(x, 8)[0];
    StartsPlain(s);
    StartsPlain(s[1..]);
    assert Digits(s, 8, 0) == Digits(s[1..], 8, 0);
  }

  /** What the conversions look like, and how strtoull tells the bases apart. */
  lemma Samples()
    ensures Hex(0x20) == "0x20" && Octal(8) == "010" && Signed(7, U64) == "7" && Signed(U64 - 1, U64) == "-1"
    ensures Strtoull("0x20") == 32 && Strtoull("010") == 8 && Strtoull("7") == 7 && Strtoull("-1") == U64 - 1
  {
    hide Strtoull;
    assert Print(2, 16) == "2" && Print(0x20, 16) == "2" + "0" && Print(1, 8) == "1" && Print(8, 8) == "1" + "0";
    assert Print(7, 10) == "7" && Print(1, 10) == "1";
    HexRoundTrip(0x20);
    OctalRoundTrip(8);
    SignedRoundTrip(7);
    SignedRoundTrip(U64 - 1);
  }
}
