/** Decimal text of integers: the two hand-written `itoa` routines and the text they promise. */
module Decimal {

  const MIN64 := -0x8000_0000_0000_0000
  const MAX64 := 0x7fff_ffff_ffff_ffff

  function Digit(d: nat): char
    requires d < 10
  {
    '0' + d as char
  }

  /** Most significant digit first, no leading zero. */
  function Digits(n: nat): string {
    if n < 10 then [Digit(n)] else Digits(n / 10) + [Digit(n % 10)]
  }

  function Text(n: int): string {
    if n < 0 then "-" + Digits(-n) else Digits(n)
  }

  /** An independent reading of decimal text. */
  function ParseDigits(s: string): int {
    if s == "" then 0 else 10 * ParseDigits(s[..|s| - 1]) + (s[|s| - 1] as int - '0' as int)
  }

  function Parse(s: string): int {
    if s != "" && s[0] == '-' then -ParseDigits(s[1..]) else ParseDigits(s)
  }

  lemma {:induction false} ParseDigitsOfDigits(n: nat)
    ensures ParseDigits(Digits(n)) == n
    ensures Digits(n) != "" && Digits(n)[0] != '-'
  {
    if n >= 10 {
      ParseDigitsOfDigits(n / 10);
      assert (Digits(n / 10) + [Digit(n % 10)])[..|Digits(n)| - 1] == Digits(n / 10);
    } else {
      assert [Digit(n)][..0] == "";
    }
  }

  /** Reading back what was written gives the number. */
  lemma {:induction false} ParseOfText(n: int)
    ensures Parse(Text(n)) == n
  {
    if n < 0 {
      ParseDigitsOfDigits(-n);
      assert Text(n)[1..] == Digits(-n);
    } else {
      ParseDigitsOfDigits(n);
    }
  }

  lemma TextInjective(m: int, n: int)
    requires Text(m) == Text(n)
    ensures m == n
  {
    ParseOfText(m);
    ParseOfText(n);
  }

  /** Decimal digits without a leading zero, except for zero itself. */
  predicate Shortest(s: string) {
    && s != "" && (forall i :: 0 <= i < |s| ==> '0' <= s[i] <= '9')
    && (s[0] == '0' ==> |s| == 1)
  }

  lemma {:induction false} DigitsShortest(n: nat)
    ensures Shortest(Digits(n))
    ensures n > 0 ==> Digits(n)[0] != '0'
  {
    if n >= 10 {
      DigitsShortest(n / 10);
    }
  }

  lemma {:induction false} ParseDigitsPositive(s: string)
    requires Shortest(s)
    ensures ParseDigits(s) >= 0 && (s[0] != '0' ==> ParseDigits(s) > 0)
  {
    if |s| > 1 {
      ParseDigitsPositive(s[..|s| - 1]);
    } else {
      assert s[..0] == "";
    }
  }

  /** The digits of n are the only shortest decimal text that reads as n. */
  lemma {:induction false} DigitsUnique(s: string)
    requires Shortest(s)
    ensures ParseDigits(s) >= 0 && Digits(ParseDigits(s)) == s
  {
    var last := s[|s| - 1] as int - '0' as int;
    if |s| == 1 {
      assert s[..0] == "" && ParseDigits(s) == last;
      assert s == [Digit(last)];
    } else {
      var front := s[..|s| - 1];
      ParseDigitsPositive(front);
      DigitsUnique(front);
      assert ParseDigits(s) == 10 * ParseDigits(front) + last;
      assert ParseDigits(s) / 10 == ParseDigits(front) && ParseDigits(s) % 10 == last;
      assert s == front + [Digit(last)];
    }
  }

  function Pow10(k: nat): nat {
    if k == 0 then 1 else 10 * Pow10(k - 1)
  }

  lemma TwentyBytesSuffice()
    ensures MAX64 < Pow10(19)
  {
    assert Pow10(10) == 10_000_000_000;
    assert Pow10(19) == 1_000_000_000 * Pow10(10);
  }

  /** What is still to be written to the left of the buffer's filled part. */
  function Leading(n: nat): string {
    if n == 0 then "" else Digits(n)
  }

  lemma LeadingStep(n: nat, k: nat, tail: string)
    requires 0 < n < Pow10(k)
    ensures k > 0 && n / 10 < Pow10(k - 1)
    ensures Leading(n) + tail == Leading(n / 10) + ([Digit(n % 10)] + tail)
  {
  }

  /** The digit loop: fills `b` leftwards from its end and never reaches index 0. */
  method FillDigits(b: array<char>, number: int) returns (i: nat)
    requires b.Length == 20 && number < Pow10(19)
    modifies b
    ensures 1 <= i <= 20
    ensures b[i..] == if number > 0 then Digits(number) else ""
  {
    var n := number;
    i := b.Length;
    ghost var k := 19;
    while n > 0
      invariant 1 <= k + 1 == i <= 20
      invariant number > 0 ==> 0 <= n < Pow10(k) && Digits(number) == Leading(n) + b[i..]
      invariant number <= 0 ==> n == number && i == 20
    {
      ghost var tail := b[i..];
      LeadingStep(n, k, tail);
      k := k - 1;
      i := i - 1;
      b[i] := Digit(n % 10);
      n := n / 10;
      assert b[i..] == [b[i]] + tail;
    }
  }

  /**
   * The queue's `itoa`: fills a 20-byte buffer from the right. Negating the
   * smallest 64-bit integer wraps round to itself, so the digit loop never
   * runs for it and only the sign is written.
   */
  method Itoa(number: int) returns (text: string)
    requires MIN64 <= number <= MAX64
    ensures number != MIN64 ==> text == Text(number)
    ensures number == MIN64 ==> text == "-"
  {
    if number == 0 {
      return "0";
    }
    var neg := number < 0;
    var n := number;
    if neg {
      n := if n == MIN64 then n else -n;
    }
    var b := new char[20];
    TwentyBytesSuffice();
    var i := FillDigits(b, n);
    if neg {
      ghost var tail := b[i..];
      i := i - 1;
      b[i] := '-';
      assert b[i..] == [b[i]] + tail;
    }
    text := b[i..];
  }

  /** The router's `itoa`: prepends digits and has no branch for negative numbers. */
  method ItoaPrepend(number: int) returns (text: string)
    ensures number >= 0 ==> text == Text(number)
    ensures number < 0 ==> text == ""
  {
    if number == 0 {
      return "0";
    }
    var n := number;
    text := "";
    while n > 0
      invariant number < 0 ==> n == number && text == ""
      invariant number > 0 ==> n >= 0 && Text(number) == (if n == 0 then "" else Digits(n)) + text
    {
      text := [Digit(n % 10)] + text;
      n := n / 10;
    }
  }
}
