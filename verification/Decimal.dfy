/** Decimal text, as SQL prints and parses integers. */
module Decimal {

  const MIN_INT64: int := -9_223_372_036_854_775_808
  const MAX_INT64: int := 9_223_372_036_854_775_807

  predicate IsDigit(c: char) { '0' <= c <= '9' }

  function Digit(n: int): (c: char)
    requires 0 <= n < 10
    ensures IsDigit(c) && Value(c) == n
  {
    (48 + n) as char
  }

  function Value(c: char): nat
    requires IsDigit(c)
  {
    c as int - 48
  }

  function Digits(n: nat): (s: string)
    ensures s != "" && forall i :: 0 <= i < |s| ==> IsDigit(s[i])
  {
    if n < 10 then [Digit(n)] else Digits(n / 10) + [Digit(n % 10)]
  }

  /** An integer as text. */
  function Print(n: int): string {
    if n < 0 then "-" + Digits(-n) else Digits(n)
  }

  /** Reads digits up to the end or the first other character. */
  function ReadDigits(s: string, acc: nat): nat {
    if s == "" || !IsDigit(s[0]) then acc else ReadDigits(s[1..], 10 * acc + Value(s[0]))
  }

  /** CAST(s AS SIGNED): an optional sign, then digits; text without digits is 0. */
  function Parse(s: string): int {
    var n: int := if s != "" && s[0] == '-' then ReadDigits(s[1..], 0) else ReadDigits(s, 0);
    if s != "" && s[0] == '-' then -n else n
  }

  lemma {:induction false} ReadAppend(a: string, b: string, acc: nat)
    requires forall i :: 0 <= i < |a| ==> IsDigit(a[i])
    ensures ReadDigits(a + b, acc) == ReadDigits(b, ReadDigits(a, acc))
  {
    if a == "" {
      assert a + b == b;
    } else {
      assert (a + b)[1..] == a[1..] + b;
      ReadAppend(a[1..], b, 10 * acc + Value(a[0]));
    }
  }

  lemma {:induction false} ReadOne(c: char, acc: nat)
    requires IsDigit(c)
    ensures ReadDigits([c], acc) == 10 * acc + Value(c)
  {
    assert ReadDigits([c][1..], 10 * acc + Value(c)) == 10 * acc + Value(c);
  }

  lemma {:induction false} ReadDigitsOfDigits(n: nat)
    ensures ReadDigits(Digits(n), 0) == n
  {
    if n < 10 {
      ReadOne(Digit(n), 0);
    } else {
      ReadDigitsOfDigits(n / 10);
      ReadAppend(Digits(n / 10), [Digit(n % 10)], 0);
      ReadOne(Digit(n % 10), n / 10);
    }
  }

  /** Parsing undoes printing. */
  lemma ParsePrint(n: int)
    ensures Parse(Print(n)) == n
  {
    ReadDigitsOfDigits(if n < 0 then -n else n);
    if n < 0 {
      assert Print(n)[1..] == Digits(-n);
    }
  }

  /** A proper prefix of a printed number reads as at most a tenth of it. */
  lemma {:induction false} ReadPrefix(n: nat, j: nat)
    requires j < |Digits(n)|
    ensures ReadDigits(Digits(n)[..j], 0) <= n / 10
  {
    if n >= 10 {
      var front := Digits(n / 10);
      assert Digits(n)[..j] == front[..j];
      if j == |front| {
        assert front[..j] == front;
        ReadDigitsOfDigits(n / 10);
      } else {
        ReadPrefix(n / 10, j);
      }
    }
  }

  /** A number cut short never reads as itself, unless it is 0. */
  lemma ParsePrefixDiffers(n: int, j: nat)
    requires n != 0 && j < |Print(n)|
    ensures Parse(Print(n)[..j]) != n
  {
    if n > 0 {
      ReadPrefix(n, j);
    } else if j > 0 {
      assert Print(n)[..j][1..] == Digits(-n)[..j - 1];
      ReadPrefix(-n, j - 1);
    }
  }

  function Pow10(k: nat): nat {
    if k == 0 then 1 else 10 * Pow10(k - 1)
  }

  lemma {:induction false} DigitsLength(n: nat, k: nat)
    requires k > 0
    ensures |Digits(n)| <= k <==> n < Pow10(k)
  {
    if k == 1 {
      assert Pow10(1) == 10;
    } else if n >= 10 {
      DigitsLength(n / 10, k - 1);
    } else {
      DigitsLength(n, k - 1);
    }
  }

  /** 64-bit integers print in at most 20 characters, and the least one needs all 20. */
  lemma Int64Length(n: int)
    requires MIN_INT64 <= n <= MAX_INT64
    ensures |Print(n)| <= 20 && |Print(MIN_INT64)| == 20
  {
    assert Pow10(6) == 1_000_000;
    assert Pow10(12) == 1_000_000_000_000;
    assert Pow10(18) == 1_000_000_000_000_000_000;
    assert Pow10(19) == 10_000_000_000_000_000_000;
    DigitsLength(if n < 0 then -n else n, 19);
    DigitsLength(-MIN_INT64, 19);
    DigitsLength(-MIN_INT64, 18);
  }

  /** n in exactly w digits, padded with zeros on the left. */
  function Padded(n: nat, w: nat): (s: string)
    ensures |s| == w && forall i :: 0 <= i < |s| ==> IsDigit(s[i])
  {
    if w == 0 then "" else Padded(n / 10, w - 1) + [Digit(n % 10)]
  }

  lemma {:induction false} ReadPadded(n: nat, w: nat)
    requires n < Pow10(w)
    ensures ReadDigits(Padded(n, w), 0) == n
  {
    if w > 0 {
      ReadPadded(n / 10, w - 1);
      ReadAppend(Padded(n / 10, w - 1), [Digit(n % 10)], 0);
      ReadOne(Digit(n % 10), n / 10);
    }
  }
}
