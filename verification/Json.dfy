/**
 * JSON values, and what becomes of them in a field of Go type any: every number is read as a 64-bit float and
 * printed again in the shortest form that reads back as the same float.
 */
module Json {
  import opened Decimal

  datatype Json =
    | Null
    | Bool(value: bool)
    | Number(number: int)
    | Text(text: string)
    | Array(items: seq<Json>)
    | Object(fields: map<string, Json>)

  // ---- 64-bit floats ------------------------------------------------------------------------

  /** Integers up to 2^53 are floats. */
  const TWO_53: int := 9_007_199_254_740_992

  /** The distance of the floats around n: 1 below 2^53, then doubling with every power of two. */
  function Spacing(n: nat): (u: nat)
    ensures u >= 1
  {
    if n < TWO_53 then 1 else 2 * Spacing(n / 2)
  }

  /** The greatest float up to n. */
  function Floor(n: nat): nat { if n < TWO_53 then n else 2 * Floor(n / 2) }

  /** Its 53 binary digits. */
  function Mantissa(n: nat): nat { if n < TWO_53 then n else Mantissa(n / 2) }

  /** The float nearest to n, ties to even. */
  function Nearest(n: nat): int {
    var lo, u := Floor(n), Spacing(n);
    if 2 * (n - lo) < u || (2 * (n - lo) == u && Mantissa(n) % 2 == 0) then lo else lo + u
  }

  /** n without its last k decimal digits, and with zeros in their place. */
  function Leading(n: nat, k: nat): nat { if k == 0 then n else Leading(n / 10, k - 1) }

  function Zeroed(n: nat, k: nat): nat { if k == 0 then n else 10 * Zeroed(n / 10, k - 1) }

  /** The shortest text of float f, tried with k or fewer trailing zeros: the nearest one that reads back as f. */
  function Shortest(f: nat, k: nat): nat {
    var lo, p := Zeroed(f, k), Pow10(k);
    var down, up := Nearest(lo) == f, Nearest(lo + p) == f;
    if down && (!up || 2 * (f - lo) < p || (2 * (f - lo) == p && Leading(f, k) % 2 == 0)) then lo
    else if up then lo + p
    else if k == 0 then f
    else Shortest(f, k - 1)
  }

  /** A natural number read as a float and printed. */
  function ReprintNat(n: nat): nat {
    NearestIsFloat(n);
    Shortest(Nearest(n), |Digits(Nearest(n))|)
  }

  /** An integer read as a float and printed. */
  function Reprint(n: int): int { if n < 0 then 0 - ReprintNat(-n) else ReprintNat(n) }

  lemma {:induction false} FloorBounds(n: nat)
    ensures Floor(n) <= n < Floor(n) + Spacing(n)
    ensures n >= TWO_53 / 2 ==> Floor(n) >= TWO_53 / 2
    ensures n >= TWO_53 ==> Floor(n) >= TWO_53
  {
    if n >= TWO_53 {
      FloorBounds(n / 2);
    }
  }

  predicate IsFloat(n: nat) { Floor(n) == n }

  lemma {:induction false} FloorIsFloat(n: nat)
    ensures IsFloat(Floor(n)) && IsFloat(Floor(n) + Spacing(n))
  {
    FloorBounds(n);
    if n >= TWO_53 {
      FloorBounds(n / 2);
      FloorIsFloat(n / 2);
      DoubleIsFloat(Floor(n / 2));
      DoubleIsFloat(Floor(n / 2) + Spacing(n / 2));
    } else if n + 1 == TWO_53 {
      DoubleIsFloat(TWO_53 / 2);
    }
  }

  lemma DoubleIsFloat(n: nat)
    requires IsFloat(n)
    ensures IsFloat(2 * n)
  {
    if 2 * n >= TWO_53 {
      assert 2 * n / 2 == n;
    }
  }

  /** Rounding gives a float, and leaves floats alone. */
  lemma NearestIsFloat(n: nat)
    ensures Nearest(n) >= 0 && IsFloat(Nearest(n)) && (IsFloat(n) ==> Nearest(n) == n)
  {
    FloorBounds(n);
    FloorIsFloat(n);
  }

  /** No float lies between a number's greatest float below and that plus the spacing. */
  lemma {:induction false} NoFloatBetween(n: nat, x: nat)
    requires IsFloat(x)
    ensures x <= Floor(n) || x >= Floor(n) + Spacing(n)
  {
    if n >= TWO_53 {
      FloorBounds(n);
      if x > Floor(n) {
        assert x >= TWO_53;
        HalfOfFloat(x);
        NoFloatBetween(n / 2, x / 2);
      }
    }
  }

  lemma HalfOfFloat(x: nat)
    requires IsFloat(x) && x >= TWO_53
    ensures x == 2 * (x / 2) && IsFloat(x / 2)
  {
  }

  /** Rounding goes to a nearest float. */
  lemma NearestIsNearest(n: nat, x: nat)
    requires IsFloat(x)
    ensures Abs(n - Nearest(n)) <= Abs(n - x)
  {
    FloorBounds(n);
    NoFloatBetween(n, x);
  }

  function Abs(n: int): nat { if n < 0 then -n else n }

  /** The text reads back as the float it was printed for. */
  lemma {:induction false} ShortestReadsBack(f: nat, k: nat)
    requires IsFloat(f)
    ensures Nearest(Shortest(f, k)) == f
  {
    hide Nearest, IsFloat;
    NearestIsFloat(f);
    if k > 0 {
      ShortestReadsBack(f, k - 1);
    }
  }

  lemma ReprintReadsBack(n: nat)
    ensures Nearest(ReprintNat(n)) == Nearest(n) && ReprintNat(ReprintNat(n)) == ReprintNat(n)
  {
    hide Nearest, Shortest, Digits, IsFloat;
    NearestIsFloat(n);
    ShortestReadsBack(Nearest(n), |Digits(Nearest(n))|);
  }

  /** What the round trip printed once it prints again. */
  lemma ReprintIsStable(n: int)
    ensures Reprint(Reprint(n)) == Reprint(n)
  {
    hide ReprintNat;
    ReprintReadsBack(if n < 0 then -n else n);
  }

  // ---- which integers survive ---------------------------------------------------------------

  /** Only one integer beyond 2^53 rounds to a float up to it. */
  lemma NearestSmall(c: nat)
    ensures c <= TWO_53 ==> Nearest(c) == c
    ensures c == TWO_53 + 1 ==> Nearest(c) == TWO_53
    ensures c > TWO_53 + 1 ==> Nearest(c) > TWO_53
  {
    FloorBounds(c);
    if c >= TWO_53 {
      var h: nat := TWO_53 / 2;
      assert Floor(h) == h && Spacing(h) == 1 && Mantissa(h) == h;
      FloorBounds(c / 2);
      if c / 2 > h && c / 2 < TWO_53 {
        assert Floor(c) == 2 * (c / 2);
      }
    }
  }

  lemma {:induction false} ZeroedBounds(n: nat, k: nat)
    ensures Zeroed(n, k) <= n < Zeroed(n, k) + Pow10(k)
    ensures k > 0 ==> Zeroed(n, k) % 10 == 0 && Pow10(k) % 10 == 0
  {
    if k > 0 {
      ZeroedBounds(n / 10, k - 1);
      TenTimes(n, Zeroed(n / 10, k - 1), Pow10(k - 1));
    }
  }

  lemma TenTimes(n: nat, z: nat, p: nat)
    requires z <= n / 10 < z + p
    ensures 10 * z <= n < 10 * z + 10 * p && 10 * z % 10 == 0 && 10 * p % 10 == 0
  {
  }

  lemma {:induction false} ShortestSmall(f: nat, k: nat)
    requires f <= TWO_53
    ensures Shortest(f, k) == f
  {
    hide Nearest, Zeroed, Pow10;
    var lo, p := Zeroed(f, k), Pow10(k);
    ZeroedBounds(f, k);
    NearestSmall(lo);
    NearestSmall(lo + p);
    if k > 0 {
      ShortestSmall(f, k - 1);
    } else {
      NoneZeroed(f);
    }
  }

  lemma NoneZeroed(f: nat)
    ensures Zeroed(f, 0) == f && Pow10(0) == 1
  {
  }

  lemma SmallSurvives(n: int)
    requires -TWO_53 <= n <= TWO_53
    ensures Reprint(n) == n
  {
    hide Shortest, Digits, Nearest;
    var m: nat := if n < 0 then -n else n;
    NearestSmall(m);
    ShortestSmall(m, |Digits(m)|);
  }

  /** The first integer that does not survive. */
  lemma FirstLoss()
    ensures Reprint(TWO_53 + 1) == TWO_53
  {
    hide Shortest, Digits, Nearest;
    NearestSmall(TWO_53 + 1);
    ShortestSmall(TWO_53, |Digits(TWO_53)|);
  }

  /** All integers up to a bound survive exactly when the bound is at most 2^53. */
  lemma SurvivalBound(bound: int)
    ensures (forall n :: -bound <= n <= bound ==> Reprint(n) == n) <==> bound <= TWO_53
  {
    hide Reprint;
    forall n | -TWO_53 <= n <= TWO_53 ensures Reprint(n) == n { SmallSurvives(n); }
    FirstLoss();
  }

  // ---- values -------------------------------------------------------------------------------

  /** A value after decoding into any and encoding again. */
  function ThroughAny(j: Json): Json {
    match j
    case Number(n) => Number(Reprint(n))
    case Array(items) => Array(seq(|items|, i requires 0 <= i < |items| => ThroughAny(items[i])))
    case Object(fields) => Object(map k | k in fields :: ThroughAny(fields[k]))
    case _ => j
  }

  /** Every number in the value is one that its float prints. */
  predicate Survives(j: Json) {
    match j
    case Number(n) => Reprint(n) == n
    case Array(items) => forall i :: 0 <= i < |items| ==> Survives(items[i])
    case Object(fields) => forall k :: k in fields ==> Survives(fields[k])
    case _ => true
  }

  /** No number in the value exceeds 2^53. */
  predicate Small(j: Json) {
    match j
    case Number(n) => -TWO_53 <= n <= TWO_53
    case Array(items) => forall i :: 0 <= i < |items| ==> Small(items[i])
    case Object(fields) => forall k :: k in fields ==> Small(fields[k])
    case _ => true
  }

  /** The value is unchanged exactly if all its numbers survive. */
  lemma {:induction false} UnchangedIffSurvives(j: Json)
    ensures ThroughAny(j) == j <==> Survives(j)
  {
    hide Reprint;
    match j
    case Array(items) =>
      forall i | 0 <= i < |items| ensures ThroughAny(items[i]) == items[i] <==> Survives(items[i]) {
        UnchangedIffSurvives(items[i]);
      }
      if ThroughAny(j) == j {
        forall i | 0 <= i < |items| ensures Survives(items[i]) {
          assert ThroughAny(j).items[i] == ThroughAny(items[i]);
        }
      }
    case Object(fields) =>
      forall k | k in fields ensures ThroughAny(fields[k]) == fields[k] <==> Survives(fields[k]) {
        UnchangedIffSurvives(fields[k]);
      }
      if ThroughAny(j) == j {
        forall k | k in fields ensures Survives(fields[k]) {
          assert ThroughAny(j).fields[k] == ThroughAny(fields[k]);
        }
      }
    case _ =>
  }

  lemma {:induction false} SmallValuesSurvive(j: Json)
    requires Small(j)
    ensures Survives(j)
  {
    hide Reprint;
    match j
    case Number(n) => SmallSurvives(n);
    case Array(items) => forall i | 0 <= i < |items| ensures Survives(items[i]) { SmallValuesSurvive(items[i]); }
    case Object(fields) => forall k | k in fields ensures Survives(fields[k]) { SmallValuesSurvive(fields[k]); }
    case _ =>
  }

  /** What went through any once is not changed by a second pass. */
  lemma {:induction false} SecondPassChangesNothing(j: Json)
    ensures Survives(ThroughAny(j))
  {
    hide Reprint;
    match j
    case Number(n) => ReprintIsStable(n);
    case Array(items) =>
      forall i | 0 <= i < |items| ensures Survives(ThroughAny(j).items[i]) { SecondPassChangesNothing(items[i]); }
    case Object(fields) =>
      forall k | k in fields ensures Survives(ThroughAny(j).fields[k]) { SecondPassChangesNothing(fields[k]); }
    case _ =>
  }
}
