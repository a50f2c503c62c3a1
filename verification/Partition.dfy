/** Splitting a sequence by a key: what GROUP BY and the per-scope outbox batches do. */
module Partition {
  import opened Order

  /** The elements with key k, in order. */
  function Select<T, K(==)>(key: T -> K, k: K, s: seq<T>): seq<T> {
    if s == [] then []
    else if key(s[0]) == k then [s[0]] + Select(key, k, s[1..])
    else Select(key, k, s[1..])
  }

  /** The elements with another key, in order. */
  function Reject<T, K(==)>(key: T -> K, k: K, s: seq<T>): seq<T> {
    if s == [] then []
    else if key(s[0]) == k then Reject(key, k, s[1..])
    else [s[0]] + Reject(key, k, s[1..])
  }

  function Total<T>(weight: T -> int, s: seq<T>): int {
    if s == [] then 0 else weight(s[0]) + Total(weight, s[1..])
  }

  /** The groups of s, one after the other in the order of ks. */
  function Regroup<T, K(==)>(key: T -> K, ks: seq<K>, s: seq<T>): seq<T> {
    if ks == [] then [] else Select(key, ks[0], s) + Regroup(key, ks[1..], s)
  }

  ghost predicate Distinct<K>(ks: seq<K>) {
    forall i, j :: 0 <= i < j < |ks| ==> ks[i] != ks[j]
  }

  ghost predicate Covers<T, K>(key: T -> K, ks: seq<K>, s: seq<T>) {
    forall x :: x in s ==> key(x) in ks
  }

  lemma {:induction false} SelectMembers<T, K>(key: T -> K, k: K, s: seq<T>)
    ensures forall x :: x in Select(key, k, s) ==> x in s && key(x) == k
    ensures forall x :: x in s && key(x) == k ==> x in Select(key, k, s)
    ensures forall x :: x in Reject(key, k, s) ==> x in s && key(x) != k
  {
    if s != [] {
      SelectMembers(key, k, s[1..]);
      assert s == [s[0]] + s[1..];
    }
  }

  lemma {:induction false} SelectAppend<T, K>(key: T -> K, k: K, a: seq<T>, b: seq<T>)
    ensures Select(key, k, a + b) == Select(key, k, a) + Select(key, k, b)
  {
    if a == [] {
      assert a + b == b;
    } else {
      assert (a + b)[1..] == a[1..] + b;
      SelectAppend(key, k, a[1..], b);
    }
  }

  lemma {:induction false} SelectAfterReject<T, K>(key: T -> K, k: K, other: K, s: seq<T>)
    requires k != other
    ensures Select(key, k, Reject(key, other, s)) == Select(key, k, s)
  {
    if s != [] {
      SelectAfterReject(key, k, other, s[1..]);
      if key(s[0]) != other {
        var r := Reject(key, other, s[1..]);
        assert ([s[0]] + r)[1..] == r;
      }
    }
  }

  lemma {:induction false} RegroupAfterReject<T, K>(key: T -> K, ks: seq<K>, other: K, s: seq<T>)
    requires other !in ks
    ensures Regroup(key, ks, Reject(key, other, s)) == Regroup(key, ks, s)
  {
    if ks != [] {
      SelectAfterReject(key, ks[0], other, s);
      RegroupAfterReject(key, ks[1..], other, s);
    }
  }

  lemma RejectIsCovered<T, K>(key: T -> K, ks: seq<K>, s: seq<T>)
    requires ks != [] && Covers(key, ks, s)
    ensures Covers(key, ks[1..], Reject(key, ks[0], s))
  {
    SelectMembers(key, ks[0], s);
    forall x | x in Reject(key, ks[0], s) ensures key(x) in ks[1..] {
      assert key(x) in ks && key(x) != ks[0];
      assert ks == [ks[0]] + ks[1..];
    }
  }

  lemma {:induction false} TotalAppend<T>(weight: T -> int, a: seq<T>, b: seq<T>)
    ensures Total(weight, a + b) == Total(weight, a) + Total(weight, b)
  {
    if a == [] {
      assert a + b == b;
    } else {
      assert (a + b)[1..] == a[1..] + b;
      TotalAppend(weight, a[1..], b);
    }
  }

  lemma {:induction false} TotalSplit<T, K>(key: T -> K, k: K, weight: T -> int, s: seq<T>)
    ensures Total(weight, Select(key, k, s)) + Total(weight, Reject(key, k, s)) == Total(weight, s)
  {
    if s != [] {
      TotalSplit(key, k, weight, s[1..]);
      if key(s[0]) == k {
        assert ([s[0]] + Select(key, k, s[1..]))[1..] == Select(key, k, s[1..]);
      } else {
        assert ([s[0]] + Reject(key, k, s[1..]))[1..] == Reject(key, k, s[1..]);
      }
    }
  }

  /** A total is the total of the groups. */
  lemma {:induction false} TotalRegroup<T, K>(key: T -> K, ks: seq<K>, weight: T -> int, s: seq<T>)
    requires Distinct(ks) && Covers(key, ks, s)
    ensures Total(weight, Regroup(key, ks, s)) == Total(weight, s)
  {
    if ks == [] {
      HeadIsMember(s);
    } else {
      var rest := Reject(key, ks[0], s);
      RejectIsCovered(key, ks, s);
      TotalRegroup(key, ks[1..], weight, rest);
      RegroupAfterReject(key, ks[1..], ks[0], s);
      TotalAppend(weight, Select(key, ks[0], s), Regroup(key, ks[1..], s));
      TotalSplit(key, ks[0], weight, s);
    }
  }

  lemma {:induction false} RegroupSnoc<T, K>(key: T -> K, ks: seq<K>, k: K, s: seq<T>)
    ensures Regroup(key, ks + [k], s) == Regroup(key, ks, s) + Select(key, k, s)
  {
    if ks == [] {
      assert Regroup(key, ([k])[1..], s) == [];
    } else {
      assert (ks + [k])[1..] == ks[1..] + [k];
      RegroupSnoc(key, ks[1..], k, s);
    }
  }

  function Map<T, U>(f: T -> U, s: seq<T>): seq<U> {
    seq(|s|, i requires 0 <= i < |s| => f(s[i]))
  }

  lemma MapAppend<T, U>(f: T -> U, a: seq<T>, b: seq<T>)
    ensures Map(f, a + b) == Map(f, a) + Map(f, b)
  {
  }

  lemma MapCons<T, U>(f: T -> U, x: T, s: seq<T>)
    ensures multiset(Map(f, [x] + s)) == multiset{f(x)} + multiset(Map(f, s))
  {
    assert Map(f, [x] + s) == [f(x)] + Map(f, s);
  }

  lemma {:induction false} MapSplit<T, U, K>(f: T -> U, key: T -> K, k: K, s: seq<T>)
    ensures multiset(Map(f, Select(key, k, s))) + multiset(Map(f, Reject(key, k, s))) == multiset(Map(f, s))
  {
    if s != [] {
      MapSplit(f, key, k, s[1..]);
      assert s == [s[0]] + s[1..];
      MapCons(f, s[0], s[1..]);
      MapCons(f, s[0], Select(key, k, s[1..]));
      MapCons(f, s[0], Reject(key, k, s[1..]));
    }
  }

  /** Grouping by distinct keys that cover the sequence, element by element mapped, loses and repeats nothing. */
  lemma {:induction false} RegroupIsPermutation<T, U, K>(f: T -> U, key: T -> K, ks: seq<K>, s: seq<T>)
    requires Distinct(ks) && Covers(key, ks, s)
    ensures multiset(Map(f, Regroup(key, ks, s))) == multiset(Map(f, s))
  {
    if ks == [] {
      HeadIsMember(s);
    } else {
      RejectIsCovered(key, ks, s);
      RegroupIsPermutation(f, key, ks[1..], Reject(key, ks[0], s));
      RegroupAfterReject(key, ks[1..], ks[0], s);
      MapAppend(f, Select(key, ks[0], s), Regroup(key, ks[1..], s));
      MapSplit(f, key, ks[0], s);
    }
  }

  /** A selection inside a wider selection is the selection itself. */
  lemma {:induction false} SelectWithin<T, J, K>(fine: T -> J, j: J, coarse: T -> K, k: K, s: seq<T>)
    requires forall x :: x in s && fine(x) == j ==> coarse(x) == k
    ensures Select(fine, j, Select(coarse, k, s)) == Select(fine, j, s)
  {
    if s != [] {
      assert forall x :: x in s[1..] ==> x in s;
      SelectWithin(fine, j, coarse, k, s[1..]);
      var rest := Select(coarse, k, s[1..]);
      if coarse(s[0]) == k {
        assert ([s[0]] + rest)[1..] == rest;
      }
    }
  }

  /** Selecting commutes with a mapping that keeps the key. */
  lemma {:induction false} SelectMap<T, U, K>(f: T -> U, before: T -> K, after: U -> K, k: K, s: seq<T>)
    requires forall x :: x in s ==> after(f(x)) == before(x)
    ensures Select(after, k, Map(f, s)) == Map(f, Select(before, k, s))
  {
    if s != [] {
      assert forall x :: x in s[1..] ==> x in s;
      assert s[0] in s;
      SelectMap(f, before, after, k, s[1..]);
      assert Map(f, s)[1..] == Map(f, s[1..]);
      assert Map(f, [s[0]] + Select(before, k, s[1..])) == [f(s[0])] + Map(f, Select(before, k, s[1..]));
    }
  }

  /** A selection keeps the order of the sequence. */
  lemma {:induction false} SelectIsSorted<T, K>(less: (T, T) -> bool, key: T -> K, k: K, s: seq<T>)
    requires Sorted(less, s)
    ensures Sorted(less, Select(key, k, s))
  {
    if s != [] {
      SelectIsSorted(less, key, k, s[1..]);
      SelectMembers(key, k, s[1..]);
      var rest := Select(key, k, s[1..]);
      forall i | 0 <= i < |rest| ensures less(s[0], rest[i]) {
        assert rest[i] in rest;
        assert rest[i] in s[1..];
        var j :| 0 <= j < |s[1..]| && s[1..][j] == rest[i];
        assert s[j + 1] == rest[i];
      }
    }
  }

  lemma SortedIsDistinct<T(!new)>(less: (T, T) -> bool, s: seq<T>)
    requires StrictTotal(less) && Sorted(less, s)
    ensures Distinct(s)
  {
    forall i, j | 0 <= i < j < |s| ensures s[i] != s[j] {
      assert less(s[i], s[j]);
    }
  }

  // ---- permutations -------------------------------------------------------------------------

  lemma OneOnly<T>(s: seq<T>, x: T)
    requires multiset(s) == multiset{x}
    ensures s == [x]
  {
    assert |s| == |multiset(s)| == 1;
    assert s[0] in multiset(s);
  }

  /** Taking out one element. */
  function Without<T>(s: seq<T>, i: nat): seq<T>
    requires i < |s|
  {
    s[..i] + s[i + 1..]
  }

  lemma WithoutCounts<T>(s: seq<T>, i: nat)
    requires i < |s|
    ensures multiset(s) == multiset(Without(s, i)) + multiset{s[i]}
  {
    assert s == s[..i] + [s[i]] + s[i + 1..];
  }

  lemma WithoutTotals<T>(weight: T -> int, s: seq<T>, i: nat)
    requires i < |s|
    ensures Total(weight, s) == Total(weight, Without(s, i)) + weight(s[i])
  {
    var tail := [s[i]] + s[i + 1..];
    assert s == s[..i] + tail && tail[1..] == s[i + 1..];
    TotalAppend(weight, s[..i], tail);
    TotalAppend(weight, s[..i], s[i + 1..]);
  }

  /** A total does not depend on the order. */
  lemma {:induction false} TotalPermuted<T>(weight: T -> int, a: seq<T>, b: seq<T>)
    requires multiset(a) == multiset(b)
    ensures Total(weight, a) == Total(weight, b)
    decreases |a|
  {
    if a == [] {
      assert |b| == |multiset(b)| == 0;
    } else {
      assert a[0] in multiset(b);
      var i :| 0 <= i < |b| && b[i] == a[0];
      WithoutCounts(a, 0);
      WithoutCounts(b, i);
      WithoutTotals(weight, a, 0);
      WithoutTotals(weight, b, i);
      hide Without, Total;
      assert multiset(Without(a, 0)) == multiset(a) - multiset{a[0]} == multiset(Without(b, i));
      FewerWithout(a, 0);
      TotalPermuted(weight, Without(a, 0), Without(b, i));
    }
  }

  lemma FewerWithout<T>(s: seq<T>, i: nat)
    requires i < |s|
    ensures |Without(s, i)| == |s| - 1
  {
  }

  lemma WithoutSelects<T, K>(key: T -> K, k: K, s: seq<T>, i: nat)
    requires i < |s|
    ensures multiset(Select(key, k, s))
         == multiset(Select(key, k, Without(s, i))) + (if key(s[i]) == k then multiset{s[i]} else multiset{})
  {
    var pre, post := s[..i], s[i + 1..];
    var tail := [s[i]] + post;
    assert s == pre + tail;
    SelectAppend(key, k, pre, tail);
    SelectAppend(key, k, pre, post);
    SelectFront(key, k, s[i], post);
    hide Select;
    assert multiset(Select(key, k, s)) == multiset(Select(key, k, pre)) + multiset(Select(key, k, tail));
    assert multiset(Select(key, k, Without(s, i))) == multiset(Select(key, k, pre)) + multiset(Select(key, k, post));
  }

  lemma SelectFront<T, K>(key: T -> K, k: K, x: T, s: seq<T>)
    ensures multiset(Select(key, k, [x] + s)) == multiset(Select(key, k, s)) + (if key(x) == k then multiset{x} else multiset{})
  {
    assert ([x] + s)[1..] == s;
  }

  /** Selections from a permuted sequence are permuted. */
  lemma {:induction false} SelectPermuted<T, K>(key: T -> K, k: K, a: seq<T>, b: seq<T>)
    requires multiset(a) == multiset(b)
    ensures multiset(Select(key, k, a)) == multiset(Select(key, k, b))
    decreases |a|
  {
    if a == [] {
      assert |b| == |multiset(b)| == 0;
    } else {
      assert a[0] in multiset(b);
      var i :| 0 <= i < |b| && b[i] == a[0];
      WithoutCounts(a, 0);
      WithoutCounts(b, i);
      WithoutSelects(key, k, a, 0);
      WithoutSelects(key, k, b, i);
      hide Without, Select;
      assert multiset(Without(a, 0)) == multiset(a) - multiset{a[0]} == multiset(Without(b, i));
      FewerWithout(a, 0);
      SelectPermuted(key, k, Without(a, 0), Without(b, i));
    }
  }

  lemma {:induction false} TotalMap<T, U>(f: T -> U, before: T -> int, after: U -> int, s: seq<T>)
    requires forall x :: after(f(x)) == before(x)
    ensures Total(after, Map(f, s)) == Total(before, s)
  {
    if s != [] {
      TotalMap(f, before, after, s[1..]);
      assert Map(f, s)[1..] == Map(f, s[1..]);
    }
  }
}
