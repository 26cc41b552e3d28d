/** Vocabulary shared by every component: outcomes, bytes and 64-bit integers. */
module Common {

  datatype Option<+T> = None | Some(value: T)

  datatype Result<+T, +E> = Ok(value: T) | Err(error: E)

  type byte = b: int | 0 <= b < 256

  const MAX_INT64 := 0x7FFF_FFFF_FFFF_FFFF
  const MIN_INT64 := -0x8000_0000_0000_0000

  predicate FitsInt64(x: int) {
    MIN_INT64 <= x <= MAX_INT64
  }

  type int64 = x: int | MIN_INT64 <= x <= MAX_INT64

  /** Two's-complement truncation: the unique 64-bit value congruent to `x`. */
  function Wrap64(x: int): (r: int64)
    ensures FitsInt64(x) ==> r == x
    ensures (r - x) % 0x1_0000_0000_0000_0000 == 0
  {
    var m := x % 0x1_0000_0000_0000_0000;
    if m > MAX_INT64 then m - 0x1_0000_0000_0000_0000 else m
  }

  function Sum(xs: seq<int>): int {
    if xs == [] then 0 else Sum(xs[..|xs| - 1]) + xs[|xs| - 1]
  }

  lemma {:induction false} SumZero(xs: seq<int>)
    requires forall i :: 0 <= i < |xs| ==> xs[i] == 0
    ensures Sum(xs) == 0
  {
    if xs != [] {
      SumZero(xs[..|xs| - 1]);
    }
  }

  lemma {:induction false} SumOnly(xs: seq<int>, k: nat)
    requires k < |xs| && forall i :: 0 <= i < |xs| && i != k ==> xs[i] == 0
    ensures Sum(xs) == xs[k]
  {
    if k == |xs| - 1 {
      SumZero(xs[..k]);
    } else {
      SumOnly(xs[..|xs| - 1], k);
    }
  }

  lemma Regroup<T>(a: seq<T>, b: seq<T>, c: seq<T>)
    ensures a + b + c == a + (b + c)
  {
  }

  ghost predicate Distinct<T>(s: seq<T>) {
    forall i, j :: 0 <= i < j < |s| ==> s[i] != s[j]
  }

  /** Position of an element of a sequence, and the sequence without it. */
  lemma SplitAt<T>(s: seq<T>, x: T) returns (i: nat, rest: seq<T>)
    requires x in s
    ensures i < |s| && s[i] == x && rest == s[..i] + s[i + 1..]
    ensures multiset(rest) == multiset(s) - multiset{x}
  {
    i :| i < |s| && s[i] == x;
    rest := s[..i] + s[i + 1..];
    assert s == s[..i] + [x] + s[i + 1..];
  }

  /** Taking the first element of one sequence out of a permutation of it leaves a permutation of the rest. */
  lemma TakeFirst<T>(a: seq<T>, b: seq<T>) returns (i: nat, rest: seq<T>)
    requires multiset(a) == multiset(b) && a != []
    ensures i < |b| && b == b[..i] + ([a[0]] + b[i + 1..]) && rest == b[..i] + b[i + 1..]
    ensures multiset(a[1..]) == multiset(rest)
  {
    assert a == [a[0]] + a[1..];
    assert a[0] in multiset(b);
    i, rest := SplitAt(b, a[0]);
  }

  lemma {:induction false} SumConcat(a: seq<int>, b: seq<int>)
    ensures Sum(a + b) == Sum(a) + Sum(b)
  {
    if b == [] {
      assert a + b == a;
    } else {
      SumConcat(a, b[..|b| - 1]);
      assert (a + b)[..|a + b| - 1] == a + b[..|b| - 1];
    }
  }

  lemma SumNext(xs: seq<int>, k: nat)
    requires k < |xs|
    ensures Sum(xs[..k + 1]) == Sum(xs[..k]) + xs[k]
  {
    assert xs[..k + 1][..k] == xs[..k];
  }

  /** Prefix sums of non-negative numbers grow. */
  lemma {:induction false} SumGrows(xs: seq<int>, i: nat, k: nat)
    requires i <= k <= |xs| && forall j :: 0 <= j < |xs| ==> xs[j] >= 0
    ensures Sum(xs[..i]) <= Sum(xs[..k])
  {
    if i < k {
      SumGrows(xs, i, k - 1);
      SumNext(xs, k - 1);
    }
  }

  lemma AppearsTwice<T>(s: seq<T>, i: nat, j: nat)
    requires i < j < |s| && s[i] == s[j]
    ensures multiset(s)[s[i]] >= 2
  {
    assert s == s[..i] + [s[i]] + s[i + 1..j] + [s[j]] + s[j + 1..];
  }

  lemma AppearsOnce<T>(s: seq<T>, p: nat)
    requires p < |s| && forall i :: 0 <= i < |s| && i != p ==> s[i] != s[p]
    ensures multiset(s)[s[p]] == 1
  {
    assert s == s[..p] + [s[p]] + s[p + 1..];
    assert s[p] !in s[..p] && s[p] !in s[p + 1..];
  }

  /** Keys that differ pairwise still do after a permutation. */
  lemma StayDistinct<T, K>(key: T -> K, a: seq<T>, b: seq<T>)
    requires multiset(a) == multiset(b)
    requires forall i, j :: 0 <= i < j < |a| ==> key(a[i]) != key(a[j])
    ensures forall i, j :: 0 <= i < j < |b| ==> key(b[i]) != key(b[j])
  {
    forall i, j | 0 <= i < j < |b| ensures key(b[i]) != key(b[j]) {
      assert b[i] in multiset(a) && b[j] in multiset(a);
      if b[i] == b[j] {
        AppearsTwice(b, i, j);
        var p :| 0 <= p < |a| && a[p] == b[i];
        AppearsOnce(a, p);
      }
    }
  }
}
