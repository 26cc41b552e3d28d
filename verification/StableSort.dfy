/** The specification of the library's stable slice sort, by a rank of two integers compared lexicographically. */
module StableSort {

  datatype Rank = Rank(major: int, minor: int)

  predicate Before(a: Rank, b: Rank) {
    a.major < b.major || (a.major == b.major && a.minor < b.minor)
  }

  ghost predicate Sorted<T>(rank: T -> Rank, s: seq<T>) {
    forall i, j :: 0 <= i < j < |s| ==> !Before(rank(s[j]), rank(s[i]))
  }

  /** The elements of one rank, in order of appearance. */
  ghost function OfRank<T>(rank: T -> Rank, s: seq<T>, r: Rank): seq<T> {
    if s == [] then []
    else (if rank(s[0]) == r then [s[0]] else []) + OfRank(rank, s[1..], r)
  }

  /** `t` lists the elements of `s` in rank order and keeps the order of elements of equal rank. */
  ghost predicate IsStableSortOf<T(!new)>(rank: T -> Rank, s: seq<T>, t: seq<T>) {
    && Sorted(rank, t)
    && multiset(t) == multiset(s)
    && forall r :: OfRank(rank, t, r) == OfRank(rank, s, r)
  }

  /** Inserts `x` before the first element that does not rank before it. */
  function Insert<T>(rank: T -> Rank, x: T, s: seq<T>): (t: seq<T>)
    ensures |t| == |s| + 1
    ensures multiset(t) == multiset(s) + multiset{x}
  {
    if s == [] || !Before(rank(s[0]), rank(x)) then [x] + s
    else
      assert s == [s[0]] + s[1..];
      [s[0]] + Insert(rank, x, s[1..])
  }

  function Sort<T>(rank: T -> Rank, s: seq<T>): (t: seq<T>)
    ensures |t| == |s|
    ensures multiset(t) == multiset(s)
  {
    if s == [] then []
    else
      assert s == [s[0]] + s[1..];
      Insert(rank, s[0], Sort(rank, s[1..]))
  }

  lemma {:induction false} InsertSorted<T>(rank: T -> Rank, x: T, s: seq<T>)
    requires Sorted(rank, s)
    ensures Sorted(rank, Insert(rank, x, s))
  {
    var t := Insert(rank, x, s);
    if s == [] || !Before(rank(s[0]), rank(x)) {
      assert t == [x] + s;
    } else {
      InsertSorted(rank, x, s[1..]);
      var u := Insert(rank, x, s[1..]);
      assert t == [s[0]] + u;
      forall j | 0 <= j < |u| ensures !Before(rank(u[j]), rank(s[0])) {
        assert u[j] in multiset(u);
        assert u[j] == x || u[j] in s[1..];
      }
    }
  }

  lemma {:induction false} OfRankCons<T>(rank: T -> Rank, x: T, s: seq<T>, r: Rank)
    ensures OfRank(rank, [x] + s, r) == (if rank(x) == r then [x] else []) + OfRank(rank, s, r)
  {
    assert ([x] + s)[1..] == s;
  }

  lemma {:induction false} InsertOfRank<T>(rank: T -> Rank, x: T, s: seq<T>, r: Rank)
    requires Sorted(rank, s)
    ensures OfRank(rank, Insert(rank, x, s), r) == OfRank(rank, [x] + s, r)
  {
    if s != [] && Before(rank(s[0]), rank(x)) {
      var tail := s[1..];
      InsertOfRank(rank, x, tail, r);
      OfRankCons(rank, s[0], Insert(rank, x, tail), r);
      OfRankCons(rank, x, tail, r);
      OfRankCons(rank, x, s, r);
    }
  }

  /** The sort used throughout this project is a stable sort. */
  lemma {:induction false} SortIsStable<T(!new)>(rank: T -> Rank, s: seq<T>)
    ensures IsStableSortOf(rank, s, Sort(rank, s))
  {
    if s != [] {
      var u := Sort(rank, s[1..]);
      SortIsStable(rank, s[1..]);
      InsertSorted(rank, s[0], u);
      forall r ensures OfRank(rank, Sort(rank, s), r) == OfRank(rank, s, r) {
        InsertOfRank(rank, s[0], u, r);
        OfRankCons(rank, s[0], u, r);
        assert OfRank(rank, u, r) == OfRank(rank, s[1..], r);
      }
    }
  }

  /** Any other stable sort returns the same sequence, so the library's algorithm does not matter. */
  lemma {:induction false} StableSortUnique<T(!new)>(rank: T -> Rank, s: seq<T>, t: seq<T>)
    requires IsStableSortOf(rank, s, t)
    ensures t == Sort(rank, s)
  {
    SortIsStable(rank, s);
    assert |t| == |multiset(t)| == |multiset(s)| == |Sort(rank, s)|;
    SortedDetermined(rank, t, Sort(rank, s));
  }

  lemma {:induction false} SortedDetermined<T(!new)>(rank: T -> Rank, a: seq<T>, b: seq<T>)
    requires Sorted(rank, a) && Sorted(rank, b) && |a| == |b|
    requires forall r :: OfRank(rank, a, r) == OfRank(rank, b, r)
    ensures a == b
  {
    if a != [] {
      var p, q := rank(a[0]), rank(b[0]);
      assert OfRank(rank, a, p)[0] == a[0];
      assert OfRank(rank, b, q)[0] == b[0];
      RankPresent(rank, b, p);
      RankPresent(rank, a, q);
      assert p == q;
      assert a[0] == b[0];
      forall r ensures OfRank(rank, a[1..], r) == OfRank(rank, b[1..], r) {
        var h := if p == r then [a[0]] else [];
        assert OfRank(rank, a, r) == h + OfRank(rank, a[1..], r);
        assert OfRank(rank, b, r) == h + OfRank(rank, b[1..], r);
        assert OfRank(rank, a, r)[|h|..] == OfRank(rank, a[1..], r);
        assert OfRank(rank, b, r)[|h|..] == OfRank(rank, b[1..], r);
      }
      SortedDetermined(rank, a[1..], b[1..]);
      assert a == [a[0]] + a[1..] && b == [b[0]] + b[1..];
    }
  }

  lemma {:induction false} RankPresent<T>(rank: T -> Rank, s: seq<T>, r: Rank)
    requires OfRank(rank, s, r) != []
    ensures exists i :: 0 <= i < |s| && rank(s[i]) == r
  {
    if rank(s[0]) != r {
      RankPresent(rank, s[1..], r);
      var i :| 0 <= i < |s[1..]| && rank(s[1..][i]) == r;
      assert rank(s[i + 1]) == r;
    }
  }

  // ---- where the elements go --------------------------------------------------------------

  /** How many leading elements rank before `x`. */
  function InsertPoint<T>(rank: T -> Rank, x: T, s: seq<T>): (k: nat)
    ensures k <= |s|
  {
    if s == [] || !Before(rank(s[0]), rank(x)) then 0 else 1 + InsertPoint(rank, x, s[1..])
  }

  lemma {:induction false} InsertShape<T>(rank: T -> Rank, x: T, s: seq<T>)
    ensures var k := InsertPoint(rank, x, s); Insert(rank, x, s) == s[..k] + [x] + s[k..]
  {
    if s != [] && Before(rank(s[0]), rank(x)) {
      var n, tail := InsertPoint(rank, x, s[1..]), s[1..];
      calc {
        Insert(rank, x, s);
        [s[0]] + Insert(rank, x, tail);
        { InsertShape(rank, x, tail); }
        [s[0]] + (tail[..n] + [x] + tail[n..]);
        { assert s[..n + 1] == [s[0]] + tail[..n] && s[n + 1..] == tail[n..]; }
        s[..n + 1] + [x] + s[n + 1..];
      }
    }
  }

  lemma {:induction false} InsertPointSplits<T>(rank: T -> Rank, x: T, s: seq<T>, i: nat)
    requires i < |s|
    ensures i < InsertPoint(rank, x, s) ==> Before(rank(s[i]), rank(x))
    ensures i == InsertPoint(rank, x, s) ==> !Before(rank(s[i]), rank(x))
  {
    if i > 0 && Before(rank(s[0]), rank(x)) {
      InsertPointSplits(rank, x, s[1..], i - 1);
    }
  }

  /** Of two elements at sorted positions, the first ranks before the second, or equally and from an earlier position. */
  predicate InOrder(r: Rank, p: nat, q: Rank, n: nat) {
    Before(r, q) || (r == q && p < n)
  }

  /** The elements of `t` are those of `s` at the positions `at`, each position once, by rank and then by position. */
  ghost predicate Ordered<T>(rank: T -> Rank, s: seq<T>, t: seq<T>, at: seq<nat>) {
    && |at| == |t| == |s|
    && (forall i :: 0 <= i < |t| ==> at[i] < |s| && t[i] == s[at[i]])
    && (forall p: nat :: p < |s| ==> p in at)
    && (forall i, j :: 0 <= i < j < |t| ==> InOrder(rank(t[i]), at[i], rank(t[j]), at[j]))
  }

  /** The positions after a new first element has been inserted at `k`. */
  function Shifted(at: seq<nat>, k: nat): (now: seq<nat>)
    requires k <= |at|
    ensures |now| == |at| + 1 && now[k] == 0
    ensures forall i :: 0 <= i < |at| ==> now[if i < k then i else i + 1] == at[i] + 1
  {
    seq(|at| + 1, i requires 0 <= i <= |at| => if i < k then at[i] + 1 else if i == k then 0 else at[i - 1] + 1)
  }

  lemma ShiftedCovers(at: seq<nat>, k: nat, n: nat)
    requires k <= |at| && forall p: nat :: p < n ==> p in at
    ensures forall p: nat :: p < n + 1 ==> p in Shifted(at, k)
  {
    var now := Shifted(at, k);
    forall p: nat | p < n + 1 ensures p in now {
      if p == 0 {
        assert now[k] == 0;
      } else {
        var q: nat := p - 1;
        assert q in at;
        var i :| 0 <= i < |at| && at[i] == q;
        assert now[if i < k then i else i + 1] == p;
      }
    }
  }

  /** The rank that is not before `r` comes first in order when its position does. */
  lemma NotBeforeInOrder(r: Rank, q: Rank, p: nat, n: nat)
    requires !Before(q, r) && p < n
    ensures InOrder(r, p, q, n)
  {
  }

  lemma {:induction false} AfterInserted<T>(rank: T -> Rank, x: T, u: seq<T>, at: seq<nat>, n: nat)
    requires |at| == |u| && InsertPoint(rank, x, u) <= n < |u|
    requires forall l, m :: 0 <= l < m < |u| ==> InOrder(rank(u[l]), at[l], rank(u[m]), at[m])
    ensures !Before(rank(u[n]), rank(x))
  {
    var k := InsertPoint(rank, x, u);
    InsertPointSplits(rank, x, u, k);
    if k < n {
      assert InOrder(rank(u[k]), at[k], rank(u[n]), at[n]);
    }
  }

  lemma ShiftedAt<T>(x: T, u: seq<T>, at: seq<nat>, k: nat, i: nat)
    requires |at| == |u| && k <= |u| && i <= |u| && i != k
    ensures var m := if i < k then i else i - 1;
            (u[..k] + [x] + u[k..])[i] == u[m] && Shifted(at, k)[i] == at[m] + 1
  {
  }

  lemma {:induction false} ShiftedInOrder<T>(rank: T -> Rank, x: T, u: seq<T>, at: seq<nat>, t: seq<T>, now: seq<nat>, i: nat, j: nat)
    requires |at| == |u| && i < j <= |u|
    requires forall l, m :: 0 <= l < m < |u| ==> InOrder(rank(u[l]), at[l], rank(u[m]), at[m])
    requires var k := InsertPoint(rank, x, u); t == u[..k] + [x] + u[k..] && now == Shifted(at, k)
    ensures InOrder(rank(t[i]), now[i], rank(t[j]), now[j])
  {
    var k := InsertPoint(rank, x, u);
    if j == k {
      InsertPointSplits(rank, x, u, i);
    } else if i == k {
      AfterInserted(rank, x, u, at, j - 1);
      NotBeforeInOrder(rank(x), rank(u[j - 1]), 0, now[j]);
    } else {
      ShiftedAt(x, u, at, k, i);
      ShiftedAt(x, u, at, k, j);
      var l, m := if i < k then i else i - 1, if j < k then j else j - 1;
      assert InOrder(rank(u[l]), at[l], rank(u[m]), at[m]);
    }
  }

  lemma {:induction false} OrderedInsert<T>(rank: T -> Rank, s: seq<T>, u: seq<T>, at: seq<nat>)
    requires s != [] && Ordered(rank, s[1..], u, at)
    ensures Ordered(rank, s, Insert(rank, s[0], u), Shifted(at, InsertPoint(rank, s[0], u)))
  {
    var k := InsertPoint(rank, s[0], u);
    var t, now := Insert(rank, s[0], u), Shifted(at, k);
    InsertShape(rank, s[0], u);
    ShiftedCovers(at, k, |s| - 1);
    forall i | 0 <= i < |t| ensures now[i] < |s| && t[i] == s[now[i]] {
      if i != k {
        ShiftedAt(s[0], u, at, k, i);
        assert u[if i < k then i else i - 1] == s[1..][at[if i < k then i else i - 1]];
      }
    }
    forall i, j | 0 <= i < j < |t| ensures InOrder(rank(t[i]), now[i], rank(t[j]), now[j]) {
      ShiftedInOrder(rank, s[0], u, at, t, now, i, j);
    }
  }

  /** Where each element of the sorted sequence comes from: smaller ranks first, equal ranks in the order given. */
  lemma {:induction false} SortPositions<T>(rank: T -> Rank, s: seq<T>) returns (at: seq<nat>)
    ensures Ordered(rank, s, Sort(rank, s), at)
  {
    if s == [] {
      at := [];
    } else {
      var u := Sort(rank, s[1..]);
      var before := SortPositions(rank, s[1..]);
      OrderedInsert(rank, s, u, before);
      at := Shifted(before, InsertPoint(rank, s[0], u));
    }
  }
}
