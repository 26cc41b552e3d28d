/** How an incoming amount is split over a user's accounts. */
module Distribution {
  import opened Common
  import opened Uuid
  import opened Accounts
  import opened StableSort

  predicate Eligible(a: Account) {
    a.isActive && a.id != CLEARING
  }

  function EligibleOf(accs: seq<Account>): (es: seq<Account>)
    ensures forall a :: a in es <==> a in accs && Eligible(a)
  {
    if accs == [] then []
    else
      var es := EligibleOf(accs[..|accs| - 1]);
      assert accs == accs[..|accs| - 1] + [accs[|accs| - 1]];
      if Eligible(accs[|accs| - 1]) then es + [accs[|accs| - 1]] else es
  }

  /** Accounts that need not respect a floor first, then by creation time. */
  function Precedence(a: Account): Rank {
    Rank(if a.respectsFloor then 1 else 0, a.createdAt)
  }

  function Recipients(accs: seq<Account>): seq<Account> {
    Sort(Precedence, EligibleOf(accs))
  }

  /** The share of the `i`-th of `n` recipients: even, the last one also taking the remainder; with fewer units than
      recipients the first takes all. */
  function Share(n: int, amount: int, i: int): int
    requires n > 0
  {
    if amount < n then (if i == 0 then amount else 0)
    else if i < n - 1 then amount / n
    else amount / n + amount % n
  }

  function SplitsFor(rs: seq<Account>, amount: int): (splits: seq<Split>)
    requires rs != []
    ensures |splits| == if amount < |rs| then 1 else |rs|
  {
    if amount < |rs| then [Split(rs[0].id, amount)]
    else seq(|rs|, i requires 0 <= i < |rs| => Split(rs[i].id, Share(|rs|, amount, i)))
  }

  function Distributed(accs: seq<Account>, amount: int): Result<seq<Split>, Error> {
    if amount <= 0 || Recipients(accs) == [] then Err(NothingToDistribute)
    else Ok(SplitsFor(Recipients(accs), amount))
  }

  method FilterEligible(accs: seq<Account>) returns (active: seq<Account>)
    ensures active == EligibleOf(accs)
  {
    active := [];
    for k := 0 to |accs|
      invariant active == EligibleOf(accs[..k])
    {
      assert accs[..k + 1][..k] == accs[..k];
      if accs[k].isActive && accs[k].id != CLEARING {
        active := active + [accs[k]];
      }
    }
    assert accs[..|accs|] == accs;
  }

  /** The splitting loop over the sorted recipients. */
  method SplitEvenly(active: seq<Account>, amount: int) returns (splits: seq<Split>, remaining: int)
    ensures splits == [] || remaining > 0 <==> amount <= 0 || active == []
    ensures amount > 0 && active != [] ==> splits == SplitsFor(active, amount)
  {
    var n := |active|;
    remaining := amount;
    splits := [];
    var i := 0;
    while i < n && remaining > 0
      invariant i <= n && Underway(active, amount, i, remaining, splits)
    {
      var share := amount / n;
      if share == 0 {
        share := remaining;
      }
      if share > remaining {
        share := remaining;
      }
      if i == n - 1 {
        share := remaining;
      }
      UnderwayNext(active, amount, i, remaining, splits, share);
      if share <= 0 {
        i := i + 1;
        continue;
      }
      splits := splits + [Split(active[i].id, share)];
      remaining := remaining - share;
      i := i + 1;
    }
    UnderwayDone(active, amount, i, remaining, splits);
  }

  method ComputeDistribution(accs: seq<Account>, amount: int) returns (r: Result<seq<Split>, Error>)
    ensures r == Distributed(accs, amount)
  {
    var active := FilterEligible(accs);
    active := Sort(Precedence, active);
    var splits, remaining := SplitEvenly(active, amount);
    if |splits| == 0 || remaining > 0 {
      return Err(NothingToDistribute);
    }
    r := Ok(splits);
  }

  /** What is left after the first `i` recipients. */
  function LeftAfter(n: int, amount: int, i: int): int
    requires n > 0
  {
    if amount < n then (if i == 0 then amount else 0)
    else if i < n then (n - i) * (amount / n) + amount % n
    else 0
  }

  /** The splits of the first `i` recipients. */
  function GivenAfter(rs: seq<Account>, amount: int, i: nat): seq<Split>
    requires rs != [] && i <= |rs|
  {
    if i == 0 then [] else if amount < |rs| then SplitsFor(rs, amount) else SplitsFor(rs, amount)[..i]
  }

  lemma Quotient(n: int, amount: int)
    requires n > 0 && amount > 0
    ensures amount < n <==> amount / n == 0
    ensures amount / n >= 0
  {
    var q := amount / n;
    assert n * q + amount % n == amount;
    if q == 0 {
      assert n * q == 0;
    } else if q > 0 {
      assert n * q >= n;
    }
  }

  lemma LeftAtStart(n: int, amount: int)
    requires n > 0 && amount > 0
    ensures LeftAfter(n, amount, 0) == amount
  {
  }

  /** What is left shrinks by each recipient's share, and covers that share. */
  lemma ShareStep(n: int, amount: int, i: int)
    requires 0 <= i < n && amount >= n
    ensures LeftAfter(n, amount, i) >= Share(n, amount, i) > 0
    ensures LeftAfter(n, amount, i) - Share(n, amount, i) == LeftAfter(n, amount, i + 1)
  {
    var q := amount / n;
    Quotient(n, amount);
    TimesNext(n - i, q);
  }

  lemma TimesNext(k: int, q: int)
    requires k >= 1 && q >= 0
    ensures k * q == (k - 1) * q + q && (k - 1) * q >= 0
  {
  }

  /** One iteration with the share as the loop works it out: the quotient or, if that is zero, all that is left, capped by it. */
  lemma LoopStep(rs: seq<Account>, amount: int, i: nat, share: int)
    requires i < |rs| && amount > 0 && LeftAfter(|rs|, amount, i) > 0
    requires var n, left := |rs|, LeftAfter(|rs|, amount, i);
             var even := if amount / n == 0 then left else amount / n;
             share == if i == n - 1 || even > left then left else even
    ensures share > 0 && LeftAfter(|rs|, amount, i + 1) == LeftAfter(|rs|, amount, i) - share
    ensures GivenAfter(rs, amount, i + 1) == GivenAfter(rs, amount, i) + [Split(rs[i].id, share)]
  {
    var n := |rs|;
    Quotient(n, amount);
    if amount >= n {
      ShareStep(n, amount, i);
      assert share == Share(n, amount, i);
      assert SplitsFor(rs, amount)[i] == Split(rs[i].id, share);
    }
  }

  /** When the loop stops, everything has been given. */
  lemma AllGiven(rs: seq<Account>, amount: int, i: nat)
    requires rs != [] && i <= |rs| && amount > 0
    requires i == |rs| || LeftAfter(|rs|, amount, i) <= 0
    ensures LeftAfter(|rs|, amount, i) == 0 && GivenAfter(rs, amount, i) == SplitsFor(rs, amount)
  {
    if amount >= |rs| && i < |rs| {
      ShareStep(|rs|, amount, i);
    }
    if amount >= |rs| && i == |rs| {
      assert SplitsFor(rs, amount)[..i] == SplitsFor(rs, amount);
    }
  }

  /** What the splitting loop knows before each iteration. */
  predicate Underway(rs: seq<Account>, amount: int, i: nat, remaining: int, splits: seq<Split>)
    requires i <= |rs|
  {
    if amount <= 0 || rs == [] then i == 0 && remaining == amount && splits == []
    else remaining == LeftAfter(|rs|, amount, i) && splits == GivenAfter(rs, amount, i)
  }

  lemma UnderwayNext(rs: seq<Account>, amount: int, i: nat, remaining: int, splits: seq<Split>, share: int)
    requires i < |rs| && remaining > 0 && Underway(rs, amount, i, remaining, splits)
    requires var even := if amount / |rs| == 0 then remaining else amount / |rs|;
             share == if i == |rs| - 1 || even > remaining then remaining else even
    ensures share > 0 && Underway(rs, amount, i + 1, remaining - share, splits + [Split(rs[i].id, share)])
  {
    LoopStep(rs, amount, i, share);
  }

  lemma UnderwayDone(rs: seq<Account>, amount: int, i: nat, remaining: int, splits: seq<Split>)
    requires i <= |rs| && Underway(rs, amount, i, remaining, splits) && (i == |rs| || remaining <= 0)
    ensures splits == [] || remaining > 0 <==> amount <= 0 || rs == []
    ensures amount > 0 && rs != [] ==> splits == SplitsFor(rs, amount)
  {
    if amount > 0 && rs != [] {
      AllGiven(rs, amount, i);
    }
  }

  // ---- what a distribution is ---------------------------------------------------

  function SplitTotal(splits: seq<Split>): int {
    if splits == [] then 0 else SplitTotal(splits[..|splits| - 1]) + splits[|splits| - 1].amount
  }

  lemma {:induction false} SplitsPrefixTotal(rs: seq<Account>, amount: int, k: nat)
    requires amount >= |rs| > 0 && k <= |rs|
    ensures SplitTotal(SplitsFor(rs, amount)[..k]) == amount - LeftAfter(|rs|, amount, k)
  {
    var n, all := |rs|, SplitsFor(rs, amount);
    if k == 0 {
      LeftAtStart(n, amount);
    } else {
      SplitsPrefixTotal(rs, amount, k - 1);
      ShareStep(n, amount, k - 1);
      assert all[..k][..k - 1] == all[..k - 1];
    }
  }

  ghost predicate DistinctAccounts(splits: seq<Split>) {
    forall i, j :: 0 <= i < j < |splits| ==> splits[i].account != splits[j].account
  }

  ghost predicate DistinctIds(accs: seq<Account>) {
    forall i, j :: 0 <= i < j < |accs| ==> accs[i].id != accs[j].id
  }

  /** A distribution fails exactly for a non-positive amount or when no account is eligible. */
  lemma DistributionFails(accs: seq<Account>, amount: int)
    ensures Distributed(accs, amount).Ok? <==> amount > 0 && exists a :: a in accs && Eligible(a)
    ensures Distributed(accs, amount).Err? ==> Distributed(accs, amount).error == NothingToDistribute
  {
    var es := EligibleOf(accs);
    if es != [] {
      assert es[0] in es;
    }
    if a :| a in accs && Eligible(a) {
      assert a in es;
    }
  }

  lemma SplitsTotal(rs: seq<Account>, amount: int)
    requires rs != [] && amount > 0
    ensures SplitTotal(SplitsFor(rs, amount)) == amount
    ensures forall i :: 0 <= i < |SplitsFor(rs, amount)| ==>
              SplitsFor(rs, amount)[i].amount > 0 && SplitsFor(rs, amount)[i].account == rs[i].id
  {
    var all := SplitsFor(rs, amount);
    if amount < |rs| {
      assert all[..0] == [];
    } else {
      SplitsPrefixTotal(rs, amount, |rs|);
      assert all[..|rs|] == all;
      forall i | 0 <= i < |all| ensures all[i].amount > 0 {
        ShareStep(|rs|, amount, i);
      }
    }
  }

  lemma {:induction false} EligibleDistinct(accs: seq<Account>)
    requires DistinctIds(accs)
    ensures DistinctIds(EligibleOf(accs))
  {
    if accs != [] {
      var n := |accs| - 1;
      EligibleDistinct(accs[..n]);
      forall a | a in EligibleOf(accs[..n]) ensures a.id != accs[n].id {
        var i :| 0 <= i < n && accs[i] == a;
      }
    }
  }

  lemma {:induction false} RecipientsAre(accs: seq<Account>)
    requires DistinctIds(accs)
    ensures var rs := Recipients(accs);
            && IsStableSortOf(Precedence, EligibleOf(accs), rs) && DistinctIds(rs)
            && forall i :: 0 <= i < |rs| ==> rs[i] in accs && Eligible(rs[i])
  {
    var rs := Recipients(accs);
    SortIsStable(Precedence, EligibleOf(accs));
    EligibleDistinct(accs);
    StayDistinct((a: Account) => a.id, EligibleOf(accs), rs);
    forall i | 0 <= i < |rs| ensures rs[i] in accs && Eligible(rs[i]) {
      assert rs[i] in multiset(EligibleOf(accs));
    }
  }

  /** The splits are positive, go to distinct eligible accounts in the stable order, add up to the amount, and equal the
      closed form of `Share`. */
  lemma {:induction false} DistributionIsExact(accs: seq<Account>, amount: int)
    requires DistinctIds(accs) && Distributed(accs, amount).Ok?
    ensures var splits := Distributed(accs, amount).value;
            var rs := Recipients(accs);
            && IsStableSortOf(Precedence, EligibleOf(accs), rs)
            && SplitTotal(splits) == amount && DistinctAccounts(splits)
            && |splits| == (if amount < |rs| then 1 else |rs|)
            && forall i :: 0 <= i < |splits| ==>
                 && splits[i] == Split(rs[i].id, Share(|rs|, amount, i)) && splits[i].amount > 0
                 && rs[i] in accs && Eligible(rs[i])
  {
    var rs := Recipients(accs);
    RecipientsAre(accs);
    SplitsTotal(rs, amount);
  }

  // ---- the order of the recipients, in terms of the accounts as given --------------------------

  /** Account `p` is filled before account `q`: it need not respect a floor and the other must, or both are alike in that and
      it was created earlier, or at the same time and is listed earlier. */
  predicate FilledBefore(accs: seq<Account>, p: nat, q: nat)
    requires p < |accs| && q < |accs|
  {
    (!accs[p].respectsFloor && accs[q].respectsFloor)
    || (accs[p].respectsFloor == accs[q].respectsFloor
        && (accs[p].createdAt < accs[q].createdAt || (accs[p].createdAt == accs[q].createdAt && p < q)))
  }

  /** Positions of the active accounts other than clearing. */
  function EligibleAt(accs: seq<Account>): (at: seq<nat>)
    ensures |at| == |EligibleOf(accs)|
  {
    if accs == [] then []
    else
      var n := |accs| - 1;
      EligibleAt(accs[..n]) + (if Eligible(accs[n]) then [n] else [])
  }

  lemma {:induction false} EligibleFrom(accs: seq<Account>, i: nat)
    requires i < |EligibleAt(accs)|
    ensures EligibleAt(accs)[i] < |accs| && EligibleOf(accs)[i] == accs[EligibleAt(accs)[i]]
  {
    var n := |accs| - 1;
    if i < |EligibleAt(accs[..n])| {
      EligibleFrom(accs[..n], i);
    }
  }

  lemma {:induction false} EligibleAscend(accs: seq<Account>, i: nat, j: nat)
    requires i < j < |EligibleAt(accs)|
    ensures EligibleAt(accs)[i] < EligibleAt(accs)[j]
  {
    var n := |accs| - 1;
    if j < |EligibleAt(accs[..n])| {
      EligibleAscend(accs[..n], i, j);
    } else {
      EligibleFrom(accs[..n], i);
    }
  }

  lemma {:induction false} EligibleCovers(accs: seq<Account>, p: nat)
    requires p < |accs| && accs[p].isActive && accs[p].id != CLEARING
    ensures p in EligibleAt(accs)
  {
    var n := |accs| - 1;
    if p < n {
      EligibleCovers(accs[..n], p);
    }
  }

  lemma {:induction false} EligibleAtIs(accs: seq<Account>)
    ensures var at := EligibleAt(accs);
            && (forall i :: 0 <= i < |at| ==> at[i] < |accs| && EligibleOf(accs)[i] == accs[at[i]])
            && (forall i, j :: 0 <= i < j < |at| ==> at[i] < at[j])
            && (forall p: nat :: p < |accs| && accs[p].isActive && accs[p].id != CLEARING ==> p in at)
  {
    var at := EligibleAt(accs);
    forall i | 0 <= i < |at| ensures at[i] < |accs| && EligibleOf(accs)[i] == accs[at[i]] { EligibleFrom(accs, i); }
    forall i, j | 0 <= i < j < |at| ensures at[i] < at[j] { EligibleAscend(accs, i, j); }
    forall p: nat | p < |accs| && accs[p].isActive && accs[p].id != CLEARING ensures p in at { EligibleCovers(accs, p); }
  }

  /** The accounts at the positions `from` are all active accounts other than clearing, in filling order. */
  ghost predicate FillingOrder(accs: seq<Account>, from: seq<nat>) {
    && (forall i :: 0 <= i < |from| ==> from[i] < |accs| && accs[from[i]].isActive && accs[from[i]].id != CLEARING)
    && (forall p: nat :: p < |accs| && accs[p].isActive && accs[p].id != CLEARING ==> p in from)
    && (forall i, j :: 0 <= i < j < |from| ==> FilledBefore(accs, from[i], from[j]))
  }

  lemma RecipientsInOrder(accs: seq<Account>) returns (from: seq<nat>)
    ensures FillingOrder(accs, from) && |from| == |Recipients(accs)|
    ensures forall i :: 0 <= i < |from| ==> Recipients(accs)[i] == accs[from[i]]
  {
    var es, at := EligibleOf(accs), EligibleAt(accs);
    var pos := SortPositions(Precedence, es);
    EligibleAtIs(accs);
    from := seq(|pos|, i requires 0 <= i < |pos| => at[pos[i]]);
    forall i | 0 <= i < |from|
      ensures from[i] < |accs| && Recipients(accs)[i] == accs[from[i]] && accs[from[i]].isActive && accs[from[i]].id != CLEARING
    {
      assert es[pos[i]] in es;
    }
    forall p: nat | p < |accs| && accs[p].isActive && accs[p].id != CLEARING ensures p in from {
      assert p in at;
      var k: nat :| k < |at| && at[k] == p;
      assert k in pos;
      var i :| 0 <= i < |pos| && pos[i] == k;
      assert from[i] == p;
    }
    forall i, j | 0 <= i < j < |from| ensures FilledBefore(accs, from[i], from[j]) {
      assert InOrder(Precedence(Recipients(accs)[i]), pos[i], Precedence(Recipients(accs)[j]), pos[j]);
    }
  }

  /** A distribution over the accounts given: with at least as many units as recipients each gets the quotient, in filling
      order, and the last one the remainder too; with fewer units the first recipient gets them all. */
  lemma DistributionFollowsOrder(accs: seq<Account>, amount: int) returns (from: seq<nat>)
    requires Distributed(accs, amount).Ok?
    ensures var splits, n := Distributed(accs, amount).value, |from|;
            && FillingOrder(accs, from) && n > 0
            && (amount < n ==> splits == [Split(accs[from[0]].id, amount)])
            && (amount >= n ==> |splits| == n && forall i :: 0 <= i < n ==>
                  splits[i].account == accs[from[i]].id
                  && splits[i].amount == (if i < n - 1 then amount / n else amount / n + amount % n))
  {
    from := RecipientsInOrder(accs);
  }
}
