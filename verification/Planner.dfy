/** The planner: splits a requested amount greedily over the user's assets in stable priority order. */
module Planner {
  import opened Common
  import opened Uuid
  import opened Domain
  import opened StableSort

  datatype PlanError = InvalidAmount | InsufficientFunds

  function PriorityRank(a: UserAsset): Rank {
    Rank(a.priority, 0)
  }

  function ByPriority(assets: seq<UserAsset>): seq<UserAsset> {
    Sort(PriorityRank, assets)
  }

  /** What each asset can contribute, in the order given. */
  function Usable(assets: seq<UserAsset>): (us: seq<int>)
    ensures |us| == |assets| && forall i :: 0 <= i < |us| ==> us[i] >= 0
  {
    seq(|assets|, i requires 0 <= i < |assets| => assets[i].AvailableForLiquidation())
  }

  function Min(a: int, b: int): int {
    if a <= b then a else b
  }

  /** Greedy draws: each source gives all it can of what the sources before it leave uncovered. */
  function Draws(us: seq<int>, amount: int): (ds: seq<int>)
    ensures |ds| == |us|
  {
    seq(|us|, i requires 0 <= i < |us| => Min(us[i], amount - Min(Sum(us[..i]), amount)))
  }

  function LegOf(a: UserAsset, amount: int): SplitLeg {
    SplitLeg(a.id, a.provider, a.assetType, amount, "", Pending, None)
  }

  /** The legs of the assets that give something. */
  function LegsFor(assets: seq<UserAsset>, ds: seq<int>): seq<SplitLeg>
    requires |assets| == |ds|
  {
    if assets == [] then []
    else
      var n := |assets| - 1;
      LegsFor(assets[..n], ds[..n]) + (if ds[n] > 0 then [LegOf(assets[n], ds[n])] else [])
  }

  /** The planner's answer. */
  function Plan(assets: seq<UserAsset>, amount: int): Result<seq<SplitLeg>, PlanError> {
    var sorted := ByPriority(assets);
    if amount <= 0 then Err(InvalidAmount)
    else if Sum(Usable(sorted)) < amount then Err(InsufficientFunds)
    else Ok(LegsFor(sorted, Draws(Usable(sorted), amount)))
  }

  /** What is left of the amount after the first `i` assets. */
  function Left(us: seq<int>, amount: int, i: nat): int
    requires i <= |us|
  {
    amount - Min(Sum(us[..i]), amount)
  }

  method BuildPlan(assets: seq<UserAsset>, requested: int64) returns (r: Result<seq<SplitLeg>, PlanError>)
    ensures r == Plan(assets, requested)
  {
    if requested <= 0 {
      return Err(InvalidAmount);
    }
    var sorted := ByPriority(assets);
    var plan: seq<SplitLeg> := [];
    var remaining: int := requested;
    ghost var us := Usable(sorted);
    ghost var ds := Draws(us, requested);
    var i := 0;
    while i < |sorted|
      invariant 0 <= i <= |sorted|
      invariant remaining == Left(us, requested, i)
      invariant 0 <= remaining <= requested
      invariant plan == LegsFor(sorted[..i], ds[..i])
    {
      if remaining <= 0 {
        break;
      }
      var asset := sorted[i];
      PlanStep(sorted, requested, i);
      i := i + 1;
      if !asset.isActive {
        continue;
      }
      var usable := asset.AvailableForLiquidation();
      if usable <= 0 {
        continue;
      }
      var deduct := usable;
      if deduct > remaining {
        deduct := remaining;
      }
      plan := plan + [LegOf(asset, deduct)];
      remaining := remaining - deduct;
    }
    PlanAfter(assets, requested, i);
    if remaining > 0 {
      return Err(InsufficientFunds);
    }
    return Ok(plan);
  }

  /** One iteration: asset `i` gives the smaller of what it has and what is left. */
  lemma PlanStep(sorted: seq<UserAsset>, amount: int, i: nat)
    requires i < |sorted| && amount > 0
    ensures var us := Usable(sorted);
            var ds := Draws(us, amount);
            var d := Min(us[i], Left(us, amount, i));
            && ds[i] == d && us[i] == sorted[i].AvailableForLiquidation()
            && Left(us, amount, i + 1) == Left(us, amount, i) - d
            && LegsFor(sorted[..i + 1], ds[..i + 1])
               == LegsFor(sorted[..i], ds[..i]) + (if d > 0 then [LegOf(sorted[i], d)] else [])
  {
    SumNext(Usable(sorted), i);
    LegsForNext(sorted, Draws(Usable(sorted), amount), i);
  }

  /** The answer once the loop has stopped after `i` assets. */
  lemma PlanAfter(assets: seq<UserAsset>, amount: int, i: nat)
    requires amount > 0 && i <= |ByPriority(assets)|
    ensures var sorted := ByPriority(assets);
            var us := Usable(sorted);
            && (Left(us, amount, i) <= 0 ==> Plan(assets, amount) == Ok(LegsFor(sorted[..i], Draws(us, amount)[..i])))
            && (i == |sorted| && Left(us, amount, i) > 0 ==> Plan(assets, amount) == Err(InsufficientFunds))
  {
    var sorted := ByPriority(assets);
    var us := Usable(sorted);
    assert us[..|us|] == us;
    if Left(us, amount, i) <= 0 {
      SumGrows(us, i, |us|);
      NothingMore(sorted, amount, i);
    }
  }

  lemma LegsForNext(assets: seq<UserAsset>, ds: seq<int>, i: nat)
    requires |assets| == |ds| && i < |assets|
    ensures LegsFor(assets[..i + 1], ds[..i + 1])
            == LegsFor(assets[..i], ds[..i]) + (if ds[i] > 0 then [LegOf(assets[i], ds[i])] else [])
  {
    assert assets[..i + 1][..i] == assets[..i] && ds[..i + 1][..i] == ds[..i];
  }

  /** Once the amount is covered, the remaining assets give nothing. */
  lemma {:induction false} NothingMore(assets: seq<UserAsset>, amount: int, i: nat)
    requires i <= |assets| && amount > 0 && Sum(Usable(assets)[..i]) >= amount
    ensures LegsFor(assets, Draws(Usable(assets), amount)) == LegsFor(assets[..i], Draws(Usable(assets), amount)[..i])
    decreases |assets| - i
  {
    var us := Usable(assets);
    var ds := Draws(us, amount);
    if i < |assets| {
      SumNext(us, i);
      LegsForNext(assets, ds, i);
      NothingMore(assets, amount, i + 1);
    } else {
      assert assets[..i] == assets && ds[..i] == ds;
    }
  }

  // ---- greedy allocation --------------------------------------------------------

  ghost predicate NonNegative(xs: seq<int>) {
    forall i :: 0 <= i < |xs| ==> xs[i] >= 0
  }

  /** Greedy draws exhaust each leading group of sources or cover the amount, whichever comes first. */
  lemma {:induction false} DrawnByPrefix(us: seq<int>, amount: int, k: nat)
    requires NonNegative(us) && amount >= 0 && k <= |us|
    ensures Sum(Draws(us, amount)[..k]) == Min(Sum(us[..k]), amount)
    decreases k
  {
    if k > 0 {
      DrawnByPrefix(us, amount, k - 1);
      SumNext(us, k - 1);
      SumNext(Draws(us, amount), k - 1);
    }
  }

  lemma DrawWithin(us: seq<int>, amount: int, i: nat)
    requires NonNegative(us) && amount >= 0 && i < |us|
    ensures 0 <= Draws(us, amount)[i] <= us[i]
  {
  }

  lemma {:induction false} DrawnTotal(us: seq<int>, amount: int)
    requires NonNegative(us) && amount >= 0
    ensures Sum(Draws(us, amount)) == Min(Sum(us), amount)
  {
    var ds := Draws(us, amount);
    DrawnByPrefix(us, amount, |us|);
    assert us[..|us|] == us && ds[..|ds|] == ds;
  }

  /** Every source before the last one drawn on is drained. */
  lemma DrainedBefore(us: seq<int>, amount: int, i: nat, j: nat)
    requires NonNegative(us) && amount > 0 && i < j < |us| && Draws(us, amount)[j] > 0
    ensures Draws(us, amount)[i] == us[i]
  {
    SumGrows(us, i + 1, j);
    SumGrows(us, i, i + 1);
    SumNext(us, i);
  }

  /** A way of drawing the amount from the sources within their limits. */
  ghost predicate Feasible(us: seq<int>, xs: seq<int>, amount: int) {
    |xs| == |us| && Sum(xs) == amount && forall i :: 0 <= i < |us| ==> 0 <= xs[i] <= us[i]
  }

  lemma {:induction false} SumMonotone(xs: seq<int>, us: seq<int>)
    requires |xs| == |us| && forall i :: 0 <= i < |us| ==> xs[i] <= us[i]
    ensures Sum(xs) <= Sum(us)
  {
    if us != [] {
      SumMonotone(xs[..|xs| - 1], us[..|us| - 1]);
    }
  }

  /** Among all feasible allocations, the greedy one draws the most from every leading group of sources. */
  lemma GreedyDominates(us: seq<int>, xs: seq<int>, amount: int, k: nat)
    requires NonNegative(us) && amount >= 0 && Feasible(us, xs, amount) && k <= |us|
    ensures Sum(xs[..k]) <= Sum(Draws(us, amount)[..k])
  {
    DrawnByPrefix(us, amount, k);
    SumMonotone(xs[..k], us[..k]);
    SumGrows(xs, k, |xs|);
    assert xs[..|xs|] == xs;
  }

  /** Total cost of an allocation at a price per unit for each source. */
  function Cost(xs: seq<int>, prices: seq<int>): int
    requires |xs| == |prices|
  {
    if xs == [] then 0 else Cost(xs[..|xs| - 1], prices[..|xs| - 1]) + xs[|xs| - 1] * prices[|xs| - 1]
  }

  ghost predicate NonDecreasing(prices: seq<int>) {
    forall i, j :: 0 <= i < j < |prices| ==> prices[i] <= prices[j]
  }

  ghost predicate Dominates(ds: seq<int>, xs: seq<int>)
    requires |ds| == |xs|
  {
    forall k :: 0 <= k <= |ds| ==> Sum(xs[..k]) <= Sum(ds[..k])
  }

  lemma DominatesPrefix(ds: seq<int>, xs: seq<int>, n: nat)
    requires |ds| == |xs| && Dominates(ds, xs) && n <= |ds|
    ensures Dominates(ds[..n], xs[..n])
    ensures Sum(xs[..n]) <= Sum(ds[..n])
  {
    forall k | 0 <= k <= n ensures Sum(xs[..n][..k]) <= Sum(ds[..n][..k]) {
      assert xs[..n][..k] == xs[..k] && ds[..n][..k] == ds[..k];
    }
  }

  /** Summation by parts: with dominated prefix sums, the difference in cost is at most the top price times the
      difference in totals. */
  lemma {:induction false} DominatedCost(ds: seq<int>, xs: seq<int>, prices: seq<int>, top: int)
    requires |ds| == |xs| == |prices| && NonDecreasing(prices) && Dominates(ds, xs)
    requires forall i :: 0 <= i < |prices| ==> prices[i] <= top
    ensures Cost(ds, prices) - Cost(xs, prices) <= top * (Sum(ds) - Sum(xs))
  {
    if ds != [] {
      var n := |ds| - 1;
      DominatesPrefix(ds, xs, n);
      DominatesPrefix(ds, xs, n + 1);
      assert ds[..n + 1] == ds && xs[..n + 1] == xs;
      DominatedCost(ds[..n], xs[..n], prices[..n], prices[n]);
      CostStep(Cost(ds[..n], prices[..n]), Cost(xs[..n], prices[..n]), Sum(ds[..n]), Sum(xs[..n]), ds[n], xs[n], prices[n], top);
    }
  }

  lemma CostStep(cd: int, cx: int, sd: int, sx: int, d: int, x: int, p: int, top: int)
    requires cd - cx <= p * (sd - sx) && p <= top && sx + x <= sd + d
    ensures (cd + d * p) - (cx + x * p) <= top * ((sd + d) - (sx + x))
  {
    var gap := (sd + d) - (sx + x);
    assert p * (sd - sx) + d * p - x * p == p * gap;
    assert p * gap <= top * gap;
  }

  /** The greedy allocation is cheapest under every price that does not decrease along the order. */
  lemma {:induction false} GreedyIsCheapest(us: seq<int>, xs: seq<int>, amount: int, prices: seq<int>)
    requires NonNegative(us) && amount >= 0 && Feasible(us, xs, amount)
    requires |prices| == |us| && NonDecreasing(prices)
    ensures Cost(Draws(us, amount), prices) <= Cost(xs, prices)
  {
    var ds := Draws(us, amount);
    forall k | 0 <= k <= |ds| ensures Sum(xs[..k]) <= Sum(ds[..k]) {
      GreedyDominates(us, xs, amount, k);
    }
    DrawnTotal(us, amount);
    SumMonotone(xs, us);
    var top := if us == [] then 0 else prices[|us| - 1];
    DominatedCost(ds, xs, prices, top);
    assert top * (Sum(ds) - Sum(xs)) == top * 0;
  }

  // ---- what a plan is ----------------------------------------------------------------

  lemma UsableConcat(a: seq<UserAsset>, b: seq<UserAsset>)
    ensures Sum(Usable(a + b)) == Sum(Usable(a)) + Sum(Usable(b))
  {
    SumConcat(Usable(a), Usable(b));
    assert Usable(a + b) == Usable(a) + Usable(b);
  }

  /** The order of the assets does not change what they can contribute together. */
  lemma {:induction false} UsableTotal(a: seq<UserAsset>, b: seq<UserAsset>)
    requires multiset(a) == multiset(b)
    ensures Sum(Usable(a)) == Sum(Usable(b))
    decreases |a|
  {
    if a == [] {
      assert |multiset(b)| == 0;
    } else {
      var i, rest := TakeFirst(a, b);
      UsableTotal(a[1..], rest);
      UsableConcat([a[0]], a[1..]);
      UsableInsert(b[..i], a[0], b[i + 1..]);
      assert a == [a[0]] + a[1..];
    }
  }

  lemma UsableInsert(pre: seq<UserAsset>, a: UserAsset, post: seq<UserAsset>)
    ensures Sum(Usable(pre + ([a] + post))) == Sum(Usable(pre + post)) + Sum(Usable([a]))
  {
    UsableConcat(pre, [a] + post);
    UsableConcat([a], post);
    UsableConcat(pre, post);
  }

  /** A positive request is planned exactly when the assets' usable balances together cover it. */
  lemma PlanIsComplete(assets: seq<UserAsset>, amount: int)
    ensures Plan(assets, amount).Ok? <==> amount > 0 && Sum(Usable(assets)) >= amount
    ensures Plan(assets, amount) == Err(InvalidAmount) <==> amount <= 0
    ensures Plan(assets, amount) == Err(InsufficientFunds) <==> amount > 0 && Sum(Usable(assets)) < amount
  {
    UsableTotal(ByPriority(assets), assets);
  }

  /** The positions drawn on, in ascending order. */
  function Positions(ds: seq<int>): seq<nat> {
    if ds == [] then []
    else Positions(ds[..|ds| - 1]) + (if ds[|ds| - 1] > 0 then [|ds| - 1] else [])
  }

  lemma {:induction false} PositionsAscend(ds: seq<int>)
    ensures forall k :: 0 <= k < |Positions(ds)| ==> Positions(ds)[k] < |ds| && ds[Positions(ds)[k]] > 0
    ensures forall j, k :: 0 <= j < k < |Positions(ds)| ==> Positions(ds)[j] < Positions(ds)[k]
  {
    if ds != [] {
      PositionsAscend(ds[..|ds| - 1]);
    }
  }

  lemma {:induction false} PositionsComplete(ds: seq<int>, i: nat) returns (k: nat)
    requires i < |ds| && ds[i] > 0
    ensures k < |Positions(ds)| && Positions(ds)[k] == i
  {
    var n := |ds| - 1;
    if i < n {
      k := PositionsComplete(ds[..n], i);
    } else {
      k := |Positions(ds[..n])|;
    }
  }

  lemma {:induction false} LegCount(assets: seq<UserAsset>, ds: seq<int>)
    requires |assets| == |ds|
    ensures |LegsFor(assets, ds)| == |Positions(ds)|
  {
    if ds != [] {
      LegCount(assets[..|ds| - 1], ds[..|ds| - 1]);
    }
  }

  lemma {:induction false} LegAtPosition(assets: seq<UserAsset>, ds: seq<int>, k: nat)
    requires |assets| == |ds| && k < |Positions(ds)|
    ensures k < |LegsFor(assets, ds)|
    ensures var i := Positions(ds)[k]; i < |ds| && LegsFor(assets, ds)[k] == LegOf(assets[i], ds[i])
  {
    var n := |ds| - 1;
    LegCount(assets[..n], ds[..n]);
    if k < |Positions(ds[..n])| {
      LegAtPosition(assets[..n], ds[..n], k);
    }
  }

  /** Leg `k` is the leg of the asset at position `k` of those drawn on, for the amount drawn. */
  lemma {:induction false} LegsAtPositions(assets: seq<UserAsset>, ds: seq<int>)
    requires |assets| == |ds|
    ensures |LegsFor(assets, ds)| == |Positions(ds)|
    ensures forall k :: 0 <= k < |Positions(ds)| ==>
              Positions(ds)[k] < |ds| && LegsFor(assets, ds)[k] == LegOf(assets[Positions(ds)[k]], ds[Positions(ds)[k]])
  {
    LegCount(assets, ds);
    forall k | 0 <= k < |Positions(ds)|
      ensures Positions(ds)[k] < |ds| && LegsFor(assets, ds)[k] == LegOf(assets[Positions(ds)[k]], ds[Positions(ds)[k]])
    {
      LegAtPosition(assets, ds, k);
    }
  }

  lemma {:induction false} LegsAmount(assets: seq<UserAsset>, ds: seq<int>)
    requires |assets| == |ds| && NonNegative(ds)
    ensures Amount(LegsFor(assets, ds)) == Sum(ds)
  {
    if ds != [] {
      var n := |ds| - 1;
      var before := LegsFor(assets[..n], ds[..n]);
      LegsAmount(assets[..n], ds[..n]);
      if ds[n] > 0 {
        assert (before + [LegOf(assets[n], ds[n])])[..|before|] == before;
      } else {
        assert before + [] == before;
      }
    }
  }

  /** Leg `k` of the plan draws on the asset at position `at[k]` of the stable priority order. */
  ghost predicate ExactPlan(sorted: seq<UserAsset>, legs: seq<SplitLeg>, at: seq<nat>, amount: int) {
    && |at| == |legs| && Amount(legs) == amount
    && (forall k :: 0 <= k < |legs| ==>
          && at[k] < |sorted| && legs[k] == LegOf(sorted[at[k]], legs[k].amount)
          && 0 < legs[k].amount <= sorted[at[k]].AvailableForLiquidation())
    && (forall j, k :: 0 <= j < k < |legs| ==> at[j] < at[k])
    && (forall i, k :: 0 <= k < |legs| && 0 <= i < at[k] ==> Drained(sorted, legs, at, i, k))
  }

  /** The asset at position `i` has nothing to give, or gives all of it in a leg before `k`. */
  ghost predicate Drained(sorted: seq<UserAsset>, legs: seq<SplitLeg>, at: seq<nat>, i: nat, k: nat)
    requires i < |sorted| && k < |legs| == |at|
  {
    sorted[i].AvailableForLiquidation() == 0
    || exists j :: 0 <= j < k && at[j] == i && legs[j].amount == sorted[i].AvailableForLiquidation()
  }

  lemma {:induction false} EarlierDrained(sorted: seq<UserAsset>, amount: int, i: nat, k: nat)
    requires amount > 0
    requires var ds := Draws(Usable(sorted), amount); k < |Positions(ds)| && i < Positions(ds)[k] < |ds|
    ensures var ds := Draws(Usable(sorted), amount);
            |LegsFor(sorted, ds)| == |Positions(ds)| && Drained(sorted, LegsFor(sorted, ds), Positions(ds), i, k)
  {
    var us := Usable(sorted);
    var ds := Draws(us, amount);
    PositionsAscend(ds);
    LegsAtPositions(sorted, ds);
    DrainedBefore(us, amount, i, Positions(ds)[k]);
    if us[i] > 0 {
      var j := PositionsComplete(ds, i);
      assert j < k;
    }
  }

  lemma {:induction false} GreedyPlanIsExact(sorted: seq<UserAsset>, amount: int)
    requires amount > 0 && Sum(Usable(sorted)) >= amount
    ensures var ds := Draws(Usable(sorted), amount);
            ExactPlan(sorted, LegsFor(sorted, ds), Positions(ds), amount)
  {
    var us := Usable(sorted);
    var ds := Draws(us, amount);
    DrawnTotal(us, amount);
    forall i | 0 <= i < |us| ensures 0 <= ds[i] <= us[i] { DrawWithin(us, amount, i); }
    PositionsAscend(ds);
    LegsAtPositions(sorted, ds);
    LegsAmount(sorted, ds);
    forall i, k | 0 <= k < |Positions(ds)| && 0 <= i < Positions(ds)[k]
      ensures Drained(sorted, LegsFor(sorted, ds), Positions(ds), i, k)
    {
      EarlierDrained(sorted, amount, i, k);
    }
  }

  /** A plan draws exactly the requested amount, by positive legs in stable priority order, each within what its asset can
      contribute; every usable asset before a leg is drained, so only the last leg may be partial. */
  lemma PlanIsExact(assets: seq<UserAsset>, amount: int) returns (at: seq<nat>)
    requires Plan(assets, amount).Ok?
    ensures IsStableSortOf(PriorityRank, assets, ByPriority(assets))
    ensures ExactPlan(ByPriority(assets), Plan(assets, amount).value, at, amount)
  {
    SortIsStable(PriorityRank, assets);
    GreedyPlanIsExact(ByPriority(assets), amount);
    at := Positions(Draws(Usable(ByPriority(assets)), amount));
  }

  // ---- the order of the legs, in terms of the assets as given --------------------------------

  /** Asset `i` comes before asset `j`: it has the smaller priority, or the same and is listed earlier. */
  predicate Precedes(assets: seq<UserAsset>, i: nat, j: nat)
    requires i < |assets| && j < |assets|
  {
    assets[i].priority < assets[j].priority || (assets[i].priority == assets[j].priority && i < j)
  }

  /** Asset `i` has nothing to give, or gives all of it in a leg before `k`. */
  ghost predicate Emptied(assets: seq<UserAsset>, legs: seq<SplitLeg>, at: seq<nat>, i: nat, k: nat)
    requires i < |assets| && k < |legs| == |at|
  {
    assets[i].AvailableForLiquidation() == 0
    || exists j :: 0 <= j < k && at[j] == i && legs[j].amount == assets[i].AvailableForLiquidation()
  }

  /** A leg as planned: identified by its asset, pending, without a bank reference or an error. */
  predicate PlannedFor(leg: SplitLeg, a: UserAsset) {
    && leg.sourceID == a.id && leg.provider == a.provider && leg.assetType == a.assetType
    && leg.status == Pending && leg.externalRef == "" && leg.error == None
    && 0 < leg.amount <= a.AvailableForLiquidation()
  }

  lemma PositionsOrdered(assets: seq<UserAsset>, pos: seq<nat>, a: nat, b: nat)
    requires Ordered(PriorityRank, assets, ByPriority(assets), pos) && a < |assets| && b < |assets|
    ensures a < b <==> Precedes(assets, pos[a], pos[b])
  {
    var sorted := ByPriority(assets);
    assert sorted[a] == assets[pos[a]] && sorted[b] == assets[pos[b]];
    if b < a {
      assert InOrder(PriorityRank(sorted[b]), pos[b], PriorityRank(sorted[a]), pos[a]);
    } else if a < b {
      assert InOrder(PriorityRank(sorted[a]), pos[a], PriorityRank(sorted[b]), pos[b]);
    }
  }

  lemma EmptiedBefore(assets: seq<UserAsset>, legs: seq<SplitLeg>, pos: seq<nat>, at: seq<nat>, from: seq<nat>, amount: int, i: nat, k: nat)
    requires Ordered(PriorityRank, assets, ByPriority(assets), pos)
    requires ExactPlan(ByPriority(assets), legs, at, amount) && k < |legs| == |from|
    requires forall j :: 0 <= j < |legs| ==> from[j] == pos[at[j]]
    requires i < |assets| && from[k] < |assets| && Precedes(assets, i, from[k])
    ensures Emptied(assets, legs, from, i, k)
  {
    assert i in pos;
    var a :| 0 <= a < |pos| && pos[a] == i;
    PositionsOrdered(assets, pos, a, at[k]);
    assert Drained(ByPriority(assets), legs, at, a, k);
    assert ByPriority(assets)[a] == assets[i];
    if j :| 0 <= j < k && at[j] == a && legs[j].amount == assets[i].AvailableForLiquidation() {
      assert from[j] == i;
    }
  }

  /** The legs of a plan and the positions of their assets in the list given: each leg is planned for its asset, the assets
      follow one another by priority and then by position, every asset that comes before one drawn on is emptied, and the
      amounts add up to the request. */
  lemma PlanFollowsPriority(assets: seq<UserAsset>, amount: int) returns (from: seq<nat>)
    requires Plan(assets, amount).Ok?
    ensures var legs := Plan(assets, amount).value;
            && |from| == |legs| && Amount(legs) == amount
            && (forall k :: 0 <= k < |legs| ==> from[k] < |assets| && PlannedFor(legs[k], assets[from[k]]))
            && (forall j, k :: 0 <= j < k < |legs| ==> Precedes(assets, from[j], from[k]))
            && (forall i, k :: 0 <= i < |assets| && 0 <= k < |legs| && Precedes(assets, i, from[k]) ==> Emptied(assets, legs, from, i, k))
  {
    var legs := Plan(assets, amount).value;
    var at := PlanIsExact(assets, amount);
    var pos := SortPositions(PriorityRank, assets);
    from := seq(|legs|, k requires 0 <= k < |legs| => pos[at[k]]);
    forall k | 0 <= k < |legs| ensures from[k] < |assets| && PlannedFor(legs[k], assets[from[k]]) {
      assert legs[k] == LegOf(ByPriority(assets)[at[k]], legs[k].amount);
    }
    forall j, k | 0 <= j < k < |legs| ensures Precedes(assets, from[j], from[k]) {
      PositionsOrdered(assets, pos, at[j], at[k]);
    }
    forall i, k | 0 <= i < |assets| && 0 <= k < |legs| && Precedes(assets, i, from[k]) ensures Emptied(assets, legs, from, i, k) {
      EmptiedBefore(assets, legs, pos, at, from, amount, i, k);
    }
  }

  // ---- safety thresholds ----------------------------------------------------------------

  /** Every asset drawn on keeps at least its safety threshold. */
  ghost predicate KeepsThresholds(sorted: seq<UserAsset>, legs: seq<SplitLeg>, at: seq<nat>)
    requires |at| == |legs| && forall k :: 0 <= k < |at| ==> at[k] < |sorted|
  {
    forall k :: 0 <= k < |legs| ==> sorted[at[k]].available - legs[k].amount >= sorted[at[k]].threshold
  }

  /** No asset drawn on has a subtraction that underflows. */
  ghost predicate NoneUnderflows(sorted: seq<UserAsset>, at: seq<nat>)
    requires forall k :: 0 <= k < |at| ==> at[k] < |sorted|
  {
    forall k :: 0 <= k < |at| ==> !Underflows(sorted[at[k]])
  }

  /** An asset is drawn on exactly when it has something to give and the assets before it do not cover the amount. */
  lemma DrawnIff(us: seq<int>, amount: int, i: nat)
    requires NonNegative(us) && amount > 0 && i < |us|
    ensures Draws(us, amount)[i] > 0 <==> us[i] > 0 && Sum(us[..i]) < amount
  {
  }

  lemma LegIsSafe(sorted: seq<UserAsset>, legs: seq<SplitLeg>, at: seq<nat>, amount: int, k: nat)
    requires ExactPlan(sorted, legs, at, amount) && k < |legs|
    ensures sorted[at[k]].available - legs[k].amount >= sorted[at[k]].threshold <==> !Underflows(sorted[at[k]])
  {
    ThresholdIsSafe(sorted[at[k]], legs[k].amount);
  }

  lemma UnsafeIsDrawn(sorted: seq<UserAsset>, amount: int, i: nat) returns (k: nat)
    requires amount > 0 && i < |sorted| && sorted[i].isActive && Underflows(sorted[i]) && Sum(Usable(sorted)[..i]) < amount
    ensures k < |Positions(Draws(Usable(sorted), amount))| && Positions(Draws(Usable(sorted), amount))[k] == i
  {
    ThresholdIsSafe(sorted[i], 0);
    DrawnIff(Usable(sorted), amount, i);
    k := PositionsComplete(Draws(Usable(sorted), amount), i);
  }

  lemma LegsAreSafeIff(sorted: seq<UserAsset>, legs: seq<SplitLeg>, at: seq<nat>, amount: int)
    requires ExactPlan(sorted, legs, at, amount)
    ensures KeepsThresholds(sorted, legs, at) <==> NoneUnderflows(sorted, at)
  {
    forall k | 0 <= k < |legs|
      ensures sorted[at[k]].available - legs[k].amount >= sorted[at[k]].threshold <==> !Underflows(sorted[at[k]])
    {
      LegIsSafe(sorted, legs, at, amount, k);
    }
  }

  lemma SafeWhenReached(sorted: seq<UserAsset>, amount: int)
    requires amount > 0
    ensures var at := Positions(Draws(Usable(sorted), amount));
            && (forall k :: 0 <= k < |at| ==> at[k] < |sorted|)
            && (Safe(sorted, amount) <==> NoneUnderflows(sorted, at))
  {
    var ds := Draws(Usable(sorted), amount);
    var at := Positions(ds);
    PositionsAscend(ds);
    if Safe(sorted, amount) {
      forall k | 0 <= k < |at| ensures !Underflows(sorted[at[k]]) {
        DrawnIff(Usable(sorted), amount, at[k]);
      }
    } else {
      var i :| 0 <= i < |sorted| && sorted[i].isActive && Underflows(sorted[i]) && Sum(Usable(sorted)[..i]) < amount;
      var k := UnsafeIsDrawn(sorted, amount, i);
    }
  }

  /** No active asset whose subtraction underflows is reached: those before it, in priority order, cover the amount. */
  ghost predicate Safe(sorted: seq<UserAsset>, amount: int) {
    forall i :: 0 <= i < |sorted| && sorted[i].isActive && Underflows(sorted[i]) ==> Sum(Usable(sorted)[..i]) >= amount
  }

  lemma GreedyIsSafeIff(sorted: seq<UserAsset>, amount: int) returns (at: seq<nat>)
    requires amount > 0 && Sum(Usable(sorted)) >= amount
    ensures var legs := LegsFor(sorted, Draws(Usable(sorted), amount));
            && ExactPlan(sorted, legs, at, amount)
            && (KeepsThresholds(sorted, legs, at) <==> NoneUnderflows(sorted, at))
            && (KeepsThresholds(sorted, legs, at) <==> Safe(sorted, amount))
  {
    var ds := Draws(Usable(sorted), amount);
    at := Positions(ds);
    GreedyPlanIsExact(sorted, amount);
    SafeWhenReached(sorted, amount);
    LegsAreSafeIff(sorted, LegsFor(sorted, ds), at, amount);
  }

  /** A plan pushes no asset below its safety threshold exactly when no asset drawn on underflows; which can be told
      beforehand, from the assets and the amount alone. */
  lemma PlanKeepsThresholds(assets: seq<UserAsset>, amount: int) returns (at: seq<nat>)
    requires Plan(assets, amount).Ok?
    ensures ExactPlan(ByPriority(assets), Plan(assets, amount).value, at, amount)
    ensures KeepsThresholds(ByPriority(assets), Plan(assets, amount).value, at)
        <==> NoneUnderflows(ByPriority(assets), at)
    ensures KeepsThresholds(ByPriority(assets), Plan(assets, amount).value, at) <==> Safe(ByPriority(assets), amount)
  {
    at := GreedyIsSafeIff(ByPriority(assets), amount);
  }

  /** An account overdrawn by 2^63 with a threshold of one unit: the subtraction wraps around to the largest number. */
  function Overdrawn(id: UUID): UserAsset {
    UserAsset(id, "bank", CurrentAccount, MIN_INT64, 0, true, 1)
  }

  /** A plan that draws on an account far below its threshold. */
  lemma UnderflowIsPlanned(id: UUID, amount: int64)
    requires amount > 0
    ensures Underflows(Overdrawn(id)) && Overdrawn(id).AvailableForLiquidation() == MAX_INT64
    ensures Plan([Overdrawn(id)], amount) == Ok([LegOf(Overdrawn(id), amount)])
    ensures Overdrawn(id).available - amount < Overdrawn(id).threshold
  {
    var assets, us := [Overdrawn(id)], Usable([Overdrawn(id)]);
    assert us == [MAX_INT64 as int] && us[..0] == [];
    PlanIsComplete(assets, amount);
    var at := PlanIsExact(assets, amount);
    SingletonPlan(id, ByPriority(assets), Plan(assets, amount).value, at, amount);
  }

  lemma {:induction false} PositionAtLeast(sorted: seq<UserAsset>, legs: seq<SplitLeg>, at: seq<nat>, amount: int, k: nat)
    requires ExactPlan(sorted, legs, at, amount) && k < |legs|
    ensures at[k] >= k
  {
    if k > 0 {
      PositionAtLeast(sorted, legs, at, amount, k - 1);
    }
  }

  /** A plan has at most one leg for each asset. */
  lemma PlanIsShort(sorted: seq<UserAsset>, legs: seq<SplitLeg>, at: seq<nat>, amount: int)
    requires ExactPlan(sorted, legs, at, amount)
    ensures |legs| <= |sorted|
  {
    if legs != [] {
      PositionAtLeast(sorted, legs, at, amount, |legs| - 1);
    }
  }

  lemma SingletonPlan(id: UUID, sorted: seq<UserAsset>, legs: seq<SplitLeg>, at: seq<nat>, amount: int)
    requires IsStableSortOf(PriorityRank, [Overdrawn(id)], sorted) && ExactPlan(sorted, legs, at, amount) && amount > 0
    ensures legs == [LegOf(Overdrawn(id), amount)]
  {
    PlanIsShort(sorted, legs, at, amount);
    assert multiset(sorted) == multiset{Overdrawn(id)} && |multiset(sorted)| == |sorted|;
    assert |sorted| == 1 && sorted[0] in multiset(sorted);
    assert Amount(legs) == Amount(legs[..|legs| - 1]) + legs[|legs| - 1].amount;
    assert forall k :: 0 <= k < |legs| ==> at[k] == 0;
    assert legs[..0] == [] && legs[0].amount == amount;
    assert legs == [legs[0]];
  }

  // ---- sources ------------------------------------------------------------------------

  ghost predicate DistinctIds(assets: seq<UserAsset>) {
    forall i, j :: 0 <= i < j < |assets| ==> assets[i].id != assets[j].id
  }

  /** Assets with distinct identifiers give legs with distinct sources. */
  lemma PlanSourcesDistinct(assets: seq<UserAsset>, amount: int)
    requires Plan(assets, amount).Ok? && DistinctIds(assets)
    ensures var legs := Plan(assets, amount).value;
            forall i, j :: 0 <= i < j < |legs| ==> legs[i].sourceID != legs[j].sourceID
  {
    var at := PlanIsExact(assets, amount);
    StayDistinct((a: UserAsset) => a.id, assets, ByPriority(assets));
    assert DistinctIds(ByPriority(assets));
  }
}
