/** The income estimate in terms of the totals that the BMM loop saw: what each
    stretch of blocks earned, and the median over them. */
module FeeIncome {
  import opened Prelude
  import opened FeeHistory

  // ---------------------------------------------------------------- one stretch

  /** What the blocks after `a` up to `b` earned; a total that fell counts as none. */
  ghost function EarnedBetween(a: Point, b: Point): nat { Max(b.total - a.total, 0) }

  lemma {:induction false} QuotientBounds(a: nat, d: nat)
    requires d > 0
    ensures (a / d) * d <= a < (a / d + 1) * d
  {
    assert a == (a / d) * d + a % d;
  }

  lemma {:induction false} TimesMonotone(x: int, y: int, d: nat)
    requires x <= y
    ensures x * d <= y * d
  {
  }

  /** The rate of a stretch is its income per block, rounded down. */
  lemma {:induction false} RateIsIncomePerBlock(a: Point, b: Point)
    requires a.height < b.height
    ensures var r := RateBetween(a, b);
            && r.blocks == b.height - a.height
            && r.rate * r.blocks <= EarnedBetween(a, b) < (r.rate + 1) * r.blocks
  {
    QuotientBounds(EarnedBetween(a, b), b.height - a.height);
  }

  /** A bound on the rate is a bound on what the blocks earned. */
  lemma {:induction false} RateBounds(a: Point, b: Point, x: nat)
    requires a.height < b.height
    ensures x <= RateBetween(a, b).rate <==> x * (b.height - a.height) <= EarnedBetween(a, b)
  {
    var r := RateBetween(a, b);
    RateIsIncomePerBlock(a, b);
    hide RateBetween;
    if x <= r.rate {
      TimesMonotone(x, r.rate, r.blocks);
    } else {
      TimesMonotone(r.rate + 1, x, r.blocks);
    }
  }

  // --------------------------------------------------------------- all stretches

  ghost function Weighted(rates: seq<Rate>): nat {
    if rates == [] then 0 else Weighted(rates[..|rates| - 1]) + rates[|rates| - 1].rate * rates[|rates| - 1].blocks
  }

  ghost predicate NeverFalls(points: seq<Point>) {
    forall i :: 0 < i < |points| ==> points[i - 1].total <= points[i].total
  }

  lemma {:induction false} RatesStep(points: seq<Point>)
    requires Ascends(points) && |points| >= 2
    ensures var n := |points| - 1;
            Rates(points) == Rates(points[..n]) + [RateBetween(points[n - 1], points[n])]
  {
  }

  lemma {:induction false} WeightedMore(rates: seq<Rate>, last: Rate)
    ensures Weighted(rates + [last]) == Weighted(rates) + last.rate * last.blocks
  {
    assert (rates + [last])[..|rates|] == rates;
  }

  /** While the totals do not fall, the rates times their blocks are what was
      earned, less than one lamport short for each block. */
  lemma {:induction false} RatesAddUp(points: seq<Point>)
    requires Ascends(points) && NeverFalls(points) && points != []
    ensures var earned := points[|points| - 1].total - points[0].total;
            Weighted(Rates(points)) <= earned <= Weighted(Rates(points)) + AllBlocks(Rates(points))
    ensures |points| >= 2 ==>
              points[|points| - 1].total - points[0].total < Weighted(Rates(points)) + AllBlocks(Rates(points))
  {
    hide AllBlocks; hide Weighted; hide RateBetween;
    if |points| == 1 {
      NoRates(points);
    } else {
      var n := |points| - 1;
      var last := RateBetween(points[n - 1], points[n]);
      RatesStep(points);
      hide Rates;
      RatesAddUp(points[..n]);
      RateIsIncomePerBlock(points[n - 1], points[n]);
      OneMoreTimes(last.rate, last.blocks);
      WeightedMore(Rates(points[..n]), last);
      AllBlocksAppend(Rates(points[..n]), last);
    }
  }

  lemma {:induction false} OneMoreTimes(rate: nat, blocks: nat)
    ensures (rate + 1) * blocks == rate * blocks + blocks
  {
  }

  lemma {:induction false} NoRates(points: seq<Point>)
    requires Ascends(points) && |points| <= 1
    ensures Rates(points) == [] && Weighted(Rates(points)) == 0 && AllBlocks(Rates(points)) == 0
  {
  }

  /** The blocks of the stretches that earned at least `low` a block and less
      than `high + 1`. */
  ghost function BlocksEarning(points: seq<Point>, low: nat, high: int): nat
    requires Ascends(points)
  {
    if |points| < 2 then 0
    else
      var a, b := points[|points| - 2], points[|points| - 1];
      var blocks := b.height - a.height;
      BlocksEarning(points[..|points| - 1], low, high)
        + if low * blocks <= EarnedBetween(a, b) < (high + 1) * blocks then blocks else 0
  }

  lemma {:induction false} BlocksInMore(rates: seq<Rate>, last: Rate, low: int, high: int)
    ensures BlocksIn(rates + [last], low, high)
         == BlocksIn(rates, low, high) + if low <= last.rate <= high then last.blocks else 0
  {
    assert (rates + [last])[..|rates|] == rates;
  }

  lemma {:induction false} NothingIn(rates: seq<Rate>, low: int, high: int)
    requires rates == []
    ensures BlocksIn(rates, low, high) == 0
  {
  }

  lemma {:induction false} BlocksInAreEarning(points: seq<Point>, low: nat, high: int)
    requires Ascends(points) && high >= -1
    ensures BlocksIn(Rates(points), low, high) == BlocksEarning(points, low, high)
  {
    hide BlocksIn; hide RateBetween;
    if |points| < 2 {
      NothingIn(Rates(points), low, high);
    } else {
      var n := |points| - 1;
      RatesStep(points);
      hide Rates;
      BlocksInAreEarning(points[..n], low, high);
      BlocksInMore(Rates(points[..n]), RateBetween(points[n - 1], points[n]), low, high);
      RateBounds(points[n - 1], points[n], low);
      RateBounds(points[n - 1], points[n], high + 1);
      RateIsIncomePerBlock(points[n - 1], points[n]);
    }
  }

  // ------------------------------------------------------------------ the window

  /** The newest height at least `span` blocks below the tip that has a total. */
  ghost predicate IsStart(m: Totals, tip: u32, span: nat, start: u32) {
    && start in m && start + span <= tip
    && forall k: u32 :: k in m && k + span <= tip ==> k <= start
  }

  /** The points of the window are the seen totals from the start to below the
      tip, and the total at the tip. */
  lemma {:induction false} WindowHoldsEveryTotal(m: Totals, tip: u32, earned: u64, start: u32, x: Point)
    requires start <= tip
    ensures x in SeenPoints(m, tip, earned, start) <==>
              x == Point(tip, earned) || (start <= x.height < tip && x.height in m && m[x.height] == x.total)
  {
    PointsHold(m, start, tip, x);
    hide Points;
  }

  lemma {:induction false} PointsHold(m: Totals, from: u32, end: u32, x: Point)
    ensures x in Points(m, from, end) <==> from <= x.height < end && x.height in m && m[x.height] == x.total
    decreases end
  {
    if end > from { PointsHold(m, from, end - 1, x); }
  }

  /** When there is an estimate, and which totals it looks at: those since the
      newest height at least `span` blocks below the tip. */
  lemma {:induction false} IncomeExistsIff(m: Totals, tip: u32, earned: u64, span: nat, r: Option<u64>)
    requires IsIncome(m, tip, earned, span, r)
    ensures r.Some? <==> exists start: u32 :: IsStart(m, tip, span, start) && start < tip
    ensures r.Some? ==>
              exists start: u32 :: IsStart(m, tip, span, start) && IsMedian(SeenRates(m, tip, earned, start), r.value)
  {
    hide IsMedian; hide SeenRates;
    var found := StartOf(m, tip, span);
    if found.Some? {
      assert IsStart(m, tip, span, found.value);
      if exists start: u32 :: IsStart(m, tip, span, start) && start < tip {
        var start: u32 :| IsStart(m, tip, span, start) && start < tip;
        assert start == found.value;
      }
    } else if exists start: u32 :: IsStart(m, tip, span, start) && start < tip {
      var start: u32 :| IsStart(m, tip, span, start) && start < tip;
      NewestIsNone(m, tip, span, start);
    }
  }

  lemma {:induction false} NewestIsNone(m: Totals, tip: u32, span: nat, start: u32)
    requires IsStart(m, tip, span, start)
    ensures StartOf(m, tip, span).Some?
  {
  }

  /** The estimate on the totals: the blocks of the stretches that earned less
      than it a block are under one half, and with those that earned less than
      one lamport more they are at least one half. */
  lemma {:induction false} IncomeIsTheMedianOfTheTotals(
    m: Totals, tip: u32, earned: u64, span: nat, r: Option<u64>, start: u32)
    requires IsIncome(m, tip, earned, span, r) && IsStart(m, tip, span, start) && start < tip
    ensures r.Some?
    ensures var points := SeenPoints(m, tip, earned, start);
            && 2 * BlocksEarning(points, 0, r.value - 1) < tip - start
            && 2 * BlocksEarning(points, 0, r.value) >= tip - start
  {
    hide BlocksIn; hide BlocksEarning; hide Rates; hide AllBlocks; hide SeenPoints;
    StartIs(m, tip, span, start);
    EveryBlockHasARate(m, tip, earned, start);
    BlocksInAreEarning(SeenPoints(m, tip, earned, start), 0, r.value - 1);
    BlocksInAreEarning(SeenPoints(m, tip, earned, start), 0, r.value);
  }

  lemma {:induction false} StartIs(m: Totals, tip: u32, span: nat, start: u32)
    requires IsStart(m, tip, span, start)
    ensures StartOf(m, tip, span) == Some(start)
  {
  }

  /** When the stretches with more than half of the blocks earned from `low` to
      `high` lamports a block, so says the estimate: the other stretches cannot
      move it out, whatever they earned. */
  lemma {:induction false} SteadyIncomeIsFound(
    m: Totals, tip: u32, earned: u64, span: nat, r: Option<u64>, start: u32, low: nat, high: nat)
    requires IsIncome(m, tip, earned, span, r) && IsStart(m, tip, span, start) && start < tip && low <= high
    requires 2 * BlocksEarning(SeenPoints(m, tip, earned, start), low, high) > tip - start
    ensures r.Some? && low <= r.value <= high
  {
    hide BlocksIn; hide BlocksEarning; hide Rates; hide AllBlocks; hide SeenPoints;
    StartIs(m, tip, span, start);
    EveryBlockHasARate(m, tip, earned, start);
    BlocksInAreEarning(SeenPoints(m, tip, earned, start), low, high);
    MajorityHoldsTheMedian(SeenRates(m, tip, earned, start), r.value, low, high);
  }

  lemma {:induction false} AllEarning(points: seq<Point>, f: nat)
    requires Ascends(points) && points != []
    requires forall i :: 0 < i < |points| ==> EarnsExactly(points, i, f)
    ensures BlocksEarning(points, f, f) == points[|points| - 1].height - points[0].height
  {
    if |points| >= 2 {
      var n := |points| - 1;
      assert EarnsExactly(points, n, f);
      forall i | 0 < i < n ensures EarnsExactly(points[..n], i, f) {
        assert EarnsExactly(points, i, f);
      }
      hide EarnsExactly;
      AllEarning(points[..n], f);
      StretchEarns(points, n, f);
      hide EarnedBetween;
    }
  }

  lemma {:induction false} StretchEarns(points: seq<Point>, i: nat, f: nat)
    requires Ascends(points) && 0 < i < |points| && EarnsExactly(points, i, f)
    ensures var blocks := points[i].height - points[i - 1].height;
            f * blocks <= EarnedBetween(points[i - 1], points[i]) < (f + 1) * blocks
  {
    var blocks: nat := points[i].height - points[i - 1].height;
    OneMoreTimes(f, blocks);
    assert f * blocks >= 0;
  }

  ghost predicate EarnsExactly(points: seq<Point>, i: nat, f: nat)
    requires 0 < i < |points|
  {
    points[i].total - points[i - 1].total == f * (points[i].height - points[i - 1].height)
  }

  /** When every stretch of the window earned exactly `f` a block, so says the
      estimate. */
  lemma {:induction false} ExactIncome(m: Totals, tip: u32, earned: u64, span: nat, r: Option<u64>, start: u32, f: nat)
    requires IsIncome(m, tip, earned, span, r) && IsStart(m, tip, span, start) && start < tip
    requires var points := SeenPoints(m, tip, earned, start);
             forall i :: 0 < i < |points| ==> EarnsExactly(points, i, f)
    ensures r == Some(f)
  {
    var points := SeenPoints(m, tip, earned, start);
    assert points[0].height == start && points[|points| - 1].height == tip;
    hide SeenPoints; hide EarnsExactly; hide IsIncome;
    AllEarning(points, f);
    SteadyIncomeIsFound(m, tip, earned, span, r, start, f, f);
  }
}
