/** What an eCash block earns in fees: a median over the running totals that the
    BMM loop saw (`FeeHistory`, daemon/src/bmm.rs). */
module FeeHistory {
  import opened Prelude

  /** The first total that the loop saw at each eCash height. */
  type Totals = map<u32, u64>

  /** The newest height at or below `height` that has a total. */
  function NewestAtMost(m: Totals, height: int): (r: Option<u32>)
    requires height <= U32_MAX
    ensures r.Some? ==> r.value in m && r.value <= height
    ensures forall k :: k in m && k <= height ==> r.Some? && k <= r.value
    decreases height
  {
    if height < 0 then None else if height in m then Some(height) else NewestAtMost(m, height - 1)
  }

  datatype Point = Point(height: u32, total: u64)

  /** The totals from height `from` to below `end`, lowest first. */
  function Points(m: Totals, from: u32, end: u32): (points: seq<Point>)
    ensures forall i :: 0 <= i < |points| ==>
              from <= points[i].height < end && points[i].height in m && m[points[i].height] == points[i].total
    ensures forall i, j :: 0 <= i < j < |points| ==> points[i].height < points[j].height
    ensures from in m && from < end ==> points != [] && points[0].height == from
    decreases end
  {
    if end <= from then []
    else
      var front := Points(m, from, end - 1);
      if end - 1 in m then front + [Point(end - 1, m[end - 1])] else front
  }

  /** The income per block of `blocks` blocks in a row. */
  datatype Rate = Rate(rate: u64, blocks: nat)

  ghost predicate Ascends(points: seq<Point>) {
    forall i, j :: 0 <= i < j < |points| ==> points[i].height < points[j].height
  }

  function RateBetween(a: Point, b: Point): Rate
    requires a.height < b.height
  {
    QuotientFits(SaturatingSub(b.total, a.total), b.height - a.height);
    Rate(SaturatingSub(b.total, a.total) / (b.height - a.height), b.height - a.height)
  }

  lemma {:induction false} TimesGrows(q: nat, d: nat)
    requires d > 0
    ensures q * d >= q
  {
  }

  lemma {:induction false} QuotientFits(a: u64, d: nat)
    requires d > 0
    ensures 0 <= a / d <= U64_MAX
  {
    var q, rest := a / d, a % d;
    assert a == q * d + rest;
    TimesGrows(q, d);
  }

  ghost function Rates(points: seq<Point>): seq<Rate>
    requires Ascends(points)
  {
    if |points| < 2 then []
    else Rates(points[..|points| - 1]) + [RateBetween(points[|points| - 2], points[|points| - 1])]
  }

  /** The blocks whose income per block is from `low` to `high`. */
  ghost function BlocksIn(rates: seq<Rate>, low: int, high: int): nat {
    if rates == [] then 0
    else
      var last := rates[|rates| - 1];
      BlocksIn(rates[..|rates| - 1], low, high) + if low <= last.rate <= high then last.blocks else 0
  }

  ghost function AllBlocks(rates: seq<Rate>): nat {
    if rates == [] then 0 else AllBlocks(rates[..|rates| - 1]) + rates[|rates| - 1].blocks
  }

  /** Less than half of the blocks earn less, and at least half earn no more. */
  ghost predicate IsMedian(rates: seq<Rate>, r: u64) {
    && 2 * BlocksIn(rates, 0, r - 1) < AllBlocks(rates)
    && 2 * BlocksIn(rates, 0, r) >= AllBlocks(rates)
  }

  // -------------------------------------------------------------------- sorting

  /** The order of pairs: by rate, then by blocks. */
  predicate Before(a: Rate, b: Rate) { a.rate < b.rate || (a.rate == b.rate && a.blocks <= b.blocks) }

  function Insert(sorted: seq<Rate>, x: Rate): seq<Rate> {
    if sorted == [] then [x]
    else
      var n := |sorted| - 1;
      if Before(sorted[n], x) then sorted + [x] else Insert(sorted[..n], x) + [sorted[n]]
  }

  function SortRates(rates: seq<Rate>): seq<Rate> {
    if rates == [] then [] else Insert(SortRates(rates[..|rates| - 1]), rates[|rates| - 1])
  }

  ghost predicate IsSorted(rates: seq<Rate>) {
    forall i, j :: 0 <= i < j < |rates| ==> rates[i].rate <= rates[j].rate
  }

  ghost predicate AtMost(rates: seq<Rate>, bound: u64) {
    forall i :: 0 <= i < |rates| ==> rates[i].rate <= bound
  }

  lemma {:induction false} AppendSorted(front: seq<Rate>, x: Rate)
    requires IsSorted(front) && AtMost(front, x.rate)
    ensures IsSorted(front + [x])
  {
  }

  lemma {:induction false} InsertAtMost(sorted: seq<Rate>, x: Rate, bound: u64)
    requires AtMost(sorted, bound) && x.rate <= bound
    ensures AtMost(Insert(sorted, x), bound)
    decreases |sorted|
  {
    if sorted != [] && !Before(sorted[|sorted| - 1], x) {
      InsertAtMost(sorted[..|sorted| - 1], x, bound);
    }
  }

  lemma {:induction false} InsertSorts(sorted: seq<Rate>, x: Rate)
    requires IsSorted(sorted)
    ensures IsSorted(Insert(sorted, x))
    decreases |sorted|
  {
    if sorted != [] {
      var n := |sorted| - 1;
      if Before(sorted[n], x) {
        assert AtMost(sorted, x.rate);
        AppendSorted(sorted, x);
      } else {
        InsertSorts(sorted[..n], x);
        assert AtMost(sorted[..n], sorted[n].rate);
        InsertAtMost(sorted[..n], x, sorted[n].rate);
        hide IsSorted; hide AtMost;
        AppendSorted(Insert(sorted[..n], x), sorted[n]);
      }
    }
  }

  lemma {:induction false} InsertCounts(sorted: seq<Rate>, x: Rate, low: int, high: int)
    ensures BlocksIn(Insert(sorted, x), low, high)
         == BlocksIn(sorted, low, high) + if low <= x.rate <= high then x.blocks else 0
    ensures AllBlocks(Insert(sorted, x)) == AllBlocks(sorted) + x.blocks
    decreases |sorted|
  {
    if sorted == [] {
      assert [x][..0] == [];
    } else {
      var n := |sorted| - 1;
      if Before(sorted[n], x) {
        assert (sorted + [x])[..n + 1] == sorted;
      } else {
        InsertCounts(sorted[..n], x, low, high);
        var front := Insert(sorted[..n], x);
        assert (front + [sorted[n]])[..|front|] == front;
      }
    }
  }

  lemma {:induction false} InsertPermutes(sorted: seq<Rate>, x: Rate)
    ensures multiset(Insert(sorted, x)) == multiset(sorted) + multiset{x}
    decreases |sorted|
  {
    if sorted != [] && !Before(sorted[|sorted| - 1], x) {
      var n := |sorted| - 1;
      InsertPermutes(sorted[..n], x);
      assert sorted == sorted[..n] + [sorted[n]];
    }
  }

  lemma {:induction false} SortSorts(rates: seq<Rate>)
    ensures IsSorted(SortRates(rates))
  {
    if rates != [] {
      SortSorts(rates[..|rates| - 1]);
      InsertSorts(SortRates(rates[..|rates| - 1]), rates[|rates| - 1]);
      hide Insert; hide IsSorted;
    }
  }

  lemma {:induction false} SortPermutes(rates: seq<Rate>)
    ensures multiset(SortRates(rates)) == multiset(rates)
  {
    if rates != [] {
      var n := |rates| - 1;
      SortPermutes(rates[..n]);
      var front := SortRates(rates[..n]);
      assert SortRates(rates) == Insert(front, rates[n]);
      hide SortRates;
      InsertPermutes(front, rates[n]);
      hide Insert;
      assert rates == rates[..n] + [rates[n]];
    }
  }

  /** The sort counts the same blocks. */
  lemma {:induction false} SortCounts(rates: seq<Rate>, low: int, high: int)
    ensures BlocksIn(SortRates(rates), low, high) == BlocksIn(rates, low, high)
    ensures AllBlocks(SortRates(rates)) == AllBlocks(rates)
  {
    if rates != [] {
      var n := |rates| - 1;
      SortCounts(rates[..n], low, high);
      var front := SortRates(rates[..n]);
      assert SortRates(rates) == Insert(front, rates[n]);
      InsertCounts(front, rates[n], low, high);
      hide Insert; hide SortRates;
    }
  }

  // --------------------------------------------------------------- the median

  lemma {:induction false} BlocksBound(rates: seq<Rate>, low: int, high: int)
    ensures BlocksIn(rates, low, high) <= AllBlocks(rates)
  {
    if rates != [] { BlocksBound(rates[..|rates| - 1], low, high); }
  }

  lemma {:induction false} BlocksSplit(rates: seq<Rate>, low: int, mid: int, high: int)
    requires low <= mid + 1 && mid <= high
    ensures BlocksIn(rates, low, high) == BlocksIn(rates, low, mid) + BlocksIn(rates, mid + 1, high)
  {
    if rates != [] { BlocksSplit(rates[..|rates| - 1], low, mid, high); }
  }

  /** There is at most one median. */
  lemma {:induction false} MedianIsUnique(rates: seq<Rate>, r: u64, q: u64)
    requires IsMedian(rates, r) && IsMedian(rates, q)
    ensures r == q
  {
    if r < q { BlocksSplit(rates, 0, r, q - 1); }
    if q < r { BlocksSplit(rates, 0, q, r - 1); }
  }

  /** When more than half of the blocks earn from `low` to `high`, so does the
      median: the other blocks cannot move it out, whatever they earn. */
  lemma {:induction false} MajorityHoldsTheMedian(rates: seq<Rate>, r: u64, low: nat, high: nat)
    requires IsMedian(rates, r) && 2 * BlocksIn(rates, low, high) > AllBlocks(rates)
    requires low <= high
    ensures low <= r <= high
  {
    if r < low {
      BlocksSplit(rates, 0, r, high);
      BlocksSplit(rates, r + 1, low - 1, high);
      BlocksBound(rates, 0, high);
    }
    if r > high {
      BlocksSplit(rates, 0, high, r - 1);
      BlocksSplit(rates, 0, low - 1, high);
    }
  }

  lemma {:induction false} AllAtMost(rates: seq<Rate>, high: int)
    requires forall i :: 0 <= i < |rates| ==> rates[i].rate <= high
    ensures BlocksIn(rates, 0, high) == AllBlocks(rates)
  {
    if rates != [] { AllAtMost(rates[..|rates| - 1], high); }
  }

  lemma {:induction false} AllAbove(rates: seq<Rate>, n: nat, high: int)
    requires n <= |rates| && forall i :: n <= i < |rates| ==> rates[i].rate > high
    ensures BlocksIn(rates, 0, high) == BlocksIn(rates[..n], 0, high)
  {
    if n == |rates| {
      assert rates[..n] == rates;
    } else {
      AllAbove(rates[..|rates| - 1], n, high);
      assert rates[..|rates| - 1][..n] == rates[..n];
    }
  }

  lemma {:induction false} BlocksPrefix(rates: seq<Rate>, n: nat, low: int, high: int)
    requires n <= |rates|
    ensures BlocksIn(rates[..n], low, high) <= BlocksIn(rates, low, high)
  {
    if n == |rates| {
      assert rates[..n] == rates;
    } else {
      BlocksPrefix(rates[..|rates| - 1], n, low, high);
      assert rates[..|rates| - 1][..n] == rates[..n];
    }
  }

  /** The first rate whose blocks and the ones before make a half. */
  lemma {:induction false} FirstHalfIsMedian(rates: seq<Rate>, i: nat)
    requires IsSorted(rates) && i < |rates|
    requires 2 * AllBlocks(rates[..i]) < AllBlocks(rates) <= 2 * AllBlocks(rates[..i + 1])
    ensures IsMedian(rates, rates[i].rate)
  {
    var r: int := rates[i].rate;
    AllAbove(rates, i, r - 1);
    BlocksBound(rates[..i], 0, r - 1);
    AllAtMost(rates[..i + 1], r);
    BlocksPrefix(rates, i + 1, 0, r);
  }

  // ---------------------------------------------------------------- the history

  /** The newest total at least `span` blocks back. */
  function StartOf(m: Totals, tip: u32, span: nat): Option<u32> {
    if span <= tip then NewestAtMost(m, tip - span) else None
  }

  ghost function SeenPoints(m: Totals, tip: u32, earned: u64, start: u32): (points: seq<Point>)
    ensures Ascends(points)
  {
    Points(m, start, tip) + [Point(tip, earned)]
  }

  /** The income per block of each stretch of blocks that the loop saw. */
  ghost function SeenRates(m: Totals, tip: u32, earned: u64, start: u32): seq<Rate> {
    Rates(SeenPoints(m, tip, earned, start))
  }

  /** What `income_per_block` answers: the median over the blocks since the
      start, or nothing when the loop did not watch long enough. */
  ghost predicate IsIncome(m: Totals, tip: u32, earned: u64, span: nat, r: Option<u64>) {
    match StartOf(m, tip, span)
    case None => r == None
    case Some(start) =>
      if start == tip then r == None
      else r.Some? && IsMedian(SeenRates(m, tip, earned, start), r.value)
  }

  lemma {:induction false} AllBlocksAppend(rates: seq<Rate>, last: Rate)
    ensures AllBlocks(rates + [last]) == AllBlocks(rates) + last.blocks
  {
    assert (rates + [last])[..|rates|] == rates;
  }

  lemma {:induction false} RatesSpan(points: seq<Point>)
    requires points != [] && Ascends(points)
    ensures AllBlocks(Rates(points)) == points[|points| - 1].height - points[0].height
  {
    if |points| >= 2 {
      var front := points[..|points| - 1];
      var last := RateBetween(points[|points| - 2], points[|points| - 1]);
      assert Rates(points) == Rates(front) + [last];
      hide Rates;
      RatesSpan(front);
      hide AllBlocks; hide RateBetween;
      AllBlocksAppend(Rates(front), last);
    }
  }

  /** The rates count each block since the start once. */
  lemma {:induction false} EveryBlockHasARate(m: Totals, tip: u32, earned: u64, start: u32)
    requires start in m && start < tip
    ensures AllBlocks(SeenRates(m, tip, earned, start)) == tip - start
  {
    RatesSpan(SeenPoints(m, tip, earned, start));
  }

  lemma {:induction false} SeenBlocks(m: Totals, tip: u32, earned: u64, start: u32)
    requires start in m && start <= tip
    ensures AllBlocks(SeenRates(m, tip, earned, start)) == tip - start
    ensures start == tip <==> SeenRates(m, tip, earned, start) == []
  {
    if start < tip {
      EveryBlockHasARate(m, tip, earned, start);
    } else {
      assert SeenPoints(m, tip, earned, start) == [Point(tip, earned)];
    }
  }

  function Observed(m: Totals, tip: u32, earned: u64): Totals {
    if tip in m then m else m[tip := earned]
  }

  function Kept(m: Totals, from: u32): Totals { map k | k in m && k >= from :: m[k] }

  function ForgottenBelow(m: Totals, height: u32): Totals {
    match NewestAtMost(m, height)
    case None => m
    case Some(from) => Kept(m, from)
  }

  class FeeHistory {
    var byHeight: Totals

    constructor ()
      ensures byHeight == map[]
    {
      byHeight := map[];
    }

    method Observe(tip: u32, earned: u64)
      modifies this
      ensures byHeight == Observed(old(byHeight), tip, earned)
    {
      if tip !in byHeight { byHeight := byHeight[tip := earned]; }
    }

    method ForgetBelow(height: u32)
      modifies this
      ensures byHeight == ForgottenBelow(old(byHeight), height)
    {
      var keepFrom := NewestAtMost(byHeight, height);
      if keepFrom.Some? { byHeight := Kept(byHeight, keepFrom.value); }
    }

    method IncomePerBlock(tip: u32, earned: u64, span: nat) returns (r: Option<u64>)
      ensures IsIncome(byHeight, tip, earned, span, r)
    {
      if span > tip { return None; }
      var start := NewestAtMost(byHeight, tip - span);
      if start.None? { return None; }
      var points := Points(byHeight, start.value, tip) + [Point(tip, earned)];
      assert points == SeenPoints(byHeight, tip, earned, start.value);
      var rates := WindowRates(points);
      SeenBlocks(byHeight, tip, earned, start.value);
      hide Rates; hide Points; hide IsMedian; hide NewestAtMost;
      r := HalfWay(rates, tip - start.value);
    }
  }

  method WindowRates(points: seq<Point>) returns (rates: seq<Rate>)
    requires points != [] && Ascends(points)
    ensures rates == Rates(points)
  {
    rates := [];
    assert Rates(points[..1]) == [];
    for i := 1 to |points|
      invariant rates == Rates(points[..i])
    {
      rates := rates + [RateBetween(points[i - 1], points[i])];
      assert points[..i + 1][..i] == points[..i];
    }
    assert points[..|points|] == points;
  }

  /** The first rate, in order, whose blocks and all before make a half. */
  method HalfWay(rates: seq<Rate>, allBlocks: nat) returns (r: Option<u64>)
    requires allBlocks == AllBlocks(rates) || rates == []
    ensures rates == [] ==> r == None
    ensures rates != [] && allBlocks > 0 ==> r.Some? && IsMedian(rates, r.value)
  {
    var sorted := SortRates(rates);
    SortKeepsSize(rates);
    hide SortRates; hide IsMedian;
    var counted := 0;
    for i := 0 to |sorted|
      invariant counted == AllBlocks(sorted[..i])
      invariant i > 0 ==> 2 * counted < allBlocks
    {
      assert sorted[..i + 1][..i] == sorted[..i];
      counted := counted + sorted[i].blocks;
      if counted * 2 >= allBlocks {
        if allBlocks > 0 { SortedHalf(rates, i); }
        return Some(sorted[i].rate);
      }
    }
    assert sorted[..|sorted|] == sorted;
    return None;
  }

  lemma {:induction false} SortKeepsSize(rates: seq<Rate>)
    ensures |SortRates(rates)| == |rates| && AllBlocks(SortRates(rates)) == AllBlocks(rates)
  {
    SortCounts(rates, 0, 0);
    SortPermutes(rates);
    hide SortRates; hide AllBlocks;
    assert |SortRates(rates)| == |multiset(SortRates(rates))| == |multiset(rates)| == |rates|;
  }

  lemma {:induction false} SortedHalf(rates: seq<Rate>, i: nat)
    requires i < |SortRates(rates)| && AllBlocks(rates) > 0
    requires var sorted := SortRates(rates);
             2 * AllBlocks(sorted[..i]) < AllBlocks(rates) <= 2 * AllBlocks(sorted[..i + 1])
    ensures IsMedian(rates, SortRates(rates)[i].rate)
  {
    hide SortRates; hide BlocksIn; hide AllBlocks; hide IsSorted;
    var sorted := SortRates(rates);
    SortSorts(rates);
    var r: int := sorted[i].rate;
    SortCounts(rates, 0, r);
    SortCounts(rates, 0, r - 1);
    FirstHalfIsMedian(sorted, i);
  }

  // ------------------------------------------------------------------ forgetting

  /** The two histories agree from height `from` on. */
  ghost predicate AgreeFrom(m: Totals, n: Totals, from: u32) {
    && from in m && from in n
    && forall k: u32 :: k >= from ==> (k in m <==> k in n) && (k in m ==> m[k] == n[k])
  }

  lemma {:induction false} NewestIs(m: Totals, height: int, k: u32)
    requires height <= U32_MAX && k in m && k <= height && forall j :: j in m && j <= height ==> j <= k
    ensures NewestAtMost(m, height) == Some(k)
  {
  }

  lemma {:induction false} SameNewest(m: Totals, n: Totals, from: u32, height: u32)
    requires AgreeFrom(m, n, from) && from <= height
    ensures NewestAtMost(m, height) == NewestAtMost(n, height) && NewestAtMost(m, height).value >= from
  {
    var k := NewestAtMost(m, height).value;
    NewestIs(n, height, k);
  }

  lemma {:induction false} SamePoints(m: Totals, n: Totals, from: u32, start: u32, end: u32)
    requires AgreeFrom(m, n, from) && from <= start
    ensures Points(m, start, end) == Points(n, start, end)
    decreases end
  {
    if start < end { SamePoints(m, n, from, start, end - 1); }
  }

  /** Histories that agree answer alike from there on. */
  lemma {:induction false} SameIncome(m: Totals, n: Totals, from: u32, tip: u32, earned: u64, span: nat, r: Option<u64>)
    requires AgreeFrom(m, n, from) && from + span <= tip
    ensures IsIncome(m, tip, earned, span, r) <==> IsIncome(n, tip, earned, span, r)
  {
    SameNewest(m, n, from, tip - span);
    SamePoints(m, n, from, StartOf(m, tip, span).value, tip);
  }

  datatype Op = Observe(tip: u32, earned: u64) | Forget(height: u32)

  function Apply(m: Totals, op: Op): Totals {
    match op
    case Observe(tip, earned) => Observed(m, tip, earned)
    case Forget(height) => ForgottenBelow(m, height)
  }

  ghost function ApplyAll(m: Totals, ops: seq<Op>): Totals {
    if ops == [] then m else Apply(ApplyAll(m, ops[..|ops| - 1]), ops[|ops| - 1])
  }

  /** The two histories are the same, or agree from a height at or below `height`. */
  ghost predicate Alike(m: Totals, n: Totals, height: nat) {
    m == n || exists from: u32 :: from <= height && AgreeFrom(m, n, from)
  }

  lemma {:induction false} ForgetIsAlike(m: Totals, height: u32)
    ensures Alike(m, ForgottenBelow(m, height), height)
  {
    var keepFrom := NewestAtMost(m, height);
    if keepFrom.Some? {
      assert AgreeFrom(m, Kept(m, keepFrom.value), keepFrom.value);
    }
  }

  lemma {:induction false} OpKeepsAlike(m: Totals, n: Totals, height: nat, op: Op)
    requires Alike(m, n, height)
    ensures Alike(Apply(m, op), Apply(n, op), height)
  {
    if m != n {
      var from: u32 :| from <= height && AgreeFrom(m, n, from);
      match op
      case Observe(tip, earned) =>
        assert AgreeFrom(Apply(m, op), Apply(n, op), from);
      case Forget(h) =>
        if h >= from {
          SameNewest(m, n, from, h);
          assert Kept(m, NewestAtMost(m, h).value) == Kept(n, NewestAtMost(n, h).value);
        } else {
          assert AgreeFrom(Apply(m, op), Apply(n, op), from);
        }
    }
  }

  lemma {:induction false} OpsKeepAlike(m: Totals, n: Totals, height: nat, ops: seq<Op>)
    requires Alike(m, n, height)
    ensures Alike(ApplyAll(m, ops), ApplyAll(n, ops), height)
  {
    if ops != [] {
      OpsKeepAlike(m, n, height, ops[..|ops| - 1]);
      hide Alike; hide Apply;
      OpKeepsAlike(ApplyAll(m, ops[..|ops| - 1]), ApplyAll(n, ops[..|ops| - 1]), height, ops[|ops| - 1]);
    }
  }

  /** A forget drops exactly the totals that lie below another one at or below
      the height, and changes none. */
  lemma {:induction false} ForgetDropsTheOld(m: Totals, height: u32, k: u32)
    ensures k in ForgottenBelow(m, height) <==> k in m && !exists j: u32 :: j in m && k < j <= height
    ensures k in ForgottenBelow(m, height) ==> ForgottenBelow(m, height)[k] == m[k]
  {
  }

  /** Observation `i` is the first one of the height. */
  ghost predicate IsFirst(ops: seq<Op>, i: nat, k: u32)
    requires i < |ops|
  {
    && ops[i].Observe? && ops[i].tip == k
    && forall j :: 0 <= j < i ==> !(ops[j].Observe? && ops[j].tip == k)
  }

  /** The history holds the first total that was observed at each height. */
  lemma {:induction false} FirstTotalStays(ops: seq<Op>, i: nat, k: u32)
    requires i < |ops| && IsFirst(ops, i, k) && forall j :: 0 <= j < |ops| ==> ops[j].Observe?
    ensures k in ApplyAll(map[], ops) && ApplyAll(map[], ops)[k] == ops[i].earned
  {
    var n := |ops| - 1;
    if i < n {
      assert IsFirst(ops[..n], i, k) by {
        assert forall j :: 0 <= j <= i ==> ops[..n][j] == ops[j];
      }
      FirstTotalStays(ops[..n], i, k);
    } else {
      NotObserved(ops[..n], k);
    }
  }

  lemma {:induction false} NotObserved(ops: seq<Op>, k: u32)
    requires forall j :: 0 <= j < |ops| ==> ops[j].Observe? && ops[j].tip != k
    ensures k !in ApplyAll(map[], ops)
  {
    if ops != [] { NotObserved(ops[..|ops| - 1], k); }
  }

  /** A forget changes no later answer for a span that reaches back to its
      height or above, whatever the loop observes and forgets in between. */
  lemma {:induction false} ForgettingIsSafe(
    m: Totals, height: u32, ops: seq<Op>, tip: u32, earned: u64, span: nat, r: Option<u64>)
    requires height + span <= tip
    ensures IsIncome(ApplyAll(m, ops), tip, earned, span, r)
       <==> IsIncome(ApplyAll(ForgottenBelow(m, height), ops), tip, earned, span, r)
  {
    ForgetIsAlike(m, height);
    OpsKeepAlike(m, ForgottenBelow(m, height), height, ops);
    var a, b := ApplyAll(m, ops), ApplyAll(ForgottenBelow(m, height), ops);
    hide IsIncome; hide ForgottenBelow; hide ApplyAll;
    if a != b {
      var from: u32 :| from <= height && AgreeFrom(a, b, from);
      SameIncome(a, b, from, tip, earned, span, r);
    }
  }
}
