/** The bundle of a run of withdrawal records: `bundle_of` and `complete`
    (daemon/src/peg.rs). */
module Bundle {
  import opened Prelude
  import opened Bytes
  import opened Bridge
  import opened M6

  function PayoutsOf(records: seq<Record>): (payouts: seq<Payout>)
    ensures |payouts| == |records|
    ensures forall i :: 0 <= i < |records| ==> payouts[i] == Payout(records[i].script, records[i].payoutSats)
  {
    seq(|records|, i requires 0 <= i < |records| => Payout(records[i].script, records[i].payoutSats))
  }

  function SumFees(records: seq<Record>): nat {
    if records == [] then 0 else SumFees(records[..|records| - 1]) + records[|records| - 1].feeSats
  }

  function FirstIndex(records: seq<Record>): u64 {
    if records == [] then 0 else records[0].index
  }

  /** The blinded M6 of the records: fee and payouts in record order, and the
      index of the first record in the lock time. */
  function BundleTx(records: seq<Record>): Blinded
    requires FirstIndex(records) <= U32_MAX
    requires SumFees(records) <= U64_MAX
  {
    BlindedOf(SumFees(records), PayoutsOf(records), FirstIndex(records))
  }

  ghost predicate CanBuild(records: seq<Record>) {
    var payouts := PayoutsOf(records);
    && SumFees(records) <= U64_MAX
    && NoTreasuryForm(payouts)
    && 0 < SumSats(payouts) <= U64_MAX
    && Weight(BlindedOf(SumFees(records), payouts, 0)) <= MAX_BLINDED_WEIGHT
  }

  /** What `bundle_of` answers. */
  ghost predicate BundleAnswers(records: seq<Record>, r: Result<Blinded, M6Error>) {
    match r
    case Ok(tx) => CanBuild(records) && FirstIndex(records) <= U32_MAX && tx == BundleTx(records)
    case Err(FirstRecordTooLarge(first)) => CanBuild(records) && first == FirstIndex(records) > U32_MAX
    case Err(e) =>
      if SumFees(records) > U64_MAX then e == PayoutOverflow
      else Builds(SumFees(records), PayoutsOf(records), Err(e))
  }

  lemma {:induction false} SumFeesMonotone(records: seq<Record>, n: nat)
    requires n <= |records|
    ensures SumFees(records[..n]) <= SumFees(records)
  {
    if n == |records| {
      assert records[..n] == records;
    } else {
      var front := records[..|records| - 1];
      SumFeesMonotone(front, n);
      assert front[..n] == records[..n];
    }
  }

  method BundleOf(records: seq<Record>) returns (r: Result<Blinded, M6Error>)
    ensures BundleAnswers(records, r)
  {
    var fee: u64 := 0;
    var payouts := [];
    for i := 0 to |records|
      invariant fee == SumFees(records[..i])
      invariant payouts == PayoutsOf(records[..i])
    {
      assert records[..i + 1][..i] == records[..i];
      if fee + records[i].feeSats > U64_MAX {
        SumFeesMonotone(records, i + 1);
        return Err(PayoutOverflow);
      }
      fee := fee + records[i].feeSats;
      payouts := payouts + [Payout(records[i].script, records[i].payoutSats)];
    }
    assert records[..|records|] == records;
    var built := BuildBlindedM6(fee, payouts);
    if built.Err? { return built; }
    var first := if records == [] then 0 else records[0].index;
    if first > U32_MAX { return Err(FirstRecordTooLarge(first)); }
    return Ok(built.value.(lockTime := first));
  }

  /** The first index of `start..end` that `records` does not hold at its place. */
  method Complete(start: u64, end: u64, records: seq<Record>) returns (missing: Option<u64>)
    ensures missing.None? <==>
            end <= start || (end - start <= |records| && forall i :: 0 <= i < end - start ==> records[i].index == start + i)
    ensures missing.Some? ==>
            && start <= missing.value < end
            && (missing.value - start < |records| ==> records[missing.value - start].index != missing.value)
            && forall i :: 0 <= i < missing.value - start ==> i < |records| && records[i].index == start + i
  {
    var index := start;
    while index < end
      invariant start <= index && (index <= end || index == start)
      invariant index - start <= |records|
      invariant forall i :: 0 <= i < index - start ==> records[i].index == start + i
    {
      if index - start >= |records| || records[index - start].index != index { return Some(index); }
      index := index + 1;
    }
    return None;
  }

  // ----------------------------------------------- the records of the bridge

  /** What `withdraw` writes: a standard script, no dust, the lowest fee, and
      one satoshi for each ten burned lamports. */
  ghost predicate ValidRecord(r: Record) {
    && IsStandardScript(r.script)
    && r.payoutSats >= MIN_PAYOUT_SATS
    && r.feeSats >= MIN_FEE_SATS
    && r.burnedLamports == 10 * (r.payoutSats + r.feeSats)
  }

  ghost predicate ValidRun(records: seq<Record>, start: nat) {
    forall i :: 0 <= i < |records| ==> ValidRecord(records[i]) && records[i].index == start + i
  }

  ghost function SumBurned(records: seq<Record>): nat {
    if records == [] then 0 else SumBurned(records[..|records| - 1]) + records[|records| - 1].burnedLamports
  }

  lemma {:induction false} SumBurnedSplit(a: seq<Record>, b: seq<Record>)
    ensures SumBurned(a + b) == SumBurned(a) + SumBurned(b)
  {
    if b == [] {
      assert a + b == a;
    } else {
      SumBurnedSplit(a, b[..|b| - 1]);
      assert (a + b)[..|a + b| - 1] == a + b[..|b| - 1];
    }
  }

  lemma {:induction false} BurnedCoversThePayouts(records: seq<Record>, start: nat)
    requires ValidRun(records, start)
    ensures SumBurned(records) == 10 * (SumFees(records) + SumSats(PayoutsOf(records)))
    ensures SumSats(PayoutsOf(records)) >= |records|
  {
    if records != [] {
      var front := records[..|records| - 1];
      BurnedCoversThePayouts(front, start);
      assert PayoutsOf(records)[..|records| - 1] == PayoutsOf(front);
    }
  }

  lemma {:induction false} BridgeRecordsCanBuild(records: seq<Record>, start: nat)
    requires ValidRun(records, start) && 0 < |records| <= MAX_BUNDLE_RECORDS
    requires SumBurned(records) <= U64_MAX
    ensures CanBuild(records)
    ensures forall e :: !Builds(SumFees(records), PayoutsOf(records), Err(e))
  {
    BurnedCoversThePayouts(records, start);
    WeightBound(SumFees(records), PayoutsOf(records), 0, MAX_BUNDLE_RECORDS);
    hide SumFees; hide SumSats; hide SumBurned;
  }

  /** Every bundle of records that the bridge wrote builds, whatever the
      records are: no overflow, no treasury form, below the weight limit. Only
      a first index above a u32 stops it. */
  lemma {:induction false} BridgeRecordsBuild(records: seq<Record>, start: nat, r: Result<Blinded, M6Error>)
    requires ValidRun(records, start) && 0 < |records| <= MAX_BUNDLE_RECORDS
    requires SumBurned(records) <= U64_MAX
    requires BundleAnswers(records, r)
    ensures SumFees(records) <= U64_MAX
    ensures r == if start <= U32_MAX then Ok(BundleTx(records)) else Err(FirstRecordTooLarge(start))
  {
    BridgeRecordsCanBuild(records, start);
    hide CanBuild; hide SumBurned; hide Builds;
    assert FirstIndex(records) == start;
  }

  /** eCash pays a bundle exactly the satoshis whose lamports its records burned. */
  lemma {:induction false} BundleValue(records: seq<Record>, start: nat)
    requires ValidRun(records, start) && start <= U32_MAX && records != []
    requires SumBurned(records) <= U64_MAX
    ensures SumFees(records) <= U64_MAX
    ensures 10 * Value(BundleTx(records)) == SumBurned(records)
  {
    BurnedCoversThePayouts(records, start);
    BlindedValue(SumFees(records), PayoutsOf(records), start);
  }

  /** The M6ID of a bundle names its range: the lock time holds the first
      index, and each record gives one output. */
  lemma {:induction false} BundleNamesItsRange(a: seq<Record>, startA: nat, b: seq<Record>, startB: nat)
    requires ValidRun(a, startA) && startA <= U32_MAX && a != [] && SumFees(a) <= U64_MAX
    requires ValidRun(b, startB) && startB <= U32_MAX && b != [] && SumFees(b) <= U64_MAX
    requires BundleTx(a) == BundleTx(b)
    ensures startA == startB && |a| == |b|
  {
    assert |BundleTx(a).output| == |a| + 1 && |BundleTx(b).output| == |b| + 1;
  }
}
