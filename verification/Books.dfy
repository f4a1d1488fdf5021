/** The balance equations of the peg (daemon/src/books.rs). */
module Books {
  import opened Prelude
  import opened Bridge
  import opened ECash
  import opened Ledger
  import opened Peg
  import opened Bundle

  datatype Books = Books(
    supply: u64, vault: u64, floated: u64, pegged: u64, stranded: u64,
    treasurySats: u64, awaiting: u64, pending: u64)
  {
    /** What gifts put in the vault, if it holds enough. */
    function Gifts(): Option<u64> {
      if vault + pegged > U64_MAX then None
      else if vault + pegged < supply then None
      else Some(vault + pegged - supply)
    }

    predicate VaultHolds() { Gifts().Some? }

    predicate FloatBacked() { Gifts().Some? && Gifts().value >= floated }

    /** The lamports of the eCash treasury are the four terms, in checked
        arithmetic. */
    predicate TreasuryHolds() {
      && treasurySats * LAMPORTS_PER_SAT <= U64_MAX
      && pegged + stranded <= U64_MAX
      && pegged + stranded + awaiting <= U64_MAX
      && pegged + stranded + awaiting + pending <= U64_MAX
      && treasurySats * LAMPORTS_PER_SAT == pegged + stranded + awaiting + pending
    }

    predicate Hold() { VaultHolds() && FloatBacked() && TreasuryHolds() }
  }

  /** The checked arithmetic holds exactly the three equations: the vault backs
      the supply, the gifts back the float, and ten times the treasury is the
      four terms, all of them within a u64. */
  lemma {:induction false} BooksAreTheEquations(b: Books)
    ensures b.VaultHolds() <==> b.supply <= b.vault + b.pegged <= U64_MAX
    ensures b.FloatBacked() <==> b.supply + b.floated <= b.vault + b.pegged <= U64_MAX
    ensures b.TreasuryHolds() <==> 10 * b.treasurySats == b.pegged + b.stranded + b.awaiting + b.pending <= U64_MAX
    ensures b.Hold() <==> b.VaultHolds() && b.FloatBacked() && b.TreasuryHolds()
  {
  }

  // ---------------------------------------------------------------- pending

  /** The record counts as pending: it is not paid, and not in a live bundle
      that eCash paid. */
  predicate IsPending(r: Record, c: Config, paidLive: bool) {
    && r.index >= c.paidThrough
    && !(paidLive && c.bundledThrough > c.paidThrough && c.paidThrough <= r.index < c.bundledThrough)
  }

  ghost function PendingSum(records: seq<Record>, c: Config, paidLive: bool): nat {
    if records == [] then 0
    else
      var last := records[|records| - 1];
      PendingSum(records[..|records| - 1], c, paidLive)
        + if IsPending(last, c, paidLive) then last.burnedLamports else 0
  }

  /** What the unpaid records burned: the exact sum, cut once at the top of a
      u64. */
  method Pending(records: seq<Record>, c: Config, liveStatus: BundleStatus) returns (count: nat, lamports: u64)
    ensures lamports == Min(PendingSum(records, c, liveStatus.HasSucceeded?), U64_MAX)
    ensures count == |Filter(records, c, liveStatus.HasSucceeded?)|
  {
    count, lamports := 0, 0;
    var paidLive := liveStatus.HasSucceeded?;
    for i := 0 to |records|
      invariant lamports == Min(PendingSum(records[..i], c, paidLive), U64_MAX)
      invariant count == |Filter(records[..i], c, paidLive)|
    {
      assert records[..i + 1][..i] == records[..i];
      if IsPending(records[i], c, paidLive) {
        count := count + 1;
        lamports := SaturatingAdd(lamports, records[i].burnedLamports);
      }
    }
    assert records[..|records|] == records;
  }

  ghost function Filter(records: seq<Record>, c: Config, paidLive: bool): seq<Record> {
    if records == [] then []
    else
      var last := records[|records| - 1];
      Filter(records[..|records| - 1], c, paidLive) + if IsPending(last, c, paidLive) then [last] else []
  }

  // --------------------------------------------------------------- awaiting

  /** The deposits of one event that the bank did not credit. */
  function Uncredited(event: PegEvent, creditedHeight: u64, creditIndex: u64): seq<Deposit> {
    match event
    case Disconnect(_) => []
    case Connect(_, height, deposits, _) =>
      if height <= creditedHeight then []
      else if height == creditedHeight + 1 then deposits[Min(creditIndex, |deposits|)..]
      else deposits
  }

  ghost function AwaitingSats(events: seq<PegEvent>, creditedHeight: u64, creditIndex: u64): nat {
    if events == [] then 0
    else
      AwaitingSats(events[..|events| - 1], creditedHeight, creditIndex)
        + SumDeposits(Uncredited(events[|events| - 1], creditedHeight, creditIndex))
  }

  ghost function AwaitingCount(events: seq<PegEvent>, creditedHeight: u64, creditIndex: u64): nat {
    if events == [] then 0
    else
      AwaitingCount(events[..|events| - 1], creditedHeight, creditIndex)
        + |Uncredited(events[|events| - 1], creditedHeight, creditIndex)|
  }

  lemma {:induction false} SumDepositsStep(deposits: seq<Deposit>, k: nat)
    requires k < |deposits|
    ensures SumDeposits(deposits[..k + 1]) == SumDeposits(deposits[..k]) + deposits[k].valueSats
  {
    assert deposits[..k + 1] == deposits[..k] + [deposits[k]];
    SumDepositsSplit(deposits[..k], [deposits[k]]);
    assert [deposits[k]][1..] == [];
  }

  /** The lamports of the deposits that wait for their credit, up to the top of
      a u64: every saturating step of the loop only cuts at the top. */
  method Awaiting(events: seq<PegEvent>, creditedHeight: u64, creditIndex: u64) returns (count: nat, lamports: u64)
    ensures lamports == Min(10 * AwaitingSats(events, creditedHeight, creditIndex), U64_MAX)
    ensures count == AwaitingCount(events, creditedHeight, creditIndex)
  {
    count, lamports := 0, 0;
    for i := 0 to |events|
      invariant lamports == Min(10 * AwaitingSats(events[..i], creditedHeight, creditIndex), U64_MAX)
      invariant count == AwaitingCount(events[..i], creditedHeight, creditIndex)
    {
      assert events[..i + 1][..i] == events[..i];
      var open := Uncredited(events[i], creditedHeight, creditIndex);
      ghost var before := AwaitingSats(events[..i], creditedHeight, creditIndex);
      assert open[..0] == [];
      for k := 0 to |open|
        invariant lamports == Min(10 * (before + SumDeposits(open[..k])), U64_MAX)
        invariant count == AwaitingCount(events[..i], creditedHeight, creditIndex) + k
      {
        var value := if open[k].valueSats * 10 <= U64_MAX then open[k].valueSats * 10 else U64_MAX;
        lamports := SaturatingAdd(lamports, value);
        count := count + 1;
        SumDepositsStep(open, k);
      }
      assert open[..|open|] == open;
    }
    assert events[..|events|] == events;
  }
}
