/** The parts that the credit loop sends (daemon/src/credit.rs), against the
    program that must take them. */
module CreditLoop {
  import opened Prelude
  import opened Bridge
  import opened ECash
  import opened BlockTree
  import opened Ledger
  import opened CreditRun

  const MAX_PART: nat := 16

  datatype PartToSend = PartToSend(height: u64, first: u32, count: u8, total: nat, targets: seq<Pubkey>)

  function TargetsOf(deposits: seq<Deposit>): seq<Pubkey> {
    if deposits == [] then []
    else
      var front, last := TargetsOf(deposits[..|deposits| - 1]), deposits[|deposits| - 1];
      if last.target.Some? then front + [last.target.value] else front
  }

  /** What the loop sends next: at most `MAX_PART` deposits after the credited ones. */
  function NextPart(height: u64, creditIndex: u64, deposits: seq<Deposit>): PartToSend {
    var first := Min(creditIndex, |deposits|);
    var end := Min(|deposits|, first + MAX_PART);
    PartToSend(height, Min(first, U32_MAX), end - first, |deposits|, TargetsOf(deposits[first..end]))
  }

  predicate CanCredit(c: Config, blockHash: Hash, prevHash: Hash) {
    && (c.creditedBlock == ZERO_HASH || c.creditedBlock == prevHash)
    && (c.creditIndex == 0 || c.creditPartBlock == blockHash)
  }

  // ------------------------------------------------------------ what is enough

  /** The accounts of the transaction: each target in order, writable unless the
      runtime reserves it. */
  ghost predicate Passes(s: State, metas: seq<Meta>, targets: seq<Pubkey>) {
    && |metas| == |targets|
    && forall i :: 0 <= i < |metas| ==> MetaFits(s, metas[i], targets[i])
  }

  ghost predicate MetaFits(s: State, meta: Meta, target: Pubkey) {
    meta.key == target && (meta.writable || s.At(target).reserved || target == VAULT)
  }

  /** The vault and the counters can take every deposit. */
  ghost predicate Affords(s: State, deposits: seq<Deposit>) {
    var lamports := 10 * SumDeposits(deposits);
    && lamports <= s.Lamports(VAULT)
    && s.config.peggedLamports + lamports <= U64_MAX
    && s.config.strandedLamports + lamports <= U64_MAX
  }

  /** What the enforcer gives: sequence numbers go up, from the high water on. */
  ghost predicate Sequenced(deposits: seq<Deposit>, highWater: nat) {
    && (forall i, j :: 0 <= i < j < |deposits| ==> deposits[i].sequenceNumber < deposits[j].sequenceNumber)
    && (forall i :: 0 <= i < |deposits| ==> highWater <= deposits[i].sequenceNumber < U64_MAX)
  }

  lemma {:induction false} SliceJoins(deposits: seq<Deposit>, i: nat, j: nat)
    requires i <= j <= |deposits|
    ensures deposits == deposits[..i] + deposits[i..] && deposits[i..] == deposits[i..j] + deposits[j..]
  {
    forall k | 0 <= k < |deposits| - i ensures deposits[i..][k] == (deposits[i..j] + deposits[j..])[k] {
      assert k >= j - i ==> deposits[j..][k - (j - i)] == deposits[i + k];
    }
  }

  lemma {:induction false} SumDepositsPart(deposits: seq<Deposit>, i: nat, j: nat)
    requires i <= j <= |deposits|
    ensures SumDeposits(deposits[i..j]) <= SumDeposits(deposits[i..]) <= SumDeposits(deposits)
    ensures SumDeposits(deposits[i..]) == SumDeposits(deposits[i..j]) + SumDeposits(deposits[j..])
  {
    hide SumDeposits;
    SliceJoins(deposits, i, j);
    SumDepositsSplit(deposits[..i], deposits[i..]);
    SumDepositsSplit(deposits[i..j], deposits[j..]);
  }

  lemma {:induction false} TargetsFromFront(deposits: seq<Deposit>)
    requires deposits != []
    ensures TargetsOf(deposits)
         == (if deposits[0].target.Some? then [deposits[0].target.value] else []) + TargetsOf(deposits[1..])
  {
    hide TargetsOf;
    var n := |deposits| - 1;
    var front, rest := deposits[..n], deposits[1..];
    TargetsStep(deposits, front, deposits[n]);
    if n > 0 {
      TargetsFromFront(front);
      TargetsStep(rest, front[1..], deposits[n]);
    } else {
      assert front == [] && rest == [];
    }
  }

  lemma {:induction false} TargetsStep(deposits: seq<Deposit>, front: seq<Deposit>, last: Deposit)
    requires deposits == front + [last]
    ensures TargetsOf(deposits)
         == TargetsOf(front) + if last.target.Some? then [last.target.value] else []
    ensures TargetsOf([]) == []
  {
    assert deposits[..|deposits| - 1] == front;
  }

  /** Nothing stops the loop of the program on such deposits. */
  lemma {:induction false} DepositsGoThrough(t: Tally, deposits: seq<Deposit>)
    requires Sequenced(deposits, t.highWater) && Passes(t.s, t.metas, TargetsOf(deposits))
    requires var lamports := 10 * SumDeposits(deposits);
             lamports <= t.s.Lamports(VAULT) && t.credited + lamports <= U64_MAX && t.stranded + lamports <= U64_MAX
    ensures ApplyDeposits(t, deposits).Ok?
    decreases |deposits|
  {
    if deposits != [] {
      var d := deposits[0];
      TargetsFromFront(deposits);
      DepositGoesThrough(t, d, deposits[1..]);
      var next := ApplyDeposit(t, d).value;
      DepositLands(t, d);
      DepositsGoThrough(next, deposits[1..]);
    }
  }

  lemma {:induction false} DepositGoesThrough(t: Tally, d: Deposit, rest: seq<Deposit>)
    requires t.highWater <= d.sequenceNumber < U64_MAX
    requires Passes(t.s, t.metas, (if d.target.Some? then [d.target.value] else []) + TargetsOf(rest))
    requires 10 * d.valueSats <= t.s.Lamports(VAULT)
    requires t.credited + 10 * d.valueSats <= U64_MAX && t.stranded + 10 * d.valueSats <= U64_MAX
    ensures ApplyDeposit(t, d).Ok?
    ensures Passes(ApplyDeposit(t, d).value.s, ApplyDeposit(t, d).value.metas, TargetsOf(rest))
  {
    hide TargetsOf;
    if d.target.Some? {
      assert MetaFits(t.s, t.metas[0], d.target.value);
      var all := [d.target.value] + TargetsOf(rest);
      forall i | 0 <= i < |t.metas| - 1 ensures MetaFits(t.s, t.metas[1..][i], TargetsOf(rest)[i]) {
        assert MetaFits(t.s, t.metas[i + 1], all[i + 1]);
      }
    } else {
      assert [] + TargetsOf(rest) == TargetsOf(rest);
    }
  }

  // ---------------------------------------------------------------- one part

  /** The block is the next one above the cursor, and the cursor is inside it. */
  ghost predicate IsNext(t: Tree, c: Config, b: Block) {
    && b.hash in t && t[b.hash] == b && b.height == c.creditedHeight + 1 <= U64_MAX
    && |b.deposits| <= U32_MAX
    && (c.creditIndex < |b.deposits| || c.creditIndex == 0)
  }

  ghost function Sent(t: Tree, s: State, b: Block, metas: seq<Meta>): Result<State, BridgeError>
    requires b.height <= U64_MAX
  {
    var p := NextPart(b.height, s.config.creditIndex, b.deposits);
    CreditDeposits(s, b.height, b.hash, p.first, p.count, AnswerOf(t, b.height, b.hash, p.first, p.count), metas)
  }

  /** `CanCredit` is exactly the two chain checks of the program. */
  lemma {:induction false} CanCreditIsTheChainCheck(t: Tree, c: Config, b: Block)
    requires IsNext(t, c, b)
    ensures var p := NextPart(b.height, c.creditIndex, b.deposits);
            var checks := CreditChecks(c, b.height, b.hash, p.first, p.count,
                                       AnswerOf(t, b.height, b.hash, p.first, p.count));
            if CanCredit(c, b.hash, b.prev) then checks.Ok?
            else checks == Err(NotOnCreditedChain) || checks == Err(PartOfAnotherBlock)
  {
  }

  /** The rest of the block can go through. */
  ghost predicate Ready(s: State, b: Block) {
    var i := Min(s.config.creditIndex, |b.deposits|);
    Sequenced(b.deposits[i..], s.config.depositHighWater) && Affords(s, b.deposits[i..])
  }

  /** The program takes the part, and the cursor moves past it. */
  lemma {:induction false} PartIsTaken(t: Tree, s: State, b: Block, metas: seq<Meta>)
    requires IsNext(t, s.config, b) && CanCredit(s.config, b.hash, b.prev) && Ready(s, b)
    requires Passes(s, metas, NextPart(b.height, s.config.creditIndex, b.deposits).targets)
    ensures Sent(t, s, b, metas).Ok?
    ensures var c, d := s.config, Sent(t, s, b, metas).value.config;
            var end := Min(|b.deposits|, c.creditIndex + MAX_PART);
            if end == |b.deposits| then
              d.creditedHeight == b.height && d.creditedBlock == b.hash && d.creditIndex == 0
            else
              && d.creditedHeight == c.creditedHeight && d.creditedBlock == c.creditedBlock
              && d.creditIndex == end && d.creditPartBlock == b.hash
              && Ready(Sent(t, s, b, metas).value, b)
  {
    hide Sent; hide Ready; hide CreditDeposits; hide Passes; hide TargetsOf; hide Sequenced; hide Affords;
    hide SumDeposits; hide AnswerOf; hide CanCredit;
    var c := s.config;
    var end := Min(|b.deposits|, c.creditIndex + MAX_PART);
    ReadyPart(s, b, end);
    SentIs(t, s, b, metas, end);
    var after := CreditGoesThrough(t, s, b, metas, c.creditIndex, end);
    if end < |b.deposits| {
      ReadyRest(s, after, b, end);
    }
  }

  lemma {:induction false} SentIs(t: Tree, s: State, b: Block, metas: seq<Meta>, end: nat)
    requires IsNext(t, s.config, b) && end == Min(|b.deposits|, s.config.creditIndex + MAX_PART)
    ensures var first := s.config.creditIndex;
            && first <= end <= first + MAX_PART
            && Sent(t, s, b, metas)
                 == CreditDeposits(s, b.height, b.hash, first, end - first,
                                   AnswerOf(t, b.height, b.hash, first, end - first), metas)
            && NextPart(b.height, first, b.deposits).targets == TargetsOf(b.deposits[first..end])
  {
    hide CreditDeposits; hide AnswerOf; hide TargetsOf;
  }

  lemma {:induction false} ReadyPart(s: State, b: Block, end: nat)
    requires Ready(s, b) && s.config.creditIndex <= end <= |b.deposits|
    ensures var part := b.deposits[s.config.creditIndex..end];
            Sequenced(part, s.config.depositHighWater) && Affords(s, part)
  {
    hide SumDeposits; hide Sequenced;
    SumDepositsPart(b.deposits, s.config.creditIndex, end);
    SequencedPart(b.deposits, s.config.creditIndex, end, s.config.depositHighWater);
  }

  lemma {:induction false} ReadyRest(s: State, after: State, b: Block, end: nat)
    requires Ready(s, b) && s.config.creditIndex < end < |b.deposits| && after.config.creditIndex == end
    requires after.config.depositHighWater == b.deposits[end - 1].sequenceNumber + 1
    requires var lamports := 10 * SumDeposits(b.deposits[s.config.creditIndex..end]);
             && after.config.peggedLamports <= s.config.peggedLamports + lamports
             && after.config.strandedLamports <= s.config.strandedLamports + lamports
             && after.Lamports(VAULT) >= s.Lamports(VAULT) - lamports
    ensures Ready(after, b)
  {
    hide SumDeposits; hide Sequenced;
    SumDepositsPart(b.deposits, s.config.creditIndex, end);
    SequencedRest(b.deposits, s.config.creditIndex, end, s.config.depositHighWater, after.config.depositHighWater);
  }

  /** The credit of `deposits[first..end]` lands, and takes what they hold from
      the vault, the pegged and the stranded room together. */
  lemma {:induction false} CreditGoesThrough(t: Tree, s: State, b: Block, metas: seq<Meta>, first: nat, end: nat)
    returns (after: State)
    requires IsNext(t, s.config, b) && CanCredit(s.config, b.hash, b.prev)
    requires first == s.config.creditIndex <= end <= |b.deposits| && end - first <= MAX_PART
    requires first < end || b.deposits == []
    requires var part := b.deposits[first..end];
             Sequenced(part, s.config.depositHighWater) && Affords(s, part) && Passes(s, metas, TargetsOf(part))
    ensures CreditDeposits(s, b.height, b.hash, first, end - first, AnswerOf(t, b.height, b.hash, first, end - first), metas)
         == Ok(after)
    ensures var c, d := s.config, after.config;
            var lamports := 10 * SumDeposits(b.deposits[first..end]);
            && d == MoveCursor(c.(depositHighWater := d.depositHighWater, peggedLamports := d.peggedLamports,
                                  strandedLamports := d.strandedLamports), b.height, b.hash, end, |b.deposits|)
            && d.depositHighWater == (if first == end then c.depositHighWater else b.deposits[end - 1].sequenceNumber + 1)
            && d.peggedLamports <= c.peggedLamports + lamports
            && d.strandedLamports <= c.strandedLamports + lamports
            && after.Lamports(VAULT) >= s.Lamports(VAULT) - lamports
  {
    hide ApplyDeposits; hide SumDeposits; hide Passes; hide TargetsOf; hide Sequenced;
    var part := b.deposits[first..end];
    var start := Tally(s, metas, s.config.depositHighWater, 0, 0);
    DepositsGoThrough(start, part);
    var tally := ApplyDeposits(start, part).value;
    assert && tally.credited + tally.stranded == 10 * SumDeposits(part)
           && tally.s.Lamports(VAULT) == s.Lamports(VAULT) - tally.credited by {
      DepositsEffect(start, part);
    }
    TallyKeepsTheRest(start, part);
    HighWaterIs(start, part);
    var answer := AnswerOf(t, b.height, b.hash, first, end - first);
    assert CreditChecks(s.config, b.height, b.hash, first, end - first, answer) == Ok(answer.value);
    assert answer.value.deposits == part && answer.value.total == |b.deposits|;
    hide CreditChecks; hide CanCredit; hide AnswerOf; hide IsNext;
    assert FinishCredit(tally, b.height, b.hash, end, |b.deposits|).Ok?;
    hide Affords;
    after := FinishCredit(tally, b.height, b.hash, end, |b.deposits|).value;
  }

  lemma {:induction false} SequencedPart(deposits: seq<Deposit>, i: nat, j: nat, highWater: nat)
    requires i <= j <= |deposits| && Sequenced(deposits[i..], highWater)
    ensures Sequenced(deposits[i..j], highWater)
  {
    assert forall k :: 0 <= k < j - i ==> deposits[i..j][k] == deposits[i..][k];
  }

  lemma {:induction false} SequencedRest(deposits: seq<Deposit>, i: nat, j: nat, highWater: nat, higher: nat)
    requires i < j <= |deposits| && Sequenced(deposits[i..], highWater)
    requires higher == deposits[j - 1].sequenceNumber + 1
    ensures Sequenced(deposits[j..], higher)
  {
    assert deposits[i..][j - 1 - i] == deposits[j - 1];
    assert forall k :: 0 <= k < |deposits| - j ==> deposits[j..][k] == deposits[i..][k + j - i];
  }

  lemma {:induction false} HighWaterIs(t: Tally, deposits: seq<Deposit>)
    requires ApplyDeposits(t, deposits).Ok?
    ensures ApplyDeposits(t, deposits).value.highWater
         == if deposits == [] then t.highWater else deposits[|deposits| - 1].sequenceNumber + 1
    decreases |deposits|
  {
    if deposits != [] {
      HighWaterIs(ApplyDeposit(t, deposits[0]).value, deposits[1..]);
    }
  }

  // ------------------------------------------------------------- whole block

  /** The accounts that the loop passes: each target, writable. */
  function MetasOf(targets: seq<Pubkey>): (metas: seq<Meta>)
    ensures |metas| == |targets|
    ensures forall i :: 0 <= i < |targets| ==> metas[i] == Meta(targets[i], true)
  {
    seq(|targets|, i requires 0 <= i < |targets| => Meta(targets[i], true))
  }

  /** The bank after the loop sent `parts` parts of the block, if the program
      took each of them. */
  ghost function AfterParts(t: Tree, s: State, b: Block, parts: nat): Option<State>
    requires b.height <= U64_MAX
  {
    if parts == 0 then Some(s)
    else
      var before :- AfterParts(t, s, b, parts - 1);
      var p := NextPart(b.height, before.config.creditIndex, b.deposits);
      match Sent(t, before, b, MetasOf(p.targets))
      case Ok(after) => Some(after)
      case Err(_) => None
  }

  /** One part for each sixteen deposits that are left, and one for none. */
  function PartsLeft(left: nat): nat {
    Max(1, (left + MAX_PART - 1) / MAX_PART)
  }

  /** The loop finishes a block that the chain checks let through, after
      exactly `PartsLeft` parts: the program takes every one of them. */
  lemma {:induction false} LoopFinishesTheBlock(t: Tree, s: State, b: Block, parts: nat)
    requires IsNext(t, s.config, b) && CanCredit(s.config, b.hash, b.prev) && Ready(s, b)
    requires parts <= PartsLeft(|b.deposits| - s.config.creditIndex)
    ensures AfterParts(t, s, b, parts).Some?
    ensures var c, d := s.config, AfterParts(t, s, b, parts).value.config;
            if parts == PartsLeft(|b.deposits| - c.creditIndex) then
              d.creditedHeight == b.height && d.creditedBlock == b.hash && d.creditIndex == 0
            else
              && d.creditedHeight == c.creditedHeight && d.creditIndex == c.creditIndex + MAX_PART * parts
              && d.creditIndex <= |b.deposits|
              && (parts > 0 ==> d.creditIndex < |b.deposits|)
              && IsNext(t, d, b) && CanCredit(d, b.hash, b.prev) && Ready(AfterParts(t, s, b, parts).value, b)
  {
    hide Sent; hide Ready;
    if parts > 0 {
      LoopFinishesTheBlock(t, s, b, parts - 1);
      var before := AfterParts(t, s, b, parts - 1).value;
      var p := NextPart(b.height, before.config.creditIndex, b.deposits);
      WritablePasses(before, p.targets);
      hide NextPart; hide Passes;
      PartIsTaken(t, before, b, MetasOf(p.targets));
    }
  }

  lemma {:induction false} WritablePasses(s: State, targets: seq<Pubkey>)
    ensures Passes(s, MetasOf(targets), targets)
  {
  }
}
