/** The settles that the BMM loop plans (daemon/src/bmm.rs), against the
    program that must take them. */
module Planner {
  import opened Prelude
  import opened Bridge
  import opened ECash
  import opened Ledger
  import SettleRun

  const SETTLE_STEPS: nat := 16

  /** What a bidder published: which bank and payee stand behind its commitment
      at a height. */
  datatype Pair = Pair(height: u64, block: Hash, payee: Pubkey) {
    function CommitmentOf(): Commitment { OfPair(block, payee) }
  }

  /** What the loop reads about one height of the active chain. */
  datatype ActiveBlock = ActiveBlock(hash: Hash, commitment: Option<Commitment>)

  datatype SettleStep = Wait | Send(blockHash: Hash, solanaBlock: Hash, payee: Pubkey)

  datatype PlanError = ReadFailed

  /** The read of the active block at a height. `Ok(None)`: not read so far. */
  type BlockAt = u64 -> Result<Option<ActiveBlock>, PlanError>

  function PairFor(pairs: seq<Pair>, height: u64, commitment: Commitment): (r: Option<Pair>)
    ensures r.Some? ==> r.value in pairs && r.value.height == height && r.value.CommitmentOf() == commitment
    ensures r.None? ==> forall p :: p in pairs ==> !(p.height == height && p.CommitmentOf() == commitment)
  {
    if pairs == [] then None
    else if pairs[0].height == height && pairs[0].CommitmentOf() == commitment then Some(pairs[0])
    else PairFor(pairs[1..], height, commitment)
  }

  /** A leader takes a settle only with N + 2 blocks on top. */
  predicate SettleIsReady(height: u64, tipHeight: u64, confirmations: u64) {
    height + confirmations + 2 <= U64_MAX && tipHeight >= height + confirmations + 2
  }

  function NextSettle(
    next: u64, tipHeight: u64, confirmations: u64, block: Option<ActiveBlock>, pairs: seq<Pair>,
    skipReady: bool, sender: Pubkey)
    : SettleStep
  {
    if !SettleIsReady(next, tipHeight, confirmations) || block.None? then Wait
    else
      var any := Send(block.value.hash, ZERO_HASH, sender);
      match block.value.commitment
      case None => any
      case Some(commitment) =>
        match PairFor(pairs, next, commitment)
        case Some(pair) => Send(block.value.hash, pair.block, pair.payee)
        case None => if skipReady then any else Wait
  }

  datatype Planned = Planned(height: u64, step: SettleStep)

  /** What the loop knows when it plans. */
  datatype Knowledge = Knowledge(
    next: u64, tipHeight: u64, confirmations: u64, pairs: seq<Pair>, skipBlocks: u64, creditedHeight: u64,
    gracePassed: bool, sender: Pubkey)

  predicate SkipReady(k: Knowledge, height: u64) {
    k.creditedHeight >= SaturatingAdd(height, k.skipBlocks) && k.gracePassed && height == k.next
  }

  /** The block has `confirmations` and two more on top. */
  ghost predicate IsDeep(k: Knowledge, height: u64) { k.tipHeight >= height + k.confirmations + 2 }

  /** The height is at the cursor, and both waits of a skip are over. */
  ghost predicate MaySkip(k: Knowledge, height: u64) {
    k.creditedHeight >= Min(height + k.skipBlocks, U64_MAX) && k.gracePassed && height == k.next
  }

  /** The step that the plan has for a height that it read. */
  ghost predicate StepFor(k: Knowledge, height: u64, block: ActiveBlock, step: SettleStep) {
    && IsDeep(k, height)
    && step.Send? && step.blockHash == block.hash
    && match block.commitment
       case None => step.solanaBlock == ZERO_HASH && step.payee == k.sender
       case Some(commitment) =>
         || (Pair(height, step.solanaBlock, step.payee) in k.pairs && OfPair(step.solanaBlock, step.payee) == commitment)
         || (MaySkip(k, height) && step.solanaBlock == ZERO_HASH && step.payee == k.sender
             && forall p :: p in k.pairs && p.height == height ==> p.CommitmentOf() != commitment)
  }

  /** The plan must stop at this height: it is not deep enough, not read, or its
      commitment has no pair and cannot skip yet. */
  ghost predicate MustStop(k: Knowledge, height: u64, read: Result<Option<ActiveBlock>, PlanError>) {
    || !IsDeep(k, height)
    || read == Ok(None)
    || (read.Ok? && read.value.Some? && read.value.value.commitment.Some?
        && !MaySkip(k, height)
        && forall p :: p in k.pairs && p.height == height ==> p.CommitmentOf() != read.value.value.commitment.value)
  }

  ghost predicate PlannedAt(k: Knowledge, blockAt: BlockAt, plan: seq<Planned>, i: nat)
    requires i < |plan|
  {
    && plan[i].height == k.next + i
    && blockAt(plan[i].height).Ok? && blockAt(plan[i].height).value.Some?
    && StepFor(k, plan[i].height, blockAt(plan[i].height).value.value, plan[i].step)
  }

  /** The plan holds a good step for each height from the cursor up, and it is
      shorter than it may be only where it must stop. */
  ghost predicate IsPlan(k: Knowledge, blockAt: BlockAt, plan: seq<Planned>) {
    && |plan| <= SETTLE_STEPS
    && (forall i :: 0 <= i < |plan| ==> PlannedAt(k, blockAt, plan, i))
    && (|plan| < SETTLE_STEPS ==>
          k.next + |plan| <= U64_MAX && MustStop(k, k.next + |plan|, blockAt(k.next + |plan|)))
  }

  lemma {:induction false} NextSettleIs(k: Knowledge, height: u64, block: Option<ActiveBlock>)
    requires SettleIsReady(height, k.tipHeight, k.confirmations)
    ensures var step := NextSettle(height, k.tipHeight, k.confirmations, block, k.pairs, SkipReady(k, height), k.sender);
            if step.Wait? then MustStop(k, height, Ok(block))
            else block.Some? && StepFor(k, height, block.value, step)
  {
  }

  method PlanSettles(k: Knowledge, blockAt: BlockAt) returns (r: Result<seq<Planned>, PlanError>)
    ensures r.Ok? ==> IsPlan(k, blockAt, r.value)
    ensures r.Err? ==> exists h: u64 :: k.next <= h < k.next + SETTLE_STEPS
                         && SettleIsReady(h, k.tipHeight, k.confirmations) && blockAt(h) == Err(r.error)
  {
    var plan := [];
    var height: u64 := k.next;
    var end := SaturatingAdd(k.next, SETTLE_STEPS);
    while height < end
      invariant k.next <= height <= end && |plan| == height - k.next
      invariant forall i :: 0 <= i < |plan| ==> PlannedAt(k, blockAt, plan, i)
    {
      if !SettleIsReady(height, k.tipHeight, k.confirmations) { return Ok(plan); }
      var block := blockAt(height);
      if block.Err? { return Err(block.error); }
      var step := NextSettle(height, k.tipHeight, k.confirmations, block.value, k.pairs, SkipReady(k, height), k.sender);
      NextSettleIs(k, height, block.value);
      if step.Wait? { return Ok(plan); }
      ghost var before := plan;
      plan := plan + [Planned(height, step)];
      forall i | 0 <= i < |plan| ensures PlannedAt(k, blockAt, plan, i) {
        if i < |before| { assert PlannedAt(k, blockAt, before, i); }
      }
      height := height + 1;
    }
    if |plan| < SETTLE_STEPS { assert !SettleIsReady(height, k.tipHeight, k.confirmations); }
    return Ok(plan);
  }

  // ------------------------------------------------- the program takes the plan

  /** A truthful read of a stable active chain. */
  ghost predicate ReadsChain(chain: seq<Block>, blockAt: BlockAt) {
    forall h: u64 :: blockAt(h).Ok? && blockAt(h).value.Some? ==> IsBlockAt(chain, h, blockAt(h).value.value)
  }

  ghost predicate IsBlockAt(chain: seq<Block>, h: u64, b: ActiveBlock) {
    h < |chain| && b == ActiveBlock(chain[h].hash, chain[h].commitment)
  }

  /** The bank's own part of an answer. */
  datatype BankPart = BankPart(recorded: bool, creditedHeight: u64, creditsActive: bool)

  /** The answer of a truthful validator about the active chain. */
  function BmmAnswerOf(chain: seq<Block>, height: u64, blockHash: Hash, solanaBlock: Hash, bank: BankPart)
    : Option<BmmAnswer>
  {
    if height < |chain| && chain[height].hash == blockHash
    then Some(BmmAnswer(height, blockHash, chain[height].commitment, solanaBlock,
                        bank.recorded, bank.creditedHeight, bank.creditsActive))
    else None
  }

  /** One send: the bank before it, the slot and the bank's part of the answer. */
  datatype Landing = Landing(s: State, slot: u64, bank: BankPart)

  ghost function Settled(chain: seq<Block>, l: Landing, p: Planned): Result<State, BridgeError>
    requires p.step.Send?
  {
    var answer := BmmAnswerOf(chain, p.height, p.step.blockHash, p.step.solanaBlock, l.bank);
    SettleBmm(l.s, p.height, p.step.blockHash, p.step.solanaBlock, Meta(p.step.payee, true), answer, l.slot)
  }

  /** The bank when the loop planned, or later with no other settle: the cursor
      is the same, and the credits did not fall. */
  ghost predicate StillFits(k: Knowledge, s: State, slot: u64, cursor: nat) {
    && s.config.bmmNextHeight == cursor
    && s.config.creditedHeight >= k.creditedHeight
    && s.config.bmmSkipBlocks == k.skipBlocks
    && (cursor == k.next && k.gracePassed ==> slot >= SaturatingAdd(s.config.bmmNextSinceSlot, SKIP_GRACE_SLOTS))
    && s.config.bmmPaidTotal + s.Lamports(TREASURY) <= U64_MAX
  }

  /** The program takes each planned step at its place. */
  lemma {:induction false} PlannedStepLands(k: Knowledge, chain: seq<Block>, block: ActiveBlock, l: Landing, p: Planned)
    requires IsBlockAt(chain, p.height, block) && StepFor(k, p.height, block, p.step)
    requires StillFits(k, l.s, l.slot, p.height)
    ensures Settled(chain, l, p).Ok?
    ensures Settled(chain, l, p).value.config.bmmNextHeight == p.height + 1
  {
    var s := l.s;
    var answer := BmmAnswerOf(chain, p.height, p.step.blockHash, p.step.solanaBlock, l.bank);
    hide StepFor;
    hide PayTreasury; hide SettleVerdict;
  }

  /** A planned step for a commitment whose pair was published pays its payee
      everything above the reserve, when the bank of the pair was recorded, its
      credits were active up to the lag, and the payout fits. */
  lemma {:induction false} PairedStepPays(
    k: Knowledge, chain: seq<Block>, block: ActiveBlock, l: Landing, p: Planned, pair: Pair)
    requires IsBlockAt(chain, p.height, block) && StepFor(k, p.height, block, p.step)
    requires StillFits(k, l.s, l.slot, p.height)
    requires pair in k.pairs && pair.height == p.height && block.commitment == Some(pair.CommitmentOf())
    requires l.bank.recorded && l.bank.creditsActive && l.bank.creditedHeight + l.s.config.depositLag >= p.height
    requires SettleRun.CanBePaid(l.s, Meta(pair.payee, true), SettleRun.AboveReserve(l.s))
    ensures Settled(chain, l, p).Ok?
    ensures var after := Settled(chain, l, p).value;
            && after.Lamports(pair.payee) == l.s.Lamports(pair.payee) + SettleRun.AboveReserve(l.s)
            && after.Lamports(TREASURY) == Min(l.s.Lamports(TREASURY), l.s.rent)
  {
    hide StillFits; hide SettleBmm; hide SettleRun.CanBePaid; hide SettleRun.AboveReserve;
    PlannedStepLands(k, chain, block, l, p);
    assert OfPair(p.step.solanaBlock, p.step.payee) == pair.CommitmentOf();
    var answer := BmmAnswerOf(chain, p.height, p.step.blockHash, p.step.solanaBlock, l.bank);
    SettleRun.ValidCheckpointsArePaid(
      l.s, p.height, p.step.blockHash, p.step.solanaBlock, Meta(p.step.payee, true), answer, l.slot);
  }

  /** `landings[i]` is where the loop sends step `i`: the bank after the step
      before it, or later with no other settle. */
  ghost predicate Sends(k: Knowledge, chain: seq<Block>, plan: seq<Planned>, landings: seq<Landing>) {
    && |landings| == |plan|
    && forall i :: 0 <= i < |plan| ==> FitsAfter(k, chain, plan, landings, i)
  }

  ghost predicate FitsAfter(k: Knowledge, chain: seq<Block>, plan: seq<Planned>, landings: seq<Landing>, i: nat)
    requires i < |plan| == |landings|
  {
    if i == 0 then StillFits(k, landings[0].s, landings[0].slot, k.next)
    else
      plan[i - 1].step.Send? && Settled(chain, landings[i - 1], plan[i - 1]).Ok? ==>
        StillFits(k, landings[i].s, landings[i].slot,
                  Settled(chain, landings[i - 1], plan[i - 1]).value.config.bmmNextHeight)
  }

  /** On a stable active chain with no other settler, every step of the plan
      lands, and the cursor moves by exactly the plan length. */
  lemma {:induction false} PlanLands(
    k: Knowledge, chain: seq<Block>, blockAt: BlockAt, plan: seq<Planned>, landings: seq<Landing>, n: nat)
    requires IsPlan(k, blockAt, plan) && ReadsChain(chain, blockAt) && Sends(k, chain, plan, landings)
    requires n <= |plan|
    ensures forall i :: 0 <= i < n ==> plan[i].step.Send? && Settled(chain, landings[i], plan[i]).Ok?
    ensures n > 0 ==> Settled(chain, landings[n - 1], plan[n - 1]).value.config.bmmNextHeight == k.next + n
  {
    hide Settled; hide StepFor; hide StillFits; hide ReadsChain; hide MustStop;
    if n > 0 {
      PlanLands(k, chain, blockAt, plan, landings, n - 1);
      assert PlannedAt(k, blockAt, plan, n - 1) && FitsAfter(k, chain, plan, landings, n - 1);
      StepLandsAt(k, chain, blockAt, plan, landings, n - 1);
    }
  }

  lemma {:induction false} StepLandsAt(
    k: Knowledge, chain: seq<Block>, blockAt: BlockAt, plan: seq<Planned>, landings: seq<Landing>, i: nat)
    requires ReadsChain(chain, blockAt) && i < |plan| == |landings| && PlannedAt(k, blockAt, plan, i)
    requires StillFits(k, landings[i].s, landings[i].slot, k.next + i)
    ensures plan[i].step.Send? && Settled(chain, landings[i], plan[i]).Ok?
    ensures Settled(chain, landings[i], plan[i]).value.config.bmmNextHeight == k.next + i + 1
  {
    var block := blockAt(plan[i].height).value.value;
    assert IsBlockAt(chain, plan[i].height, block);
    assert plan[i].step.Send?;
    PlannedStepLands(k, chain, block, landings[i], plan[i]);
  }
}
