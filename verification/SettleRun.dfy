/** Every run of `settle_bmm`: the cursor, the payouts of the treasury and the
    skipped heights. */
module SettleRun {
  import opened Prelude
  import opened Bridge
  import opened Ledger

  /** A settle that landed. `skip`: its commitment has no pair. `valid`: its
      checkpoint is valid and its payee can take the payout. `feesBefore`: the
      fees that the treasury got before it. */
  datatype Settled = Settled(
    height: nat, slot: nat, skip: bool, valid: bool, payee: Pubkey, paid: nat, feesBefore: nat)

  datatype Run = Run(s: State, slot: u64, fees: nat, log: seq<Settled>)

  /** `Fee`: lamports that reach the treasury, as the fees of a block or as a
      transfer. `Tick`: the clock of the next block. `Other`: a transaction that
      leaves the treasury and the BMM cursor alone. */
  datatype Step =
    | Settle(height: u64, blockHash: Hash, solanaBlock: Hash, payee: Meta, answer: Option<BmmAnswer>)
    | Fee(lamports: u64)
    | Tick(slot: u64)
    | Other(after: State)

  ghost predicate LeavesBmm(s: State, after: State) {
    && after.rent == s.rent
    && after.Lamports(TREASURY) == s.Lamports(TREASURY)
    && after.config.bmmNextHeight == s.config.bmmNextHeight
    && after.config.bmmPaidTotal == s.config.bmmPaidTotal
    && after.config.bmmNextSinceSlot == s.config.bmmNextSinceSlot
  }

  /** The commitment of the answer is not the hash of the named pair. */
  predicate IsSkip(a: BmmAnswer, solanaBlock: Hash, payee: Pubkey) {
    a.commitment.Some? && a.commitment.value != OfPair(solanaBlock, payee)
  }

  /** The commitment is that of the pair, the bank of the pair was recorded, its
      credits were active, and they had come up to the lag. */
  ghost predicate IsValid(s: State, height: u64, solanaBlock: Hash, payee: Pubkey, answer: Option<BmmAnswer>) {
    && answer.Some? && answer.value.commitment == Some(OfPair(solanaBlock, payee))
    && answer.value.recorded && answer.value.creditsActive
    && answer.value.creditedHeight + s.config.depositLag >= height
  }

  /** What the treasury holds above its reserve. */
  ghost function AboveReserve(s: State): nat { Max(s.Lamports(TREASURY) - s.rent, 0) }

  /** An ordinary account that the payout fits into. */
  ghost predicate CanBePaid(s: State, payee: Meta, payout: nat) {
    && payee.key !in PDAS && !s.At(payee.key).ours && !s.At(payee.key).reserved && payee.writable
    && s.At(payee.key).rentFloor <= s.Lamports(payee.key) + payout <= U64_MAX
  }

  ghost function Next(r: Run, step: Step): Run {
    match step
    case Settle(height, blockHash, solanaBlock, payee, answer) =>
      (match SettleBmm(r.s, height, blockHash, solanaBlock, payee, answer, r.slot)
       case Err(_) => r
       case Ok(s) =>
         var paid := Max(0, s.config.bmmPaidTotal - r.s.config.bmmPaidTotal);
         var valid := IsValid(r.s, height, solanaBlock, payee.key, answer) && CanBePaid(r.s, payee, AboveReserve(r.s));
         var settled :=
           Settled(height, r.slot, IsSkip(answer.value, solanaBlock, payee.key), valid, payee.key, paid, r.fees);
         r.(s := s, log := r.log + [settled]))
    case Fee(lamports) =>
      if r.s.Lamports(TREASURY) + lamports > U64_MAX then r
      else
        var treasury := r.s.At(TREASURY);
        var filled := treasury.(lamports := treasury.lamports + lamports);
        r.(s := r.s.(accounts := r.s.accounts[TREASURY := filled]), fees := r.fees + lamports)
    case Tick(slot) => if slot >= r.slot then r.(slot := slot) else r
    case Other(after) => if LeavesBmm(r.s, after) then r.(s := after) else r
  }

  ghost function After(r: Run, steps: seq<Step>): Run {
    if steps == [] then r else Next(After(r, steps[..|steps| - 1]), steps[|steps| - 1])
  }

  // -------------------------------------------------------------- what it keeps

  ghost function SumPaid(log: seq<Settled>): nat {
    if log == [] then 0 else SumPaid(log[..|log| - 1]) + log[|log| - 1].paid
  }

  /** Slots and fees do not fall, and an unpaired commitment waits for the grace
      slots after the settle before it, or up to the top of the clock. */
  ghost predicate Waited(log: seq<Settled>, i: nat)
    requires i < |log|
  {
    && (i > 0 ==> log[i - 1].slot <= log[i].slot && log[i - 1].feesBefore <= log[i].feesBefore)
    && (i > 0 && log[i].skip ==> log[i].slot >= Min(log[i - 1].slot + SKIP_GRACE_SLOTS, U64_MAX))
    && (log[i].skip ==> log[i].paid == 0)
  }

  ghost predicate LogInv(start: State, r: Run) {
    && (forall i :: 0 <= i < |r.log| ==> r.log[i].height == start.config.bmmNextHeight + i && Waited(r.log, i))
    && (r.log != [] ==> r.log[|r.log| - 1].slot == r.s.config.bmmNextSinceSlot <= r.slot
                        && r.log[|r.log| - 1].feesBefore <= r.fees)
  }

  ghost predicate MoneyInv(start: State, r: Run) {
    && r.s.rent == start.rent
    && r.s.config.bmmPaidTotal == start.config.bmmPaidTotal + SumPaid(r.log)
    && r.s.Lamports(TREASURY) + SumPaid(r.log) == start.Lamports(TREASURY) + r.fees
  }

  /** What the treasury held above its reserve before settle `i`. */
  ghost function Above(start: State, log: seq<Settled>, i: nat): int
    requires i < |log|
  {
    start.Lamports(TREASURY) + log[i].feesBefore - SumPaid(log[..i]) - start.rent
  }

  /** A valid settle pays everything above the reserve, any other one nothing. */
  ghost predicate PaysAll(start: State, log: seq<Settled>, i: nat)
    requires i < |log|
  {
    log[i].paid == if log[i].valid then Max(Above(start, log, i), 0) else 0
  }

  ghost predicate Inv(start: State, r: Run) {
    && LogInv(start, r) && MoneyInv(start, r)
    && (forall i :: 0 <= i < |r.log| ==> PaysAll(start, r.log, i))
    && r.s.config.bmmNextHeight == start.config.bmmNextHeight + |r.log|
  }

  lemma {:induction false} SkipPaysNothing(
    s: State, height: u64, blockHash: Hash, solanaBlock: Hash, payee: Meta, answer: Option<BmmAnswer>, slot: u64)
    requires SettleBmm(s, height, blockHash, solanaBlock, payee, answer, slot).Ok?
    ensures var after := SettleBmm(s, height, blockHash, solanaBlock, payee, answer, slot).value;
            && answer.Some?
            && (IsSkip(answer.value, solanaBlock, payee.key) ==>
                  && after.config.bmmPaidTotal == s.config.bmmPaidTotal
                  && slot >= Min(s.config.bmmNextSinceSlot + SKIP_GRACE_SLOTS, U64_MAX)
                  && s.config.creditedHeight >= Min(height + s.config.bmmSkipBlocks, U64_MAX))
  {
  }

  /** Who gains lamports: the payee whose pair matches, when the
      block is recorded, its bank is live and credited up to the lag, and the
      payee is no account of the program. It gets exactly what the total grows. */
  lemma {:induction false} OnlyValidCheckpointsArePaid(
    s: State, height: u64, blockHash: Hash, solanaBlock: Hash, payee: Meta, answer: Option<BmmAnswer>, slot: u64)
    requires SettleBmm(s, height, blockHash, solanaBlock, payee, answer, slot).Ok?
    ensures var after := SettleBmm(s, height, blockHash, solanaBlock, payee, answer, slot).value;
            var paid := after.config.bmmPaidTotal - s.config.bmmPaidTotal;
            && paid >= 0
            && (paid > 0 ==>
                  && answer.Some? && answer.value.commitment == Some(OfPair(solanaBlock, payee.key))
                  && answer.value.recorded && answer.value.creditsActive
                  && answer.value.creditedHeight + s.config.depositLag >= height
                  && payee.key !in PDAS)
            && (forall key :: key != TREASURY ==>
                  after.Lamports(key) == s.Lamports(key) + if key == payee.key then paid else 0)
  {
    var payout := SaturatingSub(s.Lamports(TREASURY), s.rent);
    if payout > 0 && payee.key !in PDAS && Transfer(s, TREASURY, payee.key, payout).Ok? {
      TransferMoves(s, TREASURY, payee.key, payout);
    }
  }

  /** A settle that lands pays if and only if its checkpoint is valid and the
      payee can take the payout. It pays everything above the reserve: the payee
      gains it, and the treasury keeps exactly the reserve. */
  lemma {:induction false} ValidCheckpointsArePaid(
    s: State, height: u64, blockHash: Hash, solanaBlock: Hash, payee: Meta, answer: Option<BmmAnswer>, slot: u64)
    requires SettleBmm(s, height, blockHash, solanaBlock, payee, answer, slot).Ok?
    ensures var after := SettleBmm(s, height, blockHash, solanaBlock, payee, answer, slot).value;
            if IsValid(s, height, solanaBlock, payee.key, answer) && CanBePaid(s, payee, AboveReserve(s)) then
              && after.Lamports(payee.key) == s.Lamports(payee.key) + AboveReserve(s)
              && after.Lamports(TREASURY) == Min(s.Lamports(TREASURY), s.rent)
              && after.config.bmmPaidTotal == s.config.bmmPaidTotal + AboveReserve(s)
            else
              && (forall key :: after.Lamports(key) == s.Lamports(key))
              && after.config.bmmPaidTotal == s.config.bmmPaidTotal
  {
    var payout := SaturatingSub(s.Lamports(TREASURY), s.rent);
    if payout > 0 && payee.key !in PDAS && Transfer(s, TREASURY, payee.key, payout).Ok? {
      TransferMoves(s, TREASURY, payee.key, payout);
    }
  }

  /** The program takes the settle of a valid checkpoint at the cursor whose
      payee can take the payout, while the counters have room. */
  lemma {:induction false} ValidCheckpointsLand(
    s: State, height: u64, blockHash: Hash, solanaBlock: Hash, payee: Meta, answer: Option<BmmAnswer>, slot: u64)
    requires height == s.config.bmmNextHeight < U64_MAX
    requires answer.Some? && answer.value.height == height
    requires answer.value.blockHash == blockHash && answer.value.solanaBlock == solanaBlock
    requires IsValid(s, height, solanaBlock, payee.key, answer)
    requires CanBePaid(s, payee, AboveReserve(s)) && s.config.bmmPaidTotal + AboveReserve(s) <= U64_MAX
    ensures SettleBmm(s, height, blockHash, solanaBlock, payee, answer, slot).Ok?
  {
  }

  lemma {:induction false} SettleKeeps(start: State, r: Run, step: Step)
    requires Inv(start, r) && r.s.config.bmmNextSinceSlot <= r.slot && step.Settle?
    ensures Inv(start, Next(r, step))
  {
    var landed := SettleBmm(r.s, step.height, step.blockHash, step.solanaBlock, step.payee, step.answer, r.slot);
    if landed.Ok? {
      SettleEffect(r.s, step.height, step.blockHash, step.solanaBlock, step.payee, step.answer, r.slot);
      SkipPaysNothing(r.s, step.height, step.blockHash, step.solanaBlock, step.payee, step.answer, r.slot);
      ValidCheckpointsArePaid(r.s, step.height, step.blockHash, step.solanaBlock, step.payee, step.answer, r.slot);
      hide SettleBmm; hide CanBePaid; hide IsValid;
      LogGrows(start, r, Next(r, step));
    }
  }

  lemma {:induction false} SumPaidStep(log: seq<Settled>)
    requires log != []
    ensures SumPaid(log) == SumPaid(log[..|log| - 1]) + log[|log| - 1].paid
  {
  }

  /** `next` is `r` after one settle that landed. */
  ghost predicate Continues(r: Run, next: Run) {
    && next.slot == r.slot && next.fees == r.fees
    && next.log != [] && next.log[..|next.log| - 1] == r.log
    && var e := next.log[|next.log| - 1];
       && e.height == r.s.config.bmmNextHeight && e.slot == r.slot && e.feesBefore == r.fees
       && (e.skip ==> e.paid == 0 && r.slot >= Min(r.s.config.bmmNextSinceSlot + SKIP_GRACE_SLOTS, U64_MAX))
       && e.paid == (if e.valid then AboveReserve(r.s) else 0)
       && next.s.config.bmmPaidTotal == r.s.config.bmmPaidTotal + e.paid
       && next.s.Lamports(TREASURY) == r.s.Lamports(TREASURY) - e.paid
       && next.s.config.bmmNextHeight == r.s.config.bmmNextHeight + 1
       && next.s.config.bmmNextSinceSlot == r.slot && next.s.rent == r.s.rent
  }

  /** One more entry that continues the log keeps every clause. */
  lemma {:induction false} LogGrows(start: State, r: Run, next: Run)
    requires Inv(start, r) && r.s.config.bmmNextSinceSlot <= r.slot && Continues(r, next)
    ensures Inv(start, next)
  {
    hide SumPaid; hide PaysAll; hide AboveReserve; hide Waited;
    assert |next.log| == |r.log| + 1;
    hide Inv; hide Continues;
    forall i | 0 <= i < |next.log|
      ensures next.log[i].height == start.config.bmmNextHeight + i && Waited(next.log, i) && PaysAll(start, next.log, i)
    {
      if i < |r.log| {
        OldEntry(start, r, next, i);
      } else {
        NewEntry(start, r, next, i);
      }
    }
    EntriesMakeTheLog(start, r, next);
  }

  lemma {:induction false} EntriesMakeTheLog(start: State, r: Run, next: Run)
    requires Inv(start, r) && Continues(r, next)
    requires forall i :: 0 <= i < |next.log| ==>
               next.log[i].height == start.config.bmmNextHeight + i && Waited(next.log, i) && PaysAll(start, next.log, i)
    ensures Inv(start, next)
  {
    hide SumPaid; hide PaysAll; hide AboveReserve; hide Waited;
    SumPaidStep(next.log);
  }

  lemma {:induction false} OldEntry(start: State, r: Run, next: Run, i: nat)
    requires Inv(start, r) && Continues(r, next) && i < |r.log| < |next.log|
    ensures next.log[i].height == start.config.bmmNextHeight + i && Waited(next.log, i) && PaysAll(start, next.log, i)
  {
    hide MoneyInv; hide SumPaid; hide AboveReserve;
    var log, more := r.log, next.log;
    assert Waited(log, i) && PaysAll(start, log, i);
    assert more[..i] == log[..i];
    assert more[i] == log[i] && (i > 0 ==> more[i - 1] == log[i - 1]);
  }

  lemma {:induction false} NewEntry(start: State, r: Run, next: Run, n: nat)
    requires Inv(start, r) && r.s.config.bmmNextSinceSlot <= r.slot && Continues(r, next)
    requires n == |next.log| - 1 == |r.log|
    ensures next.log[n].height == start.config.bmmNextHeight + n && Waited(next.log, n) && PaysAll(start, next.log, n)
  {
    hide SumPaid;
    assert next.log[..n] == r.log;
    assert n > 0 ==> next.log[n - 1] == r.log[n - 1];
  }

  lemma {:induction false} NextKeeps(start: State, r: Run, step: Step)
    requires Inv(start, r) && r.s.config.bmmNextSinceSlot <= r.slot
    ensures Inv(start, Next(r, step)) && Next(r, step).s.config.bmmNextSinceSlot <= Next(r, step).slot
  {
    if step.Settle? {
      SettleKeeps(start, r, step);
    } else {
      hide SumPaid;
    }
  }

  /** After every run: the cursor moved by one for each settle that landed, in
      order; treasury + paid total = start + all fees; and each payout took
      everything above the reserve. */
  lemma {:induction false} TreasuryIsConserved(start: State, slot: u64, steps: seq<Step>)
    requires start.config.bmmNextSinceSlot <= slot
    ensures var r := After(Run(start, slot, 0, []), steps);
            && Inv(start, r)
            && r.s.config.bmmNextSinceSlot <= r.slot
            && r.s.Lamports(TREASURY) + r.s.config.bmmPaidTotal
                 == start.Lamports(TREASURY) + start.config.bmmPaidTotal + r.fees
  {
    if steps != [] {
      TreasuryIsConserved(start, slot, steps[..|steps| - 1]);
      hide Inv; hide Next;
      NextKeeps(start, After(Run(start, slot, 0, []), steps[..|steps| - 1]), steps[|steps| - 1]);
    }
    hide After; hide LogInv; hide SumPaid;
  }

  // ------------------------------------------------------------- what follows

  ghost function Skips(log: seq<Settled>, i: nat, j: nat): nat
    requires i <= j < |log|
    decreases j - i
  {
    (if log[j].skip then 1 else 0) + if i < j then Skips(log, i, j - 1) else 0
  }

  /** Skips are rare: `n` of them span at least 300 x (n - 1) slots, as long as
      the clock is below its top. */
  lemma {:induction false} SkipsAreRare(log: seq<Settled>, i: nat, j: nat)
    requires i <= j < |log| && forall k :: 0 <= k < |log| ==> Waited(log, k)
    requires log[j].slot < U64_MAX
    ensures log[j].slot - log[i].slot >= SKIP_GRACE_SLOTS * (Skips(log, i, j) - 1)
    ensures log[i].slot <= log[j].slot
    ensures !log[i].skip ==> log[j].slot - log[i].slot >= SKIP_GRACE_SLOTS * Skips(log, i, j)
    decreases j - i
  {
    if i < j {
      assert Waited(log, j);
      SkipsAreRare(log, i, j - 1);
    }
  }

  ghost predicate UnpaidBetween(log: seq<Settled>, i: nat, j: nat)
    requires i < j < |log|
  {
    forall k :: i < k < j ==> log[k].paid == 0
  }

  lemma {:induction false} SumPaidBetween(log: seq<Settled>, i: nat, j: nat)
    requires i < j < |log| && UnpaidBetween(log, i, j)
    ensures SumPaid(log[..j]) == SumPaid(log[..i]) + log[i].paid
    decreases j
  {
    assert log[..j][..j - 1] == log[..j - 1];
    if i + 1 < j {
      SumPaidBetween(log, i, j - 1);
    }
  }

  /** The treasury never falls below the reserve that it started with. */
  lemma {:induction false} AboveIsNotNegative(start: State, log: seq<Settled>, i: nat)
    requires i < |log| && start.Lamports(TREASURY) >= start.rent
    requires forall k :: 0 <= k < |log| ==> Waited(log, k) && PaysAll(start, log, k)
    ensures Above(start, log, i) >= 0
  {
    if i == 0 {
      assert log[..0] == [];
    } else {
      AboveIsNotNegative(start, log, i - 1);
      assert Waited(log, i) && PaysAll(start, log, i - 1);
      assert log[..i][..i - 1] == log[..i - 1];
    }
  }

  /** The fees of skipped, empty and invalid heights roll over: a valid settle
      pays exactly the fees since the valid one before it. */
  lemma {:induction false} FeesRollOver(start: State, slot: u64, steps: seq<Step>, i: nat, j: nat)
    requires start.config.bmmNextSinceSlot <= slot
    requires i < j < |After(Run(start, slot, 0, []), steps).log|
    requires var log := After(Run(start, slot, 0, []), steps).log;
             && log[i].valid && log[j].valid && UnpaidBetween(log, i, j)
             && (start.Lamports(TREASURY) >= start.rent || log[i].paid > 0)
    ensures var log := After(Run(start, slot, 0, []), steps).log;
            log[j].paid == log[j].feesBefore - log[i].feesBefore
  {
    hide After; hide Inv;
    TreasuryIsConserved(start, slot, steps);
    FeesOfALog(start, After(Run(start, slot, 0, []), steps), i, j);
  }

  lemma {:induction false} FeesOfALog(start: State, r: Run, i: nat, j: nat)
    requires Inv(start, r) && i < j < |r.log|
    requires r.log[i].valid && r.log[j].valid && UnpaidBetween(r.log, i, j)
    requires start.Lamports(TREASURY) >= start.rent || r.log[i].paid > 0
    ensures r.log[j].paid == r.log[j].feesBefore - r.log[i].feesBefore
  {
    hide MoneyInv; hide Waited; hide SumPaid;
    SumPaidBetween(r.log, i, j);
    if start.Lamports(TREASURY) >= start.rent { AboveIsNotNegative(start, r.log, i); }
    FeesGrow(r.log, i, j);
    assert PaysAll(start, r.log, i) && PaysAll(start, r.log, j);
  }

  lemma {:induction false} FeesGrow(log: seq<Settled>, i: nat, j: nat)
    requires i <= j < |log| && forall k :: 0 <= k < |log| ==> Waited(log, k)
    ensures log[i].feesBefore <= log[j].feesBefore
    decreases j - i
  {
    if i < j {
      assert Waited(log, j);
      FeesGrow(log, i, j - 1);
    }
  }

  /** The skips of every run. */
  lemma {:induction false} SkipsOfARun(start: State, slot: u64, steps: seq<Step>, i: nat, j: nat)
    requires start.config.bmmNextSinceSlot <= slot
    requires i <= j < |After(Run(start, slot, 0, []), steps).log|
    ensures var log := After(Run(start, slot, 0, []), steps).log;
            || log[j].slot == U64_MAX
            || log[j].slot - log[i].slot >= SKIP_GRACE_SLOTS * (Skips(log, i, j) - 1)
    ensures After(Run(start, slot, 0, []), steps).log[j].slot <= U64_MAX
  {
    hide After; hide Inv;
    TreasuryIsConserved(start, slot, steps);
    SkipsOfALog(start, After(Run(start, slot, 0, []), steps), i, j);
  }

  lemma {:induction false} SkipsOfALog(start: State, r: Run, i: nat, j: nat)
    requires Inv(start, r) && i <= j < |r.log|
    ensures r.log[j].slot == U64_MAX
         || r.log[j].slot - r.log[i].slot >= SKIP_GRACE_SLOTS * (Skips(r.log, i, j) - 1)
    ensures r.log[j].slot <= U64_MAX
  {
    hide MoneyInv; hide PaysAll; hide Waited; hide Skips;
    SlotsGrow(r.log, j, |r.log| - 1);
    if r.log[j].slot < U64_MAX { SkipsAreRare(r.log, i, j); }
  }

  lemma {:induction false} SlotsGrow(log: seq<Settled>, i: nat, j: nat)
    requires i <= j < |log| && forall k :: 0 <= k < |log| ==> Waited(log, k)
    ensures log[i].slot <= log[j].slot
    decreases j - i
  {
    if i < j {
      assert Waited(log, j);
      SlotsGrow(log, i, j - 1);
    }
  }
}
