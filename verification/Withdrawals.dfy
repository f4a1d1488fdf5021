/** What a burn turns into over every run of the two chains: its record, and
    its output in the M6 that eCash pays. */
module Withdrawals {
  import opened Prelude
  import opened Bytes
  import opened Bridge
  import opened ECash
  import opened M6
  import opened Bundle
  import opened Ledger
  import opened World
  import opened WorldInvariant
  import BooksHold

  type BurnStep = s: Step | s.Burn? witness Step.Burn(0, 0, 0, [])

  /** The burns of a run that the program took, oldest first. */
  ghost function Burns(start: World, steps: seq<Step>): seq<BurnStep>
  {
    if steps == [] then []
    else
      var front, last := steps[..|steps| - 1], steps[|steps| - 1];
      Burns(start, front) + if last.Burn? && Next(Run(start, front), last) != Run(start, front) then [last] else []
  }

  /** The satoshis that the user gets on eCash: one for each ten lamports, less
      the fee that the user named. */
  ghost function PayoutOf(burn: BurnStep): int {
    burn.lamports / 10 - burn.feeSats
  }

  /** The record is that of burn `k`: its owner, its amounts and its script. */
  ghost predicate Carries(r: Record, burn: BurnStep, k: nat) {
    && r.index == k && r.owner == burn.user && r.script == burn.script
    && r.burnedLamports == burn.lamports && burn.lamports % 10 == 0
    && r.feeSats == burn.feeSats && r.payoutSats == PayoutOf(burn)
  }

  // ---------------------------------------------------------------- the records

  lemma {:induction false} WithdrawCarries(s: State, burn: BurnStep)
    requires Withdraw(s, burn.user, burn.lamports, burn.feeSats, burn.script).Ok?
    ensures var after := Withdraw(s, burn.user, burn.lamports, burn.feeSats, burn.script).value;
            && s.config.withdrawalCount in after.records
            && Carries(after.records[s.config.withdrawalCount], burn, s.config.withdrawalCount)
  {
  }

  lemma {:induction false} BurnCarries(w: World, step: Step)
    requires step.Burn? && Next(w, step) != w && |w.history| == w.bridge.config.withdrawalCount
    ensures var next, n := Next(w, step), |w.history|;
            |next.history| == n + 1 && next.history[..n] == w.history && Carries(next.history[n], step, n)
  {
    WithdrawCarries(w.bridge, step);
    hide Withdraw; hide Carries;
  }

  lemma {:induction false} OthersWriteNothing(w: World, step: Step)
    requires !step.Burn? || Next(w, step) == w
    ensures Next(w, step).history == w.history
  {
    hide ApplyDeposits; hide CreditDeposits; hide SettleBmm; hide Withdraw; hide DaemonBundle; hide ValidChain;
  }

  ghost predicate AllCarry(history: seq<Record>, burns: seq<BurnStep>) {
    |history| == |burns| && forall k :: 0 <= k < |burns| ==> Carries(history[k], burns[k], k)
  }

  lemma {:induction false} HistoryIsTheBurns(start: World, steps: seq<Step>)
    requires Init(start)
    ensures AllCarry(Run(start, steps).history, Burns(start, steps))
  {
    hide Next; hide Inv; hide Carries;
    if steps == [] {
      assert Run(start, steps).history == [] by { hide ValidChain; hide TotalLamports; }
    } else {
      hide Init;
      var front, last := steps[..|steps| - 1], steps[|steps| - 1];
      var w := Run(start, front);
      HistoryIsTheBurns(start, front);
      CountIsHistory(start, front);
      if last.Burn? && Next(w, last) != w {
        BurnCarries(w, last);
        AllCarryMore(w.history, Burns(start, front), Next(w, last).history, last);
      } else {
        OthersWriteNothing(w, last);
      }
    }
  }

  lemma {:induction false} AllCarryMore(history: seq<Record>, burns: seq<BurnStep>, more: seq<Record>, burn: BurnStep)
    requires AllCarry(history, burns)
    requires |more| == |history| + 1 && more[..|history|] == history && Carries(more[|history|], burn, |history|)
    ensures AllCarry(more, burns + [burn])
  {
    hide Carries;
    forall k | 0 <= k < |more| ensures Carries(more[k], (burns + [burn])[k], k) {
      if k < |history| {
        assert more[k] == more[..|history|][k] == history[k];
        assert Carries(history[k], burns[k], k);
      }
    }
  }

  lemma {:induction false} CountIsHistory(start: World, steps: seq<Step>)
    requires Init(start)
    ensures Inv(Run(start, steps))
    ensures |Run(start, steps).history| == Run(start, steps).bridge.config.withdrawalCount
  {
    InitHolds(start);
    RunKeeps(start, steps);
    hide Init; hide Run; hide ValidRun; hide SumBurned; hide SealInv; hide PayInv; hide ValidChain; hide CursorInv; hide BankInv;
  }

  /** After every run, the records are the burns that the program took, one for
      one: record `k` names the user, the script and the fee of burn `k`, and
      the rest of its lamports as the payout. So does each record in the bank. */
  lemma {:induction false} RecordsAreTheBurns(start: World, steps: seq<Step>)
    requires Init(start)
    ensures var w, burns := Run(start, steps), Burns(start, steps);
            && AllCarry(w.history, burns)
            && forall k: u64 :: k in w.bridge.records ==> k < |burns| && Carries(w.bridge.records[k], burns[k], k)
  {
    HistoryIsTheBurns(start, steps);
    CountIsHistory(start, steps);
    hide Init; hide Run; hide Burns; hide Carries; hide ValidRun; hide SumBurned;
    hide BankInv; hide CursorInv; hide SealInv; hide PayInv; hide ValidChain;
  }

  // ------------------------------------------------------------- the M6 outputs

  ghost function FeesOf(burns: seq<BurnStep>): nat {
    if burns == [] then 0 else FeesOf(burns[..|burns| - 1]) + burns[|burns| - 1].feeSats
  }

  /** The M6 of the burns: their fees in the first output, as eight big-endian
      bytes behind OP_RETURN, then one output for each of them, and the index of
      the first one as the lock time. */
  ghost predicate PaysTheBurns(tx: Blinded, burns: seq<BurnStep>, first: nat) {
    && |tx.output| == 1 + |burns| && tx.lockTime == first
    && tx.output[0].value == 0 && |tx.output[0].script| == 10
    && tx.output[0].script[0] == 0x6a && tx.output[0].script[1] == 8
    && FromBE(tx.output[0].script[2..]) == FeesOf(burns)
    && forall k :: 0 <= k < |burns| ==>
         tx.output[1 + k].value == PayoutOf(burns[k]) && tx.output[1 + k].script == burns[k].script
  }

  lemma {:induction false} PayoutOutputsAt(payouts: seq<Payout>, k: nat)
    requires k < |payouts|
    ensures PayoutOutputs(payouts)[k] == TxOut(payouts[k].sats, payouts[k].script)
  {
    if k < |payouts| - 1 { PayoutOutputsAt(payouts[..|payouts| - 1], k); }
  }

  lemma {:induction false} FeesAdd(records: seq<Record>, burns: seq<BurnStep>, first: nat)
    requires |records| == |burns| && forall k :: 0 <= k < |burns| ==> Carries(records[k], burns[k], first + k)
    ensures SumFees(records) == FeesOf(burns)
  {
    if burns != [] { FeesAdd(records[..|records| - 1], burns[..|burns| - 1], first); }
  }

  lemma {:induction false} BundlePays(records: seq<Record>, burns: seq<BurnStep>, first: nat)
    requires |records| == |burns| > 0 && forall k :: 0 <= k < |burns| ==> Carries(records[k], burns[k], first + k)
    requires FirstIndex(records) <= U32_MAX && SumFees(records) <= U64_MAX
    ensures PaysTheBurns(BundleTx(records), burns, first)
  {
    FeesAdd(records, burns, first);
    FeeReads(SumFees(records));
    hide SumFees; hide FeesOf; hide FeeOutput;
    var tx := BundleTx(records);
    forall k | 0 <= k < |burns|
      ensures tx.output[1 + k].value == PayoutOf(burns[k]) && tx.output[1 + k].script == burns[k].script
    {
      assert Carries(records[k], burns[k], first + k);
      PayoutOutputsAt(PayoutsOf(records), k);
    }
    assert Carries(records[0], burns[0], first);
  }

  lemma {:induction false} FeeReads(fee: u64)
    ensures var out := FeeOutput(fee);
            && out.value == 0 && |out.script| == 10 && out.script[0] == 0x6a && out.script[1] == 8
            && FromBE(out.script[2..]) == fee
  {
    assert FeeOutput(fee).script[2..] == ToBE(fee, 8);
    Pow256Eight();
    BERoundTrip(fee, 8);
  }

  lemma {:induction false} SealedPays(w: World, burns: seq<BurnStep>, n: nat)
    requires RecordInv(w) && SealInv(w) && n < |w.sealed|
    requires AllCarry(w.history, burns)
    ensures var b := w.sealed[n];
            && b.start < b.end <= |burns| && b.id.TxidOf?
            && PaysTheBurns(b.id.blinded, burns[b.start..b.end], b.start)
  {
    hide SumBurned; hide ValidRun; hide Carries; hide CanBuild; hide PaysTheBurns; hide SumFees; hide BundleTx;
    var b := w.sealed[n];
    assert StartsAtEnd(w.sealed, n) && Genuine(w.history, b);
    hide Consecutive; hide AllGenuine; hide StartsAtEnd;
    BuiltFits(w.history[b.start..b.end]);
    PartCarries(w.history, burns, b.start, b.end);
    BundlePays(w.history[b.start..b.end], burns[b.start..b.end], b.start);
  }

  lemma {:induction false} PartCarries(history: seq<Record>, burns: seq<BurnStep>, start: nat, end: nat)
    requires AllCarry(history, burns) && start <= end <= |burns|
    ensures forall k :: 0 <= k < end - start ==> Carries(history[start..end][k], burns[start..end][k], start + k)
  {
    hide Carries;
    forall k | 0 <= k < end - start ensures Carries(history[start..end][k], burns[start..end][k], start + k) {
      assert Carries(history[start + k], burns[start + k], start + k);
    }
  }

  lemma {:induction false} BuiltFits(records: seq<Record>)
    requires CanBuild(records)
    ensures SumFees(records) <= U64_MAX
  {
    hide SumFees;
  }

  /** After every run, the M6 of each sealed bundle pays exactly the burns of
      its range: to the script of each burn one output of its payout, and their
      fees to the miners. */
  lemma {:induction false} BundlesPayTheBurns(start: World, steps: seq<Step>, n: nat)
    requires Init(start) && n < |Run(start, steps).sealed|
    ensures var b, burns := Run(start, steps).sealed[n], Burns(start, steps);
            && b.start < b.end <= |burns| && b.id.TxidOf?
            && PaysTheBurns(b.id.blinded, burns[b.start..b.end], b.start)
  {
    RecordsAreTheBurns(start, steps);
    CountIsHistory(start, steps);
    hide Init; hide Run; hide Burns; hide RecordInv; hide SealInv; hide AllCarry; hide PaysTheBurns;
    hide BankInv; hide CursorInv; hide PayInv; hide ValidChain;
    SealedPays(Run(start, steps), Burns(start, steps), n);
  }

  // --------------------------------------------------------- which burns it takes

  /** The program takes a burn if and only if the user signs for whole satoshis
      that it holds and that were credited and not burned so far, to a standard
      script, with at least 1000 satoshis of fee and 546 of payout, and gifts
      back the float. */
  lemma {:induction false} BurnIsTaken(w: World, step: Step)
    requires Inv(w) && step.Burn?
    ensures Next(w, step) != w <==>
            && step.user !in PDAS && step.lamports <= w.bridge.Lamports(step.user)
            && step.lamports <= w.credited - w.burned
            && step.lamports % 10 == 0 && step.feeSats >= 1_000 && PayoutOf(step) >= 546
            && IsStandardScript(step.script)
            && w.gifts >= w.bridge.config.floatLamports
            && |w.history| < U64_MAX
  {
    hide Inv; hide IsStandardScript; hide Withdraw;
    BankFacts(w, step.user);
    TakenMoves(w, step);
    hide Next;
    WithdrawIsTaken(w.bridge, step);
  }

  lemma {:induction false} TakenMoves(w: World, step: Step)
    requires step.Burn?
    ensures Next(w, step) != w <==> Withdraw(w.bridge, step.user, step.lamports, step.feeSats, step.script).Ok?
  {
    if Withdraw(w.bridge, step.user, step.lamports, step.feeSats, step.script).Ok? {
      WithdrawCarries(w.bridge, step);
    }
    hide Withdraw; hide Carries;
  }

  /** What the invariant says about the bank that a burn meets. */
  lemma {:induction false} BankFacts(w: World, user: Pubkey)
    requires Inv(w)
    ensures var c := w.bridge.config;
            && c.peggedLamports == w.credited - w.burned
            && c.vaultSupply + w.gifts == w.bridge.Lamports(VAULT) + c.peggedLamports <= U64_MAX
            && c.withdrawalCount == |w.history| && c.withdrawalCount !in w.bridge.records
            && (user != VAULT ==> w.bridge.Lamports(VAULT) + w.bridge.Lamports(user) <= U64_MAX)
  {
    hide CursorInv; hide SealInv; hide PayInv; hide ValidChain; hide ValidRun; hide SumBurned; hide TotalLamports;
    hide TreasurySats; hide BooksHold.AwaitingLamports; hide BooksHold.PendingLamports;
    BooksHold.ExactTerms(w);
    if user != VAULT { BankHasRoom(w, user); }
  }

  lemma {:induction false} BankHasRoom(w: World, user: Pubkey)
    requires BankInv(w) && user != VAULT
    ensures w.bridge.Lamports(VAULT) + w.bridge.Lamports(user) <= MAX_LAMPORTS
  {
    TwoAtMostTotal(w.bridge, VAULT, user);
  }

  lemma {:induction false} TwoAtMostTotal(s: State, a: Pubkey, b: Pubkey)
    requires a != b
    ensures s.Lamports(a) + s.Lamports(b) <= TotalLamports(s)
  {
    if a in s.accounts {
      TotalWithout(s.accounts, a);
      if b in s.accounts { TotalWithout(s.accounts - {a}, b); }
    } else {
      HoldsAtMostTotal(s, b);
    }
  }

  lemma {:induction false} WithdrawIsTaken(s: State, step: Step)
    requires step.Burn? && s.config.withdrawalCount !in s.records
    requires step.user != VAULT ==> s.Lamports(VAULT) + s.Lamports(step.user) <= U64_MAX
    ensures Withdraw(s, step.user, step.lamports, step.feeSats, step.script).Ok? <==>
            && step.user !in PDAS && step.lamports <= s.Lamports(step.user)
            && step.lamports <= s.config.peggedLamports
            && step.lamports % 10 == 0 && step.feeSats >= 1_000 && PayoutOf(step) >= 546
            && IsStandardScript(step.script)
            && s.config.vaultSupply + s.config.floatLamports <= s.Lamports(VAULT) + s.config.peggedLamports <= U64_MAX
            && s.config.withdrawalCount < U64_MAX
  {
    hide IsStandardScript;
  }

  /** The program closes a record if and only if it is in the bank, its burn is
      paid, and the owner of its burn asks. Then that record is gone, and no
      other one changes. */
  lemma {:induction false} CloseIsTaken(start: World, steps: seq<Step>, step: Step)
    requires Init(start) && step.Close?
    ensures var w, burns := Run(start, steps), Burns(start, steps);
            var next := Next(w, step);
            && (next != w <==>
                  && step.index in w.bridge.records && step.index < w.bridge.config.paidThrough
                  && step.index < |burns| && burns[step.index].user == step.owner)
            && (next != w ==>
                  && next == w.(bridge := w.bridge.(records := next.bridge.records))
                  && forall k: u64 :: k in next.bridge.records <==> k != step.index && k in w.bridge.records)
            && forall k: u64 :: k in next.bridge.records ==> next.bridge.records[k] == w.bridge.records[k]
  {
    RecordsAreTheBurns(start, steps);
    hide Init; hide Run; hide Burns; hide AllCarry;
    CloseIs(Run(start, steps), step);
    hide Next;
  }

  lemma {:induction false} CloseIs(w: World, step: Step)
    requires step.Close?
    ensures var next, r := Next(w, step), w.bridge.records;
            && (next != w <==>
                  && step.index in r && step.index < w.bridge.config.paidThrough
                  && r[step.index].owner == step.owner)
            && (next != w ==>
                  && next == w.(bridge := w.bridge.(records := next.bridge.records))
                  && forall k: u64 :: k in next.bridge.records <==> k != step.index && k in r)
            && forall k: u64 :: k in next.bridge.records ==> k in r && next.bridge.records[k] == r[k]
  {
    var r := w.bridge.records;
    if step.index in r { assert step.index !in r - {step.index}; }
  }

  // -------------------------------------------------------- the five script forms

  /** Bytes around a hash: the opcodes of one script form. */
  ghost predicate IsForm(script: seq<u8>, head: seq<u8>, hashLen: nat, tail: seq<u8>) {
    exists hash: seq<u8> :: |hash| == hashLen && script == head + hash + tail
  }

  lemma {:induction false} FormIs(script: seq<u8>, head: seq<u8>, hashLen: nat, tail: seq<u8>)
    ensures IsForm(script, head, hashLen, tail) <==>
            && |script| == |head| + hashLen + |tail|
            && script[..|head|] == head && script[|head| + hashLen..] == tail
  {
    if |script| == |head| + hashLen + |tail| && script[..|head|] == head && script[|head| + hashLen..] == tail {
      var hash := script[|head|..|head| + hashLen];
      assert script == head + hash + tail;
    }
    if IsForm(script, head, hashLen, tail) {
      var hash :| |hash| == hashLen && script == head + hash + tail;
    }
  }

  /** The scripts that the program takes are P2PKH, P2SH, P2WPKH, P2WSH and
      P2TR, and no others. */
  lemma {:induction false} StandardForms(script: seq<u8>)
    ensures IsStandardScript(script) <==>
            || IsForm(script, [0x76, 0xa9, 0x14], 20, [0x88, 0xac])
            || IsForm(script, [0xa9, 0x14], 20, [0x87])
            || IsForm(script, [0x00, 0x14], 20, [])
            || IsForm(script, [0x00, 0x20], 32, [])
            || IsForm(script, [0x51, 0x20], 32, [])
  {
    FormIs(script, [0x76, 0xa9, 0x14], 20, [0x88, 0xac]);
    FormIs(script, [0xa9, 0x14], 20, [0x87]);
    FormIs(script, [0x00, 0x14], 20, []);
    FormIs(script, [0x00, 0x20], 32, []);
    FormIs(script, [0x51, 0x20], 32, []);
    hide IsForm;
    assert |script| >= 3 ==> script[..3] == [script[0], script[1], script[2]];
    assert |script| >= 2 ==> script[..2] == [script[0], script[1]];
    assert |script| == 25 ==> script[23..] == [script[23], script[24]];
    assert |script| == 23 ==> script[22..] == [script[22]];
    assert |script| == 22 ==> script[22..] == [];
    assert |script| == 34 ==> script[34..] == [];
  }
}
