/** Where the lamports go: the effect of each instruction of the bridge
    program on the balances, and the conservation of their sum. */
module Ledger {
  import opened Prelude
  import opened Bridge

  ghost function Total(m: map<Pubkey, Account>): nat
    decreases |m|
  {
    if m == map[] then 0
    else
      var k :| k in m;
      m[k].lamports + Total(m - {k})
  }

  lemma {:induction false} TotalWithout(m: map<Pubkey, Account>, k: Pubkey)
    requires k in m
    ensures Total(m) == m[k].lamports + Total(m - {k})
    decreases |m|
  {
    var j :| j in m && Total(m) == m[j].lamports + Total(m - {j});
    if j != k {
      TotalWithout(m - {j}, k);
      TotalWithout(m - {k}, j);
      assert m - {j} - {k} == m - {k} - {j};
    }
  }

  lemma {:induction false} TotalUpdate(m: map<Pubkey, Account>, k: Pubkey, a: Account)
    ensures Total(m[k := a]) == Total(m) + a.lamports - (if k in m then m[k].lamports else 0)
  {
    TotalWithout(m[k := a], k);
    if k in m {
      TotalWithout(m, k);
      assert m[k := a] - {k} == m - {k};
    } else {
      assert m[k := a] - {k} == m;
    }
  }

  ghost function TotalLamports(s: State): nat { Total(s.accounts) }

  lemma {:induction false} HoldsAtMostTotal(s: State, k: Pubkey)
    ensures s.Lamports(k) <= TotalLamports(s)
  {
    if k in s.accounts { TotalWithout(s.accounts, k); }
  }

  /** A transfer moves `lamports` and changes nothing else. */
  lemma {:induction false} TransferMoves(s: State, from: Pubkey, to: Pubkey, lamports: u64)
    requires from != to
    requires Transfer(s, from, to, lamports).Ok?
    ensures var after := Transfer(s, from, to, lamports).value;
            && after == s.(accounts := after.accounts)
            && TotalLamports(after) == TotalLamports(s)
            && after.Lamports(from) == s.Lamports(from) - lamports
            && after.Lamports(to) == s.Lamports(to) + lamports
            && forall k :: k != from && k != to ==> after.Lamports(k) == s.Lamports(k)
  {
    hide Total;
    var source := s.At(from);
    var debited := source.(lamports := source.lamports - lamports);
    TotalUpdate(s.accounts, from, debited);
    var mid := s.(accounts := s.accounts[from := debited]);
    var target := mid.At(to);
    TotalUpdate(mid.accounts, to, target.(lamports := target.lamports + lamports));
  }

  // ---------------------------------------------------------- credit_deposits

  ghost function SumDeposits(deposits: seq<Deposit>): nat {
    if deposits == [] then 0 else deposits[0].valueSats + SumDeposits(deposits[1..])
  }

  lemma {:induction false} SumDepositsSplit(a: seq<Deposit>, b: seq<Deposit>)
    ensures SumDeposits(a + b) == SumDeposits(a) + SumDeposits(b)
  {
    if a == [] {
      assert a + b == b;
    } else {
      assert (a + b)[1..] == a[1..] + b;
      SumDepositsSplit(a[1..], b);
    }
  }

  lemma {:induction false} DepositEffect(t: Tally, d: Deposit)
    requires ApplyDeposit(t, d).Ok?
    ensures var end := ApplyDeposit(t, d).value;
            && end.s == t.s.(accounts := end.s.accounts)
            && TotalLamports(end.s) == TotalLamports(t.s)
            && end.credited + end.stranded == t.credited + t.stranded + 10 * d.valueSats
            && end.credited >= t.credited && end.stranded >= t.stranded
            && end.s.Lamports(VAULT) == t.s.Lamports(VAULT) - (end.credited - t.credited)
            && t.highWater <= d.sequenceNumber < end.highWater
  {
    var lamports: u64 := 10 * d.valueSats;
    if d.target.Some? && CanTake(t.s, t.metas[0], lamports).value && lamports > 0 {
      TransferMoves(t.s, VAULT, d.target.value, lamports);
    }
  }

  lemma {:induction false} DepositsEffect(t: Tally, deposits: seq<Deposit>)
    requires ApplyDeposits(t, deposits).Ok?
    ensures var end := ApplyDeposits(t, deposits).value;
            && end.s == t.s.(accounts := end.s.accounts)
            && TotalLamports(end.s) == TotalLamports(t.s)
            && end.credited + end.stranded == t.credited + t.stranded + 10 * SumDeposits(deposits)
            && end.credited >= t.credited && end.stranded >= t.stranded
            && end.s.Lamports(VAULT) == t.s.Lamports(VAULT) - (end.credited - t.credited)
    decreases |deposits|
  {
    if deposits != [] {
      DepositEffect(t, deposits[0]);
      DepositsEffect(ApplyDeposit(t, deposits[0]).value, deposits[1..]);
    }
  }

  /** A part moves exactly its deposits out of the vault or into the stranded
      counter, and the pegged counter grows by what left the vault. */
  lemma {:induction false} CreditEffect(
    s: State, height: u64, blockHash: Hash, first: u32, count: u8,
    answer: Option<DepositAnswer>, metas: seq<Meta>)
    requires CreditDeposits(s, height, blockHash, first, count, answer, metas).Ok?
    ensures answer.Some?
    ensures var after := CreditDeposits(s, height, blockHash, first, count, answer, metas).value;
            var credited := after.config.peggedLamports - s.config.peggedLamports;
            var stranded := after.config.strandedLamports - s.config.strandedLamports;
            && credited >= 0 && stranded >= 0
            && credited + stranded == 10 * SumDeposits(answer.value.deposits)
            && after.Lamports(VAULT) == s.Lamports(VAULT) - credited
            && TotalLamports(after) == TotalLamports(s)
            && after.records == s.records && after.rent == s.rent
            && after.config == MoveCursor(
                 s.config.(depositHighWater := after.config.depositHighWater,
                           peggedLamports := after.config.peggedLamports,
                           strandedLamports := after.config.strandedLamports),
                 height, blockHash, first + count, answer.value.total)
  {
    DepositsEffect(Tally(s, metas, s.config.depositHighWater, 0, 0), answer.value.deposits);
  }

  lemma {:induction false} WithdrawEffect(s: State, user: Pubkey, lamports: u64, feeSats: u64, script: seq<u8>)
    requires Withdraw(s, user, lamports, feeSats, script).Ok?
    ensures var after := Withdraw(s, user, lamports, feeSats, script).value;
            && user != VAULT
            && after.Lamports(VAULT) == s.Lamports(VAULT) + lamports
            && after.Lamports(user) == s.Lamports(user) - lamports
            && (forall key :: key != VAULT && key != user ==> after.Lamports(key) == s.Lamports(key))
            && after.config.peggedLamports == s.config.peggedLamports - lamports
            && TotalLamports(after) == TotalLamports(s)
  {
    var index := s.config.withdrawalCount;
    var record := Record(index, user, lamports, lamports / LAMPORTS_PER_SAT - feeSats, feeSats, script);
    var pegged := s.config.peggedLamports - lamports;
    var written := s.(config := s.config.(peggedLamports := pegged, withdrawalCount := index + 1),
                      records := s.records[index := record]);
    assert Withdraw(s, user, lamports, feeSats, script) == Transfer(written, user, VAULT, lamports);
    TransferMoves(written, user, VAULT, lamports);
  }

  /** A settle pays either nothing or everything above the reserve, counts what
      it paid, leaves the vault alone and moves the cursor by one. */
  lemma {:induction false} SettleEffect(
    s: State, height: u64, blockHash: Hash, solanaBlock: Hash, payee: Meta, answer: Option<BmmAnswer>, slot: u64)
    requires SettleBmm(s, height, blockHash, solanaBlock, payee, answer, slot).Ok?
    ensures var after := SettleBmm(s, height, blockHash, solanaBlock, payee, answer, slot).value;
            var paid := after.config.bmmPaidTotal - s.config.bmmPaidTotal;
            && height == s.config.bmmNextHeight
            && (paid == 0 || paid == s.Lamports(TREASURY) - s.rent > 0)
            && after.Lamports(TREASURY) == s.Lamports(TREASURY) - paid
            && after.Lamports(VAULT) == s.Lamports(VAULT)
            && TotalLamports(after) == TotalLamports(s)
            && after.records == s.records && after.rent == s.rent
            && after.config == s.config.(bmmPaidTotal := after.config.bmmPaidTotal,
                                         bmmNextHeight := height + 1, bmmNextSinceSlot := slot)
  {
    var payout := SaturatingSub(s.Lamports(TREASURY), s.rent);
    if payout > 0 && payee.key !in PDAS && Transfer(s, TREASURY, payee.key, payout).Ok? {
      TransferMoves(s, TREASURY, payee.key, payout);
    }
  }
}
