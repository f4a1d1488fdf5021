/** The bridge program as the source writes it: handlers that update the
    accounts of the program in place (programs/bridge/src/lib.rs). */
module Program {
  import opened Prelude
  import opened Bridge
  import Spec = Bridge
  import M6

  ghost predicate Lands(before: State, after: State, wanted: Result<State, BridgeError>, r: Result<(), BridgeError>) {
    match wanted
    case Ok(s) => r.Ok? && after == s
    case Err(e) => r == Err(e) && after == before
  }

  /** The accounts of the program. A handler that fails leaves them as they
      were: the runtime drops every write of a failed transaction. */
  class Program {
    var config: Config
    var accounts: map<Pubkey, Account>
    var records: map<u64, Record>
    const rent: u64

    constructor (s: State)
      ensures View() == s
    {
      config, accounts, records, rent := s.config, s.accounts, s.records, s.rent;
    }

    function View(): State
      reads this
    {
      State(config, accounts, records, rent)
    }

    method CreditDeposits(
      height: u64, blockHash: Hash, first: u32, count: u8, answer: Option<DepositAnswer>, metas: seq<Meta>)
      returns (r: Result<(), BridgeError>)
      modifies this
      ensures Lands(old(View()), View(),
                    Spec.CreditDeposits(old(View()), height, blockHash, first, count, answer, metas), r)
    {
      var checked := CreditChecks(config, height, blockHash, first, count, answer);
      if checked.Err? { return Err(checked.error); }
      var deposits := checked.value.deposits;
      var start := Tally(View(), metas, config.depositHighWater, 0, 0);
      var tally := start;
      for i := 0 to |deposits|
        invariant ApplyDeposits(tally, deposits[i..]) == ApplyDeposits(start, deposits)
        invariant View() == old(View())
      {
        assert deposits[i..][0] == deposits[i] && deposits[i..][1..] == deposits[i + 1..];
        var next := ApplyDeposit(tally, deposits[i]);
        if next.Err? { return Err(next.error); }
        tally := next.value;
      }
      var end := FinishCredit(tally, height, blockHash, first + count, checked.value.total);
      if end.Err? { return Err(end.error); }
      config := end.value.config;
      accounts := end.value.accounts;
      TallyKeepsTheRest(start, deposits);
      return Ok(());
    }

    method Withdraw(user: Pubkey, lamports: u64, feeSats: u64, script: seq<u8>)
      returns (r: Result<(), BridgeError>)
      modifies this
      ensures Lands(old(View()), View(), Spec.Withdraw(old(View()), user, lamports, feeSats, script), r)
    {
      var was := View();
      if user in PDAS { return Err(MissingSigner); }
      if config.withdrawalCount in records { return Err(RecordInUse); }
      var payout := WithdrawChecks(lamports, feeSats, script);
      if payout.Err? { return Err(payout.error); }
      if was.Lamports(VAULT) + config.peggedLamports > U64_MAX { return Err(AmountOverflow); }
      if config.vaultSupply + config.floatLamports > U64_MAX { return Err(AmountOverflow); }
      if was.Lamports(VAULT) + config.peggedLamports < config.vaultSupply + config.floatLamports {
        return Err(FloatNotBacked);
      }
      if config.peggedLamports < lamports { return Err(AmountAbovePeggedTotal); }
      var index := config.withdrawalCount;
      if index + 1 > U64_MAX { return Err(AmountOverflow); }
      config := config.(peggedLamports := config.peggedLamports - lamports, withdrawalCount := index + 1);
      records := records[index := Record(index, user, lamports, payout.value, feeSats, script)];
      var moved := Spec.Transfer(View(), user, VAULT, lamports);
      if moved.Err? {
        config, records := was.config, was.records;
        return Err(moved.error);
      }
      accounts := moved.value.accounts;
      return Ok(());
    }

    method SealBundle(signer: Pubkey, through: u64, m6id: M6.Txid) returns (r: Result<(), BridgeError>)
      modifies this`config
      ensures Lands(old(View()), View(), Spec.SealBundle(old(View()), signer, through, m6id), r)
    {
      if signer != config.oracle { return Err(NotTheOracle); }
      if config.bundledThrough != config.paidThrough { return Err(BundleLive); }
      if config.withdrawalCount <= config.bundledThrough { return Err(NothingToSeal); }
      if config.paidThrough + MAX_BUNDLE_RECORDS > U64_MAX { return Err(AmountOverflow); }
      var most := Min(config.paidThrough + MAX_BUNDLE_RECORDS, config.withdrawalCount);
      if !(config.paidThrough < through <= most) { return Err(BadBundleEnd); }
      config := config.(bundledThrough := through, bundleM6id := m6id, bundleSealedHeight := config.creditedHeight);
      return Ok(());
    }

    method BundlePaid(
      signer: Pubkey, through: u64, height: u64, blockHash: Hash, m6id: M6.Txid, answer: Option<BmmPaid>)
      returns (r: Result<(), BridgeError>)
      modifies this`config
      ensures Lands(old(View()), View(),
                    Spec.BundlePaid(old(View()), signer, through, height, blockHash, m6id, answer), r)
    {
      if signer != config.oracle { return Err(NotTheOracle); }
      if config.bundledThrough <= config.paidThrough { return Err(NoLiveBundle); }
      if through != config.bundledThrough { return Err(NotTheLiveBundle); }
      if answer.None? { return Err(NoAnswer); }
      var paid := answer.value;
      if !(paid.height == height && paid.blockHash == blockHash && paid.m6id == m6id) {
        return Err(PaidAnswerForAnotherQuestion);
      }
      if m6id != config.bundleM6id { return Err(NotTheSealedM6id); }
      if !paid.paid { return Err(BundleNotPaid); }
      config := config.(paidThrough := through);
      return Ok(());
    }

    method CloseRecord(index: u64, owner: Pubkey) returns (r: Result<(), BridgeError>)
      modifies this`records
      ensures Lands(old(View()), View(), Spec.CloseRecord(old(View()), index, owner), r)
    {
      if index !in records { return Err(NoRecord); }
      if records[index].owner != owner { return Err(NotTheOwner); }
      if config.paidThrough <= index { return Err(RecordNotPaid); }
      records := records - {index};
      return Ok(());
    }

    method SettleBmm(
      height: u64, blockHash: Hash, solanaBlock: Hash, payee: Meta, answer: Option<BmmAnswer>, slot: u64)
      returns (r: Result<(), BridgeError>)
      modifies this`config, this`accounts
      ensures Lands(old(View()), View(),
                    Spec.SettleBmm(old(View()), height, blockHash, solanaBlock, payee, answer, slot), r)
    {
      var was := View();
      if height < config.bmmNextHeight { return Err(HeightAlreadyPassed); }
      if height != config.bmmNextHeight { return Err(HeightNotNext); }
      if answer.None? { return Err(NoAnswer); }
      var a := answer.value;
      if !(a.height == height && a.blockHash == blockHash && a.solanaBlock == solanaBlock) {
        return Err(AnswerForAnotherQuestion);
      }
      var pays := SettleVerdict(config, height, solanaBlock, payee.key, a, slot);
      if pays.Err? { return Err(pays.error); }
      if pays.value {
        var paid := PayTreasury(View(), payee);
        if paid.Err? { return Err(paid.error); }
        config, accounts := paid.value.config, paid.value.accounts;
      }
      if height + 1 > U64_MAX {
        config, accounts := was.config, was.accounts;
        return Err(AmountOverflow);
      }
      config := config.(bmmNextHeight := height + 1, bmmNextSinceSlot := slot);
      return Ok(());
    }
  }
}
