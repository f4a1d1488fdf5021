/** The instructions of the bridge program (programs/bridge/src/lib.rs) as
    functions of the bank. */
module Bridge {
  import opened Prelude
  import M6

  /** A 32-byte key or hash. Zero is the all-zero value. */
  type Pubkey = nat
  type Hash = nat

  const ZERO_HASH: Hash := 0

  const LAMPORTS_PER_SAT: u64 := 10
  const MIN_PAYOUT_SATS: u64 := 546
  const MIN_FEE_SATS: u64 := 1_000
  const MAX_BUNDLE_RECORDS: u64 := 1_500
  const SKIP_GRACE_SLOTS: u64 := 300

  /** The addresses that the program derives. No key signs for them. */
  const VAULT: Pubkey := 1
  const TREASURY: Pubkey := 2
  const CONFIG: Pubkey := 3
  const PDAS: set<Pubkey> := {VAULT, TREASURY, CONFIG}

  datatype BridgeError =
    | SequenceNumberAlreadyApplied | AmountNotAWholeSat | FeeAboveAmount | PayoutIsDust
    | ScriptPubkeyNotStandard | AmountAbovePeggedTotal | AmountOverflow | HeightAlreadyPassed
    | HeightNotNext | NoAnswer | AnswerForAnotherQuestion | PairDoesNotMatch | CreditOutOfOrder
    | PartOutOfOrder | NotOnCreditedChain | EmptyPart | MissingTarget | WrongTarget
    | TargetNotWritable | PartOfAnotherBlock | PayeeNotWritable | FeeTooLow | FloatNotBacked
    | BundleLive | NothingToSeal | NoLiveBundle | NotTheLiveBundle | RecordNotPaid | BadBundleEnd
    | PaidAnswerForAnotherQuestion | NotTheSealedM6id | BundleNotPaid
    // The account checks of Anchor and of the system program.
    | MissingSigner | NotTheOracle | RecordInUse | NoRecord | NotTheOwner | InsufficientFunds

  // ------------------------------------------------------------------- state

  /** `reserved`: executable, owned by the sysvar or native loader, or a
      reserved key. `ours`: owned by the bridge program. `rentFloor`: the
      rent-exempt balance for the data that the account holds. */
  datatype Account = Account(lamports: u64, reserved: bool, ours: bool, rentFloor: u64)

  datatype Config = Config(
    oracle: Pubkey,
    depositHighWater: u64,
    peggedLamports: u64,
    withdrawalCount: u64,
    bmmNextHeight: u64,
    bmmPaidTotal: u64,
    depositConfirmations: u64,
    depositLag: u64,
    creditedHeight: u64,
    creditedBlock: Hash,
    creditIndex: u64,
    creditPartBlock: Hash,
    strandedLamports: u64,
    vaultSupply: u64,
    floatLamports: u64,
    paidThrough: u64,
    bundledThrough: u64,
    bundleSealedHeight: u64,
    bmmSkipBlocks: u64,
    bmmNextSinceSlot: u64,
    bundleM6id: M6.Txid)
  {
    /** Start and end of the sealed records that are not marked paid. */
    function LiveBundle(): Option<(u64, u64)> {
      if bundledThrough > paidThrough then Some((paidThrough, bundledThrough)) else None
    }
  }

  datatype Record = Record(
    index: u64, owner: Pubkey, burnedLamports: u64, payoutSats: u64, feeSats: u64, script: seq<u8>)

  /** `rent` is the rent-exempt balance of an account without data. */
  datatype State = State(
    config: Config, accounts: map<Pubkey, Account>, records: map<u64, Record>, rent: u64)
  {
    function At(key: Pubkey): Account {
      if key in accounts then accounts[key] else Account(0, false, false, rent)
    }

    function Lamports(key: Pubkey): u64 { At(key).lamports }
  }

  /** An account that the transaction passes, with its writable flag. */
  datatype Meta = Meta(key: Pubkey, writable: bool)

  // ----------------------------------------------------------------- answers

  /** SHA-256(Solana block, payee) as a free constructor. `Noise` stands for 32
      bytes that are the hash of no pair. */
  datatype Commitment = OfPair(block: Hash, payee: Pubkey) | Noise(tag: nat)

  datatype BmmAnswer = BmmAnswer(
    height: u64, blockHash: Hash, commitment: Option<Commitment>, solanaBlock: Hash,
    recorded: bool, creditedHeight: u64, creditsActive: bool)

  datatype BmmPaid = BmmPaid(height: u64, blockHash: Hash, m6id: M6.Txid, paid: bool)

  datatype Deposit = Deposit(sequenceNumber: u64, valueSats: u64, target: Option<Pubkey>)

  datatype DepositAnswer = DepositAnswer(
    height: u64, blockHash: Hash, prevBlockHash: Hash, total: u32, first: u32, deposits: seq<Deposit>)

  // ------------------------------------------------------------ system program

  /** A system transfer. It fails when the source holds too little or the
      destination overflows. */
  function Transfer(s: State, from: Pubkey, to: Pubkey, lamports: u64): Result<State, BridgeError> {
    if s.Lamports(from) < lamports then Err(InsufficientFunds)
    else
      var source := s.At(from);
      var debited := s.(accounts := s.accounts[from := source.(lamports := source.lamports - lamports)]);
      var target := debited.At(to);
      if target.lamports + lamports > U64_MAX then Err(AmountOverflow)
      else Ok(debited.(accounts := debited.accounts[to := target.(lamports := target.lamports + lamports)]))
  }

  /** Whether a credit goes to `target` or stays stranded. */
  function CanTake(s: State, target: Meta, lamports: u64): Result<bool, BridgeError> {
    var account := s.At(target.key);
    if target.key == VAULT || account.reserved then Ok(false)
    else if !target.writable then Err(TargetNotWritable)
    else Ok(account.lamports + lamports <= U64_MAX && account.lamports + lamports >= account.rentFloor)
  }

  /** Whether a payout goes to `payee` or stays in the treasury. */
  function CanHold(s: State, payee: Meta, payout: u64): Result<bool, BridgeError> {
    var account := s.At(payee.key);
    if payee.key in PDAS || account.ours || account.reserved then Ok(false)
    else if !payee.writable then Err(PayeeNotWritable)
    else Ok(account.lamports + payout <= U64_MAX && account.lamports + payout >= account.rentFloor)
  }

  // ---------------------------------------------------------- credit_deposits

  /** What the loop of `credit_deposits` carries from one deposit to the next. */
  datatype Tally = Tally(s: State, metas: seq<Meta>, highWater: u64, credited: u64, stranded: u64)

  function ApplyDeposit(t: Tally, d: Deposit): Result<Tally, BridgeError> {
    var isNew := d.sequenceNumber >= t.highWater;
    :- Need(isNew, SequenceNumberAlreadyApplied);
    var highWater :- CheckedAdd(d.sequenceNumber, 1, AmountOverflow);
    var lamports :- CheckedMul(d.valueSats, LAMPORTS_PER_SAT, AmountOverflow);
    match d.target
    case None =>
      var stranded :- CheckedAdd(t.stranded, lamports, AmountOverflow);
      Ok(t.(highWater := highWater, stranded := stranded))
    case Some(key) =>
      :- Need(t.metas != [], MissingTarget);
      var target := t.metas[0];
      :- Need(target.key == key, WrongTarget);
      var takes :- CanTake(t.s, target, lamports);
      if takes then
        var paid :- if lamports > 0 then Transfer(t.s, VAULT, key, lamports) else Ok(t.s);
        var credited :- CheckedAdd(t.credited, lamports, AmountOverflow);
        Ok(Tally(paid, t.metas[1..], highWater, credited, t.stranded))
      else
        var stranded :- CheckedAdd(t.stranded, lamports, AmountOverflow);
        Ok(Tally(t.s, t.metas[1..], highWater, t.credited, stranded))
  }

  function ApplyDeposits(t: Tally, deposits: seq<Deposit>): Result<Tally, BridgeError>
    decreases |deposits|
  {
    if deposits == [] then Ok(t)
    else
      var next :- ApplyDeposit(t, deposits[0]);
      ApplyDeposits(next, deposits[1..])
  }

  /** The checks of `credit_deposits` before its loop. */
  function CreditChecks(
    c: Config, height: u64, blockHash: Hash, first: u32, count: u8, answer: Option<DepositAnswer>)
    : Result<DepositAnswer, BridgeError>
  {
    var next :- CheckedAdd(c.creditedHeight, 1, AmountOverflow);
    :- Need(height == next, CreditOutOfOrder);
    :- Need(first == c.creditIndex, PartOutOfOrder);
    :- Need(answer.Some?, NoAnswer);
    var a := answer.value;
    :- Need(a.height == height && a.blockHash == blockHash && a.first == first && |a.deposits| == count,
            AnswerForAnotherQuestion);
    :- Need(c.creditedBlock == ZERO_HASH || a.prevBlockHash == c.creditedBlock, NotOnCreditedChain);
    :- Need(c.creditIndex == 0 || blockHash == c.creditPartBlock, PartOfAnotherBlock);
    :- Need(count > 0 || a.total == 0, EmptyPart);
    Ok(a)
  }

  /** The cursor after a part that ends at `end` of `total`. */
  function MoveCursor(c: Config, height: u64, blockHash: Hash, end: u64, total: u64): Config {
    if end >= total then
      c.(creditedHeight := height, creditedBlock := blockHash, creditIndex := 0, creditPartBlock := ZERO_HASH)
    else
      c.(creditIndex := end, creditPartBlock := blockHash)
  }

  function FinishCredit(t: Tally, height: u64, blockHash: Hash, end: u64, total: u64)
    : Result<State, BridgeError>
  {
    var c := t.s.config;
    var pegged :- CheckedAdd(c.peggedLamports, t.credited, AmountOverflow);
    var stranded :- CheckedAdd(c.strandedLamports, t.stranded, AmountOverflow);
    var counted := c.(depositHighWater := t.highWater, peggedLamports := pegged, strandedLamports := stranded);
    Ok(t.s.(config := MoveCursor(counted, height, blockHash, end, total)))
  }

  function CreditDeposits(
    s: State, height: u64, blockHash: Hash, first: u32, count: u8,
    answer: Option<DepositAnswer>, metas: seq<Meta>)
    : Result<State, BridgeError>
  {
    var a :- CreditChecks(s.config, height, blockHash, first, count, answer);
    var t :- ApplyDeposits(Tally(s, metas, s.config.depositHighWater, 0, 0), a.deposits);
    FinishCredit(t, height, blockHash, first + count, a.total)
  }

  // ----------------------------------------------------------------- withdraw

  /** One of the five output scripts that a withdrawal may name: P2PKH, P2SH,
      P2WPKH, P2WSH or P2TR. */
  predicate IsStandardScript(s: seq<u8>) {
    || (|s| == 25 && s[0] == 0x76 && s[1] == 0xa9 && s[2] == 0x14 && s[23] == 0x88 && s[24] == 0xac)
    || (|s| == 23 && s[0] == 0xa9 && s[1] == 0x14 && s[22] == 0x87)
    || (|s| == 22 && s[0] == 0x00 && s[1] == 0x14)
    || (|s| == 34 && (s[0] == 0x00 || s[0] == 0x51) && s[1] == 0x20)
  }

  /** The amounts and the script that `withdraw` accepts, and the payout. */
  function WithdrawChecks(lamports: u64, feeSats: u64, script: seq<u8>): Result<u64, BridgeError> {
    var totalSats := lamports / LAMPORTS_PER_SAT;
    :- Need(lamports % LAMPORTS_PER_SAT == 0, AmountNotAWholeSat);
    :- Need(IsStandardScript(script), ScriptPubkeyNotStandard);
    var payoutSats :- CheckedSub(totalSats, feeSats, FeeAboveAmount);
    :- Need(payoutSats >= MIN_PAYOUT_SATS, PayoutIsDust);
    :- Need(feeSats >= MIN_FEE_SATS, FeeTooLow);
    Ok(payoutSats)
  }

  function Withdraw(s: State, user: Pubkey, lamports: u64, feeSats: u64, script: seq<u8>)
    : Result<State, BridgeError>
  {
    var c := s.config;
    :- Need(user !in PDAS, MissingSigner);
    :- Need(c.withdrawalCount !in s.records, RecordInUse);
    var payoutSats :- WithdrawChecks(lamports, feeSats, script);
    var backed :- CheckedAdd(s.Lamports(VAULT), c.peggedLamports, AmountOverflow);
    var needed :- CheckedAdd(c.vaultSupply, c.floatLamports, AmountOverflow);
    :- Need(backed >= needed, FloatNotBacked);
    var pegged :- CheckedSub(c.peggedLamports, lamports, AmountAbovePeggedTotal);
    var index := c.withdrawalCount;
    var count :- CheckedAdd(index, 1, AmountOverflow);
    var record := Record(index, user, lamports, payoutSats, feeSats, script);
    var written := s.(config := c.(peggedLamports := pegged, withdrawalCount := count),
                      records := s.records[index := record]);
    Transfer(written, user, VAULT, lamports)
  }

  // ------------------------------------------------------------------ bundles

  function SealBundle(s: State, signer: Pubkey, through: u64, m6id: M6.Txid): Result<State, BridgeError> {
    var c := s.config;
    :- Need(signer == c.oracle, NotTheOracle);
    :- Need(c.bundledThrough == c.paidThrough, BundleLive);
    :- Need(c.withdrawalCount > c.bundledThrough, NothingToSeal);
    var cap :- CheckedAdd(c.paidThrough, MAX_BUNDLE_RECORDS, AmountOverflow);
    :- Need(c.paidThrough < through <= Min(cap, c.withdrawalCount), BadBundleEnd);
    Ok(s.(config := c.(bundledThrough := through, bundleM6id := m6id, bundleSealedHeight := c.creditedHeight)))
  }

  function BundlePaid(
    s: State, signer: Pubkey, through: u64, height: u64, blockHash: Hash, m6id: M6.Txid, answer: Option<BmmPaid>)
    : Result<State, BridgeError>
  {
    var c := s.config;
    :- Need(signer == c.oracle, NotTheOracle);
    :- Need(c.bundledThrough > c.paidThrough, NoLiveBundle);
    :- Need(through == c.bundledThrough, NotTheLiveBundle);
    :- Need(answer.Some?, NoAnswer);
    var paid := answer.value;
    :- Need(paid.height == height && paid.blockHash == blockHash && paid.m6id == m6id,
            PaidAnswerForAnotherQuestion);
    :- Need(m6id == c.bundleM6id, NotTheSealedM6id);
    :- Need(paid.paid, BundleNotPaid);
    Ok(s.(config := c.(paidThrough := through)))
  }

  function CloseRecord(s: State, index: u64, owner: Pubkey): Result<State, BridgeError> {
    var c := s.config;
    :- Need(index in s.records, NoRecord);
    :- Need(s.records[index].owner == owner, NotTheOwner);
    :- Need(c.paidThrough > index, RecordNotPaid);
    Ok(s.(records := s.records - {index}))
  }

  // --------------------------------------------------------------- settle_bmm

  /** The verdict of the commitment: `Ok(true)` pays, `Ok(false)` only moves. */
  function SettleVerdict(
    c: Config, height: u64, solanaBlock: Hash, payee: Pubkey, a: BmmAnswer, slot: u64)
    : Result<bool, BridgeError>
  {
    match a.commitment
    case None => Ok(false)
    case Some(commitment) =>
      if OfPair(solanaBlock, payee) == commitment then
        Ok(a.recorded && SaturatingAdd(a.creditedHeight, c.depositLag) >= height && a.creditsActive)
      else
        :- Need(c.creditedHeight >= SaturatingAdd(height, c.bmmSkipBlocks), PairDoesNotMatch);
        :- Need(slot >= SaturatingAdd(c.bmmNextSinceSlot, SKIP_GRACE_SLOTS), PairDoesNotMatch);
        Ok(false)
  }

  /** The payout: all but the reserve, or nothing. */
  function PayTreasury(s: State, payee: Meta): Result<State, BridgeError> {
    var payout := SaturatingSub(s.Lamports(TREASURY), s.rent);
    if payout == 0 then Ok(s)
    else
      var holds :- CanHold(s, payee, payout);
      if !holds then Ok(s)
      else
        var paid :- Transfer(s, TREASURY, payee.key, payout);
        var total :- CheckedAdd(s.config.bmmPaidTotal, payout, AmountOverflow);
        Ok(paid.(config := paid.config.(bmmPaidTotal := total)))
  }

  function SettleBmm(
    s: State, height: u64, blockHash: Hash, solanaBlock: Hash, payee: Meta, answer: Option<BmmAnswer>, slot: u64)
    : Result<State, BridgeError>
  {
    var next := s.config.bmmNextHeight;
    :- Need(height >= next, HeightAlreadyPassed);
    :- Need(height == next, HeightNotNext);
    :- Need(answer.Some?, NoAnswer);
    var a := answer.value;
    :- Need(a.height == height && a.blockHash == blockHash && a.solanaBlock == solanaBlock,
            AnswerForAnotherQuestion);
    var pays :- SettleVerdict(s.config, height, solanaBlock, payee.key, a, slot);
    var paid :- if pays then PayTreasury(s, payee) else Ok(s);
    var cursor :- CheckedAdd(height, 1, AmountOverflow);
    Ok(paid.(config := paid.config.(bmmNextHeight := cursor, bmmNextSinceSlot := slot)))
  }

  /** The loop of `credit_deposits` moves lamports and nothing else. */
  lemma {:induction false} TallyKeepsTheRest(t: Tally, deposits: seq<Deposit>)
    requires ApplyDeposits(t, deposits).Ok?
    ensures var end := ApplyDeposits(t, deposits).value;
            end.s.config == t.s.config && end.s.records == t.s.records && end.s.rent == t.s.rent
    decreases |deposits|
  {
    if deposits != [] {
      TallyKeepsTheRest(ApplyDeposit(t, deposits[0]).value, deposits[1..]);
    }
  }
}
