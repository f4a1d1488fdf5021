/** The bridge and the eCash chain as one transition system. A step is one
    transaction of the bridge, one transfer, or one move of the active eCash
    chain. A failed instruction leaves the state unchanged. */
module World {
  import opened Prelude
  import opened Bridge
  import opened ECash
  import opened M6
  import opened Bundle
  import opened Ledger

  /** All the coins that eCash ever makes, in satoshis. */
  const MAX_SATS: nat := 2_100_000_000_000_000

  /** A bound on the lamports of the bank: the genesis supply is 21 million SOL
      and a little float, far below it. */
  const MAX_LAMPORTS: nat := 0x7FFF_FFFF_FFFF_FFFF

  datatype Sealed = Sealed(start: nat, end: nat, id: Txid)

  /** `chain[h]` is the active eCash block at height `h`. An eCash reorg never
      drops a block at or below `floor`: the highest block that an accepted
      instruction named. `history` keeps each withdrawal record, closed or not,
      and `sealed` each bundle. */
  datatype World = World(
    bridge: State,
    chain: seq<Block>,
    floor: nat,
    history: seq<Record>,
    sealed: seq<Sealed>,
    credited: nat,
    burned: nat,
    gifts: nat)

  // ------------------------------------------------------------ the eCash side

  ghost function PaidIn(bundles: seq<BundleEvent>): seq<Txid> {
    if bundles == [] then []
    else
      var last := bundles[|bundles| - 1];
      PaidIn(bundles[..|bundles| - 1]) + (if last.Succeeded? then [last.m6id] else [])
  }

  /** The M6IDs that the chain paid, oldest first. */
  ghost function PaidIds(chain: seq<Block>): seq<Txid> {
    if chain == [] then [] else PaidIds(chain[..|chain| - 1]) + PaidIn(chain[|chain| - 1].bundles)
  }

  ghost function DepositSats(chain: seq<Block>): nat {
    if chain == [] then 0 else DepositSats(chain[..|chain| - 1]) + SumDeposits(chain[|chain| - 1].deposits)
  }

  ghost function PaidSats(ids: seq<Txid>): nat {
    if ids == [] then 0
    else
      var last := ids[|ids| - 1];
      PaidSats(ids[..|ids| - 1]) + (if last.TxidOf? then Value(last.blinded) else 0)
  }

  /** Every deposit goes into the treasury of the sidechain, and an M6 takes
      out its payouts and its fee. */
  ghost function TreasurySats(chain: seq<Block>): int {
    DepositSats(chain) - PaidSats(PaidIds(chain))
  }

  ghost predicate NoDuplicates<T>(s: seq<T>) {
    forall i, j :: 0 <= i < j < |s| ==> s[i] != s[j]
  }

  ghost function Ids(sealed: seq<Sealed>): (ids: seq<Txid>)
    ensures |ids| == |sealed|
    ensures forall k :: 0 <= k < |sealed| ==> ids[k] == sealed[k].id
  {
    seq(|sealed|, k requires 0 <= k < |sealed| => sealed[k].id)
  }

  /** eCash pays an M6 at most once, and only one that the bridge sealed. */
  ghost predicate PaymentRules(paid: seq<Txid>, ids: seq<Txid>) {
    && NoDuplicates(paid)
    && forall id :: id in paid ==> id in ids
  }

  /** The consensus rules of eCash that the books rest on: a parent-linked
      chain that pays each handed-off M6 at most once, and only M6 that the
      bridge sealed, and whose treasury is never negative. */
  ghost predicate ValidChain(chain: seq<Block>, sealed: seq<Sealed>) {
    && chain != []
    && (forall h :: 0 <= h < |chain| ==> chain[h].height == h)
    && Linked(chain)
    && PaymentRules(PaidIds(chain), Ids(sealed))
    && 0 <= TreasurySats(chain) <= MAX_SATS
  }

  /** The answer of a truthful validator about the active chain. */
  function DepositAnswerOf(chain: seq<Block>, height: u64, blockHash: Hash, first: u32, count: u8)
    : Option<DepositAnswer>
  {
    if height < |chain| && chain[height].hash == blockHash
       && first + count <= |chain[height].deposits| <= U32_MAX
    then
      var block := chain[height];
      Some(DepositAnswer(height, blockHash, block.prev, |block.deposits|, first,
                         block.deposits[first..first + count]))
    else None
  }

  function PaidAnswerOf(chain: seq<Block>, height: u64, blockHash: Hash, m6id: Txid): Option<BmmPaid> {
    if height < |chain| && chain[height].hash == blockHash
    then Some(BmmPaid(height, blockHash, m6id, Succeeded(m6id) in chain[height].bundles))
    else None
  }

  // ------------------------------------------------------------------- steps

  datatype Step =
    | Credit(height: u64, blockHash: Hash, first: u32, count: u8, metas: seq<Meta>)
    | Burn(user: Pubkey, lamports: u64, feeSats: u64, script: seq<u8>)
    | Seal(through: u64)
    | MarkPaid(through: u64, height: u64, blockHash: Hash, m6id: Txid)
    | Close(index: u64, owner: Pubkey)
    | Settle(at: u64, block: Hash, solanaBlock: Hash, payee: Meta, answer: Option<BmmAnswer>, slot: u64)
    // A transfer between accounts that are not addresses of the program.
    // One to the vault is a gift, one to the treasury a fee.
    | Send(from: Pubkey, to: Pubkey, amount: u64)
    // The active chain keeps its blocks through height `keep`, and `blocks`
    // follow: a new block, or a reorg.
    | Follow(keep: nat, blocks: seq<Block>)

  /** The bundle that an honest daemon seals: what `bundle_of` gives for the
      records, when it gives one. */
  ghost function DaemonBundle(history: seq<Record>, start: nat, end: nat): Option<Blinded> {
    if start < end <= |history| && FirstIndex(history[start..end]) <= U32_MAX && CanBuild(history[start..end])
    then Some(BundleTx(history[start..end]))
    else None
  }

  ghost function Credited(w: World, step: Step): World
    requires step.Credit?
  {
    var answer := DepositAnswerOf(w.chain, step.height, step.blockHash, step.first, step.count);
    match CreditDeposits(w.bridge, step.height, step.blockHash, step.first, step.count, answer, step.metas)
    case Err(_) => w
    case Ok(s) =>
      var pegged := s.config.peggedLamports - w.bridge.config.peggedLamports;
      w.(bridge := s, floor := Max(w.floor, step.height), credited := Max(0, w.credited + pegged))
  }

  ghost function Burned(w: World, step: Step): World
    requires step.Burn?
  {
    match Withdraw(w.bridge, step.user, step.lamports, step.feeSats, step.script)
    case Err(_) => w
    case Ok(s) =>
      var index := w.bridge.config.withdrawalCount;
      if index in s.records then
        w.(bridge := s, history := w.history + [s.records[index]], burned := w.burned + step.lamports)
      else w
  }

  ghost function SealedBy(w: World, step: Step): World
    requires step.Seal?
  {
    var c := w.bridge.config;
    match DaemonBundle(w.history, c.paidThrough, step.through)
    case None => w
    case Some(tx) =>
      match SealBundle(w.bridge, c.oracle, step.through, TxidOf(tx))
      case Err(_) => w
      case Ok(s) => w.(bridge := s, sealed := w.sealed + [Sealed(c.paidThrough, step.through, TxidOf(tx))])
  }

  ghost function MarkedPaid(w: World, step: Step): World
    requires step.MarkPaid?
  {
    var answer := PaidAnswerOf(w.chain, step.height, step.blockHash, step.m6id);
    match BundlePaid(w.bridge, w.bridge.config.oracle, step.through, step.height, step.blockHash, step.m6id, answer)
    case Err(_) => w
    case Ok(s) => w.(bridge := s, floor := Max(w.floor, step.height))
  }

  ghost function Sent(w: World, step: Step): World
    requires step.Send?
  {
    if step.from in PDAS || step.from == step.to then w
    else
      match Transfer(w.bridge, step.from, step.to, step.amount)
      case Err(_) => w
      case Ok(s) => w.(bridge := s, gifts := w.gifts + if step.to == VAULT then step.amount else 0)
  }

  ghost function Followed(w: World, step: Step): World
    requires step.Follow?
  {
    if w.floor <= step.keep < |w.chain| then
      var chain := w.chain[..step.keep + 1] + step.blocks;
      if ValidChain(chain, w.sealed) then w.(chain := chain) else w
    else w
  }

  ghost function Next(w: World, step: Step): World {
    match step
    case Credit(_, _, _, _, _) => Credited(w, step)
    case Burn(_, _, _, _) => Burned(w, step)
    case Seal(_) => SealedBy(w, step)
    case MarkPaid(_, _, _, _) => MarkedPaid(w, step)
    case Close(index, owner) =>
      (match CloseRecord(w.bridge, index, owner)
       case Err(_) => w
       case Ok(s) => w.(bridge := s))
    case Settle(at, block, solanaBlock, payee, answer, slot) =>
      (match SettleBmm(w.bridge, at, block, solanaBlock, payee, answer, slot)
       case Err(_) => w
       case Ok(s) => w.(bridge := s))
    case Send(_, _, _) => Sent(w, step)
    case Follow(_, _) => Followed(w, step)
  }

  ghost function Run(w: World, steps: seq<Step>): World {
    if steps == [] then w else Next(Run(w, steps[..|steps| - 1]), steps[|steps| - 1])
  }

  // --------------------------------------------------------------- invariants

  /** The deposits that the credit cursor passed. */
  ghost function CreditedSats(chain: seq<Block>, height: nat, index: nat): nat
    requires height < |chain|
    requires index > 0 ==> height + 1 < |chain| && index <= |chain[height + 1].deposits|
  {
    DepositSats(chain[..height + 1]) + if index > 0 then SumDeposits(chain[height + 1].deposits[..index]) else 0
  }

  ghost predicate BankInv(w: World) {
    var c := w.bridge.config;
    && w.bridge.Lamports(VAULT) + c.peggedLamports == c.vaultSupply + w.gifts
    && w.credited == c.peggedLamports + w.burned
    && TotalLamports(w.bridge) <= MAX_LAMPORTS
    && (w.history != [] ==> w.gifts >= c.floatLamports)
  }

  ghost predicate CursorInv(w: World) {
    var c := w.bridge.config;
    && c.creditedHeight <= w.floor < |w.chain|
    && (c.creditIndex > 0 ==>
          && c.creditedHeight + 1 <= w.floor
          && c.creditPartBlock == w.chain[c.creditedHeight + 1].hash
          && c.creditIndex <= |w.chain[c.creditedHeight + 1].deposits|)
    && w.credited + c.strandedLamports == 10 * CreditedSats(w.chain, c.creditedHeight, c.creditIndex)
  }

  ghost predicate RecordInv(w: World) {
    var c := w.bridge.config;
    && |w.history| == c.withdrawalCount
    && ValidRun(w.history, 0)
    && w.burned == SumBurned(w.history)
    && c.paidThrough <= c.bundledThrough <= |w.history|
    && (forall i :: i in w.bridge.records ==> i < |w.history| && w.bridge.records[i] == w.history[i])
    && (forall i :: c.paidThrough <= i < |w.history| ==> i in w.bridge.records)
  }

  /** The end of the first `k` bundles. */
  ghost function EndOf(sealed: seq<Sealed>, k: nat): nat
    requires k <= |sealed|
  {
    if k == 0 then 0 else sealed[k - 1].end
  }

  ghost predicate StartsAtEnd(sealed: seq<Sealed>, k: nat)
    requires k < |sealed|
  {
    && sealed[k].start == EndOf(sealed, k)
    && sealed[k].start < sealed[k].end <= sealed[k].start + MAX_BUNDLE_RECORDS
    && sealed[k].start <= U32_MAX
  }

  /** Each bundle starts where the one before it ends, from record zero. */
  ghost predicate Consecutive(sealed: seq<Sealed>) {
    forall k :: 0 <= k < |sealed| ==> StartsAtEnd(sealed, k)
  }

  /** The ID of a bundle is the M6ID of its records, and its value fits the
      coins of eCash. */
  ghost predicate Genuine(history: seq<Record>, b: Sealed) {
    && b.start < b.end <= |history|
    && SumBurned(history[b.start..b.end]) <= 10 * MAX_SATS
    && DaemonBundle(history, b.start, b.end).Some?
    && b.id == TxidOf(DaemonBundle(history, b.start, b.end).value)
  }

  ghost predicate AllGenuine(history: seq<Record>, sealed: seq<Sealed>) {
    forall k :: 0 <= k < |sealed| ==> Genuine(history, sealed[k])
  }

  ghost predicate IsLive(c: Config) { c.bundledThrough > c.paidThrough }

  /** The bundles that the bridge marked paid: all but a live last one. */
  ghost function PaidCount(w: World): int {
    |w.sealed| - if IsLive(w.bridge.config) then 1 else 0
  }

  ghost predicate SealInv(w: World) {
    var c := w.bridge.config;
    && Consecutive(w.sealed)
    && AllGenuine(w.history, w.sealed)
    && c.bundledThrough == EndOf(w.sealed, |w.sealed|)
    && (IsLive(c) ==> w.sealed != [] && w.sealed[|w.sealed| - 1].start == c.paidThrough
                      && w.sealed[|w.sealed| - 1].id == c.bundleM6id)
  }

  /** eCash paid every bundle that the bridge marked paid, in order, and it
      paid the live one only after its seal. */
  ghost predicate PayInv(w: World) {
    var c := w.bridge.config;
    && PaymentRules(PaidIds(w.chain), Ids(w.sealed))
    && 0 <= PaidCount(w)
    && w.floor < |w.chain|
    && Ids(w.sealed)[..PaidCount(w)] <= PaidIds(w.chain[..w.floor + 1])
    && (IsLive(c) ==>
          && c.bundleSealedHeight <= w.floor
          && c.bundleM6id !in PaidIds(w.chain[..c.bundleSealedHeight + 1]))
  }

  ghost predicate Inv(w: World) {
    BankInv(w) && CursorInv(w) && RecordInv(w) && SealInv(w) && PayInv(w) && ValidChain(w.chain, w.sealed)
  }

  /** A fresh bridge beside an eCash chain without sidechain history: the
      genesis put the whole supply in the vault. */
  ghost predicate Init(w: World) {
    var c := w.bridge.config;
    && w.bridge.Lamports(VAULT) == c.vaultSupply
    && TotalLamports(w.bridge) <= MAX_LAMPORTS
    && c.peggedLamports == 0 && c.strandedLamports == 0 && c.creditIndex == 0
    && c.withdrawalCount == 0 && c.paidThrough == 0 && c.bundledThrough == 0
    && w.bridge.records == map[]
    && w.history == [] && w.sealed == [] && w.credited == 0 && w.burned == 0 && w.gifts == 0
    && ValidChain(w.chain, [])
    && w.floor == c.creditedHeight < |w.chain|
    && DepositSats(w.chain[..c.creditedHeight + 1]) == 0
  }
}
