# A model of the two-chain peg, with proofs

This project models the peg between eCash and a Solana chain (BIP300 deposits
and withdrawals, BIP301 blind merged mining) and proves what its comments
promise: the balance equations, the hand-off protocol, the header cache, the
credit and settle loops, and the migration to a new chain. The proofs are about
the model in the `.dfy` files. `dafny verify dfyconfig.toml` checks all of them.

## How the model is built

- `Bridge` holds the instructions of the bridge program as functions of the
  bank. `Program` holds the same handlers as the source writes them, on fields
  that change in place, each proved equal to its function, error by error. A
  failed instruction leaves the state as it was.
- `World` joins the bridge to an eCash chain that grows and reorgs. One step is
  one transaction, one transfer (a gift to the vault, a fee to the treasury) or
  one move of the active chain. `WorldInvariant` proves the invariant of every
  step, `BooksHold`, `SealedRuns` and `Withdrawals` what follows for every run.
- `BlockTree` holds the eCash blocks as a content-addressed tree. `Headers`,
  `Scan`, `CreditRun` and `CreditLoop` read it through truthful answers.
- `Peg`, `Decide`, `Proposals` and `PegProtocol` are the peg daemon: the event
  scan, the next step, the journal file, and the protocol with crashes between
  any two steps, failed writes, rollbacks and reorgs. `JournalSkip` and
  `JournalGap` show what a skipped store of the journal can cost.
- `FeeHistory`, `FeeIncome`, `FeeMeter`, `Planner` and `SettleRun` are the BMM
  loop and the settles on the chain.
- `OwnerWalk`, `Migrate`, `Export`, `VoteReset`, `VoteAccount`, `TransferFees`,
  `SlotZero` and `Base58` are the migration, down to the bytes.
- `LegacyFrame`, `Withdrawers`, `Programs` and `Layouts` write the byte layouts
  out field by field, and prove that the readers find each field again.

Loops and objects keep the form of the source: methods with invariants,
classes with `modifies`, arrays that change in place. Machine integers are
subset types (`u8` to `u64`), and each checked, saturating or truncating
operation is written out. A 32-byte key or hash is a number; zero is the
all-zero value.

## What the environment must give

- Hashes are injective: a commitment, an M6ID and a block id are free
  constructors or keys of one tree. For M6IDs, `M6.LegacyFrameIsInjective`
  proves the part of this that the frame itself must give.
- The daemon and the validator read the target of a deposit by one rule
  (daemon/src/credit.rs:78-79).
- The enforcer answers from one block tree, the same answer for the same block
  id, or it fails. The answers that the validator puts into a transaction
  (`BmmAnswer`, `DepositAnswer`, `BmmPaid`) are truthful.
- eCash does not drop a block that an accepted instruction named
  (README.md:425). In `World` this is `floor`.
- The events of a bundle come after the scan start of its M6ID
  (daemon/src/peg.rs:233-234). An M6ID keeps one record range and one seal
  height wherever it is noted: on the chain, in the memory and in the file.
- A failure that is deep after the newest hand-off is final, and eCash pays
  only bundles that were handed over (daemon/src/proposals.rs:220-223).
- The tip height does not fall during a hand-off.
- eCash pays a sealed M6 at most once and never makes more than 21 million
  coins; the bank never holds 2^63 lamports. The accounts of an export hold at
  most 2^64 - 1 lamports together, and its supply is below that.
- The slot clock stays below 2^64 - 1.
- Heights of the eCash chain fit a u32, slices have at most 2^64 - 1 bytes, and
  `getBlocks` answers in ascending order.

## Findings

1. **A skipped store can lose a hand-off.** `store` does nothing when the memory
   already equals the new content (daemon/src/proposals.rs:153-156). A write
   whose last `sync_all` fails after the rename leaves the file ahead of the
   memory (daemon/src/proposals.rs:191-203), and the order of the two updates,
   file first, does not exclude this. `JournalGap.OneFailedSyncIsEnough` gives a
   run from the first start of a daemon where one such write and one crash make
   two live bundles share a record. The exact condition is `SafeSkip`: when the
   store of a hand-off skips the write, the file on the disk already lists the
   bundle with the highest possible tip, or has dropped its range.
   `JournalSkip.SafeSkipIsExact` proves both halves from every state that the
   invariant allows: after a safe skip no safe run ever ends with two live
   bundles on one record, and after an unsafe one some run without any further
   failed write does, whenever seven heights are left below 2^32 - 1
   (`JournalSkip.UnsafeSkipLoses`). `PegProtocol.NoRecordIsPaidTwice` proves the
   promise over every run whose skips are safe, and
   `PegProtocol.AtomicWritesAreSafe` shows that atomic writes make them so.
2. **An event at or before the seal breaks the incremental scan.** With an
   event that the stated assumption forbids, `scan_bundle` and a read from
   scratch can differ: `Scan.EarlyEventsBreakTheScan`. They agree, for every
   tree and every sequence of tips, if and only if what the kept scans read at
   or below the seal vanishes in the status: there is nothing, or none of it is
   a payment and something follows above the seal (`Scan.ScansAreExact`). A
   caller can rule the failure out before the call: it cannot happen when every
   earlier tip was at or above the seal (`Scan.DeepTipsAreEnough`).
3. **`reset_vote` can let a voter vote early.** When every authorized voter of
   the account is later than the halt epoch, the first one becomes the voter of
   epoch 0 (daemon/src/genesis.rs:589-593). The voter in force agrees with the
   old chain at epoch `e` exactly when the old chain has a voter at
   `source + e`: `VoteReset.VotersKeepTheirEpochs`.
4. **A bundle that starts above record 2^32 - 1 never builds.** The lock time
   is the index of its first record, and has 32 bits (daemon/src/peg.rs:176-181).
   `SealedRuns.NextBundleBuilds` proves that this is the only bar.

## Model

| member | source | states |
|---|---|---|
| `Program.Program.CreditDeposits` | programs/bridge/src/lib.rs:201-335 | the handler with its loop ends in exactly the state, or the error, of the specification, and an error changes nothing |
| `Program.Program.Withdraw` | programs/bridge/src/lib.rs:337-398 | the same for a withdrawal: all of its writes, or none |
| `Program.Program.SealBundle` | programs/bridge/src/lib.rs:404-433 | the same for a seal; only the config changes |
| `Program.Program.BundlePaid` | programs/bridge/src/lib.rs:439-471 | the same for a paid mark; only the config changes |
| `Program.Program.CloseRecord` | programs/bridge/src/lib.rs:475-482 | the same for a close; only the records change |
| `Program.Program.SettleBmm` | programs/bridge/src/lib.rs:131-192 | the same for a settle, the payout of the treasury included |
| `Bridge.TallyKeepsTheRest` | programs/bridge/src/lib.rs:248-314 | the deposit loop moves lamports and nothing else: config, records and rent stay |
| `Ledger.TransferMoves` | programs/bridge/src/lib.rs:281-293 | a transfer moves its lamports between two accounts, keeps the total of the bank, and touches no third account |
| `Ledger.CreditEffect` | programs/bridge/src/lib.rs:201-335 | a part takes from the vault what it adds to pegged, strands the rest, and both together are ten times its satoshis |
| `Ledger.WithdrawEffect` | programs/bridge/src/lib.rs:337-398 | a withdrawal moves the burned lamports from the user into the vault and out of pegged, touches no third account and conserves the bank; `Withdrawals` says what it writes |
| `Ledger.SettleEffect` | programs/bridge/src/lib.rs:131-192 | a settle pays nothing or everything above the reserve, counts it, leaves the vault alone and moves the cursor by one |
| `WorldInvariant.RunKeeps` | programs/bridge/src/lib.rs:123-483 | the joint invariant of bank, cursor, records, bundles and eCash payments holds after every run |
| `WorldInvariant.InitHolds` | daemon/src/genesis.rs:231-258 | a fresh bridge beside a chain without sidechain history satisfies the invariant |
| `WorldInvariant.PaidShape` | programs/bridge/src/lib.rs:439-471 | at each height from the floor up, eCash paid the marked bundles in seal order and then at most the live one |
| `WorldInvariant.OpenRecordsAreBacked` | programs/bridge/src/lib.rs:404-433 | while no bundle is live, the records that no bundle holds burned no more lamports than ten times what the eCash treasury still has |
| `Books.Pending` | daemon/src/books.rs:130-152 | the saturating fold is the burned lamports of the unpaid records, cut once at the top of a u64 |
| `Books.Awaiting` | daemon/src/books.rs:157-182 | the saturating loop is ten times the uncredited satoshis, cut once at the top of a u64 |
| `Books.BooksAreTheEquations` | daemon/src/books.rs:38-66 | the checked arithmetic accepts exactly the books whose equations hold in whole numbers and fit a u64 |
| `BooksHold.AwaitingIsTheRest` | daemon/src/books.rs:157-182 | what the code counts as awaiting is exactly what the credit cursor did not pass |
| `BooksHold.LiveStatusIsPayment` | daemon/src/books.rs:130-152 | the live bundle reads as succeeded exactly when the chain paid it |
| `BooksHold.PendingIsTheRest` | daemon/src/books.rs:130-152 | what the code counts as pending is all that was burned but for what the paid bundles paid out |
| `BooksHold.BooksAlwaysHold` | daemon/src/books.rs:38-66 | after every run of the two chains both book equations hold in the arithmetic of the code, and no more was burned than credited |
| `BooksHold.WrongTermsAreFound` | daemon/src/books.rs:58-66 | after every run, no single wrong term of the treasury equation passes as held |
| `Withdrawals.RecordsAreTheBurns` | programs/bridge/src/lib.rs:377-385 | after every run, record k names the user, the script and the fee of the k-th accepted burn, and a tenth of its lamports less the fee as the payout; the records in the bank are those records |
| `Withdrawals.BundlesPayTheBurns` | daemon/src/m6.rs:44-88 | after every run, the M6 of a sealed bundle has one output for each burn of its range, with the script and the payout of that burn, their fees big-endian in output 0, and the first index as lock time |
| `Withdrawals.BurnIsTaken` | programs/bridge/src/lib.rs:337-398 | after every run, a burn lands if and only if the user signs and holds the lamports, they were credited and not burned so far, the amounts and the script are good, and gifts back the float |
| `Withdrawals.CloseIsTaken` | programs/bridge/src/lib.rs:475-482 | after every run, a close lands if and only if the record is there, paid, and asked for by the user of its burn; then it is gone and no other record changes |
| `Withdrawals.StandardForms` | programs/bridge/src/lib.rs:539-548 | the scripts that a withdrawal may name are P2PKH, P2SH, P2WPKH, P2WSH and P2TR, and no others |
| `SealedRuns.SealedBundlesCoverTheRecords` | programs/bridge/src/lib.rs:399-483 | after every run the bundles are consecutive disjoint cuts of at most 1500 records from 0 to `bundled_through`, every record from `paid_through` on still exists, and each bundle builds again with its M6ID |
| `SealedRuns.NextBundleBuilds` | daemon/src/peg.rs:163-183 | the next bundle builds and its seal lands exactly when its first index fits a u32: no overflow, no treasury form, no excess weight |
| `SealedRuns.MarkedMeansPaid` | programs/bridge/src/lib.rs:435-471 | eCash never pays out more than was burned, and the bundles that the bridge marked are a prefix of those that eCash paid |
| `M6.BuildBlindedM6` | daemon/src/m6.rs:44-88 | the built M6 holds the fee output and each payout in order within the weight limit, and each error comes exactly with its cause, the first one |
| `M6.WriteLegacy` | daemon/src/m6.rs:104-122 | the writer gives the legacy frame of the specification |
| `M6.LegacyFrameIsInjective` | daemon/src/m6.rs:91-122 | two M6 that fit the frame and have one frame are equal |
| `LegacyFrame.FrameReadsBack` | daemon/src/m6.rs:91-122 | a reader of Bitcoin's legacy transaction format finds the whole M6 again: version 2, no input, each output in order, the lock time |
| `M6.BlindedValue` | daemon/src/m6.rs:44-88 | the M6 pays the fee plus all payouts, with the fee read back from its output |
| `M6.WeightBound` | daemon/src/m6.rs:35-88 | a bundle of n payouts to standard scripts weighs at most 4 x (31 + 43 n), so 1500 records stay below the limit |
| `M6.TreasuryFormIs` | daemon/src/m6.rs:29-33 | a treasury form is OP_DRIVECHAIN under one of the two opcodes, any one-byte slot, and OP_TRUE |
| `M6.WeightIs` | daemon/src/m6.rs:80-86 | the weight of a blinded M6 is that of BIP 141 for a transaction without witness bytes |
| `Bundle.BundleOf` | daemon/src/peg.rs:163-183 | the loop gives the bundle of the records, or the error of the first cause in the order of the code |
| `Bundle.Complete` | daemon/src/peg.rs:147-158 | no index is missing exactly when the records hold each index of the range in order; otherwise the first missing one is named |
| `Bundle.BridgeRecordsBuild` | daemon/src/peg.rs:163-183 | every run of records that the bridge wrote builds, unless its first index is above a u32 |
| `Bundle.BundleValue` | daemon/src/peg.rs:163-183 | ten times the satoshis of a bundle are the lamports that its records burned |
| `Bundle.BundleNamesItsRange` | daemon/src/peg.rs:160-162 | two bundles with one M6 hold the same record range |
| `Peg.ReadBundleStatus` | daemon/src/peg.rs:197-220 | the loop with its early return gives the status of the whole story: the first payment, or else the newest event |
| `Peg.PaymentIsFinal` | daemon/src/peg.rs:194-196 | nothing after a payment changes the status |
| `Peg.AdvanceIsFullScan` | daemon/src/peg.rs:223-231 | `advance` after one list equals one scan of both lists, for all event lists |
| `Peg.StoryKnowsThePayment` | daemon/src/peg.rs:197-220 | a bundle reads as succeeded exactly when some connected block paid it |
| `Scan.ScanBundle` | daemon/src/peg.rs:263-288 | with a truthful enforcer the method gives the next scan of the specification, kept or from the seal; it fails only when the seal height of a fresh scan does not fit a u32 or a call that it made itself on the tip's path had no answer |
| `Scan.ScansReadAboveTheBase` | daemon/src/peg.rs:260-288 | without any assumption on the events, the memory after every sequence of tips with reorgs is one read above the height where the kept scans began |
| `Scan.ScansAreExact` | daemon/src/peg.rs:260-288 | the scan agrees with a read from scratch if and only if what the kept scans read at or below the seal vanishes in the status |
| `Scan.DeepTipsAreEnough` | daemon/src/peg.rs:260-288 | when every earlier tip was at or above the seal, the scan is the read from scratch for all events |
| `Scan.ScansEqualFullReads` | daemon/src/peg.rs:260-288 | when the events of each bundle come after its seal, the scan after every sequence of tips with reorgs equals a read of the whole active chain and a read from the seal |
| `Scan.EarlyEventsBreakTheScan` | daemon/src/peg.rs:233-244 | a concrete tree with an event at the seal on which the scan and a read from scratch differ |
| `Decide.RunIsLater` | programs/bridge/src/lib.rs:399-471 | on one branch counters only grow, and a live bundle stays as it is until it is marked paid |
| `Decide.SealIsAccepted` | daemon/src/peg.rs:313-320 | the program accepts every seal that the peg decides on, for any branch above the root |
| `Decide.SealTakesAllThatIsFinal` | daemon/src/peg.rs:538-552 | the seal takes each record that is final at the root, up to 1500 |
| `Decide.MarkIsAccepted` | daemon/src/peg.rs:327-338 | the program accepts every paid mark that the peg decides on, and the followed branch still holds that very bundle |
| `Decide.MarksIff` | daemon/src/peg.rs:321-338 | the peg marks a bundle if and only if the root holds it live, the branch has not marked it, and it is paid on every chain that keeps all but the newest max(confirmations, 1) - 1 blocks |
| `Decide.ProposesIff` | daemon/src/peg.rs:321-344 | the peg proposes if and only if the root holds a live bundle that the branch has not marked and eCash has not paid |
| `Decide.SealsIff` | daemon/src/peg.rs:313-344 | exactly when the peg seals, and exactly when it waits |
| `Proposals.Proposals.Persist` | daemon/src/proposals.rs:120-128 | memory, file and answer after each outcome of the write |
| `Proposals.Proposals.Store` | daemon/src/proposals.rs:153-161 | the skip, and memory, file and answer after each outcome of the write |
| `Proposals.Proposals.Add` | daemon/src/proposals.rs:132-137 | the proposal replaces every older one of its M6ID |
| `Proposals.Proposals.DropPaid` | daemon/src/proposals.rs:141-151 | exactly the proposals that end at or below the mark go, and the mark never falls |
| `Proposals.JournalHoldsTheNewest` | daemon/src/proposals.rs:130-151 | after every sequence of changes, the journal holds a proposal if and only if it is the newest of its M6ID and its range was not dropped since |
| `Proposals.JournalKnowsTheHighestDrop` | daemon/src/proposals.rs:141-151 | the dropped index of the journal is the highest one of all drops |
| `Proposals.Proposals.CheckOverlap` | daemon/src/peg.rs:625-659 | the check passes exactly when the range starts at or above the dropped index and each overlapping proposal of another M6ID has failed deep enough |
| `Proposals.Blocking` | daemon/src/proposals.rs:224-239 | the first proposal that has not ended, or none when all have |
| `PegProtocol.FreeMeansClear` | daemon/src/peg.rs:625-659 | when the check passes, every overlapping bundle that was handed over is dead |
| `PegProtocol.NoRecordIsPaidTwice` | daemon/src/peg.rs:568-602 | over every safe run with crashes, failed writes, rollbacks and reorgs, of two handed-off bundles that share a record at most one is not deep-failed, and eCash pays at most one |
| `PegProtocol.FileKnowsEveryHandOff` | daemon/src/proposals.rs:130-151 | at every moment the file holds each handed-off bundle with a tip not below its newest hand-off, or the bundle ends at or below the dropped index |
| `PegProtocol.AtomicWritesAreSafe` | daemon/src/proposals.rs:189-203 | when a write happens or fails as a whole, every run is safe |
| `JournalSkip.UnsafeSkipLoses` | daemon/src/proposals.rs:153-161 | from every state of the invariant where a store skips and the file does not cover the hand-off, a run without another failed write ends with two live bundles that share a record |
| `JournalSkip.SafeSkipIsExact` | daemon/src/proposals.rs:153-161 | with seven heights left, the store of a hand-off keeps the promise over every safe run that follows if and only if its skip was safe |
| `JournalGap.OneFailedSyncIsEnough` | daemon/src/proposals.rs:189-203 | a run from a first start whose only failed write is one sync after the rename, and which leaves two live bundles with one record |
| `BlockTree.PathIs` | daemon/src/enforcer.rs:1063-1065 | the path of a block is its ancestors one by one |
| `Headers.ReadPage` | daemon/src/enforcer.rs:1036-1054 | one call of bounded width; an answer that passes the checks is a parent-linked run down from the asked block, and a failure means that this call failed or its answer did not pass |
| `Headers.ActiveHeaders.Meet` | daemon/src/enforcer.rs:991-1018 | the first loop of `follow` within its budget, for every earlier cache and every reorg; it fails only when a call that it made for a block of the tip's path was refused |
| `Headers.ActiveHeaders.Deepen` | daemon/src/enforcer.rs:1019-1031 | one call lowers the kept headers, no call means that the floor is reached or the cache is empty, and it fails only when its call was refused |
| `Headers.ActiveHeaders.Follow` | daemon/src/enforcer.rs:979-1034 | after a success the cache is a gapless linked run of true headers that ends at the tip, at most `pages` calls were made, none too wide, and fewer calls mean that the floor is reached; after a failure one of its calls for a block of the tip's path was refused |
| `Headers.KeptIsTheActiveChain` | daemon/src/enforcer.rs:966-978 | each kept header is the true ancestor of the tip at its height |
| `Headers.ActiveHeaders.FollowAgain` | daemon/src/enforcer.rs:979-1034 | repeated calls of `follow` at one tip lower the cache each time and reach the floor after at most as many calls as there are heights above it |
| `Headers.RefusedMeansFailed` | daemon/src/enforcer.rs:1036-1054 | with a truthful server a page is refused only when the call itself had no answer |
| `Headers.HeaderAt` | daemon/src/enforcer.rs:941-963 | the walk ends on every answer of a server; on truthful ones it gives the ancestor, and at a height up to the tip it fails only when a call that it made itself, for a block of the tip's path, had no answer |
| `Headers.PageBorders` | daemon/src/enforcer.rs:1071-1078 | the borders hang together from the tip to the start height, each page of bounded width; it fails only when a header call that it made itself, for a block of the tip's path, had no answer |
| `Headers.PegDataFrom` | daemon/src/enforcer.rs:1063-1084 | exactly the events of the unique path above the start height, oldest first, none lost or repeated at a border; it fails only when a header call or an event call that it made itself on the tip's path had no answer |
| `CreditRun.OthersLeaveTheCursor` | programs/bridge/src/lib.rs:337-529 | no instruction but a credit touches the credit cursor |
| `CreditRun.DepositsLand` | programs/bridge/src/lib.rs:248-314 | each deposit of a part goes to its target or to the stranded counter, never both, in strictly increasing sequence order |
| `CreditRun.DepositIsTakenIff` | programs/bridge/src/lib.rs:258-314 | a deposit of an accepted part goes to its target if and only if that is an ordinary account in which it fits on top of the deposits that the target took before |
| `CreditRun.CreditTakes` | programs/bridge/src/lib.rs:208-334 | an accepted credit is the next part of the next block on the credited chain |
| `CreditRun.EveryDepositOnce` | programs/bridge/src/lib.rs:208-334 | after every run the parts cover whole blocks in order, and every deposit on their path was credited or stranded exactly once with strictly increasing sequence numbers |
| `CreditRun.EachTargetIsPaid` | programs/bridge/src/lib.rs:248-314 | over every run, what the credits added to an account is the sum of the deposits to it that were taken |
| `CreditRun.CreditedBlocksAreOnePath` | programs/bridge/src/lib.rs:229-237 | the credited blocks are one parent-linked path from the start to the credited block |
| `CreditLoop.PartIsTaken` | daemon/src/credit.rs:61-77 | the program takes the next part and moves its cursor past it |
| `CreditLoop.LoopFinishesTheBlock` | daemon/src/credit.rs:61-91 | a block with n open deposits finishes after exactly max(1, ceil(n / 16)) accepted parts, and before that the next part is ready again |
| `SettleRun.TreasuryIsConserved` | programs/bridge/src/lib.rs:131-192 | over every run the cursor moves by one per settle in order, treasury plus paid total is the start plus all fees, and a settle pays everything above the reserve if it is valid and its payee can take it, and nothing otherwise |
| `SettleRun.OnlyValidCheckpointsArePaid` | programs/bridge/src/lib.rs:146-188 | only the payee of a matching, recorded, active checkpoint within the lag gets lamports, and it is no address of the program |
| `SettleRun.ValidCheckpointsArePaid` | programs/bridge/src/lib.rs:146-190 | a settle that lands pays if and only if the checkpoint is valid and the payout fits the payee; then the payee gains everything above the reserve and the treasury keeps exactly the reserve, and otherwise no balance changes |
| `SettleRun.ValidCheckpointsLand` | programs/bridge/src/lib.rs:131-192 | the settle of a valid checkpoint at the cursor, with a payee that the payout fits, lands |
| `SettleRun.SkipsAreRare` | programs/bridge/src/lib.rs:165-190 | n skips in a log span at least 300 x (n - 1) slots |
| `SettleRun.SkipsOfARun` | programs/bridge/src/lib.rs:165-190 | the same for the log of every run |
| `SettleRun.FeesRollOver` | programs/bridge/src/lib.rs:487-529 | a valid settle pays exactly the fees since the valid one before it, whatever heights in between paid nothing |
| `Planner.PairFor` | daemon/src/bmm.rs:108-114 | the pair that matches height and commitment, or none when no pair does |
| `Planner.PlanSettles` | daemon/src/bmm.rs:1347-1383 | a plan of at most 16 good steps from the cursor up that stops early only at a height without two more blocks than the confirmations on top, unread, or unpaired and not yet skippable; an error is the error of a read |
| `Planner.PlannedStepLands` | daemon/src/bmm.rs:1308-1340 | the program accepts a planned step at its place, paid or not |
| `Planner.PairedStepPays` | daemon/src/bmm.rs:1308-1340 | a planned step for a published pair pays its payee everything above the reserve, when the checkpoint is valid and the payout fits |
| `Planner.PlanLands` | daemon/src/bmm.rs:1347-1383 | on a stable chain without another settler every step of the plan succeeds and the cursor moves by the plan length |
| `FeeHistory.FeeHistory.Observe` | daemon/src/bmm.rs:124-127 | the first total of a height stays, and no other height changes |
| `FeeHistory.FeeHistory.ForgetBelow` | daemon/src/bmm.rs:158-170 | the totals below the newest one at or below the height go, and no other |
| `FeeHistory.FeeHistory.IncomePerBlock` | daemon/src/bmm.rs:133-157 | an income exists exactly when a total at or below tip - span was seen, and it is the block-weighted median of the rates since then |
| `FeeHistory.MedianIsUnique` | daemon/src/bmm.rs:130-132 | at most one rate is a block-weighted median |
| `FeeHistory.MajorityHoldsTheMedian` | daemon/src/bmm.rs:130-132 | if more than half of the blocks have rates from a to b, so has the median |
| `FeeHistory.EveryBlockHasARate` | daemon/src/bmm.rs:133-157 | the rates count each block of the window once |
| `FeeHistory.SortSorts` | daemon/src/bmm.rs:149-149 | the sorted rates go up |
| `FeeHistory.SortPermutes` | daemon/src/bmm.rs:149-149 | the sort keeps every rate, as often as it was found |
| `FeeHistory.FirstHalfIsMedian` | daemon/src/bmm.rs:149-156 | the first sorted rate that reaches half of the blocks is the median |
| `FeeHistory.ForgettingIsSafe` | daemon/src/bmm.rs:158-170 | a forget changes no later answer for a span that reaches back to its height or above, whatever is observed and forgotten in between |
| `FeeHistory.ForgetDropsTheOld` | daemon/src/bmm.rs:158-170 | a forget drops a total if and only if another one lies above it at or below the height |
| `FeeHistory.FirstTotalStays` | daemon/src/bmm.rs:124-127 | over every run of observations the history holds the first total of each height |
| `FeeIncome.RateIsIncomePerBlock` | daemon/src/bmm.rs:143-148 | the blocks of a stretch earned at least rate x blocks and less than (rate + 1) x blocks |
| `FeeIncome.RatesAddUp` | daemon/src/bmm.rs:143-148 | while the totals do not fall, the rates times their blocks are what was earned, short of less than one lamport a block |
| `FeeIncome.WindowHoldsEveryTotal` | daemon/src/bmm.rs:133-141 | the window holds each total from its start to below the tip, the total at the tip, and no other |
| `FeeIncome.IncomeExistsIff` | daemon/src/bmm.rs:133-137 | there is an estimate if and only if a total at least `span` blocks back was seen, and its window starts at the newest such total |
| `FeeIncome.IncomeIsTheMedianOfTheTotals` | daemon/src/bmm.rs:129-157 | on the totals themselves, under half of the blocks earned less a block than the estimate, and at least half earned less than one lamport more |
| `FeeIncome.SteadyIncomeIsFound` | daemon/src/bmm.rs:129-132 | when stretches with over half of the blocks earned from a to b lamports a block, the estimate is from a to b |
| `FeeIncome.ExactIncome` | daemon/src/bmm.rs:129-157 | when every stretch earned exactly f lamports a block, the estimate is f |
| `FeeMeter.FeeMeter.Plan` | daemon/src/bmm.rs:557-574 | the plan of the specification: a restart when the slot falls below the newest counted block, or the next slots to read |
| `FeeMeter.FeeMeter.Apply` | daemon/src/bmm.rs:576-613 | the apply of the specification, for present and stale marks |
| `FeeMeter.PlanTakesTheNextSlots` | daemon/src/bmm.rs:557-574 | a plan reads exactly the next unread slots in a row, at most 2000 and none more than 20000 behind, and exists exactly when a slot is unread and the validator did not go back |
| `FeeMeter.CoveredIsAPrefix` | daemon/src/bmm.rs:590-591 | the count takes every block up to the covered slot and none above |
| `FeeMeter.ReadsAreAdjacent` | daemon/src/bmm.rs:557-613 | after a read that counts, the next plan starts right behind it |
| `FeeMeter.StartsBehindTheConfirmed` | daemon/src/bmm.rs:547-570 | a new meter and a new generation read on right behind the confirmed slot that they started at |
| `FeeMeter.ScanCountsIff` | daemon/src/bmm.rs:580-613 | a scan counts if and only if each of its blocks links, and then it adds exactly their fees |
| `FeeMeter.GenerationIsOneChain` | daemon/src/bmm.rs:533-613 | over all interleavings the counted blocks of a generation are one parent-linked chain with increasing slots, none twice, and the total grew by exactly their fees |
| `FeeMeter.NewGenerationIff` | daemon/src/bmm.rs:560-613 | a new generation starts exactly at a rollback below the newest counted block or at a present read with an unlinked block |
| `FeeMeter.StaleMarkChangesNothing` | daemon/src/bmm.rs:580-585 | once a read moved the meter, its mark changes nothing at any later time |
| `FeeMeter.RunMovesOn` | daemon/src/bmm.rs:533-613 | the meter never returns to an earlier state, and its total never falls |
| `OwnerWalk.Walk` | daemon/src/migrate.rs:300-323 | the worklist ends, reads each owner once with its rule and all of its accounts, and the owners are the least set closed under the programs they name |
| `OwnerWalk.ReadMeansLed` | daemon/src/migrate.rs:168-218 | an owner is read exactly when a chain of programs leads to it from a root, however long |
| `Programs.NamesAreThePrograms` | daemon/src/migrate.rs:168-218 | the walk goes on to a key exactly when the owner has an account there that holds a program as its loader writes one |
| `Programs.StartsAre` | daemon/src/migrate.rs:300-312 | the walk starts from the root owners and from each executable account of the system program and of the bridge |
| `OwnerWalk.ItemsAreTheAnswers` | daemon/src/migrate.rs:620-664 | the collected items are the answers of the three kinds of reads in their order: the bridge without its config, the system program, and each owner |
| `OwnerWalk.EachAccountOnce` | daemon/src/migrate.rs:286-386 | the export reads every account of the owners of the walk exactly once, and no account twice |
| `OwnerWalk.OnlyTheOwnerlessStayBehind` | daemon/src/migrate.rs:275-389 | for a halted bank, balances, carried accounts, fixed and ownerless lamports are the whole bank, and the ownerless ones are those of the accounts whose owner no chain of programs reaches |
| `Migrate.ReadsReflect` | daemon/src/migrate.rs:433-486 | after any reads the collection is determined by the accounts: balances, carried, converted, fixed and read |
| `Migrate.ReadsConserve` | daemon/src/migrate.rs:433-486 | every lamport that was read is held, waits for a withdrawer, or is fixed |
| `Withdrawers.StakeWithdrawerIs` | daemon/src/migrate.rs:570-578 | the reader answers a key if and only if the bytes are a written stake state of that withdrawer, with tag 1 or 2, whatever the staker |
| `Withdrawers.VoteWithdrawerIs` | daemon/src/migrate.rs:580-588 | the same for a vote state, with tag 1 to 3, whatever the node |
| `Withdrawers.WithdrawersGetTheirStake` | daemon/src/migrate.rs:455-530 | on the new chain the withdrawer of written stake and vote accounts gets all their lamports beside its own, and the accounts do not come along; at a key that is not plain they carry over instead |
| `Withdrawers.OtherAccountsOfOwners` | daemon/src/migrate.rs:100-131 | every other account of an owner carries over if and only if neither its owner nor its key is remade by the new genesis |
| `Export.Carried.Carry` | daemon/src/migrate.rs:444-453 | the account joins the carried ones and the read total, which saturates |
| `Export.Carried.TakeSystem` | daemon/src/migrate.rs:433-442 | a plain account becomes a balance, any other one carries |
| `Export.Carried.Apply` | daemon/src/migrate.rs:455-486 | the rule of the owner, with the genesis keys and the bridge program fixed first |
| `Export.Carried.Finish` | daemon/src/migrate.rs:488-556 | each withdrawer with a plain key gets all its lamports, all other sources carry, and each error comes with its cause, whatever the order |
| `Export.LamportsAreConserved` | daemon/src/migrate.rs:432-558 | balances, carried, fixed and ownerless lamports are the supply, and the ownerless ones are what was not read |
| `Export.ExportMeans` | daemon/src/migrate.rs:488-530 | which key gets which balance and which account carries is a function of the accounts alone, chains of withdrawers included |
| `Export.BalancesAndAccountsAreDisjoint` | daemon/src/migrate.rs:494-511 | no key is both a plain balance and a carried account |
| `Export.ExportEnds` | daemon/src/migrate.rs:488-556 | exactly when the export overflows, overcounts, or succeeds |
| `Export.ReadOrderDoesNotMatter` | daemon/src/migrate.rs:488-530 | any two read orders end alike: the same error, or the same balances, accounts and totals |
| `VoteReset.VotersKeepTheirEpochs` | daemon/src/genesis.rs:585-602 | for an ordered list, the voter in force at new epoch e is the one in force at source + e if and only if the old list has an entry at or before source + e |
| `VoteReset.TwoRebasesAreOne` | daemon/src/genesis.rs:585-602 | moving an ordered list by s and then by t is moving it by s + t |
| `VoteReset.RebasedStays` | daemon/src/genesis.rs:585-602 | a rebased list of any order is a fixed point at epoch 0 |
| `VoteAccount.Reader.Take` | daemon/src/genesis.rs:507-517 | a read gives the next bytes and moves past them, or leaves the place |
| `VoteAccount.ResetVote` | daemon/src/genesis.rs:506-583 | the method with its reader and its buffer gives the reset of the specification for all bytes |
| `VoteAccount.ResetMeans` | daemon/src/genesis.rs:506-583 | a reset keeps length and kept fields, and reads back as the rebased voters with no vote, no root, no history and zeros after it |
| `VoteAccount.ResetKeepsTheVoters` | daemon/src/genesis.rs:501-505 | byte to byte, the voter in force keeps its distance from the halt exactly where the old account had one |
| `VoteAccount.ResetStays` | daemon/src/genesis.rs:506-583 | a reset account is a fixed point of the reset at epoch 0 |
| `VoteAccount.ResetHappens` | daemon/src/genesis.rs:506-583 | a reset happens if and only if the voters read, there is one, and the new account fits |
| `Layouts.BallotReadsBack` | daemon/src/genesis.rs:525-560 | the reader gives back every part of a written vote state of the three forms: votes, root and voters |
| `Layouts.FreshHistoryIsEmpty` | daemon/src/genesis.rs:571-577 | the history of a fresh vote state is an empty ring of 32 prior voters, no credits and no timestamp |
| `TransferFees.FindFee` | daemon/src/genesis.rs:404-445 | the loop stays in bounds, ends on all bytes, and finds the fee of the specification |
| `TransferFees.RebaseTransferFees` | daemon/src/genesis.rs:395-452 | in place, the array becomes the rebased bytes |
| `TransferFees.FeeAtMeans` | daemon/src/genesis.rs:390-448 | the loop finds a fee if and only if the base is that of a mint and the rest is a written extension list with exactly one fee extension, of the right length |
| `TransferFees.OnlyTheEpochsMove` | daemon/src/genesis.rs:390-452 | a mint that does not decode stays, one that does still decodes with its fee at the same place, and only its two epochs change |
| `TransferFees.FeeInForceStays` | daemon/src/genesis.rs:390-394 | the fee in force at new epoch e is the fee in force at source + e, for every e |
| `TransferFees.TwoMovesAreOne` | daemon/src/genesis.rs:395-452 | two moves are one move by the sum, byte for byte |
| `Layouts.FeeConfigMoves` | daemon/src/genesis.rs:395-452 | in a written fee extension the epochs of the older and the newer fee move back, and no other field changes |
| `SlotZero.RebaseToSlotZero` | daemon/src/genesis.rs:458-499 | in place, the account becomes what its owner and tag ask for |
| `SlotZero.DelegationsKeepTheirMeaning` | daemon/src/genesis.rs:479-491 | a stake is locked for the same epochs as on the old chain, the epoch that never comes stays, and no other byte changes |
| `Layouts.DelegatedStakeMoves` | daemon/src/genesis.rs:480-492 | in a written delegated stake the lockup epoch keeps what it has left, both epochs of the delegation become 0 unless they never come, and no other field changes |
| `Layouts.InitializedStakeMoves` | daemon/src/genesis.rs:480-486 | in a written stake without a delegation only the lockup epoch moves |
| `Layouts.ProgramDataMoves` | daemon/src/genesis.rs:471-472 | written program data starts at slot 0, and other accounts of the loader stay |
| `Layouts.LoaderV4Moves` | daemon/src/genesis.rs:473-474 | a written program of loader v4 starts at slot 0 |
| `Layouts.LookupTableMoves` | daemon/src/genesis.rs:475-479 | in a written lookup table both slots become 0, but a table that is not deactivated stays so |
| `SlotZero.SlotZeroStays` | daemon/src/genesis.rs:458-499 | a second move by no epoch changes nothing, for every owner and all bytes |
| `Base58.B58Encode` | genesis/dex_accounts.py:43-49 | the loop gives the digits of the number after one `1` for each leading zero byte |
| `Base58.B58Decode` | genesis/dex_accounts.py:31-40 | the loop gives the parse of the specification with its three errors |
| `Base58.EncodedLength` | genesis/dex_accounts.py:31-49 | the text of a 32-byte key always has 32 to 44 characters |
| `Base58.KeysReadBack` | genesis/dex_accounts.py:31-49 | `b58decode(b58encode(k)) == k` for every 32-byte key |
| `Base58.OnlyCanonicalText` | genesis/dex_accounts.py:31-40 | the parser accepts a text as a key if and only if it is the text that the printer gives for that key |

## Left out

- gRPC, Solana RPC, HTTP, timers, retries and the command line: each read is an answer of the tree or of the bank state.
- The Agave patch: fork choice, root moves and the block record are not part of this model, its answers are inputs.
- SHA-256, ed25519, the derivation of addresses, `on_curve` and base64: addresses of the program are three fixed keys that no one signs for.
- Rent and the account rules of the runtime inside `can_take` and `can_hold`: a reserved flag, an owned flag and a rent floor for each account.
- `PegProtocol.NoRecordIsPaidTwice`: claims nothing about one M6ID that is sealed again at a later height after a rollback, because the scan start of an M6ID is fixed.
- `PegProtocol.NoRecordIsPaidTwice`, for the operator override `--new-bundle-log`: it starts without the file and is outside the journal invariant.
- `SettleRun.SkipsAreRare`: claims nothing for a log that ends at slot 2^64 - 1, where the saturating sum lets every skip pass.
- `Export.LamportsAreConserved`: for accounts that hold more than 2^64 - 1 lamports together the export can only be shown to stop below that supply.
- `Planner.PlanLands`: needs the active chain, the pairs and the cursor to stay as they were read; a stale plan may fail at the program, which is harmless there.
- The checks of a bid (`passes_rule_3`, `bid_sats`) and the pairs that the BMM loop keeps and publishes (`Memory`): short predicates and map updates.
- The close cursor of the peg (`close_paid`, `closed_through`): a minimum over a read.
- `accounts` and `fresh_over` of the genesis, `yaml` and `parse_yaml`, the encoding of `Config` and `WithdrawalRecord`: field by field copies in a fixed layout.
- `live_m6id` of the export and `accept_ownerless_lamports`: one lookup and one comparison.
- `seed.rs`, `network.rs`, `hex.rs`, `address.rs`, the M1 and M2 declarations and the shell scripts.
