/** Every run of `credit_deposits` against answers about the blocks of one
    tree: which deposits it credited, from which blocks, and in which order. */
module CreditRun {
  import opened Prelude
  import opened Bridge
  import opened ECash
  import opened BlockTree
  import opened Ledger

  /** A part that the program took, and which of its deposits got the lamports. */
  datatype Part = Part(block: Hash, first: nat, end: nat, taken: seq<bool>)

  /** `paidOut`: the lamports that left the vault in the parts. */
  datatype Run = Run(s: State, parts: seq<Part>, paidOut: int)

  /** The answer of a validator about one block of the tree, active or not. */
  function AnswerOf(t: Tree, height: u64, blockHash: Hash, first: u32, count: u8): Option<DepositAnswer> {
    if blockHash in t && t[blockHash].height == height && first + count <= |t[blockHash].deposits| <= U32_MAX
    then
      var b := t[blockHash];
      Some(DepositAnswer(height, blockHash, b.prev, |b.deposits|, first, b.deposits[first..first + count]))
    else None
  }

  /** `Other` is any other transaction: it leaves the credit cursor alone. */
  datatype Step =
    | Credit(height: u64, blockHash: Hash, first: u32, count: u8, metas: seq<Meta>)
    | Other(after: State)

  ghost predicate SameCursor(a: Config, b: Config) {
    && a.creditedHeight == b.creditedHeight && a.creditedBlock == b.creditedBlock
    && a.creditIndex == b.creditIndex && a.creditPartBlock == b.creditPartBlock
    && a.depositHighWater == b.depositHighWater && a.strandedLamports == b.strandedLamports
  }

  /** For each deposit, whether the program moves its lamports to the target. */
  ghost function TakenOf(t: Tally, deposits: seq<Deposit>): (taken: seq<bool>)
    requires ApplyDeposits(t, deposits).Ok?
    ensures |taken| == |deposits|
    decreases |deposits|
  {
    if deposits == [] then []
    else
      var d := deposits[0];
      var takes := d.target.Some? && CanTake(t.s, t.metas[0], 10 * d.valueSats).value;
      [takes] + TakenOf(ApplyDeposit(t, d).value, deposits[1..])
  }

  ghost function Next(t: Tree, r: Run, step: Step): Run {
    match step
    case Other(after) => if SameCursor(r.s.config, after.config) then r.(s := after) else r
    case Credit(height, blockHash, first, count, metas) =>
      var answer := AnswerOf(t, height, blockHash, first, count);
      match CreditDeposits(r.s, height, blockHash, first, count, answer, metas)
      case Err(_) => r
      case Ok(s) =>
        var start := Tally(r.s, metas, r.s.config.depositHighWater, 0, 0);
        var part := Part(blockHash, first, first + count, TakenOf(start, answer.value.deposits));
        Run(s, r.parts + [part], r.paidOut + r.s.Lamports(VAULT) - s.Lamports(VAULT))
  }

  ghost function After(t: Tree, r: Run, steps: seq<Step>): Run {
    if steps == [] then r else Next(t, After(t, r, steps[..|steps| - 1]), steps[|steps| - 1])
  }

  /** The instructions other than `credit_deposits` are `Other` steps. */
  lemma {:induction false} OthersLeaveTheCursor(s: State, after: State)
    requires
      || (exists user, lamports, feeSats, script :: Withdraw(s, user, lamports, feeSats, script) == Ok(after))
      || (exists signer, through, m6id :: SealBundle(s, signer, through, m6id) == Ok(after))
      || (exists signer, through, height, hash, m6id, answer ::
            BundlePaid(s, signer, through, height, hash, m6id, answer) == Ok(after))
      || (exists index, owner :: CloseRecord(s, index, owner) == Ok(after))
      || (exists height, hash, block, payee, answer, slot ::
            SettleBmm(s, height, hash, block, payee, answer, slot) == Ok(after))
      || (exists from, to, lamports :: Transfer(s, from, to, lamports) == Ok(after))
    ensures SameCursor(s.config, after.config)
  {
    if height, hash, block, payee, answer, slot :| SettleBmm(s, height, hash, block, payee, answer, slot) == Ok(after) {
      SettleEffect(s, height, hash, block, payee, answer, slot);
    }
  }

  // ------------------------------------------------------------- what it keeps

  ghost predicate PartFits(t: Tree, p: Part) {
    && p.block in t && p.first <= p.end <= |t[p.block].deposits| && |p.taken| == p.end - p.first
    && (p.first < p.end || t[p.block].deposits == [])
  }

  ghost function DepositsOf(t: Tree, p: Part): seq<Deposit>
    requires PartFits(t, p)
  {
    t[p.block].deposits[p.first..p.end]
  }

  ghost predicate AllFit(t: Tree, parts: seq<Part>) {
    forall i :: 0 <= i < |parts| ==> PartFits(t, parts[i])
  }

  /** Every deposit of the parts, oldest first. */
  ghost function Credits(t: Tree, parts: seq<Part>): seq<Deposit>
    requires AllFit(t, parts)
  {
    if parts == [] then []
    else Credits(t, parts[..|parts| - 1]) + DepositsOf(t, parts[|parts| - 1])
  }

  /** A part goes on where the one before it ended: in the same block, or at
      the start of a child of the block that it finished. */
  ghost predicate GoesOn(t: Tree, a: Part, b: Part)
    requires PartFits(t, a) && PartFits(t, b)
  {
    if a.end < |t[a.block].deposits| then b.block == a.block && b.first == a.end
    else b.first == 0 && t[b.block].prev == a.block && t[b.block].height == t[a.block].height + 1
  }

  ghost predicate InOrder(t: Tree, parts: seq<Part>)
    requires AllFit(t, parts)
  {
    forall i :: 0 < i < |parts| ==> GoesOn(t, parts[i - 1], parts[i])
  }

  ghost function BlockDeposits(blocks: seq<Block>): seq<Deposit> {
    if blocks == [] then [] else BlockDeposits(blocks[..|blocks| - 1]) + blocks[|blocks| - 1].deposits
  }

  /** The lamports of the deposits that were taken, or of those that were not. */
  ghost function Split(deposits: seq<Deposit>, taken: seq<bool>, wanted: bool): nat
    requires |deposits| == |taken|
  {
    if deposits == [] then 0
    else (if taken[0] == wanted then 10 * deposits[0].valueSats else 0) + Split(deposits[1..], taken[1..], wanted)
  }

  ghost function SplitAll(t: Tree, parts: seq<Part>, wanted: bool): nat
    requires AllFit(t, parts)
  {
    if parts == [] then 0
    else
      var p := parts[|parts| - 1];
      SplitAll(t, parts[..|parts| - 1], wanted) + Split(DepositsOf(t, p), p.taken, wanted)
  }

  ghost predicate Increasing(deposits: seq<Deposit>, below: nat) {
    && (forall i, j :: 0 <= i < j < |deposits| ==> deposits[i].sequenceNumber < deposits[j].sequenceNumber)
    && (forall i :: 0 <= i < |deposits| ==> deposits[i].sequenceNumber < below)
  }

  /** The block that the cursor stands on, and the open one above it. */
  ghost predicate CursorStands(t: Tree, start: Config, c: Config)
    requires IsTree(t)
  {
    && c.creditedHeight >= start.creditedHeight
    && (if c.creditedHeight == start.creditedHeight then c.creditedBlock == start.creditedBlock
        else c.creditedBlock in t && t[c.creditedBlock].height == c.creditedHeight)
    && (c.creditIndex > 0 ==>
          && c.creditPartBlock in t && t[c.creditPartBlock].height == c.creditedHeight + 1
          && c.creditIndex < |t[c.creditPartBlock].deposits|
          && (c.creditedBlock == ZERO_HASH || t[c.creditPartBlock].prev == c.creditedBlock))
    && StandsOnStart(t, start, c)
  }

  /** The credited blocks stand on the block that the start names. */
  ghost predicate StandsOnStart(t: Tree, start: Config, c: Config)
    requires IsTree(t)
  {
    c.creditedHeight > start.creditedHeight && start.creditedBlock != ZERO_HASH ==>
      && c.creditedBlock in t && start.creditedHeight <= t[c.creditedBlock].height
      && At(t, c.creditedBlock, start.creditedHeight).hash == start.creditedBlock
  }

  /** The credited blocks above the start, and the deposits of the open block. */
  ghost function CreditedPath(t: Tree, start: Config, c: Config): seq<Block>
    requires IsTree(t)
  {
    if c.creditedHeight > start.creditedHeight && c.creditedBlock in t
    then Path(t, c.creditedBlock, start.creditedHeight) else []
  }

  ghost function OpenDeposits(t: Tree, c: Config): seq<Deposit> {
    if c.creditIndex > 0 && c.creditPartBlock in t && c.creditIndex <= |t[c.creditPartBlock].deposits|
    then t[c.creditPartBlock].deposits[..c.creditIndex] else []
  }

  /** The last part is where the cursor stands. */
  ghost predicate LastPart(t: Tree, start: Config, r: Run)
    requires AllFit(t, r.parts)
  {
    var c := r.s.config;
    if r.parts == [] then
      c.creditedHeight == start.creditedHeight && c.creditIndex == 0
    else
      var p := r.parts[|r.parts| - 1];
      if p.end < |t[p.block].deposits| then
        c.creditIndex == p.end && c.creditPartBlock == p.block
      else
        c.creditIndex == 0 && c.creditedBlock == p.block && c.creditedHeight == t[p.block].height
  }

  ghost predicate Inv(t: Tree, start: Config, r: Run)
    requires IsTree(t)
  {
    && CursorStands(t, start, r.s.config)
    && AllFit(t, r.parts) && InOrder(t, r.parts) && LastPart(t, start, r)
    && Credits(t, r.parts) == BlockDeposits(CreditedPath(t, start, r.s.config)) + OpenDeposits(t, r.s.config)
    && Increasing(Credits(t, r.parts), r.s.config.depositHighWater)
    && r.s.config.strandedLamports == start.strandedLamports + SplitAll(t, r.parts, false)
    && r.paidOut == SplitAll(t, r.parts, true)
  }

  // ------------------------------------------------------------------ one part

  ghost function PaidTo(deposits: seq<Deposit>, taken: seq<bool>, key: Pubkey): nat
    requires |deposits| == |taken|
  {
    if deposits == [] then 0
    else (if taken[0] && deposits[0].target == Some(key) then 10 * deposits[0].valueSats else 0)
         + PaidTo(deposits[1..], taken[1..], key)
  }

  /** One deposit: it is taken and goes to its target, or it is stranded. */
  lemma {:induction false} DepositLands(t: Tally, d: Deposit)
    requires ApplyDeposit(t, d).Ok?
    ensures d.target.Some? ==> t.metas != []
    ensures var next := ApplyDeposit(t, d).value;
            var takes := d.target.Some? && CanTake(t.s, t.metas[0], 10 * d.valueSats).value;
            && t.highWater <= d.sequenceNumber < next.highWater
            && next.stranded == t.stranded + (if takes then 0 else 10 * d.valueSats)
            && next.credited == t.credited + (if takes then 10 * d.valueSats else 0)
            && (takes ==> d.target != Some(VAULT))
            && next.s.Lamports(VAULT) == t.s.Lamports(VAULT) - (if takes then 10 * d.valueSats else 0)
            && forall key :: key != VAULT ==>
                 next.s.Lamports(key) == t.s.Lamports(key) + (if takes && d.target == Some(key) then 10 * d.valueSats else 0)
  {
    var lamports: u64 := 10 * d.valueSats;
    if d.target.Some? && CanTake(t.s, t.metas[0], lamports).value && lamports > 0 {
      TransferMoves(t.s, VAULT, d.target.value, lamports);
    }
  }

  /** The deposits of a part have strictly increasing sequence numbers, and each
      one goes to its target or to the stranded counter, never to both. */
  lemma {:induction false} DepositsLand(t: Tally, deposits: seq<Deposit>, key: Pubkey)
    requires ApplyDeposits(t, deposits).Ok? && key != VAULT
    ensures var end := ApplyDeposits(t, deposits).value;
            var taken := TakenOf(t, deposits);
            && t.highWater <= end.highWater
            && Increasing(deposits, end.highWater)
            && (forall i :: 0 <= i < |deposits| ==> t.highWater <= deposits[i].sequenceNumber)
            && end.stranded == t.stranded + Split(deposits, taken, false)
            && end.credited == t.credited + Split(deposits, taken, true)
            && end.s.Lamports(VAULT) == t.s.Lamports(VAULT) - Split(deposits, taken, true)
            && end.s.Lamports(key) == t.s.Lamports(key) + PaidTo(deposits, taken, key)
    decreases |deposits|
  {
    if deposits != [] {
      DepositLands(t, deposits[0]);
      DepositsLand(ApplyDeposit(t, deposits[0]).value, deposits[1..], key);
      assert forall i :: 0 < i < |deposits| ==> deposits[i] == deposits[1..][i - 1];
      hide ApplyDeposit; hide CanTake;
      assert TakenOf(t, deposits)[1..] == TakenOf(ApplyDeposit(t, deposits[0]).value, deposits[1..]);
    }
  }

  /** A part that the program took: it names a block one above the credited
      one, it goes on at the credit index, and it moves the cursor past it. */
  ghost predicate Takes(t: Tree, r: Run, next: Run, p: Part) {
    var c, d := r.s.config, next.s.config;
    && next.parts == r.parts + [p]
    && PartFits(t, p) && t[p.block].height == c.creditedHeight + 1
    && (c.creditedBlock == ZERO_HASH || t[p.block].prev == c.creditedBlock)
    && (c.creditIndex == 0 || p.block == c.creditPartBlock)
    && p.first == c.creditIndex
    && (if p.end < |t[p.block].deposits|
        then d.creditedHeight == c.creditedHeight && d.creditedBlock == c.creditedBlock
             && d.creditIndex == p.end && d.creditPartBlock == p.block
        else d.creditedHeight == c.creditedHeight + 1 && d.creditedBlock == p.block && d.creditIndex == 0)
    && PartCounts(c, d, DepositsOf(t, p), p.taken, next.paidOut - r.paidOut)
  }

  ghost predicate PartCounts(c: Config, d: Config, deposits: seq<Deposit>, taken: seq<bool>, paid: int)
    requires |deposits| == |taken|
  {
    && c.depositHighWater <= d.depositHighWater
    && Increasing(deposits, d.depositHighWater)
    && (forall i :: 0 <= i < |deposits| ==> c.depositHighWater <= deposits[i].sequenceNumber)
    && d.strandedLamports == c.strandedLamports + Split(deposits, taken, false)
    && paid == Split(deposits, taken, true)
  }

  lemma {:induction false} CreditTakes(t: Tree, r: Run, step: Step)
    requires step.Credit?
    requires var answer := AnswerOf(t, step.height, step.blockHash, step.first, step.count);
             CreditDeposits(r.s, step.height, step.blockHash, step.first, step.count, answer, step.metas).Ok?
    ensures var next := Next(t, r, step);
            next.parts != [] && Takes(t, r, next, next.parts[|next.parts| - 1])
  {
    hide ApplyDeposits; hide Split; hide Increasing; hide PaidTo; hide TakenOf;
    var answer := AnswerOf(t, step.height, step.blockHash, step.first, step.count);
    var start := Tally(r.s, step.metas, r.s.config.depositHighWater, 0, 0);
    DepositsLand(start, answer.value.deposits, TREASURY);
    TallyKeepsTheRest(start, answer.value.deposits);
  }

  lemma {:induction false} PathGrows(t: Tree, start: Config, c: Config, d: Config, block: Hash)
    requires IsTree(t) && block in t && t[block].height == c.creditedHeight + 1 && ZERO_HASH !in t
    requires CursorStands(t, start, c)
    requires c.creditedBlock == ZERO_HASH || t[block].prev == c.creditedBlock
    requires d.creditedHeight == c.creditedHeight + 1 && d.creditedBlock == block && d.creditIndex == 0
    ensures CursorStands(t, start, d)
    ensures CreditedPath(t, start, d) == CreditedPath(t, start, c) + [t[block]]
  {
    assert HasParent(t, block);
    if c.creditedHeight == start.creditedHeight {
      assert Path(t, t[block].prev, start.creditedHeight) == [];
    }
  }

  lemma {:induction false} AllFitMore(t: Tree, parts: seq<Part>, p: Part)
    requires AllFit(t, parts) && PartFits(t, p)
    ensures AllFit(t, parts + [p])
    ensures Credits(t, parts + [p]) == Credits(t, parts) + DepositsOf(t, p)
    ensures forall wanted ::
              SplitAll(t, parts + [p], wanted) == SplitAll(t, parts, wanted) + Split(DepositsOf(t, p), p.taken, wanted)
  {
    assert (parts + [p])[..|parts|] == parts;
  }

  lemma {:induction false} OrderGrows(t: Tree, start: Config, r: Run, next: Run, p: Part)
    requires IsTree(t) && ZERO_HASH !in t && Takes(t, r, next, p)
    requires AllFit(t, r.parts) && InOrder(t, r.parts) && LastPart(t, start, r)
    ensures AllFit(t, next.parts) && InOrder(t, next.parts) && LastPart(t, start, next)
  {
    AllFitMore(t, r.parts, p);
    hide PartCounts;
    var parts := next.parts;
    forall i | 0 < i < |parts| ensures GoesOn(t, parts[i - 1], parts[i]) {
      if i < |r.parts| {
        assert parts[i - 1] == r.parts[i - 1] && parts[i] == r.parts[i];
      }
    }
  }

  /** What the cursor passed grows by exactly the deposits of the part. */
  lemma {:induction false} PassedGrows(t: Tree, start: Config, r: Run, next: Run, p: Part)
    requires IsTree(t) && ZERO_HASH !in t && Takes(t, r, next, p) && CursorStands(t, start, r.s.config)
    ensures CursorStands(t, start, next.s.config)
    ensures BlockDeposits(CreditedPath(t, start, next.s.config)) + OpenDeposits(t, next.s.config)
         == BlockDeposits(CreditedPath(t, start, r.s.config)) + OpenDeposits(t, r.s.config) + DepositsOf(t, p)
  {
    var c, d := r.s.config, next.s.config;
    var deposits := t[p.block].deposits;
    var path := CreditedPath(t, start, c);
    assert OpenDeposits(t, c) == deposits[..p.first];
    Joined(BlockDeposits(path), deposits, p.first, p.end);
    hide PartCounts; hide CreditedPath; hide BlockDeposits;
    if p.end < |deposits| {
      SamePath(t, start, c, d);
      assert CursorStands(t, start, d) by { hide At; hide OpenDeposits; }
      hide CursorStands; hide IsTree;
      assert OpenDeposits(t, d) == deposits[..p.end];
    } else {
      PathGrows(t, start, c, d, p.block);
      hide CursorStands; hide IsTree;
      BlockDepositsGrow(path, t[p.block]);
      assert OpenDeposits(t, d) == [];
    }
  }

  lemma {:induction false} Joined(done: seq<Deposit>, deposits: seq<Deposit>, first: nat, end: nat)
    requires first <= end <= |deposits|
    ensures done + deposits[..first] + deposits[first..end] == done + deposits[..end]
    ensures end == |deposits| ==> done + deposits[..end] == done + deposits + []
  {
    assert deposits[..end] == deposits[..first] + deposits[first..end];
  }

  lemma {:induction false} BlockDepositsGrow(path: seq<Block>, b: Block)
    ensures BlockDeposits(path + [b]) == BlockDeposits(path) + b.deposits
  {
    assert (path + [b])[..|path|] == path;
  }

  lemma {:induction false} SamePath(t: Tree, start: Config, c: Config, d: Config)
    requires IsTree(t) && c.creditedHeight == d.creditedHeight && c.creditedBlock == d.creditedBlock
    ensures CreditedPath(t, start, c) == CreditedPath(t, start, d)
  {
  }

  lemma {:induction false} IncreasingGrows(before: seq<Deposit>, high: nat, more: seq<Deposit>, higher: nat)
    requires Increasing(before, high) && Increasing(more, higher) && high <= higher
    requires forall i :: 0 <= i < |more| ==> high <= more[i].sequenceNumber
    ensures Increasing(before + more, higher)
  {
  }

  lemma {:induction false} PartKeeps(t: Tree, start: Config, r: Run, next: Run, p: Part)
    requires IsTree(t) && ZERO_HASH !in t && Takes(t, r, next, p) && Inv(t, start, r)
    ensures Inv(t, start, next)
  {
    OrderGrows(t, start, r, next, p);
    PassedGrows(t, start, r, next, p);
    AllFitMore(t, r.parts, p);
    IncreasingGrows(Credits(t, r.parts), r.s.config.depositHighWater, DepositsOf(t, p), next.s.config.depositHighWater);
    hide CursorStands; hide InOrder; hide LastPart; hide CreditedPath; hide OpenDeposits; hide Credits; hide SplitAll;
    hide Increasing; hide Split; hide BlockDeposits;
  }

  lemma {:induction false} OtherKeeps(t: Tree, start: Config, r: Run, after: State)
    requires IsTree(t) && Inv(t, start, r) && SameCursor(r.s.config, after.config)
    ensures Inv(t, start, r.(s := after))
  {
    hide CreditedPath; hide Credits; hide SplitAll; hide Increasing; hide BlockDeposits; hide At; hide InOrder;
    hide AllFit; hide IsTree;
    SamePath(t, start, r.s.config, after.config);
  }

  lemma {:induction false} NextKeeps(t: Tree, start: Config, r: Run, step: Step)
    requires IsTree(t) && ZERO_HASH !in t && Inv(t, start, r)
    ensures Inv(t, start, Next(t, r, step))
  {
    match step
    case Other(after) =>
      if SameCursor(r.s.config, after.config) { OtherKeeps(t, start, r, after); }
    case Credit(height, blockHash, first, count, metas) =>
      var answer := AnswerOf(t, height, blockHash, first, count);
      if CreditDeposits(r.s, height, blockHash, first, count, answer, metas).Ok? {
        CreditTakes(t, r, step);
        var next := Next(t, r, step);
        hide Inv; hide Takes; hide Next;
        PartKeeps(t, start, r, next, next.parts[|next.parts| - 1]);
      }
  }

  /** After every run of parts and other transactions, whatever blocks of the
      tree the parts name: the parts go in order through whole blocks, each one
      a child of the one before, and all the deposits of these blocks, up to the
      cursor, were taken or stranded exactly once, in the order of strictly
      increasing sequence numbers. */
  lemma {:induction false} EveryDepositOnce(t: Tree, start: State, steps: seq<Step>)
    requires IsTree(t) && ZERO_HASH !in t && start.config.creditIndex == 0
    ensures Inv(t, start.config, After(t, Run(start, [], 0), steps))
  {
    hide Inv; hide Next;
    if steps == [] {
      Starts(t, start);
    } else {
      EveryDepositOnce(t, start, steps[..|steps| - 1]);
      NextKeeps(t, start.config, After(t, Run(start, [], 0), steps[..|steps| - 1]), steps[|steps| - 1]);
    }
  }

  // ------------------------------------------------------- who got the lamports

  /** What the parts of a run moved onto `key`, or off it. */
  ghost function Received(t: Tree, start: State, steps: seq<Step>, key: Pubkey): int {
    if steps == [] then 0
    else
      var r, step := After(t, Run(start, [], 0), steps[..|steps| - 1]), steps[|steps| - 1];
      var next := Next(t, r, step);
      Received(t, start, steps[..|steps| - 1], key) + if step.Credit? then next.s.Lamports(key) - r.s.Lamports(key) else 0
  }

  /** The lamports of the taken deposits that name `key`. */
  /** The target is an ordinary account, and what it holds, the deposits before
      this one included, is rent-exempt with this one and fits a u64. */
  ghost predicate Fits(s: State, d: Deposit, before: nat) {
    && d.target.Some? && d.target.value != VAULT && !s.At(d.target.value).reserved
    && s.At(d.target.value).rentFloor <= s.Lamports(d.target.value) + before + 10 * d.valueSats <= U64_MAX
  }

  lemma {:induction false} FlagsStay(t: Tally, d: Deposit, key: Pubkey)
    requires ApplyDeposit(t, d).Ok?
    ensures var next := ApplyDeposit(t, d).value.s;
            next.At(key).reserved == t.s.At(key).reserved && next.At(key).rentFloor == t.s.At(key).rentFloor
  {
  }

  lemma {:induction false} PaidToStep(deposits: seq<Deposit>, taken: seq<bool>, i: nat, key: Pubkey)
    requires 0 < i < |deposits| == |taken|
    ensures PaidTo(deposits[..i], taken[..i], key)
         == (if taken[0] && deposits[0].target == Some(key) then 10 * deposits[0].valueSats else 0)
            + PaidTo(deposits[1..][..i - 1], taken[1..][..i - 1], key)
  {
    assert deposits[..i][1..] == deposits[1..][..i - 1] && taken[..i][1..] == taken[1..][..i - 1];
  }

  /** Deposit `i` of an accepted part goes to its target if and only if it fits
      there, on top of the deposits of the part that its target took before. */
  lemma {:induction false} DepositIsTakenIff(t: Tally, deposits: seq<Deposit>, i: nat)
    requires ApplyDeposits(t, deposits).Ok? && i < |deposits|
    ensures var taken, d := TakenOf(t, deposits), deposits[i];
            var before := if d.target.Some? then PaidTo(deposits[..i], taken[..i], d.target.value) else 0;
            taken[i] <==> Fits(t.s, d, before)
    decreases |deposits|
  {
    var first, d := deposits[0], deposits[i];
    DepositLands(t, first);
    var next := ApplyDeposit(t, first).value;
    if i == 0 {
      if d.target.Some? { FirstTaken(t, d); }
    } else {
      DepositIsTakenIff(next, deposits[1..], i - 1);
      assert TakenOf(t, deposits)[1..] == TakenOf(next, deposits[1..]);
      if d.target.Some? {
        FlagsStay(t, first, d.target.value);
        PaidToStep(deposits, TakenOf(t, deposits), i, d.target.value);
      }
      hide ApplyDeposit; hide ApplyDeposits; hide CanTake; hide PaidTo;
    }
  }

  lemma {:induction false} FirstTaken(t: Tally, d: Deposit)
    requires ApplyDeposit(t, d).Ok? && d.target.Some?
    ensures t.metas != [] && (CanTake(t.s, t.metas[0], 10 * d.valueSats).value <==> Fits(t.s, d, 0))
  {
  }

  ghost function PaidToAll(t: Tree, parts: seq<Part>, key: Pubkey): nat
    requires AllFit(t, parts)
  {
    if parts == [] then 0
    else
      var p := parts[|parts| - 1];
      PaidToAll(t, parts[..|parts| - 1], key) + PaidTo(DepositsOf(t, p), p.taken, key)
  }

  lemma {:induction false} CreditPays(t: Tree, r: Run, step: Step, key: Pubkey)
    requires step.Credit? && key != VAULT && AllFit(t, r.parts)
    ensures var next := Next(t, r, step);
            && AllFit(t, next.parts)
            && next.s.Lamports(key) - r.s.Lamports(key) == PaidToAll(t, next.parts, key) - PaidToAll(t, r.parts, key)
  {
    hide PaidTo; hide AllFit; hide PartFits;
    var answer := AnswerOf(t, step.height, step.blockHash, step.first, step.count);
    if CreditDeposits(r.s, step.height, step.blockHash, step.first, step.count, answer, step.metas).Ok? {
      hide CreditDeposits;
      PartPays(t, r, step, key);
      var next := Next(t, r, step);
      hide Next; hide AnswerOf;
      PaidToAllMore(t, r.parts, next.parts[|next.parts| - 1], key);
    }
  }

  lemma {:induction false} PartPays(t: Tree, r: Run, step: Step, key: Pubkey)
    requires step.Credit? && key != VAULT
    requires var answer := AnswerOf(t, step.height, step.blockHash, step.first, step.count);
             CreditDeposits(r.s, step.height, step.blockHash, step.first, step.count, answer, step.metas).Ok?
    ensures var next := Next(t, r, step);
            && next.parts != []
            && var p := next.parts[|next.parts| - 1];
               && next.parts == r.parts + [p] && PartFits(t, p)
               && next.s.Lamports(key) == r.s.Lamports(key) + PaidTo(DepositsOf(t, p), p.taken, key)
  {
    hide ApplyDeposits; hide Split; hide Increasing; hide PaidTo; hide TakenOf; hide PartCounts;
    var answer := AnswerOf(t, step.height, step.blockHash, step.first, step.count);
    var start := Tally(r.s, step.metas, r.s.config.depositHighWater, 0, 0);
    CreditTakes(t, r, step);
    DepositsLand(start, answer.value.deposits, key);
  }

  lemma {:induction false} PaidToAllMore(t: Tree, parts: seq<Part>, p: Part, key: Pubkey)
    requires AllFit(t, parts) && PartFits(t, p)
    ensures AllFit(t, parts + [p])
    ensures PaidToAll(t, parts + [p], key) == PaidToAll(t, parts, key) + PaidTo(DepositsOf(t, p), p.taken, key)
  {
    assert (parts + [p])[..|parts|] == parts;
  }

  /** Over every run the parts moved onto each target exactly the lamports of its
      taken deposits, and onto no other account anything. */
  lemma {:induction false} EachTargetIsPaid(t: Tree, start: State, steps: seq<Step>, key: Pubkey)
    requires key != VAULT
    ensures var r := After(t, Run(start, [], 0), steps);
            AllFit(t, r.parts) && Received(t, start, steps, key) == PaidToAll(t, r.parts, key)
  {
    hide Next; hide AllFit;
    if steps == [] {
      NoPartsFit(t);
    } else {
      var r, step := After(t, Run(start, [], 0), steps[..|steps| - 1]), steps[|steps| - 1];
      EachTargetIsPaid(t, start, steps[..|steps| - 1], key);
      if step.Credit? {
        CreditPays(t, r, step, key);
      } else {
        OtherKeepsParts(t, r, step);
      }
    }
  }

  lemma {:induction false} NoPartsFit(t: Tree)
    ensures AllFit(t, [])
  {
  }

  lemma {:induction false} OtherKeepsParts(t: Tree, r: Run, step: Step)
    requires step.Other?
    ensures Next(t, r, step).parts == r.parts
  {
  }

  lemma {:induction false} Starts(t: Tree, start: State)
    requires IsTree(t) && start.config.creditIndex == 0
    ensures Inv(t, start.config, Run(start, [], 0))
  {
  }

  /** The credited blocks are one path of the tree: block by block the parent of
      the next, from the block above the start to the credited one. */
  lemma {:induction false} CreditedBlocksAreOnePath(t: Tree, start: State, steps: seq<Step>)
    requires IsTree(t) && ZERO_HASH !in t && start.config.creditIndex == 0
    ensures var c := After(t, Run(start, [], 0), steps).s.config;
            var path := CreditedPath(t, start.config, c);
            && |path| == c.creditedHeight - start.config.creditedHeight
            && Linked(path)
            && (path != [] ==> path[|path| - 1].hash == c.creditedBlock
                               && path[0].height == start.config.creditedHeight + 1
                               && (start.config.creditedBlock != ZERO_HASH ==> path[0].prev == start.config.creditedBlock))
  {
    EveryDepositOnce(t, start, steps);
    var c := After(t, Run(start, [], 0), steps).s.config;
    hide After;
    if c.creditedHeight > start.config.creditedHeight {
      PathLinks(t, c.creditedBlock, start.config.creditedHeight);
    }
  }

  lemma {:induction false} PathLinks(t: Tree, h: Hash, from: nat)
    requires IsTree(t) && h in t && from < t[h].height
    ensures var path := Path(t, h, from);
            && |path| == t[h].height - from && Linked(path)
            && path[|path| - 1] == t[h] && path[0].height == from + 1
            && path[0].prev == At(t, h, from).hash
  {
    var path := Path(t, h, from);
    PathIs(t, h, from);
    AtParent(t, h, from);
    forall i | 0 < i < |path| ensures LinkedAt(path, i) {
      AtParent(t, h, from + i);
    }
  }
}
