/** The books of the peg close after every run of the two chains. */
module BooksHold {
  import opened Prelude
  import opened Bridge
  import opened ECash
  import opened M6
  import opened Bundle
  import opened Ledger
  import opened Peg
  import opened World
  import opened WorldInvariant
  import B = Books

  /** What eCash did with the live bundle: its history starts at the seal. */
  ghost function LiveStatus(w: World): BundleStatus {
    var c := w.bridge.config;
    if IsLive(c) then BundleStatusOf(EventsAfter(w.chain, c.bundleSealedHeight), c.bundleM6id) else UnknownBundle
  }

  /** The records from `paidThrough` to the count: they are all there. */
  ghost function OpenRecords(w: World): seq<Record> {
    w.history[Min(w.bridge.config.paidThrough, |w.history|)..]
  }

  ghost predicate BankRead(w: World, b: B.Books) {
    var c := w.bridge.config;
    && b.supply == c.vaultSupply && b.floated == c.floatLamports
    && b.vault == w.bridge.Lamports(VAULT) && b.pegged == c.peggedLamports
  }

  /** The terms that `books` reads from one bank and one eCash tip. */
  ghost predicate Reads(w: World, b: B.Books) {
    var c := w.bridge.config;
    && BankRead(w, b)
    && b.stranded == c.strandedLamports
    && b.treasurySats == TreasurySats(w.chain)
    && b.awaiting == Min(AwaitingLamports(w), U64_MAX)
    && b.pending == Min(PendingLamports(w), U64_MAX)
  }

  // ---------------------------------------------------------- each term exact

  lemma {:induction false} AwaitingAbove(blocks: seq<Block>, height: u64, index: u64)
    requires forall i :: 0 <= i < |blocks| ==> blocks[i].height > height + 1
    ensures B.AwaitingSats(EventsOf(blocks), height, index) == DepositSats(blocks)
  {
    if blocks != [] {
      var front := blocks[..|blocks| - 1];
      AwaitingAbove(front, height, index);
      assert EventsOf(blocks)[..|blocks| - 1] == EventsOf(front);
    }
  }

  lemma {:induction false} AwaitingSplit(a: seq<PegEvent>, b: seq<PegEvent>, height: u64, index: u64)
    ensures B.AwaitingSats(a + b, height, index) == B.AwaitingSats(a, height, index) + B.AwaitingSats(b, height, index)
  {
    hide B.AwaitingSats; hide B.Uncredited; hide SumDeposits;
    if b == [] {
      NothingAwaits(b, height, index);
      assert a + b == a;
    } else {
      var n := |b| - 1;
      AwaitingSplit(a, b[..n], height, index);
      AwaitingStep(b, b[..n], b[n], height, index);
      AwaitingStep(a + b, a + b[..n], b[n], height, index);
    }
  }

  lemma {:induction false} NothingAwaits(events: seq<PegEvent>, height: u64, index: u64)
    requires events == []
    ensures B.AwaitingSats(events, height, index) == 0
  {
  }

  lemma {:induction false} AwaitingStep(
    events: seq<PegEvent>, front: seq<PegEvent>, last: PegEvent, height: u64, index: u64)
    requires events == front + [last]
    ensures B.AwaitingSats(events, height, index)
         == B.AwaitingSats(front, height, index) + SumDeposits(B.Uncredited(last, height, index))
  {
    hide B.Uncredited; hide SumDeposits;
    assert events[..|events| - 1] == front;
  }

  /** The deposits that the code counts as awaiting are exactly those that the
      cursor did not pass. */
  lemma {:induction false} AwaitingIsTheRest(chain: seq<Block>, height: u64, index: u64)
    requires forall h :: 0 <= h < |chain| ==> chain[h].height == h
    requires height < |chain|
    requires index > 0 ==> height + 1 < |chain| && index <= |chain[height + 1].deposits|
    ensures B.AwaitingSats(EventsAfter(chain, height), height, index)
         == DepositSats(chain) - CreditedSats(chain, height, index)
  {
    if height + 1 == |chain| {
      assert chain[..|chain|] == chain;
      assert EventsAfter(chain, height) == [];
    } else {
      var block, rest := chain[height + 1], chain[height + 2..];
      AwaitingAbove(rest, height, index);
      assert EventsAfter(chain, height) == [EventOf(block)] + EventsOf(rest);
      AwaitingSplit([EventOf(block)], EventsOf(rest), height, index);
      DepositsAround(chain, height + 1, index);
    }
  }

  lemma {:induction false} DepositsAround(chain: seq<Block>, at: nat, index: nat)
    requires at < |chain| && index <= |chain[at].deposits|
    ensures DepositSats(chain) == DepositSats(chain[..at]) + SumDeposits(chain[at].deposits[..index])
                                + SumDeposits(chain[at].deposits[index..]) + DepositSats(chain[at + 1..])
    ensures index == 0 ==> SumDeposits(chain[at].deposits[..index]) == 0
  {
    var deposits := chain[at].deposits;
    assert chain == chain[..at + 1] + chain[at + 1..];
    DepositSatsSplit(chain[..at + 1], chain[at + 1..]);
    DepositSatsStep(chain, at);
    assert deposits == deposits[..index] + deposits[index..];
    SumDepositsSplit(deposits[..index], deposits[index..]);
  }

  /** The live bundle counts as paid exactly when the chain paid it. */
  lemma {:induction false} LiveStatusIsPayment(w: World)
    requires PayInv(w) && IsLive(w.bridge.config)
    ensures LiveStatus(w).HasSucceeded? <==> w.bridge.config.bundleM6id in PaidIds(w.chain)
  {
    var c := w.bridge.config;
    var id, from := c.bundleM6id, c.bundleSealedHeight + 1;
    var late := w.chain[from..];
    assert w.chain == w.chain[..from] + late;
    PaidIdsSplit(w.chain[..from], late);
    assert id in PaidIds(w.chain) <==> id in PaidIds(late);
    StoryKnowsThePayment(EventsOf(late), id);
    PaidIdsAre(late, id);
    hide BundleStatusOf; hide PaidIds;
    assert forall b :: b in late ==> EventOf(b) in EventsOf(late);
  }

  lemma {:induction false} PaidIdsAre(blocks: seq<Block>, id: Txid)
    ensures id in PaidIds(blocks) <==> exists b :: b in blocks && Succeeded(id) in b.bundles
  {
    if blocks != [] {
      var n := |blocks| - 1;
      PaidIdsAre(blocks[..n], id);
      PaidInHolds(blocks[n].bundles, id);
      assert forall b :: b in blocks <==> b in blocks[..n] || b == blocks[n];
    }
  }

  lemma {:induction false} PendingIsBurned(records: seq<Record>, start: nat, c: Config, from: nat)
    requires ValidRun(records, start) && start <= from <= start + |records| && c.paidThrough <= start
    requires forall i :: 0 <= i < |records| ==> (B.IsPending(records[i], c, true) <==> start + i >= from)
    ensures B.PendingSum(records, c, true) == SumBurned(records[from - start..])
  {
    if records == [] {
    } else if from == start + |records| {
      NothingPending(records, start, c);
    } else {
      var front := records[..|records| - 1];
      PendingIsBurned(front, start, c, from);
      assert records[from - start..][..|records[from - start..]| - 1] == front[from - start..];
    }
  }

  lemma {:induction false} NothingPending(records: seq<Record>, start: nat, c: Config)
    requires forall i :: 0 <= i < |records| ==> !B.IsPending(records[i], c, true)
    ensures B.PendingSum(records, c, true) == 0
  {
    if records != [] {
      NothingPending(records[..|records| - 1], start, c);
    }
  }

  lemma {:induction false} AllPending(records: seq<Record>, start: nat, c: Config)
    requires ValidRun(records, start) && c.paidThrough <= start
    ensures B.PendingSum(records, c, false) == SumBurned(records)
  {
    if records != [] {
      AllPending(records[..|records| - 1], start, c);
    }
  }

  /** No live bundle is paid: every open record is pending. */
  lemma {:induction false} PendingUnpaid(history: seq<Record>, c: Config)
    requires ValidRun(history, 0) && c.paidThrough <= |history|
    ensures B.PendingSum(history[c.paidThrough..], c, false)
         == SumBurned(history) - SumBurned(history[..c.paidThrough])
  {
    assert history[..|history|] == history;
    assert ValidRun(history[c.paidThrough..], c.paidThrough);
    hide ValidRun; hide B.PendingSum; hide SumBurned;
    AllPending(history[c.paidThrough..], c.paidThrough, c);
    BurnedStep(history, c.paidThrough, |history|);
  }

  /** The live bundle is paid: only the records after it are pending. */
  lemma {:induction false} PendingLivePaid(history: seq<Record>, c: Config)
    requires ValidRun(history, 0) && c.paidThrough < c.bundledThrough <= |history|
    ensures B.PendingSum(history[c.paidThrough..], c, true)
         == SumBurned(history) - SumBurned(history[..c.bundledThrough])
  {
    hide B.PendingSum; hide SumBurned; hide ValidRecord;
    var open := history[c.paidThrough..];
    assert history[..|history|] == history;
    assert forall i :: 0 <= i < |open| ==> open[i].index == c.paidThrough + i;
    assert ValidRun(open, c.paidThrough);
    hide ValidRun;
    assert open[c.bundledThrough - c.paidThrough..] == history[c.bundledThrough..];
    PendingIsBurned(open, c.paidThrough, c, c.bundledThrough);
    BurnedStep(history, c.bundledThrough, |history|);
  }

  /** The records that the code counts as pending burned everything but what
      the bundles of the chain paid out. */
  lemma {:induction false} PendingIsTheRest(w: World)
    requires RecordInv(w) && SealInv(w) && PayInv(w)
    ensures B.PendingSum(OpenRecords(w), w.bridge.config, LiveStatus(w).HasSucceeded?)
         == w.burned - 10 * PaidSats(PaidIds(w.chain))
  {
    hide LiveStatus; hide PayInv; hide ValidRun; hide AllGenuine; hide Consecutive; hide PaidIds;
    hide B.PendingSum; hide SumBurned; hide PaidSats;
    var m := if LiveStatus(w).HasSucceeded? then |w.sealed| else PaidCount(w);
    if LiveStatus(w).HasSucceeded? {
      LivePaidMeansAll(w);
      PendingLivePaid(w.history, w.bridge.config);
    } else {
      LiveUnpaidMeansMarked(w);
      PendingUnpaid(w.history, w.bridge.config);
    }
    SealedSum(w.history, w.sealed, m);
  }

  lemma {:induction false} LivePaidMeansAll(w: World)
    requires RecordInv(w) && SealInv(w) && PayInv(w) && LiveStatus(w).HasSucceeded?
    ensures IsLive(w.bridge.config) && PaidIds(w.chain) == Ids(w.sealed)[..|w.sealed|]
  {
    hide PaidIds; hide BundleStatusOf; hide EventsAfter; hide ValidRun; hide SumBurned; hide AllGenuine;
    assert IsLive(w.bridge.config);
    assert w.sealed[|w.sealed| - 1].id == w.bridge.config.bundleM6id;
    LiveStatusIsPayment(w);
    LiveIdIsNew(w);
    assert w.chain[..|w.chain|] == w.chain;
    PaidShape(w, |w.chain|);
    hide RecordInv; hide SealInv; hide PayInv; hide LiveStatus;
    assert Ids(w.sealed)[..|w.sealed|] == Ids(w.sealed);
  }

  lemma {:induction false} LiveUnpaidMeansMarked(w: World)
    requires SealInv(w) && PayInv(w) && !LiveStatus(w).HasSucceeded?
    ensures 0 <= PaidCount(w)
    ensures PaidIds(w.chain) == Ids(w.sealed)[..PaidCount(w)]
    ensures IsLive(w.bridge.config) ==> EndOf(w.sealed, PaidCount(w)) == w.bridge.config.paidThrough
  {
    hide PaidIds; hide BundleStatusOf;
    var n := |w.sealed|;
    assert w.chain[..|w.chain|] == w.chain;
    PaidShape(w, |w.chain|);
    if IsLive(w.bridge.config) {
      LiveStatusIsPayment(w);
      assert StartsAtEnd(w.sealed, n - 1);
      assert Ids(w.sealed)[n - 1] in Ids(w.sealed);
    }
  }

  // ------------------------------------------------------------- the theorem

  ghost predicate CreditedFits(w: World) {
    var c := w.bridge.config;
    && c.creditedHeight < |w.chain|
    && (c.creditIndex > 0 ==>
          c.creditedHeight + 1 < |w.chain| && c.creditIndex <= |w.chain[c.creditedHeight + 1].deposits|)
  }

  /** Ten times the treasury is the four terms, before any u64 bound. */
  lemma {:induction false} TreasuryCovers(w: World)
    requires Inv(w)
    ensures CreditedFits(w)
    ensures var c := w.bridge.config;
            10 * TreasurySats(w.chain)
              == c.peggedLamports + c.strandedLamports
               + 10 * (DepositSats(w.chain) - CreditedSats(w.chain, c.creditedHeight, c.creditIndex))
               + (w.burned - 10 * PaidSats(PaidIds(w.chain)))
  {
    hide RecordInv; hide SealInv; hide PayInv; hide PaidIds; hide DepositSats; hide Linked; hide PaymentRules;
  }

  ghost function AwaitingLamports(w: World): nat {
    var c := w.bridge.config;
    10 * B.AwaitingSats(EventsAfter(w.chain, c.creditedHeight), c.creditedHeight, c.creditIndex)
  }

  ghost function PendingLamports(w: World): nat {
    B.PendingSum(OpenRecords(w), w.bridge.config, LiveStatus(w).HasSucceeded?)
  }

  /** The treasury equation on the exact terms. */
  lemma {:induction false} ExactTerms(w: World)
    requires Inv(w)
    ensures var c := w.bridge.config;
            10 * TreasurySats(w.chain)
              == c.peggedLamports + c.strandedLamports + AwaitingLamports(w) + PendingLamports(w)
    ensures 0 <= TreasurySats(w.chain) <= MAX_SATS
    ensures w.bridge.Lamports(VAULT) <= MAX_LAMPORTS && w.bridge.config.peggedLamports <= MAX_LAMPORTS
  {
    hide RecordInv; hide SealInv; hide PayInv; hide PaidIds; hide CreditedSats; hide TotalLamports;
    hide B.PendingSum; hide B.AwaitingSats; hide Linked; hide PaymentRules; hide DepositSats; hide LiveStatus;
    hide PaidSats; hide EventsOf; hide SumDeposits; hide EventsAfter; hide OpenRecords;
    TreasuryCovers(w);
    AwaitingIsTheRest(w.chain, w.bridge.config.creditedHeight, w.bridge.config.creditIndex);
    PendingIsTheRest(w);
    HoldsAtMostTotal(w.bridge, VAULT);
  }

  /** Both equations, with the checked and saturating arithmetic of the code. */
  lemma {:induction false} BooksClose(w: World, b: B.Books)
    requires Inv(w) && Reads(w, b)
    ensures b.VaultHolds() && b.Gifts() == Some(w.gifts)
    ensures b.TreasuryHolds()
    ensures w.history != [] ==> b.Hold()
  {
    hide CursorInv; hide RecordInv; hide SealInv; hide PayInv; hide ValidChain; hide TotalLamports;
    hide AwaitingLamports; hide PendingLamports; hide TreasurySats;
    ExactTerms(w);
  }

  /** A single wrong term of the treasury equation never goes unseen. */
  lemma {:induction false} WrongTermsAreFound(w: World, b: B.Books, wrong: B.Books, x: u64)
    requires Inv(w) && Reads(w, b) && wrong != b
    requires wrong in {b.(treasurySats := x), b.(pegged := x), b.(stranded := x), b.(awaiting := x), b.(pending := x)}
    ensures !wrong.TreasuryHolds()
  {
    hide Inv;
    BooksClose(w, b);
    hide Reads;
    B.BooksAreTheEquations(b);
    B.BooksAreTheEquations(wrong);
  }

  /** The main theorem: from a fresh bridge, after every run of deposits, part
      credits, withdrawals, gifts, seals, payouts, marks, closes, settles and
      eCash reorgs, the books that the daemon reads hold, and no more was
      burned than credited. */
  lemma {:induction false} BooksAlwaysHold(start: World, steps: seq<Step>, b: B.Books)
    requires Init(start)
    requires Reads(Run(start, steps), b)
    ensures var w := Run(start, steps);
            && b.VaultHolds() && b.Gifts() == Some(w.gifts)
            && b.TreasuryHolds()
            && w.burned <= w.credited
            && (w.history != [] ==> b.Hold())
  {
    InitHolds(start);
    RunKeeps(start, steps);
    BooksClose(Run(start, steps), b);
  }
}
