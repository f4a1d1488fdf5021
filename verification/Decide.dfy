/** The next step of the peg (`decide`, daemon/src/peg.rs), against the bridge
    program that must accept it. */
module Decide {
  import opened Prelude
  import opened Bridge
  import opened ECash
  import opened M6
  import opened Peg
  import opened World
  import opened Ledger

  datatype Action = Wait | SealNext | Propose | MarkPaid(through: u64, height: nat)

  /** `processed`: the config of the followed branch. `finalized`: the config at
      the BMM root. `status`: how far the bundle of `finalized` got on eCash. */
  datatype View = View(processed: Config, finalized: Config, status: BundleStatus, tipHeight: nat)

  function DecideNext(view: View): Action {
    var processed := view.processed;
    if processed.LiveBundle().None? then
      if processed.withdrawalCount > processed.bundledThrough then SealNext else Wait
    else if view.finalized.LiveBundle().None? then Wait
    else
      var end := view.finalized.LiveBundle().value.1;
      if processed.paidThrough >= end then Wait
      else
        match view.status
        case HasSucceeded(height) =>
          if Max(view.tipHeight - height, 0) + 1 >= Max(view.finalized.depositConfirmations, 1)
          then Action.MarkPaid(end, height)
          else Wait
        case _ => Propose
  }

  /** The end of the range that the pass seals. */
  function SealEnd(processed: Config, finalized: Config): u64 {
    Min(SaturatingAdd(processed.paidThrough, MAX_BUNDLE_RECORDS), finalized.withdrawalCount)
  }

  /** `d` is later than `c` on one branch: the counters grow, and a live bundle
      stays as it is until eCash paid it. */
  ghost predicate Later(c: Config, d: Config) {
    && c.oracle == d.oracle
    && c.withdrawalCount <= d.withdrawalCount
    && c.paidThrough <= d.paidThrough
    && c.bundledThrough <= d.bundledThrough
    && (IsLive(c) ==> d.paidThrough >= c.bundledThrough || SameLiveBundle(c, d))
  }

  ghost predicate SameLiveBundle(c: Config, d: Config) {
    && d.paidThrough == c.paidThrough && d.bundledThrough == c.bundledThrough
    && d.bundleM6id == c.bundleM6id && d.bundleSealedHeight == c.bundleSealedHeight
  }

  lemma {:induction false} StepIsLater(w: World, step: Step)
    ensures Later(w.bridge.config, Next(w, step).bridge.config)
  {
    hide ApplyDeposits; hide CreditChecks; hide SettleVerdict; hide WithdrawChecks; hide DaemonBundle;
    var next := Next(w, step);
    match step
    case Credit(_, _, _, _, _) =>
      if next != w {
        var answer := DepositAnswerOf(w.chain, step.height, step.blockHash, step.first, step.count);
        CreditEffect(w.bridge, step.height, step.blockHash, step.first, step.count, answer, step.metas);
      }
    case Settle(at, block, solanaBlock, payee, answer, slot) =>
      if next != w {
        SettleEffect(w.bridge, at, block, solanaBlock, payee, answer, slot);
      }
    case Burn(_, _, _, _) =>
    case Seal(_) =>
    case MarkPaid(_, _, _, _) =>
    case Close(_, _) =>
    case Send(_, _, _) =>
    case Follow(_, _) => hide ValidChain;
  }

  lemma {:induction false} LaterChains(a: Config, b: Config, c: Config)
    requires Later(a, b) && Later(b, c)
    ensures Later(a, c)
  {
  }

  lemma {:induction false} RunIsLater(w: World, steps: seq<Step>)
    ensures Later(w.bridge.config, Run(w, steps).bridge.config)
  {
    hide Next; hide Later;
    if steps == [] {
      LaterItself(w.bridge.config);
    } else {
      var before := Run(w, steps[..|steps| - 1]);
      RunIsLater(w, steps[..|steps| - 1]);
      StepIsLater(before, steps[|steps| - 1]);
      LaterChains(w.bridge.config, before.bridge.config, Run(w, steps).bridge.config);
    }
  }

  lemma {:induction false} LaterItself(c: Config)
    ensures Later(c, c)
  {
  }

  /** The bank of the followed branch and the bank of its root: the branch ran
      some steps on top of the root. */
  ghost predicate Branch(root: World, steps: seq<Step>, view: View) {
    && view.finalized == root.bridge.config
    && view.processed == Run(root, steps).bridge.config
  }

  /** The seal takes every record that is final at the root, up to the cap. */
  lemma {:induction false} SealTakesAllThatIsFinal(processed: Config, finalized: Config, end: u64)
    ensures end <= SealEnd(processed, finalized) <==>
              end <= processed.paidThrough + 1_500 && end <= finalized.withdrawalCount
  {
  }

  /** The program accepts each seal that the peg decides on: the cap, the count
      and the single live bundle all hold. */
  lemma {:induction false} SealIsAccepted(root: World, steps: seq<Step>, view: View, m6id: Txid)
    requires Branch(root, steps, view) && DecideNext(view) == SealNext
    requires SealEnd(view.processed, view.finalized) > view.processed.paidThrough
    requires view.processed.paidThrough + MAX_BUNDLE_RECORDS <= U64_MAX
    requires view.processed.paidThrough <= view.processed.bundledThrough
    ensures var s := Run(root, steps).bridge;
            var end := SealEnd(view.processed, view.finalized);
            SealBundle(s, s.config.oracle, end, m6id)
              == Ok(s.(config := s.config.(bundledThrough := end, bundleM6id := m6id,
                                           bundleSealedHeight := s.config.creditedHeight)))
  {
    RunIsLater(root, steps);
    hide Run;
  }

  /** When the peg marks a bundle paid, the followed branch still holds exactly
      the final bundle, so the program accepts the mark for the M6ID of the
      root, given the truthful answer for the paying block. */
  lemma {:induction false} MarkIsAccepted(root: World, steps: seq<Step>, view: View, chain: seq<Block>)
    requires Branch(root, steps, view) && DecideNext(view).MarkPaid?
    requires |chain| <= U32_MAX && view.status == BundleStatusOf(EventsOf(chain), view.finalized.bundleM6id)
    requires forall h :: 0 <= h < |chain| ==> chain[h].height == h
    ensures var s := Run(root, steps).bridge;
            var height := DecideNext(view).height;
            var m6id := view.finalized.bundleM6id;
            && height < |chain|
            && SameLiveBundle(view.finalized, view.processed)
            && BundlePaid(s, s.config.oracle, DecideNext(view).through, height, chain[height].hash, m6id,
                          PaidAnswerOf(chain, height, chain[height].hash, m6id))
                 == Ok(s.(config := s.config.(paidThrough := s.config.bundledThrough)))
  {
    RunIsLater(root, steps);
    SuccessIsInItsBlock(chain, view.finalized.bundleM6id);
    hide Run;
  }

  lemma {:induction false} SuccessIsInItsBlock(chain: seq<Block>, id: Txid)
    requires forall h :: 0 <= h < |chain| ==> chain[h].height == h
    requires BundleStatusOf(EventsOf(chain), id).HasSucceeded?
    ensures var height := BundleStatusOf(EventsOf(chain), id).height;
            height < |chain| && Succeeded(id) in chain[height].bundles
  {
    var story := Story(EventsOf(chain), id);
    EntriesAreInTheirBlocks(chain, id);
    assert story[FirstPaid(story)] in story;
  }

  lemma {:induction false} EntriesAreInTheirBlocks(chain: seq<Block>, id: Txid)
    requires forall h :: 0 <= h < |chain| ==> chain[h].height == h
    ensures forall e :: e in Story(EventsOf(chain), id) ==>
              e.event.m6id == id && e.height < |chain| && e.event in chain[e.height].bundles
  {
    if chain != [] {
      var n := |chain| - 1;
      EntriesAreInTheirBlocks(chain[..n], id);
      assert EventsOf(chain)[..n] == EventsOf(chain[..n]);
      EntriesAreEvents(n, chain[n].bundles, id);
    }
  }

  lemma {:induction false} EntriesAreEvents(height: nat, bundles: seq<BundleEvent>, id: Txid)
    ensures forall e :: e in EntriesOf(height, bundles, id) ==>
              e.event.m6id == id && e.height == height && e.event in bundles
  {
    if bundles != [] {
      EntriesAreEvents(height, bundles[..|bundles| - 1], id);
    }
  }

  // ----------------------------------------------- exactly when it does what

  ghost predicate PaidOn(chain: seq<Block>, id: Txid) {
    exists h :: 0 <= h < |chain| && Succeeded(id) in chain[h].bundles
  }

  /** `other` may replace at most the newest `n` blocks of `chain`. */
  ghost predicate KeepsAllBut(chain: seq<Block>, n: nat, other: seq<Block>) {
    var m := Max(|chain| - n, 0);
    m <= |other| && other[..m] == chain[..m]
  }

  /** The root holds a live bundle that the followed branch has not marked. */
  ghost predicate HasOpenBundle(view: View) {
    IsLive(view.finalized) && view.processed.paidThrough < view.finalized.bundledThrough
  }

  /** The view tells what the active eCash chain did with the bundle of the root. */
  ghost predicate ReadsChain(view: View, chain: seq<Block>) {
    && |chain| == view.tipHeight + 1
    && (forall h :: 0 <= h < |chain| ==> chain[h].height == h)
    && view.status == BundleStatusOf(EventsOf(chain), view.finalized.bundleM6id)
  }

  lemma {:induction false} PaymentIsRead(chain: seq<Block>, id: Txid)
    ensures BundleStatusOf(EventsOf(chain), id).HasSucceeded? <==> PaidOn(chain, id)
  {
    StoryKnowsThePayment(EventsOf(chain), id);
    hide BundleStatusOf;
    if PaidOn(chain, id) {
      var h :| 0 <= h < |chain| && Succeeded(id) in chain[h].bundles;
      assert EventsOf(chain)[h] in EventsOf(chain);
    }
  }

  /** The height of a payment is that of the first block that pays. */
  lemma {:induction false} PaidBelow(chain: seq<Block>, id: Txid, m: nat)
    requires m <= |chain| && forall h :: 0 <= h < |chain| ==> chain[h].height == h
    ensures var status := BundleStatusOf(EventsOf(chain), id);
            PaidOn(chain[..m], id) <==> status.HasSucceeded? && status.height < m
  {
    hide BundleStatusOf; hide PaidOn; hide EventsOf;
    var status := BundleStatusOf(EventsOf(chain), id);
    if status.HasSucceeded? && status.height < m {
      SuccessIsInItsBlock(chain, id);
      PaidInBlock(chain, id, m, status.height);
    }
    PaymentIsRead(chain[..m], id);
    if PaidOn(chain[..m], id) {
      FirstPaymentStays(chain, id, m);
      SuccessIsInItsBlock(chain[..m], id);
    }
  }

  lemma {:induction false} FirstPaymentStays(chain: seq<Block>, id: Txid, m: nat)
    requires m <= |chain| && BundleStatusOf(EventsOf(chain[..m]), id).HasSucceeded?
    ensures BundleStatusOf(EventsOf(chain), id) == BundleStatusOf(EventsOf(chain[..m]), id)
  {
    var front, back := EventsOf(chain[..m]), EventsOf(chain[m..]);
    assert EventsOf(chain) == front + back;
    hide EventsOf; hide Story; hide StatusOf;
    StorySplit(front, back, id);
    PaymentIsFinal(Story(front, id), Story(back, id));
  }

  lemma {:induction false} PaidInBlock(chain: seq<Block>, id: Txid, m: nat, h: nat)
    requires h < m <= |chain| && Succeeded(id) in chain[h].bundles
    ensures PaidOn(chain[..m], id)
  {
    assert chain[..m][h] == chain[h];
  }

  lemma {:induction false} DeepMeansKept(chain: seq<Block>, id: Txid, n: nat)
    requires forall h :: 0 <= h < |chain| ==> chain[h].height == h
    ensures var status := BundleStatusOf(EventsOf(chain), id);
            (forall other :: KeepsAllBut(chain, n, other) ==> PaidOn(other, id))
              <==> status.HasSucceeded? && status.height + n < |chain|
  {
    hide BundleStatusOf; hide EventsOf;
    var m := Max(|chain| - n, 0);
    PaidBelow(chain, id, m);
    if PaidOn(chain[..m], id) {
      var h :| 0 <= h < m && Succeeded(id) in chain[..m][h].bundles;
      forall other | KeepsAllBut(chain, n, other) ensures PaidOn(other, id) {
        assert other[h] == other[..m][h];
      }
    } else {
      assert KeepsAllBut(chain, n, chain[..m]);
    }
  }

  lemma {:induction false} OpenMeansLive(root: World, steps: seq<Step>, view: View)
    requires Branch(root, steps, view) && HasOpenBundle(view)
    ensures SameLiveBundle(view.finalized, view.processed)
  {
    RunIsLater(root, steps);
    hide Run;
  }

  /** The peg marks a bundle paid if and only if it is open and no reorg that
      replaces fewer blocks than the confirmations could undo its payment. */
  lemma {:induction false} MarksIff(root: World, steps: seq<Step>, view: View, chain: seq<Block>)
    requires Branch(root, steps, view) && ReadsChain(view, chain)
    ensures DecideNext(view).MarkPaid? <==>
              && HasOpenBundle(view)
              && forall other :: KeepsAllBut(chain, Max(view.finalized.depositConfirmations, 1) - 1, other) ==>
                   PaidOn(other, view.finalized.bundleM6id)
    ensures DecideNext(view).MarkPaid? ==>
              && DecideNext(view).through == view.finalized.bundledThrough
              && DecideNext(view).height < |chain|
              && Succeeded(view.finalized.bundleM6id) in chain[DecideNext(view).height].bundles
  {
    hide KeepsAllBut; hide PaidOn; hide BundleStatusOf; hide Branch;
    DeepMeansKept(chain, view.finalized.bundleM6id, Max(view.finalized.depositConfirmations, 1) - 1);
    if view.status.HasSucceeded? { SuccessIsInItsBlock(chain, view.finalized.bundleM6id); }
    if HasOpenBundle(view) { OpenMeansLive(root, steps, view); }
  }

  /** The peg proposes a bundle if and only if it is open and eCash has not paid
      it, whatever else eCash said about it. */
  lemma {:induction false} ProposesIff(root: World, steps: seq<Step>, view: View, chain: seq<Block>)
    requires Branch(root, steps, view) && ReadsChain(view, chain)
    ensures DecideNext(view).Propose? <==> HasOpenBundle(view) && !PaidOn(chain, view.finalized.bundleM6id)
  {
    hide PaidOn; hide BundleStatusOf; hide Branch;
    PaymentIsRead(chain, view.finalized.bundleM6id);
    if HasOpenBundle(view) { OpenMeansLive(root, steps, view); }
  }

  /** The peg seals if and only if the branch has no live bundle and records
      that no bundle holds; otherwise it waits when no bundle is open, and for
      the confirmations of a payment. */
  lemma {:induction false} SealsIff(root: World, steps: seq<Step>, view: View, chain: seq<Block>)
    requires Branch(root, steps, view) && ReadsChain(view, chain)
    ensures DecideNext(view).SealNext? <==>
              !IsLive(view.processed) && view.processed.withdrawalCount > view.processed.bundledThrough
    ensures DecideNext(view).Wait? <==>
              if HasOpenBundle(view) then
                && PaidOn(chain, view.finalized.bundleM6id)
                && exists other :: !PaidOn(other, view.finalized.bundleM6id)
                     && KeepsAllBut(chain, Max(view.finalized.depositConfirmations, 1) - 1, other)
              else
                IsLive(view.processed) || view.processed.withdrawalCount <= view.processed.bundledThrough
  {
    hide KeepsAllBut; hide PaidOn; hide BundleStatusOf; hide Branch;
    MarksIff(root, steps, view, chain);
    ProposesIff(root, steps, view, chain);
    if HasOpenBundle(view) { OpenMeansLive(root, steps, view); }
  }
}
