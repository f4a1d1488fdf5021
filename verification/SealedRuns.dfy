/** What the sealed bundles are after every run of the two chains. */
module SealedRuns {
  import opened Prelude
  import opened Bridge
  import opened ECash
  import opened M6
  import opened Bundle
  import opened World
  import opened WorldInvariant

  /** The bundles cut the records `0..bundledThrough` into consecutive pieces
      of 1 to 1500 records, with pairwise different M6IDs. */
  ghost predicate Cuts(sealed: seq<Sealed>, through: nat) {
    && (if sealed == [] then through == 0
        else sealed[0].start == 0 && sealed[|sealed| - 1].end == through)
    && (forall k :: 0 <= k < |sealed| ==> sealed[k].start < sealed[k].end <= sealed[k].start + MAX_BUNDLE_RECORDS)
    && (forall k :: 0 < k < |sealed| ==> Follows(sealed, k))
    && (forall i, j :: 0 <= i < j < |sealed| ==> sealed[i].end <= sealed[j].start && sealed[i].id != sealed[j].id)
  }

  ghost predicate Follows(sealed: seq<Sealed>, k: nat)
    requires 0 < k < |sealed|
  {
    sealed[k].start == sealed[k - 1].end
  }

  lemma {:induction false} CutsHold(w: World)
    requires RecordInv(w) && SealInv(w)
    ensures Cuts(w.sealed, w.bridge.config.bundledThrough)
  {
    var sealed := w.sealed;
    hide AllGenuine; hide ValidRun; hide SumBurned;
    if sealed != [] {
      assert StartsAtEnd(sealed, 0) && StartsAtEnd(sealed, |sealed| - 1);
    }
    forall k | 0 <= k < |sealed|
      ensures sealed[k].start < sealed[k].end <= sealed[k].start + MAX_BUNDLE_RECORDS
    {
      assert StartsAtEnd(sealed, k);
    }
    forall i, j | 0 <= i < j < |sealed| ensures sealed[i].end <= sealed[j].start && sealed[i].id != sealed[j].id {
      StartsIncrease(sealed, i, j);
      SealedIdsDiffer(w, i, j);
    }
    forall k | 0 < k < |sealed| ensures Follows(sealed, k) {
      assert StartsAtEnd(sealed, k);
    }
  }

  lemma {:induction false} CutIsRun(history: seq<Record>, start: nat, end: nat)
    requires ValidRun(history, 0) && start < end <= |history|
    ensures ValidRun(history[start..end], start) && FirstIndex(history[start..end]) == start
  {
    assert history[start..end][0] == history[start];
  }

  lemma {:induction false} SealedBuildsAgain(history: seq<Record>, b: Sealed, r: Result<Blinded, M6Error>)
    requires ValidRun(history, 0) && Genuine(history, b)
    requires b.end <= b.start + MAX_BUNDLE_RECORDS && b.start <= U32_MAX
    requires BundleAnswers(history[b.start..b.end], r)
    ensures r.Ok? && TxidOf(r.value) == b.id
  {
    hide BundleAnswers; hide SumBurned;
    CutIsRun(history, b.start, b.end);
    hide ValidRun;
    BridgeRecordsBuild(history[b.start..b.end], b.start, r);
  }

  /** Each record that the bridge did not mark paid is still in the bank. */
  ghost predicate KeepsOpenRecords(w: World) {
    var c := w.bridge.config;
    && c.paidThrough <= c.bundledThrough <= c.withdrawalCount == |w.history|
    && forall i :: c.paidThrough <= i < |w.history| ==>
         i in w.bridge.records && w.bridge.records[i] == w.history[i] && w.history[i].index == i
  }

  /** `bundle_of` gives each sealed bundle again, with its M6ID. */
  ghost predicate Rebuilds(history: seq<Record>, b: Sealed) {
    && b.start <= b.end <= |history|
    && forall r :: BundleAnswers(history[b.start..b.end], r) ==> r.Ok? && TxidOf(r.value) == b.id
  }

  lemma {:induction false} EachRebuilds(w: World)
    requires RecordInv(w) && SealInv(w)
    ensures forall k :: 0 <= k < |w.sealed| ==> Rebuilds(w.history, w.sealed[k])
  {
    hide SumBurned;
    forall k | 0 <= k < |w.sealed| ensures Rebuilds(w.history, w.sealed[k]) {
      var b := w.sealed[k];
      assert StartsAtEnd(w.sealed, k) && Genuine(w.history, b);
      hide BundleAnswers; hide ValidRun; hide DaemonBundle; hide Consecutive; hide AllGenuine;
      forall r | BundleAnswers(w.history[b.start..b.end], r) ensures r.Ok? && TxidOf(r.value) == b.id {
        SealedBuildsAgain(w.history, b, r);
      }
    }
  }

  /** After every run: the bundles cut the records, each record that eCash did
      not pay is still in the bank, and `bundle_of` gives each sealed bundle
      again, with its M6ID. */
  lemma {:induction false} SealedBundlesCoverTheRecords(start: World, steps: seq<Step>)
    requires Init(start)
    ensures var w := Run(start, steps);
            && Cuts(w.sealed, w.bridge.config.bundledThrough)
            && KeepsOpenRecords(w)
            && forall k :: 0 <= k < |w.sealed| ==> Rebuilds(w.history, w.sealed[k])
  {
    hide Cuts; hide Rebuilds; hide BankInv; hide CursorInv; hide PayInv; hide SealInv; hide ValidChain;
    InitHolds(start);
    RunKeeps(start, steps);
    hide Run; hide Init;
    CutsHold(Run(start, steps));
    EachRebuilds(Run(start, steps));
  }

  /** The bridge would seal the records from `paidThrough` to `through`. */
  ghost predicate CanSeal(c: Config, through: nat) {
    && c.bundledThrough == c.paidThrough < through <= c.withdrawalCount
    && through <= c.paidThrough + MAX_BUNDLE_RECORDS <= U64_MAX
  }

  lemma {:induction false} NextBuilds(w: World, through: nat, r: Result<Blinded, M6Error>)
    requires Inv(w) && CanSeal(w.bridge.config, through) && |w.history| == w.bridge.config.withdrawalCount
    requires BundleAnswers(w.history[w.bridge.config.paidThrough..through], r)
    ensures var from := w.bridge.config.paidThrough;
            && (r.Ok? <==> from <= U32_MAX)
            && (r.Ok? ==> Next(w, Seal(through)).sealed == w.sealed + [Sealed(from, through, TxidOf(r.value))])
  {
    hide CursorInv; hide PayInv; hide SealInv; hide ValidChain; hide BankInv; hide BundleAnswers;
    hide SumBurned; hide CanBuild; hide Next; hide DaemonBundle;
    var from := w.bridge.config.paidThrough;
    var records := w.history[from..through];
    assert ValidRun(records, from) && FirstIndex(records) == from;
    hide ValidRun;
    OpenRecordsAreBacked(w, through);
    hide RecordInv;
    BridgeRecordsBuild(records, from, r);
    BridgeRecordsCanBuild(records, from);
    if from <= U32_MAX {
      SealsIt(w, through);
    }
  }

  lemma {:induction false} SealsIt(w: World, through: nat)
    requires CanSeal(w.bridge.config, through) && w.bridge.config.withdrawalCount == |w.history|
    requires var records := w.history[w.bridge.config.paidThrough..through];
             CanBuild(records) && FirstIndex(records) <= U32_MAX
    ensures var from := w.bridge.config.paidThrough;
            Next(w, Seal(through)).sealed
              == w.sealed + [Sealed(from, through, TxidOf(BundleTx(w.history[from..through])))]
  {
  }

  /** After every run without a live bundle: each range that the bridge would
      seal next, `bundle_of` builds, and the seal lands, exactly when the first
      index fits a u32. */
  lemma {:induction false} NextBundleBuilds(start: World, steps: seq<Step>, through: nat, r: Result<Blinded, M6Error>)
    requires Init(start) && CanSeal(Run(start, steps).bridge.config, through)
    requires |Run(start, steps).history| == Run(start, steps).bridge.config.withdrawalCount
    requires var w := Run(start, steps); BundleAnswers(w.history[w.bridge.config.paidThrough..through], r)
    ensures var w := Run(start, steps);
            var from := w.bridge.config.paidThrough;
            && (r.Ok? <==> from <= U32_MAX)
            && (r.Ok? ==> Next(w, Seal(through)).sealed == w.sealed + [Sealed(from, through, TxidOf(r.value))])
  {
    hide BundleAnswers; hide Next; hide CanSeal;
    InitHolds(start);
    RunKeeps(start, steps);
    hide Run; hide Init; hide Inv;
    NextBuilds(Run(start, steps), through, r);
  }

  lemma {:induction false} PaidWithinBurned(w: World)
    requires Inv(w)
    ensures 10 * PaidSats(PaidIds(w.chain)) <= w.burned
    ensures 0 <= PaidCount(w)
    ensures Ids(w.sealed)[..PaidCount(w)] <= PaidIds(w.chain) <= Ids(w.sealed)
  {
    hide PaidIds; hide CursorInv; hide BankInv; hide ValidChain; hide PaidSats; hide SumBurned;
    hide ValidRun; hide AllGenuine; hide Consecutive;
    assert w.chain[..|w.chain|] == w.chain;
    PaidShape(w, |w.chain|);
    hide PayInv;
    var n := |PaidIds(w.chain)|;
    assert PaidIds(w.chain) == Ids(w.sealed)[..n];
    SealedSum(w.history, w.sealed, n);
    assert w.history[..|w.history|] == w.history;
    BurnedStep(w.history, EndOf(w.sealed, n), |w.history|);
  }

  /** eCash never pays out more than the users burned, and whatever the bridge
      marked paid, eCash paid: the first `PaidCount` bundles in seal order. */
  lemma {:induction false} MarkedMeansPaid(start: World, steps: seq<Step>)
    requires Init(start)
    ensures var w := Run(start, steps);
            && 10 * PaidSats(PaidIds(w.chain)) <= w.burned
            && 0 <= PaidCount(w)
            && Ids(w.sealed)[..PaidCount(w)] <= PaidIds(w.chain) <= Ids(w.sealed)
  {
    hide Inv; hide PaidIds; hide PaidSats;
    InitHolds(start);
    RunKeeps(start, steps);
    hide Run; hide Init;
    PaidWithinBurned(Run(start, steps));
  }
}
