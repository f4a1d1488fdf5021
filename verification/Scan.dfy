/** The incremental read of the history of the live bundle (`scan_bundle`,
    daemon/src/peg.rs). */
module Scan {
  import opened Prelude
  import opened Bridge
  import opened ECash
  import opened M6
  import opened Peg
  import opened BlockTree
  import opened Headers

  datatype Scan = Scan(m6id: Txid, point: Point, status: BundleStatus)

  /** What a from-scratch read of the active chain gives. */
  ghost function ScratchStatus(t: Tree, tip: Point, sealedHeight: nat, m6id: Txid): BundleStatus
    requires IsTree(t) && Knows(t, tip)
  {
    BundleStatusOf(PathEvents(t, tip.hash, Min(sealedHeight, tip.height)), m6id)
  }

  /** An earlier scan counts only while the active chain holds its newest block. */
  ghost predicate Counts(t: Tree, tip: Point, m6id: Txid, last: Option<Scan>)
    requires IsTree(t) && Knows(t, tip)
  {
    && last.Some? && last.value.m6id == m6id && last.value.point.height <= tip.height
    && At(t, tip.hash, last.value.point.height).hash == last.value.point.hash
  }

  ghost function NextScan(t: Tree, tip: Point, sealedHeight: nat, m6id: Txid, last: Option<Scan>): Scan
    requires IsTree(t) && Knows(t, tip)
  {
    var status :=
      if Counts(t, tip, m6id, last)
      then Advance(last.value.status, PathEvents(t, tip.hash, last.value.point.height), m6id)
      else ScratchStatus(t, tip, sealedHeight, m6id);
    Scan(m6id, tip, status)
  }

  /** A truthful enforcer that answers each call gives the next scan. */
  method ScanBundle(e: Enforcer, ghost t: Tree, tip: Point, sealedHeight: u64, m6id: Txid, last: Option<Scan>)
    returns (r: Option<Scan>)
    requires IsTree(t) && Knows(t, tip) && AnswersPaths(t, e.headers) && AnswersEvents(t, e.events)
    modifies e
    ensures r.Some? ==> r.value == NextScan(t, tip, sealedHeight, m6id, last)
    ensures e.widest <= Max(old(e.widest), PAGE_BLOCKS)
    ensures r.None? ==>
      || (sealedHeight > U32_MAX && !Counts(t, tip, m6id, last))
      || CallFailed(t, e.headers, tip, old(e.calls), e.calls)
      || EventsFailed(t, e.events, tip, old(e.calls), e.calls)
  {
    var kept: Option<Scan> := None;
    if last.Some? && last.value.m6id == m6id && last.value.point.height <= tip.height {
      var at := HeaderAt(e, t, tip, last.value.point.height);
      if at.None? { return None; }
      if at.value.hash == last.value.point.hash { kept := last; }
    }
    assert kept.Some? <==> Counts(t, tip, m6id, last);
    if kept.None? && sealedHeight > U32_MAX { return None; }
    var from := if kept.Some? then kept.value.point.height else Min(sealedHeight, tip.height);
    var prev := if kept.Some? then kept.value.status else UnknownBundle;
    var events, pages := PegDataFrom(e, t, tip, from);
    if events.None? { return None; }
    if kept.None? { AdvanceFromNothing(events.value, m6id); }
    return Some(Scan(m6id, tip, Advance(prev, events.value, m6id)));
  }

  lemma {:induction false} AdvanceFromNothing(events: seq<PegEvent>, m6id: Txid)
    ensures Advance(UnknownBundle, events, m6id) == BundleStatusOf(events, m6id)
  {
  }

  /** The M3 of a bundle, and all that follows it, comes after its seal. */
  ghost predicate EventsAreLate(t: Tree, m6id: Txid, sealedHeight: nat) {
    forall h :: h in t && t[h].height <= sealedHeight ==> EventEntries(EventOf(t[h]), m6id) == []
  }

  /** What the whole active chain says, from height one on. */
  ghost function WholeStatus(t: Tree, tip: Point, m6id: Txid): BundleStatus
    requires IsTree(t) && Knows(t, tip)
  {
    BundleStatusOf(PathEvents(t, tip.hash, 0), m6id)
  }

  lemma {:induction false} PathStoryGrows(t: Tree, h: Hash, from: nat, m6id: Txid)
    requires IsTree(t) && h in t && t[h].height > from
    ensures HasParent(t, h)
    ensures Story(PathEvents(t, h, from), m6id)
         == Story(PathEvents(t, t[h].prev, from), m6id) + EventEntries(EventOf(t[h]), m6id)
  {
    assert HasParent(t, h);
    EventsSplit(Path(t, t[h].prev, from), [t[h]]);
    assert EventsOf([t[h]]) == [EventOf(t[h])];
    hide Story; hide EventEntries;
    StorySplit(PathEvents(t, t[h].prev, from), EventsOf([t[h]]), m6id);
    OneEventStory(EventOf(t[h]), m6id);
  }

  lemma {:induction false} EarlyStoryIsEmpty(t: Tree, h: Hash, from: nat, m6id: Txid, sealedHeight: nat)
    requires IsTree(t) && h in t && EventsAreLate(t, m6id, sealedHeight) && t[h].height <= sealedHeight
    ensures Story(PathEvents(t, h, from), m6id) == []
    decreases t[h].height
  {
    if t[h].height > from {
      PathStoryGrows(t, h, from, m6id);
      EarlyStoryIsEmpty(t, t[h].prev, from, m6id, sealedHeight);
    }
  }

  lemma {:induction false} OneEventStory(e: PegEvent, m6id: Txid)
    ensures Story([e], m6id) == EventEntries(e, m6id)
  {
    assert [e][..0] == [];
    assert [] + EventEntries(e, m6id) == EventEntries(e, m6id);
  }

  /** Where the read starts does not matter, up to the seal. */
  lemma {:induction false} ScratchIsWhole(t: Tree, tip: Point, sealedHeight: nat, m6id: Txid)
    requires IsTree(t) && Knows(t, tip) && EventsAreLate(t, m6id, sealedHeight)
    ensures ScratchStatus(t, tip, sealedHeight, m6id) == WholeStatus(t, tip, m6id)
  {
    var from := Min(sealedHeight, tip.height);
    var below := At(t, tip.hash, from).hash;
    PathSplit(t, tip.hash, 0, from);
    EventsSplit(Path(t, below, 0), Path(t, tip.hash, from));
    EarlyStoryIsEmpty(t, below, 0, m6id, sealedHeight);
    StorySplit(PathEvents(t, below, 0), PathEvents(t, tip.hash, from), m6id);
    var late := Story(PathEvents(t, tip.hash, from), m6id);
    assert [] + late == late;
  }

  /** One pass of the peg that scans a live bundle. */
  datatype Query = Query(tip: Point, sealedHeight: nat, m6id: Txid)

  /** The passes ask about known tips, and an M6ID keeps its seal. */
  ghost predicate AreQueries(t: Tree, queries: seq<Query>) {
    && (forall i :: 0 <= i < |queries| ==> Knows(t, queries[i].tip))
    && (forall i, j :: 0 <= i < j < |queries| && queries[i].m6id == queries[j].m6id ==>
          queries[i].sealedHeight == queries[j].sealedHeight)
  }

  /** The memory after the scans of some passes: reorgs between them, other
      bundles, and passes that scan nothing. */
  ghost function AfterScans(t: Tree, queries: seq<Query>): Option<Scan>
    requires IsTree(t) && AreQueries(t, queries)
  {
    if queries == [] then None
    else
      var q := queries[|queries| - 1];
      assert Knows(t, q.tip);
      Some(NextScan(t, q.tip, q.sealedHeight, q.m6id, AfterScans(t, queries[..|queries| - 1])))
  }

  /** The height above which the kept scans of the last bundle read. */
  ghost function Base(t: Tree, queries: seq<Query>): nat
    requires IsTree(t) && AreQueries(t, queries)
  {
    if queries == [] then 0
    else
      var q, front := queries[|queries| - 1], queries[..|queries| - 1];
      assert Knows(t, q.tip);
      if Counts(t, q.tip, q.m6id, AfterScans(t, front)) then Base(t, front) else Min(q.sealedHeight, q.tip.height)
  }

  /** Without any assumption on the events, the memory is one read above the
      base, after every sequence of tips with reorgs. */
  lemma {:induction false} ScansReadAboveTheBase(t: Tree, queries: seq<Query>)
    requires IsTree(t) && AreQueries(t, queries) && queries != []
    ensures var q := queries[|queries| - 1];
            && Knows(t, q.tip) && Base(t, queries) <= Min(q.sealedHeight, q.tip.height)
            && AfterScans(t, queries)
                 == Some(Scan(q.m6id, q.tip, BundleStatusOf(PathEvents(t, q.tip.hash, Base(t, queries)), q.m6id)))
  {
    hide BundleStatusOf; hide PathEvents;
    var q, front := queries[|queries| - 1], queries[..|queries| - 1];
    assert Knows(t, q.tip);
    var last := AfterScans(t, front);
    if Counts(t, q.tip, q.m6id, last) {
      ScansReadAboveTheBase(t, front);
      assert front[|front| - 1] == queries[|queries| - 2];
      ReadGoesOn(t, q.tip, last.value.point, Base(t, front), q.m6id);
    }
  }

  /** A read up to `mid` and one from there are one read. */
  lemma {:induction false} ReadGoesOn(t: Tree, tip: Point, mid: Point, from: nat, m6id: Txid)
    requires IsTree(t) && Knows(t, tip) && TruePoint(t, tip, mid) && from <= mid.height
    ensures Story(PathEvents(t, tip.hash, from), m6id)
         == Story(PathEvents(t, mid.hash, from), m6id) + Story(PathEvents(t, tip.hash, mid.height), m6id)
    ensures Advance(BundleStatusOf(PathEvents(t, mid.hash, from), m6id), PathEvents(t, tip.hash, mid.height), m6id)
         == BundleStatusOf(PathEvents(t, tip.hash, from), m6id)
  {
    hide Story; hide Advance; hide BundleStatusOf;
    PathSplit(t, tip.hash, from, mid.height);
    EventsSplit(Path(t, mid.hash, from), Path(t, tip.hash, mid.height));
    StorySplit(PathEvents(t, mid.hash, from), PathEvents(t, tip.hash, mid.height), m6id);
    AdvanceIsFullScan(PathEvents(t, mid.hash, from), PathEvents(t, tip.hash, mid.height), m6id);
  }

  // --------------------------------------------------- the exact condition

  ghost predicate HeightsIn(story: seq<Entry>, low: nat, high: nat) {
    forall i :: 0 <= i < |story| ==> low < story[i].height <= high
  }

  lemma {:induction false} EntryHeights(height: nat, bundles: seq<BundleEvent>, m6id: Txid)
    ensures forall i :: 0 <= i < |EntriesOf(height, bundles, m6id)| ==> EntriesOf(height, bundles, m6id)[i].height == height
  {
    if bundles != [] { EntryHeights(height, bundles[..|bundles| - 1], m6id); }
  }

  /** The entries of a path stand at its heights. */
  lemma {:induction false} PathHeights(t: Tree, h: Hash, from: nat, m6id: Txid)
    requires IsTree(t) && h in t
    ensures HeightsIn(Story(PathEvents(t, h, from), m6id), from, t[h].height)
    decreases t[h].height
  {
    if t[h].height > from {
      hide Story; hide EntriesOf; hide PathEvents;
      PathStoryGrows(t, h, from, m6id);
      PathHeights(t, t[h].prev, from, m6id);
      EntryHeights(t[h].height, t[h].bundles, m6id);
    } else {
      assert PathEvents(t, h, from) == [];
    }
  }

  /** The early part of a story does not show in its status: there is none, or
      something later follows and none of it is a payment. */
  ghost predicate Vanishes(early: seq<Entry>, late: seq<Entry>) {
    early == [] || (late != [] && forall i :: 0 <= i < |early| ==> !early[i].event.Succeeded?)
  }

  lemma {:induction false} StatusWithoutStart(early: seq<Entry>, late: seq<Entry>, low: nat, mid: nat, high: nat)
    requires HeightsIn(early, low, mid) && HeightsIn(late, mid, high)
    ensures StatusOf(early + late) == StatusOf(late) <==> Vanishes(early, late)
  {
    if early == [] {
      assert early + late == late;
    } else if forall i :: 0 <= i < |early| ==> !early[i].event.Succeeded? {
      FirstPaidIs(early + late, |early| + FirstPaid(late));
    } else {
      EarlyPayment(early, FirstPaid(early));
      FirstPaidIs(early + late, FirstPaid(early));
    }
  }

  lemma {:induction false} EarlyPayment(early: seq<Entry>, i: nat)
    requires i == FirstPaid(early) && exists k :: 0 <= k < |early| && early[k].event.Succeeded?
    ensures i < |early|
  {
  }

  /** The entries that the kept scans read and a read from scratch does not. */
  ghost function EarlyEntries(t: Tree, queries: seq<Query>): seq<Entry>
    requires IsTree(t) && AreQueries(t, queries) && queries != [] && Knows(t, queries[|queries| - 1].tip)
  {
    var q := queries[|queries| - 1];
    Story(PathEvents(t, At(t, q.tip.hash, Min(q.sealedHeight, q.tip.height)).hash, Base(t, queries)), q.m6id)
  }

  ghost function LateEntries(t: Tree, q: Query): seq<Entry>
    requires IsTree(t) && Knows(t, q.tip)
  {
    Story(PathEvents(t, q.tip.hash, Min(q.sealedHeight, q.tip.height)), q.m6id)
  }

  /** The exact condition, for all trees, tips and reorgs: the scan of the last
      pass agrees with a read from scratch if and only if what the kept scans
      read at or below the seal vanishes in the status. */
  lemma {:induction false} ScansAreExact(t: Tree, queries: seq<Query>)
    requires IsTree(t) && AreQueries(t, queries) && queries != []
    ensures var q := queries[|queries| - 1];
            && Knows(t, q.tip) && AfterScans(t, queries).Some?
            && (AfterScans(t, queries).value.status == ScratchStatus(t, q.tip, q.sealedHeight, q.m6id)
                <==> Vanishes(EarlyEntries(t, queries), LateEntries(t, q)))
  {
    var q := queries[|queries| - 1];
    assert Knows(t, q.tip);
    var base, seal := Base(t, queries), Min(q.sealedHeight, q.tip.height);
    var mid := Point(At(t, q.tip.hash, seal).hash, seal);
    ScansReadAboveTheBase(t, queries);
    hide Base; hide AfterScans; hide Vanishes; hide StatusOf; hide Story; hide PathEvents;
    ReadGoesOn(t, q.tip, mid, base, q.m6id);
    PathHeights(t, mid.hash, base, q.m6id);
    PathHeights(t, q.tip.hash, seal, q.m6id);
    StatusWithoutStart(EarlyEntries(t, queries), LateEntries(t, q), base, seal, q.tip.height);
  }

  /** A guard that the caller can check: when every earlier pass had its tip at
      or above the seal, the scan is the read from scratch, whatever the events. */
  lemma {:induction false} DeepTipsAreEnough(t: Tree, queries: seq<Query>)
    requires IsTree(t) && AreQueries(t, queries) && queries != []
    requires forall i :: 0 <= i < |queries| - 1 ==> queries[i].sealedHeight <= queries[i].tip.height
    ensures var q := queries[|queries| - 1];
            && Knows(t, q.tip) && AfterScans(t, queries).Some?
            && AfterScans(t, queries).value.status == ScratchStatus(t, q.tip, q.sealedHeight, q.m6id)
  {
    var q := queries[|queries| - 1];
    assert Knows(t, q.tip);
    DeepBase(t, queries);
    ScansAreExact(t, queries);
    var mid := At(t, q.tip.hash, Min(q.sealedHeight, q.tip.height));
    assert PathEvents(t, mid.hash, mid.height) == [];
    hide AfterScans; hide Base; hide ScratchStatus; hide PathEvents;
  }

  lemma {:induction false} DeepBase(t: Tree, queries: seq<Query>)
    requires IsTree(t) && AreQueries(t, queries) && queries != []
    requires forall i :: 0 <= i < |queries| - 1 ==> queries[i].sealedHeight <= queries[i].tip.height
    ensures Base(t, queries) == Min(queries[|queries| - 1].sealedHeight, queries[|queries| - 1].tip.height)
  {
    var q, front := queries[|queries| - 1], queries[..|queries| - 1];
    assert Knows(t, q.tip);
    if Counts(t, q.tip, q.m6id, AfterScans(t, front)) {
      ScansReadAboveTheBase(t, front);
      assert front[|front| - 1] == queries[|queries| - 2];
      DeepBase(t, front);
      hide BundleStatusOf; hide PathEvents;
    }
  }

  /** With late events, the scan is a read of the whole active chain. */
  lemma {:induction false} ScansEqualFullReads(t: Tree, queries: seq<Query>)
    requires IsTree(t) && AreQueries(t, queries) && queries != []
    requires forall i :: 0 <= i < |queries| ==> EventsAreLate(t, queries[i].m6id, queries[i].sealedHeight)
    ensures var q := queries[|queries| - 1];
            && Knows(t, q.tip)
            && AfterScans(t, queries) == Some(Scan(q.m6id, q.tip, WholeStatus(t, q.tip, q.m6id)))
            && WholeStatus(t, q.tip, q.m6id) == ScratchStatus(t, q.tip, q.sealedHeight, q.m6id)
  {
    var q := queries[|queries| - 1];
    assert Knows(t, q.tip) && EventsAreLate(t, q.m6id, q.sealedHeight);
    var mid := At(t, q.tip.hash, Min(q.sealedHeight, q.tip.height));
    ScansReadAboveTheBase(t, queries);
    ScansAreExact(t, queries);
    hide AfterScans; hide Base; hide BundleStatusOf; hide Story; hide PathEvents;
    EarlyStoryIsEmpty(t, mid.hash, Base(t, queries), q.m6id, q.sealedHeight);
    ScratchIsWhole(t, q.tip, q.sealedHeight, q.m6id);
  }

  lemma {:induction false} OneFailure(m6id: Txid, e: PegEvent)
    requires e.Connect? && e.height == 1 && e.bundles == [Failed(m6id)]
    ensures BundleStatusOf([e], m6id) == HasFailed(1)
    ensures BundleStatusOf([], m6id) == UnknownBundle
  {
    OneEventStory(e, m6id);
    assert [Failed(m6id)][..0] == [] && EntriesOf(1, [], m6id) == [];
    assert [] + [Entry(1, Failed(m6id))] == [Entry(1, Failed(m6id))];
    assert EventEntries(e, m6id) == [Entry(1, Failed(m6id))];
    hide Story; hide EventEntries;
    FirstPaidIs([Entry(1, Failed(m6id))], 1);
  }

  /** Without late events the scan can differ from a read from scratch: the
      first tip is below the seal, and the bundle fails at the seal. */
  lemma {:induction false} EarlyEventsBreakTheScan() returns (t: Tree, low: Point, high: Point, m6id: Txid)
    ensures IsTree(t) && Knows(t, low) && Knows(t, high)
    ensures NextScan(t, high, 1, m6id, Some(NextScan(t, low, 1, m6id, None))).status
         != ScratchStatus(t, high, 1, m6id)
  {
    m6id := Unknown(0);
    var root := Block(1, 0, 0, [], [], None);
    var child := Block(2, 1, 1, [], [Failed(m6id)], None);
    t, low, high := map[1 := root, 2 := child], Point(1, 0), Point(2, 1);
    OneFailure(m6id, EventOf(child));
    hide BundleStatusOf; hide PathEvents;
    assert HasParent(t, 2);
  }
}
