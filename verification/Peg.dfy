/** What eCash did with a bundle, and the bundle of the records: the pure part
    of the peg loop (daemon/src/peg.rs). */
module Peg {
  import opened Prelude
  import opened Bridge
  import opened ECash
  import opened M6

  // ------------------------------------------------------------ bundle status

  datatype BundleStatus =
    | UnknownBundle
    | WasSubmitted(height: nat)
    | HasFailed(height: nat)
    | HasSucceeded(height: nat)

  /** One event of one bundle, with the height of its block. */
  datatype Entry = Entry(height: nat, event: BundleEvent)

  function EntriesOf(height: nat, bundles: seq<BundleEvent>, m6id: Txid): seq<Entry> {
    if bundles == [] then []
    else
      var front := EntriesOf(height, bundles[..|bundles| - 1], m6id);
      var last := bundles[|bundles| - 1];
      if last.m6id == m6id then front + [Entry(height, last)] else front
  }

  function EventEntries(event: PegEvent, m6id: Txid): seq<Entry> {
    match event
    case Connect(_, height, _, bundles) => EntriesOf(height, bundles, m6id)
    case Disconnect(_) => []
  }

  /** Everything that `events` tell about `m6id`, oldest first. */
  function Story(events: seq<PegEvent>, m6id: Txid): seq<Entry> {
    if events == [] then []
    else Story(events[..|events| - 1], m6id) + EventEntries(events[|events| - 1], m6id)
  }

  /** The index of the first payment, or the length of the story. */
  function FirstPaid(story: seq<Entry>): (i: nat)
    ensures i <= |story|
    ensures i < |story| ==> story[i].event.Succeeded?
    ensures forall k :: 0 <= k < i ==> !story[k].event.Succeeded?
  {
    if story == [] then 0
    else
      var i := FirstPaid(story[..|story| - 1]);
      if i < |story| - 1 || story[|story| - 1].event.Succeeded? then i else i + 1
  }

  /** The newest event decides, and a payment is final. */
  function StatusOf(story: seq<Entry>): BundleStatus {
    var paid := FirstPaid(story);
    if paid < |story| then HasSucceeded(story[paid].height)
    else if story == [] then UnknownBundle
    else
      var last := story[|story| - 1];
      if last.event.Submitted? then WasSubmitted(last.height) else HasFailed(last.height)
  }

  function BundleStatusOf(events: seq<PegEvent>, m6id: Txid): BundleStatus {
    StatusOf(Story(events, m6id))
  }

  lemma {:induction false} StoryGrows(events: seq<PegEvent>, i: nat, m6id: Txid)
    requires i < |events|
    ensures Story(events[..i + 1], m6id) == Story(events[..i], m6id) + EventEntries(events[i], m6id)
    ensures Story(events[..0], m6id) == []
  {
    assert events[..i + 1][..i] == events[..i];
  }

  lemma {:induction false} OtherBundle(height: nat, bundles: seq<BundleEvent>, k: nat, m6id: Txid)
    requires k < |bundles|
    ensures bundles[k].m6id != m6id ==>
              EntriesOf(height, bundles[..k + 1], m6id) == EntriesOf(height, bundles[..k], m6id)
  {
    assert bundles[..k + 1][..k] == bundles[..k];
  }

  method ReadBundleStatus(events: seq<PegEvent>, m6id: Txid) returns (status: BundleStatus)
    ensures status == BundleStatusOf(events, m6id)
  {
    status := UnknownBundle;
    assert StatusOf([]) == UnknownBundle;
    hide StatusOf; hide Story;
    for i := 0 to |events|
      invariant status == BundleStatusOf(events[..i], m6id)
      invariant !status.HasSucceeded?
    {
      ghost var before := Story(events[..i], m6id);
      StoryGrows(events, i, m6id);
      if events[i].Connect? {
        var bundles := events[i].bundles;
        assert EntriesOf(events[i].height, bundles[..0], m6id) == [];
        assert EventEntries(events[i], m6id) == EntriesOf(events[i].height, bundles[..|bundles|], m6id) by {
          assert bundles[..|bundles|] == bundles;
        }
        hide EntriesOf; hide EventEntries;
        assert before + [] == before;
        for k := 0 to |bundles|
          invariant status == StatusOf(before + EntriesOf(events[i].height, bundles[..k], m6id))
          invariant !status.HasSucceeded?
        {
          OtherBundle(events[i].height, bundles, k, m6id);
          if bundles[k].m6id == m6id {
            OneMore(before, events[i].height, bundles, k, m6id);
            match bundles[k]
            case Succeeded(_) =>
              LaterEventsChangeNothing(events, i, bundles, k, m6id);
              return HasSucceeded(events[i].height);
            case Submitted(_) => status := WasSubmitted(events[i].height);
            case Failed(_) => status := HasFailed(events[i].height);
          }
        }
      } else {
        assert before + [] == before;
      }
    }
    assert events[..|events|] == events;
  }

  lemma {:induction false} FirstPaidIs(story: seq<Entry>, i: nat)
    requires i <= |story|
    requires i < |story| ==> story[i].event.Succeeded?
    requires forall k :: 0 <= k < i ==> !story[k].event.Succeeded?
    ensures FirstPaid(story) == i
  {
  }

  lemma {:induction false} OneMore(before: seq<Entry>, height: nat, bundles: seq<BundleEvent>, k: nat, m6id: Txid)
    requires k < |bundles| && bundles[k].m6id == m6id
    requires !StatusOf(before + EntriesOf(height, bundles[..k], m6id)).HasSucceeded?
    ensures StatusOf(before + EntriesOf(height, bundles[..k + 1], m6id))
         == match bundles[k]
            case Succeeded(_) => HasSucceeded(height)
            case Submitted(_) => WasSubmitted(height)
            case Failed(_) => HasFailed(height)
  {
    var story := before + EntriesOf(height, bundles[..k], m6id);
    assert bundles[..k + 1][..k] == bundles[..k];
    var longer := before + EntriesOf(height, bundles[..k + 1], m6id);
    assert longer == story + [Entry(height, bundles[k])];
    assert FirstPaid(story) == |story|;
    FirstPaidIs(longer, if bundles[k].Succeeded? then |story| else |longer|);
  }

  /** A story that holds a payment keeps its status whatever comes after. */
  lemma {:induction false} PaymentIsFinal(story: seq<Entry>, more: seq<Entry>)
    requires StatusOf(story).HasSucceeded?
    ensures StatusOf(story + more) == StatusOf(story)
  {
    FirstPaidIs(story + more, FirstPaid(story));
  }

  lemma {:induction false} EntriesSplit(height: nat, a: seq<BundleEvent>, b: seq<BundleEvent>, m6id: Txid)
    ensures EntriesOf(height, a + b, m6id) == EntriesOf(height, a, m6id) + EntriesOf(height, b, m6id)
  {
    if b == [] {
      assert a + b == a;
    } else {
      EntriesSplit(height, a, b[..|b| - 1], m6id);
      assert (a + b)[..|a + b| - 1] == a + b[..|b| - 1];
    }
  }

  lemma {:induction false} StorySplit(a: seq<PegEvent>, b: seq<PegEvent>, m6id: Txid)
    ensures Story(a + b, m6id) == Story(a, m6id) + Story(b, m6id)
  {
    hide Story; hide EventEntries;
    if b == [] {
      NoStory(b, m6id);
      assert a + b == a;
    } else {
      var n := |b| - 1;
      StorySplit(a, b[..n], m6id);
      StoryStep(b, b[..n], b[n], m6id);
      StoryStep(a + b, a + b[..n], b[n], m6id);
    }
  }

  lemma {:induction false} NoStory(events: seq<PegEvent>, m6id: Txid)
    requires events == []
    ensures Story(events, m6id) == []
  {
  }

  lemma {:induction false} StoryStep(events: seq<PegEvent>, front: seq<PegEvent>, last: PegEvent, m6id: Txid)
    requires events == front + [last]
    ensures Story(events, m6id) == Story(front, m6id) + EventEntries(last, m6id)
  {
    hide EventEntries;
    assert events[..|events| - 1] == front;
  }

  lemma {:induction false} LaterEventsChangeNothing(
    events: seq<PegEvent>, i: nat, bundles: seq<BundleEvent>, k: nat, m6id: Txid)
    requires i < |events| && events[i].Connect? && events[i].bundles == bundles && k < |bundles|
    requires StatusOf(Story(events[..i], m6id) + EntriesOf(events[i].height, bundles[..k + 1], m6id)).HasSucceeded?
    ensures BundleStatusOf(events, m6id)
         == StatusOf(Story(events[..i], m6id) + EntriesOf(events[i].height, bundles[..k + 1], m6id))
  {
    var before := Story(events[..i], m6id);
    var head := EntriesOf(events[i].height, bundles[..k + 1], m6id);
    var tail := EntriesOf(events[i].height, bundles[k + 1..], m6id);
    assert EventEntries(events[i], m6id) == head + tail by {
      assert bundles == bundles[..k + 1] + bundles[k + 1..];
      EntriesSplit(events[i].height, bundles[..k + 1], bundles[k + 1..], m6id);
    }
    StoryUpTo(events, i, m6id);
    PaymentDecides(before, head, tail, Story(events[i + 1..], m6id));
  }

  lemma {:induction false} PaymentDecides(before: seq<Entry>, head: seq<Entry>, tail: seq<Entry>, rest: seq<Entry>)
    requires StatusOf(before + head).HasSucceeded?
    ensures StatusOf((before + (head + tail)) + rest) == StatusOf(before + head)
  {
    assert (before + (head + tail)) + rest == (before + head) + (tail + rest);
    PaymentIsFinal(before + head, tail + rest);
  }

  lemma {:induction false} StoryUpTo(events: seq<PegEvent>, i: nat, m6id: Txid)
    requires i < |events|
    ensures Story(events[..i + 1], m6id) == Story(events[..i], m6id) + EventEntries(events[i], m6id)
    ensures Story(events, m6id) == Story(events[..i + 1], m6id) + Story(events[i + 1..], m6id)
  {
    assert events[..i + 1][..i] == events[..i];
    assert events == events[..i + 1] + events[i + 1..];
    StorySplit(events[..i + 1], events[i + 1..], m6id);
  }

  /** One more list of events on top of a known status. */
  function Advance(prev: BundleStatus, events: seq<PegEvent>, m6id: Txid): BundleStatus {
    if prev.HasSucceeded? then prev
    else
      match BundleStatusOf(events, m6id)
      case UnknownBundle => prev
      case status => status
  }

  /** The incremental scan equals the full scan, for all event lists. */
  lemma {:induction false} AdvanceIsFullScan(a: seq<PegEvent>, b: seq<PegEvent>, m6id: Txid)
    ensures Advance(BundleStatusOf(a, m6id), b, m6id) == BundleStatusOf(a + b, m6id)
  {
    hide Story;
    StorySplit(a, b, m6id);
    var sa, sb := Story(a, m6id), Story(b, m6id);
    if StatusOf(sa).HasSucceeded? {
      PaymentIsFinal(sa, sb);
    } else if sb == [] {
      assert sa + sb == sa;
    } else {
      FirstPaidIs(sa + sb, |sa| + FirstPaid(sb));
    }
  }

  /** A bundle counts as paid exactly when some block of the events paid it. */
  lemma {:induction false} StoryKnowsThePayment(events: seq<PegEvent>, m6id: Txid)
    ensures BundleStatusOf(events, m6id).HasSucceeded? <==>
            exists e :: e in events && e.Connect? && Succeeded(m6id) in e.bundles
  {
    if events != [] {
      var n := |events| - 1;
      StoryKnowsThePayment(events[..n], m6id);
      var front, back := Story(events[..n], m6id), EventEntries(events[n], m6id);
      StatusKnowsThePayment(front);
      StatusKnowsThePayment(back);
      StatusKnowsThePayment(front + back);
      assert forall e :: e in front + back <==> e in front || e in back;
      assert forall e :: e in events <==> e in events[..n] || e == events[n];
      if events[n].Connect? {
        EntriesKnowThePayment(events[n].height, events[n].bundles, m6id);
      }
    }
  }

  lemma {:induction false} StatusKnowsThePayment(story: seq<Entry>)
    ensures StatusOf(story).HasSucceeded? <==> exists e :: e in story && e.event.Succeeded?
  {
    if FirstPaid(story) < |story| {
      assert story[FirstPaid(story)] in story;
    }
  }

  lemma {:induction false} EntriesKnowThePayment(height: nat, bundles: seq<BundleEvent>, m6id: Txid)
    ensures (exists e :: e in EntriesOf(height, bundles, m6id) && e.event.Succeeded?) <==> Succeeded(m6id) in bundles
  {
    if bundles != [] {
      var n := |bundles| - 1;
      EntriesKnowThePayment(height, bundles[..n], m6id);
      var front := EntriesOf(height, bundles[..n], m6id);
      var all := EntriesOf(height, bundles, m6id);
      assert forall b :: b in bundles <==> b in bundles[..n] || b == bundles[n];
      if bundles[n].m6id == m6id {
        assert forall e :: e in all <==> e in front || e == Entry(height, bundles[n]);
        assert bundles[n].Succeeded? ==> Entry(height, bundles[n]) in all;
      }
    }
  }
}
