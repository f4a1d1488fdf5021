/** The journal of the peg daemon (daemon/src/proposals.rs), and the overlap
    check over it (daemon/src/peg.rs). */
module Proposals {
  import opened Prelude
  import opened ECash
  import opened M6
  import opened Peg

  /** How deep a failure must be. */
  const FAILURE_CONFIRMATIONS: nat := 6

  datatype Proposal = Proposal(start: u64, end: u64, m6id: Txid, sealedHeight: u64, proposedAt: u32)

  predicate Overlap(start: u64, end: u64, otherStart: u64, otherEnd: u64) {
    start < otherEnd && otherStart < end
  }

  /** The content of the file. */
  datatype Kept = Kept(droppedThrough: u64, list: seq<Proposal>)

  /** `WrittenButFailed`: the rename happened and the sync after it failed, so
      the file is new and the caller sees an error. */
  datatype WriteOutcome = Written | NotWritten | WrittenButFailed

  datatype PegError =
    | HeightTooLarge(height: u64)
    | Overlapping(m6id: Txid)
    | BelowDropped(start: u64, droppedThrough: u64)

  function Retain(list: seq<Proposal>, keep: Proposal -> bool): (kept: seq<Proposal>)
    ensures forall p :: p in kept <==> p in list && keep(p)
  {
    if list == [] then []
    else
      var front, last := list[..|list| - 1], list[|list| - 1];
      assert forall p :: p in list <==> p in front || p == last;
      if keep(last) then Retain(front, keep) + [last] else Retain(front, keep)
  }

  function WithProposal(kept: Kept, p: Proposal): Kept {
    kept.(list := Retain(kept.list, (q: Proposal) => q.m6id != p.m6id) + [p])
  }

  function WithoutPaid(kept: Kept, paidThrough: u64): Kept {
    Kept(Max(kept.droppedThrough, paidThrough), Retain(kept.list, (q: Proposal) => q.end > paidThrough))
  }

  /** The memory of the daemon and the file on disk. */
  datatype Journal = Journal(kept: Kept, existed: bool, file: Option<Kept>)

  /** What a store of `kept` leaves, and whether it returned without error. */
  function Stored(j: Journal, kept: Kept, outcome: WriteOutcome): (Journal, bool) {
    if kept == j.kept then (j, true)
    else
      match outcome
      case Written => (Journal(kept, true, Some(kept)), true)
      case NotWritten => (j, false)
      case WrittenButFailed => (j.(file := Some(kept)), false)
  }

  /** A drop that changes nothing skips the store. A store of what the memory
      holds does the same, so both are one case here. */
  function Dropped(j: Journal, paidThrough: u64, outcome: WriteOutcome): (Journal, bool) {
    Stored(j, WithoutPaid(j.kept, paidThrough), outcome)
  }

  function Persisted(j: Journal, outcome: WriteOutcome): (Journal, bool) {
    if j.existed then (j, true)
    else
      match outcome
      case Written => (j.(existed := true, file := Some(j.kept)), true)
      case NotWritten => (j, false)
      case WrittenButFailed => (j.(file := Some(j.kept)), false)
  }

  function Loaded(file: Option<Kept>): Journal {
    Journal(if file.Some? then file.value else Kept(0, []), file.Some?, file)
  }

  lemma {:induction false} RetainAll(list: seq<Proposal>, keep: Proposal -> bool)
    requires forall p :: p in list ==> keep(p)
    ensures Retain(list, keep) == list
  {
    if list != [] {
      var n := |list| - 1;
      assert list == list[..n] + [list[n]] && list[n] in list;
      RetainAll(list[..n], keep);
    }
  }

  // ----------------------------------------------------- what the journal holds

  /** A change of the journal whose write succeeds. */
  datatype Change = Adds(p: Proposal) | Drops(paidThrough: u64)

  ghost function Changed(kept: Kept, change: Change): Kept {
    if change.Adds? then WithProposal(kept, change.p) else WithoutPaid(kept, change.paidThrough)
  }

  ghost function AfterChanges(changes: seq<Change>): Kept {
    if changes == [] then Kept(0, []) else Changed(AfterChanges(changes[..|changes| - 1]), changes[|changes| - 1])
  }

  /** The change neither adds a proposal of the same M6ID nor drops the range. */
  ghost predicate Leaves(change: Change, p: Proposal) {
    match change
    case Adds(q) => q.m6id != p.m6id
    case Drops(paidThrough) => p.end > paidThrough
  }

  /** Change `i` added the proposal, and each later one leaves it. */
  ghost predicate StillStands(changes: seq<Change>, i: nat, p: Proposal)
    requires i < |changes|
  {
    changes[i] == Adds(p) && forall j :: i < j < |changes| ==> Leaves(changes[j], p)
  }

  lemma {:induction false} ChangedHolds(kept: Kept, change: Change, p: Proposal)
    ensures p in Changed(kept, change).list <==> change == Adds(p) || (p in kept.list && Leaves(change, p))
  {
  }

  lemma {:induction false} StandsOn(changes: seq<Change>, i: nat, p: Proposal)
    requires i < |changes| - 1
    ensures var n := |changes| - 1;
            StillStands(changes, i, p) <==> StillStands(changes[..n], i, p) && Leaves(changes[n], p)
  {
    hide Leaves;
    var front := changes[..|changes| - 1];
    assert forall j :: i <= j < |front| ==> front[j] == changes[j];
  }

  /** After every sequence of changes the journal holds exactly the newest
      proposal of each M6ID, less those whose range was dropped since. */
  lemma {:induction false} JournalHoldsTheNewest(changes: seq<Change>, p: Proposal)
    ensures p in AfterChanges(changes).list <==> exists i :: 0 <= i < |changes| && StillStands(changes, i, p)
  {
    hide Changed; hide Leaves;
    if changes != [] {
      var n := |changes| - 1;
      var front := changes[..n];
      JournalHoldsTheNewest(front, p);
      ChangedHolds(AfterChanges(front), changes[n], p);
      forall i | 0 <= i < n
        ensures StillStands(changes, i, p) <==> StillStands(front, i, p) && Leaves(changes[n], p)
      {
        StandsOn(changes, i, p);
      }
      assert StillStands(changes, n, p) <==> changes[n] == Adds(p);
      hide StillStands; hide AfterChanges;
    }
  }

  /** It also knows the highest index that was dropped. */
  lemma {:induction false} JournalKnowsTheHighestDrop(changes: seq<Change>, x: u64)
    ensures AfterChanges(changes).droppedThrough <= x <==>
              forall j :: 0 <= j < |changes| && changes[j].Drops? ==> changes[j].paidThrough <= x
  {
    if changes != [] {
      var n := |changes| - 1;
      JournalKnowsTheHighestDrop(changes[..n], x);
      assert forall j :: 0 <= j < n ==> changes[..n][j] == changes[j];
      hide AfterChanges;
      MarkMoves(AfterChanges(changes[..n]), changes[n]);
      AfterMore(changes);
      hide Changed;
    }
  }

  lemma {:induction false} AfterMore(changes: seq<Change>)
    requires changes != []
    ensures AfterChanges(changes) == Changed(AfterChanges(changes[..|changes| - 1]), changes[|changes| - 1])
  {
  }

  lemma {:induction false} MarkMoves(kept: Kept, change: Change)
    ensures Changed(kept, change).droppedThrough
         == if change.Drops? then Max(kept.droppedThrough, change.paidThrough) else kept.droppedThrough
  {
  }

  // ----------------------------------------------------------- overlap check

  /** eCash can no longer pay the proposal: it failed later than its noted tip,
      and deep. */
  predicate Ended(p: Proposal, status: BundleStatus, tipHeight: int) {
    && status.HasFailed?
    && status.height > p.proposedAt
    && Max(tipHeight - status.height, 0) + 1 >= FAILURE_CONFIRMATIONS
  }

  function TipHeight(chain: seq<Block>): nat { if chain == [] then 0 else |chain| - 1 }

  /** `bundle_status_at` on the active chain. */
  function StatusAt(chain: seq<Block>, sealedHeight: u64, m6id: Txid): BundleStatus {
    BundleStatusOf(EventsAfter(chain, sealedHeight), m6id)
  }

  function OverlappingProposals(list: seq<Proposal>, start: u64, end: u64, m6id: Option<Txid>): seq<Proposal> {
    Retain(list, (p: Proposal) => Overlap(p.start, p.end, start, end) && Some(p.m6id) != m6id)
  }

  /** The check passes: no proposal of another M6ID that overlaps the range can
      still be paid, and no dropped one can. */
  ghost predicate RangeIsFree(kept: Kept, chain: seq<Block>, start: u64, end: u64, m6id: Option<Txid>) {
    && start >= kept.droppedThrough
    && forall p :: p in kept.list && Overlap(p.start, p.end, start, end) && Some(p.m6id) != m6id ==>
         && p.sealedHeight <= U32_MAX
         && Ended(p, StatusAt(chain, p.sealedHeight, p.m6id), TipHeight(chain))
  }

  class Proposals {
    var kept: Kept
    var existed: bool
    var file: Option<Kept>

    constructor Load(disk: Option<Kept>)
      ensures View() == Loaded(disk)
    {
      kept := if disk.Some? then disk.value else Kept(0, []);
      existed, file := disk.Some?, disk;
    }

    function View(): Journal
      reads this
    {
      Journal(kept, existed, file)
    }

    method Write(next: Kept, outcome: WriteOutcome) returns (ok: bool)
      modifies `file
      ensures ok == outcome.Written?
      ensures file == if outcome.NotWritten? then old(file) else Some(next)
    {
      if !outcome.NotWritten? { file := Some(next); }
      ok := outcome.Written?;
    }

    method Persist(outcome: WriteOutcome) returns (ok: bool)
      modifies this
      ensures (View(), ok) == Persisted(old(View()), outcome)
    {
      if existed { return true; }
      ok := Write(kept, outcome);
      if ok { existed := true; }
    }

    method Store(next: Kept, outcome: WriteOutcome) returns (ok: bool)
      modifies this
      ensures (View(), ok) == Stored(old(View()), next, outcome)
    {
      if next == kept { return true; }
      ok := Write(next, outcome);
      if ok {
        kept := next;
        existed := true;
      }
    }

    method Add(p: Proposal, outcome: WriteOutcome) returns (ok: bool)
      modifies this
      ensures (View(), ok) == Stored(old(View()), WithProposal(old(kept), p), outcome)
    {
      var list := Retain(kept.list, (q: Proposal) => q.m6id != p.m6id);
      ok := Store(kept.(list := list + [p]), outcome);
    }

    method DropPaid(paidThrough: u64, outcome: WriteOutcome) returns (ok: bool)
      modifies this
      ensures (View(), ok) == Dropped(old(View()), paidThrough, outcome)
    {
      if paidThrough <= kept.droppedThrough && forall p :: p in kept.list ==> p.end > paidThrough {
        RetainAll(kept.list, (q: Proposal) => q.end > paidThrough);
        return true;
      }
      var list := Retain(kept.list, (q: Proposal) => q.end > paidThrough);
      ok := Store(Kept(Max(kept.droppedThrough, paidThrough), list), outcome);
    }

    /** `check_overlap`: the statuses of the overlapping proposals, and the
        first one that eCash can still pay. */
    method CheckOverlap(chain: seq<Block>, start: u64, end: u64, m6id: Option<Txid>)
      returns (r: Outcome<PegError>)
      requires 0 < |chain| <= U32_MAX + 1
      ensures r.Pass? <==> RangeIsFree(kept, chain, start, end, m6id)
    {
      if start < kept.droppedThrough { return Fail(BelowDropped(start, kept.droppedThrough)); }
      var overlaps := OverlappingProposals(kept.list, start, end, m6id);
      var statuses := [];
      for i := 0 to |overlaps|
        invariant |statuses| == i
        invariant forall k :: 0 <= k < i ==>
          && overlaps[k].sealedHeight <= U32_MAX
          && statuses[k] == StatusAt(chain, overlaps[k].sealedHeight, overlaps[k].m6id)
      {
        if overlaps[i].sealedHeight > U32_MAX {
          assert overlaps[i] in overlaps;
          return Fail(HeightTooLarge(overlaps[i].sealedHeight));
        }
        var status := ReadBundleStatus(EventsAfter(chain, overlaps[i].sealedHeight), overlaps[i].m6id);
        statuses := statuses + [status];
      }
      var blocking := Blocking(overlaps, statuses, TipHeight(chain));
      if blocking.Some? {
        assert overlaps[blocking.value] in overlaps;
        return Fail(Overlapping(overlaps[blocking.value].m6id));
      }
      return Pass;
    }
  }

  /** The first proposal that has not ended. */
  method Blocking(overlaps: seq<Proposal>, statuses: seq<BundleStatus>, tipHeight: int) returns (at: Option<nat>)
    requires |overlaps| == |statuses|
    ensures match at
            case None => forall k :: 0 <= k < |overlaps| ==> Ended(overlaps[k], statuses[k], tipHeight)
            case Some(i) =>
              && i < |overlaps| && !Ended(overlaps[i], statuses[i], tipHeight)
              && forall k :: 0 <= k < i ==> Ended(overlaps[k], statuses[k], tipHeight)
  {
    for i := 0 to |overlaps|
      invariant forall k :: 0 <= k < i ==> Ended(overlaps[k], statuses[k], tipHeight)
    {
      if !Ended(overlaps[i], statuses[i], tipHeight) { return Some(i); }
    }
    return None;
  }
}
