/** The count of the fees of the confirmed blocks (`FeeMeter`,
    daemon/src/bmm.rs). */
module FeeMeter {
  import opened Prelude

  type Hash = nat

  const METER_SLOTS: u64 := 2_000
  const METER_BACKLOG: u64 := 20_000

  /** A running total. Totals of two generations do not compare. */
  datatype Earned = Earned(generation: nat, total: u64)

  datatype BlockFees = BlockFees(hash: Hash, previous: Hash, fees: u64)

  /** The block that the next counted one must name as its parent. */
  datatype Last = Last(slot: u64, hash: Hash)

  /** The whole state of a meter. A read carries it as its mark. */
  datatype Mark = Mark(nextSlot: Option<u64>, last: Option<Last>, gap: bool, earned: Earned)

  /** A block of a read, or `None` for one that the ledger does not hold. */
  datatype Slot = Slot(slot: u64, block: Option<BlockFees>)

  datatype Scan = Scan(blocks: seq<Slot>, covered: Option<u64>)

  datatype Planned = Planned(start: u64, end: u64, mark: Mark)

  function Restarted(m: Mark, slot: u64): Mark {
    Mark(Some(SaturatingAdd(slot, 1)), None, false, Earned(m.earned.generation + 1, m.earned.total))
  }

  function PlanOf(m: Mark, slot: u64): (Mark, Option<Planned>) {
    if m.nextSlot.None? then (m.(nextSlot := Some(SaturatingAdd(slot, 1))), None)
    else if m.last.Some? && m.last.value.slot > slot then (Restarted(m, slot), None)
    else if slot < m.nextSlot.value then (m, None)
    else
      var start := Max(m.nextSlot.value, SaturatingSub(slot, METER_BACKLOG - 1));
      (m, Some(Planned(start, Min(slot, start + METER_SLOTS - 1), m)))
  }

  /** The blocks of the scan up to its covered slot. */
  function CoveredSlots(blocks: seq<Slot>, covered: u64): seq<Slot> {
    if blocks == [] then []
    else
      var front, last := CoveredSlots(blocks[..|blocks| - 1], covered), blocks[|blocks| - 1];
      if last.slot <= covered then front + [last] else front
  }

  /** How far the count got: the newest counted block, whether the block after
      it is missing, and the fees. `None` once a block did not link. */
  datatype Count = Count(last: Option<Last>, gap: bool, fees: u64)

  function CountOne(c: Count, s: Slot): Option<Count> {
    match s.block
    case None => Some(c.(gap := c.last.Some?))
    case Some(block) =>
      if c.last.Some? && (c.gap || c.last.value.hash != block.previous) then None
      else Some(Count(Some(Last(s.slot, block.hash)), false, SaturatingAdd(c.fees, block.fees)))
  }

  function CountAll(c: Count, blocks: seq<Slot>): Option<Count> {
    if blocks == [] then Some(c)
    else
      var front :- CountAll(c, blocks[..|blocks| - 1]);
      CountOne(front, blocks[|blocks| - 1])
  }

  function Applied(m: Mark, mark: Mark, scan: Scan, confirmed: u64): Mark {
    if m != mark || scan.covered.None? then m
    else
      var covered := scan.covered.value;
      match CountAll(Count(m.last, m.gap, 0), CoveredSlots(scan.blocks, covered))
      case None => Restarted(m, confirmed)
      case Some(c) =>
        Mark(Some(SaturatingAdd(covered, 1)), c.last, c.gap,
             m.earned.(total := SaturatingAdd(m.earned.total, c.fees)))
  }

  class FeeMeter {
    var nextSlot: Option<u64>
    var last: Option<Last>
    var gap: bool
    var earned: Earned

    constructor ()
      ensures MarkOf() == Mark(None, None, false, Earned(0, 0))
    {
      nextSlot, last, gap, earned := None, None, false, Earned(0, 0);
    }

    function MarkOf(): Mark
      reads this
    {
      Mark(nextSlot, last, gap, earned)
    }

    method Restart(slot: u64)
      modifies this
      ensures MarkOf() == Restarted(old(MarkOf()), slot)
    {
      nextSlot := Some(SaturatingAdd(slot, 1));
      last := None;
      gap := false;
      earned := Earned(earned.generation + 1, earned.total);
    }

    method Plan(slot: u64) returns (r: Option<Planned>)
      modifies this
      ensures (MarkOf(), r) == PlanOf(old(MarkOf()), slot)
    {
      if nextSlot.None? {
        nextSlot := Some(SaturatingAdd(slot, 1));
        return None;
      }
      if last.Some? && last.value.slot > slot {
        Restart(slot);
        return None;
      }
      if slot < nextSlot.value { return None; }
      var start := Max(nextSlot.value, SaturatingSub(slot, METER_BACKLOG - 1));
      return Some(Planned(start, Min(slot, start + METER_SLOTS - 1), MarkOf()));
    }

    method Apply(mark: Mark, scan: Scan, confirmed: u64) returns (r: Earned)
      modifies this
      ensures MarkOf() == Applied(old(MarkOf()), mark, scan, confirmed) && r == earned
    {
      if MarkOf() != mark || scan.covered.None? { return earned; }
      var covered := scan.covered.value;
      var fees: u64 := 0;
      var newest, hidden := last, gap;
      var blocks := CoveredSlots(scan.blocks, covered);
      ghost var start := Count(last, gap, 0);
      assert blocks[..0] == [];
      for i := 0 to |blocks|
        invariant MarkOf() == old(MarkOf())
        invariant CountAll(start, blocks[..i]) == Some(Count(newest, hidden, fees))
      {
        assert blocks[..i + 1][..i] == blocks[..i];
        if blocks[i].block.None? {
          hidden := newest.Some?;
        } else {
          var block := blocks[i].block.value;
          var linked := newest.None? || (!hidden && newest.value.hash == block.previous);
          if !linked {
            StopsThere(start, blocks, i + 1);
            Restart(confirmed);
            return earned;
          }
          fees := SaturatingAdd(fees, block.fees);
          hidden := false;
          newest := Some(Last(blocks[i].slot, block.hash));
        }
      }
      assert blocks[..|blocks|] == blocks;
      nextSlot := Some(SaturatingAdd(covered, 1));
      last := newest;
      gap := hidden;
      earned := earned.(total := SaturatingAdd(earned.total, fees));
      return earned;
    }
  }

  /** Once a block does not link, the whole scan does not count. */
  lemma {:induction false} StopsThere(c: Count, blocks: seq<Slot>, n: nat)
    requires n <= |blocks| && CountAll(c, blocks[..n]) == None
    ensures CountAll(c, blocks) == None
  {
    if n < |blocks| {
      assert blocks[..|blocks| - 1][..n] == blocks[..n];
      StopsThere(c, blocks[..|blocks| - 1], n);
    } else {
      assert blocks[..n] == blocks;
    }
  }

  /** A plan reads the next slots in a row: from the first unread one, but none
      more than a backlog behind, up to the confirmed slot, and at most as many
      as one read takes. There is a plan exactly when some slot is unread and the
      validator did not go back. */
  lemma {:induction false} PlanTakesTheNextSlots(m: Mark, slot: u64, x: int)
    ensures PlanOf(m, slot).1.Some? <==>
              m.nextSlot.Some? && m.nextSlot.value <= slot && (m.last.Some? ==> m.last.value.slot <= slot)
    ensures PlanOf(m, slot).1.Some? ==>
              var p, oldest := PlanOf(m, slot).1.value, Max(m.nextSlot.value, slot - 19_999);
              && p.mark == m
              && (p.start <= x <= p.end <==> oldest <= x <= slot && x < oldest + 2_000)
  {
  }

  // ------------------------------------------------------- what a scan counts

  datatype Counted = Counted(slot: u64, block: BlockFees)

  ghost function Present(blocks: seq<Slot>): seq<Counted> {
    if blocks == [] then []
    else
      var front, last := Present(blocks[..|blocks| - 1]), blocks[|blocks| - 1];
      if last.block.Some? then front + [Counted(last.slot, last.block.value)] else front
  }

  ghost function SumFees(counted: seq<Counted>): nat {
    if counted == [] then 0 else SumFees(counted[..|counted| - 1]) + counted[|counted| - 1].block.fees
  }

  /** The block at `i`, if the ledger holds it, names the counted block right
      before it as its parent, and no missing block is in between. The first
      block of a generation has none before it. */
  ghost predicate LinksAt(c: Count, blocks: seq<Slot>, i: nat)
    requires i < |blocks|
  {
    blocks[i].block.Some? ==>
      var previous := blocks[i].block.value.previous;
      if i == 0 then c.last.None? || (!c.gap && c.last.value.hash == previous)
      else if blocks[i - 1].block.Some? then blocks[i - 1].block.value.hash == previous
      else c.last.None? && Present(blocks[..i]) == []
  }

  ghost predicate AllLink(c: Count, blocks: seq<Slot>) {
    forall i :: 0 <= i < |blocks| ==> LinksAt(c, blocks, i)
  }

  /** What is left after the count of `blocks`, if they all link. */
  ghost predicate CountsTo(c: Count, blocks: seq<Slot>, end: Count) {
    var present := Present(blocks);
    && end.last == (if present == [] then c.last
                    else Some(Last(present[|present| - 1].slot, present[|present| - 1].block.hash)))
    && end.fees == Min(c.fees + SumFees(present), U64_MAX)
    && (if blocks == [] then end.gap == c.gap
        else end.gap == (blocks[|blocks| - 1].block.None? && end.last.Some?))
  }

  lemma {:induction false} SumFeesAppend(counted: seq<Counted>, x: Counted)
    ensures SumFees(counted + [x]) == SumFees(counted) + x.block.fees
  {
    assert (counted + [x])[..|counted|] == counted;
  }

  /** A scan counts if and only if each of its blocks links, and then it adds
      exactly the fees of the blocks that the ledger holds. */
  lemma {:induction false} ScanCountsIff(c: Count, blocks: seq<Slot>)
    requires c.gap ==> c.last.Some?
    ensures CountAll(c, blocks).Some? <==> AllLink(c, blocks)
    ensures CountAll(c, blocks).Some? ==> CountsTo(c, blocks, CountAll(c, blocks).value)
  {
    if blocks != [] {
      var n := |blocks| - 1;
      var front := blocks[..n];
      ScanCountsIff(c, front);
      forall i | 0 <= i < n ensures LinksAt(c, blocks, i) <==> LinksAt(c, front, i) {
        assert front[..i] == blocks[..i];
      }
      if CountAll(c, front).Some? {
        CountsOneMore(c, blocks, CountAll(c, front).value);
      }
      hide LinksAt; hide CountsTo; hide CountOne;
    }
  }

  lemma {:induction false} PresentStep(blocks: seq<Slot>)
    requires blocks != []
    ensures var front, last := Present(blocks[..|blocks| - 1]), blocks[|blocks| - 1];
            Present(blocks) == if last.block.Some? then front + [Counted(last.slot, last.block.value)] else front
    ensures |blocks| == 1 ==> Present(blocks[..|blocks| - 1]) == []
  {
  }

  lemma {:induction false} CountsOneMore(c: Count, blocks: seq<Slot>, mid: Count)
    requires blocks != [] && (c.gap ==> c.last.Some?) && CountsTo(c, blocks[..|blocks| - 1], mid)
    ensures CountOne(mid, blocks[|blocks| - 1]).Some? <==> LinksAt(c, blocks, |blocks| - 1)
    ensures CountOne(mid, blocks[|blocks| - 1]).Some? ==>
              CountsTo(c, blocks, CountOne(mid, blocks[|blocks| - 1]).value)
  {
    hide Present; hide SumFees;
    var n := |blocks| - 1;
    var last := blocks[n];
    PresentStep(blocks);
    if last.block.Some? {
      SumFeesAppend(Present(blocks[..n]), Counted(last.slot, last.block.value));
    }
    if n > 0 {
      PresentStep(blocks[..n]);
    }
  }

  // ------------------------------------------------------------------ the runs

  /** `counted`: the blocks of the generation so far. `base`: its first total.
      `planned`: every read that was ever planned, finished or not. */
  datatype System = System(m: Mark, planned: set<Planned>, counted: seq<Counted>, base: u64)

  datatype Step = PlanRead(slot: u64) | Finish(read: Planned, scan: Scan, confirmed: u64)

  ghost predicate Ascending(blocks: seq<Slot>) {
    forall i, j :: 0 <= i < j < |blocks| ==> blocks[i].slot < blocks[j].slot
  }

  /** What a read gives: slots in order and inside its range. */
  ghost predicate ReadFits(p: Planned, scan: Scan) {
    && Ascending(scan.blocks)
    && (forall i :: 0 <= i < |scan.blocks| ==> p.start <= scan.blocks[i].slot <= p.end)
    && (scan.covered.Some? ==> p.start <= scan.covered.value <= p.end < U64_MAX)
  }

  ghost function Next(s: System, step: Step): System {
    match step
    case PlanRead(slot) =>
      var (m, read) := PlanOf(s.m, slot);
      var planned := if read.Some? then s.planned + {read.value} else s.planned;
      if m.earned.generation == s.m.earned.generation then s.(m := m, planned := planned)
      else System(m, planned, [], m.earned.total)
    case Finish(read, scan, confirmed) =>
      if read in s.planned && ReadFits(read, scan) then
        var m := Applied(s.m, read.mark, scan, confirmed);
        if m == s.m then s
        else if m.earned.generation == s.m.earned.generation then
          s.(m := m, counted := s.counted + Present(CoveredSlots(scan.blocks, scan.covered.value)))
        else System(m, s.planned, [], m.earned.total)
      else s
  }

  ghost function Run(s: System, steps: seq<Step>): System {
    if steps == [] then s else Next(Run(s, steps[..|steps| - 1]), steps[|steps| - 1])
  }

  ghost predicate Follows(a: Counted, b: Counted) {
    b.block.previous == a.block.hash && a.slot < b.slot
  }

  ghost predicate Chained(counted: seq<Counted>) {
    forall i :: 0 < i < |counted| ==> Follows(counted[i - 1], counted[i])
  }

  /** The slots from `low` to `high`, in order. */
  ghost predicate Between(counted: seq<Counted>, low: int, high: int) {
    && (forall i :: 0 <= i < |counted| ==> low <= counted[i].slot <= high)
    && (forall i, j :: 0 <= i < j < |counted| ==> counted[i].slot < counted[j].slot)
  }

  ghost predicate Inv(s: System) {
    && Chained(s.counted)
    && Between(s.counted, 0, if s.m.nextSlot.Some? then s.m.nextSlot.value - 1 else -1)
    && s.m.last == (if s.counted == [] then None
                    else Some(Last(s.counted[|s.counted| - 1].slot, s.counted[|s.counted| - 1].block.hash)))
    && (s.m.gap ==> s.m.last.Some?)
    && s.m.earned.total == Min(s.base + SumFees(s.counted), U64_MAX)
    && forall p :: p in s.planned ==> p.mark.nextSlot.Some? && p.mark.nextSlot.value <= p.start
  }

  /** The count takes every block of the scan up to the covered slot, and none
      above it. */
  lemma {:induction false} CoveredIsAPrefix(blocks: seq<Slot>, covered: u64, n: nat)
    requires Ascending(blocks) && n <= |blocks|
    requires (n > 0 ==> blocks[n - 1].slot <= covered) && (n < |blocks| ==> covered < blocks[n].slot)
    ensures CoveredSlots(blocks, covered) == blocks[..n]
  {
    if blocks != [] {
      var m := |blocks| - 1;
      if n == |blocks| {
        if m > 0 { assert blocks[m - 1].slot < blocks[m].slot; }
        CoveredIsAPrefix(blocks[..m], covered, m);
        assert blocks[..m] + [blocks[m]] == blocks[..n];
      } else {
        CoveredIsAPrefix(blocks[..m], covered, n);
        assert blocks[..m][..n] == blocks[..n];
        assert blocks[n].slot <= blocks[m].slot;
      }
    }
  }

  /** The covered part of a scan is ascending, at or below the covered slot. */
  lemma {:induction false} CoveredAre(blocks: seq<Slot>, covered: u64, low: int)
    requires Ascending(blocks) && forall i :: 0 <= i < |blocks| ==> low <= blocks[i].slot
    ensures var part := CoveredSlots(blocks, covered);
            && Ascending(part)
            && (forall i :: 0 <= i < |part| ==> low <= part[i].slot <= covered)
            && (forall i :: 0 <= i < |part| ==> blocks != [] && part[i].slot <= blocks[|blocks| - 1].slot)
  {
    if blocks != [] {
      var n := |blocks| - 1;
      CoveredAre(blocks[..n], covered, low);
    }
  }

  lemma {:induction false} PresentAre(blocks: seq<Slot>, low: int, high: int)
    requires Ascending(blocks) && forall i :: 0 <= i < |blocks| ==> low <= blocks[i].slot <= high
    ensures Between(Present(blocks), low, high)
    ensures forall i :: 0 <= i < |Present(blocks)| ==>
              blocks != [] && Present(blocks)[i].slot <= blocks[|blocks| - 1].slot
  {
    if blocks != [] {
      PresentStep(blocks);
      hide Present;
      PresentAre(blocks[..|blocks| - 1], low, high);
    }
  }

  lemma {:induction false} BetweenMore(a: seq<Counted>, b: seq<Counted>, low: int, mid: int, high: int)
    requires Between(a, low, mid - 1) && Between(b, mid, high) && low <= mid <= high + 1
    ensures Between(a + b, low, high)
  {
  }

  lemma {:induction false} FrontLinks(c: Count, blocks: seq<Slot>, front: seq<Slot>)
    requires front <= blocks && AllLink(c, blocks)
    ensures AllLink(c, front)
  {
    hide Present;
    forall i | 0 <= i < |front| ensures LinksAt(c, front, i) {
      assert LinksAt(c, blocks, i) && front[..i] == blocks[..i];
    }
  }

  /** The blocks of a scan that counts go on from the counted ones. */
  lemma {:induction false} ChainGoesOn(counted: seq<Counted>, c: Count, blocks: seq<Slot>, low: int, mid: int, high: int)
    requires Chained(counted) && Between(counted, low, mid - 1) && low <= mid <= high + 1
    requires c.last == if counted == [] then None
                       else Some(Last(counted[|counted| - 1].slot, counted[|counted| - 1].block.hash))
    requires Ascending(blocks) && forall i :: 0 <= i < |blocks| ==> mid <= blocks[i].slot <= high
    requires AllLink(c, blocks)
    ensures Chained(counted + Present(blocks))
  {
    hide Chained; hide Between; hide AllLink; hide LinksAt;
    if blocks == [] {
      assert counted + Present(blocks) == counted;
    } else {
      hide Present;
      var front := blocks[..|blocks| - 1];
      FrontLinks(c, blocks, front);
      ChainGoesOn(counted, c, front, low, mid, high);
      OneMoreLink(counted, c, blocks, low, mid, high);
    }
  }

  lemma {:induction false} OneMoreLink(counted: seq<Counted>, c: Count, blocks: seq<Slot>, low: int, mid: int, high: int)
    requires blocks != [] && AllLink(c, blocks) && Chained(counted + Present(blocks[..|blocks| - 1]))
    requires Between(counted, low, mid - 1) && low <= mid <= high + 1
    requires c.last == if counted == [] then None
                       else Some(Last(counted[|counted| - 1].slot, counted[|counted| - 1].block.hash))
    requires Ascending(blocks) && forall i :: 0 <= i < |blocks| ==> mid <= blocks[i].slot <= high
    ensures Chained(counted + Present(blocks))
  {
    hide Chained; hide Between; hide Present; hide LinksAt;
    var last := blocks[|blocks| - 1];
    var before := counted + Present(blocks[..|blocks| - 1]);
    PresentStep(blocks);
    if last.block.Some? {
      var x := Counted(last.slot, last.block.value);
      assert LinksAt(c, blocks, |blocks| - 1);
      LastLinks(counted, c, blocks);
      PresentAre(blocks, mid, high);
      BetweenMore(counted, Present(blocks), low, mid, high);
      assert counted + Present(blocks) == before + [x];
      ChainedMore(before, x, before + [x], low, high);
    }
  }

  lemma {:induction false} ChainedMore(before: seq<Counted>, x: Counted, more: seq<Counted>, low: int, high: int)
    requires more == before + [x] && Chained(before) && Between(more, low, high)
    requires before != [] ==> x.block.previous == before[|before| - 1].block.hash
    ensures Chained(more)
  {
    forall i | 0 < i < |more| ensures Follows(more[i - 1], more[i]) {
      assert more[i - 1].slot < more[i].slot;
      if i < |before| { assert Follows(before[i - 1], before[i]); }
    }
  }

  lemma {:induction false} LastLinks(counted: seq<Counted>, c: Count, blocks: seq<Slot>)
    requires blocks != [] && blocks[|blocks| - 1].block.Some? && LinksAt(c, blocks, |blocks| - 1)
    requires c.last == if counted == [] then None
                       else Some(Last(counted[|counted| - 1].slot, counted[|counted| - 1].block.hash))
    ensures var before := counted + Present(blocks[..|blocks| - 1]);
            before != [] ==> blocks[|blocks| - 1].block.value.previous == before[|before| - 1].block.hash
  {
    var n := |blocks| - 1;
    if n > 0 && blocks[n - 1].block.Some? {
      assert Present(blocks[..n]) == Present(blocks[..n][..n - 1]) + [Counted(blocks[n - 1].slot, blocks[n - 1].block.value)];
    }
    if n == 0 { assert blocks[..n] == []; }
  }

  // ---------------------------------------------------------- each step keeps it

  lemma {:induction false} PlanKeeps(s: System, step: Step)
    requires Inv(s) && step.PlanRead?
    ensures Inv(Next(s, step))
  {
    hide SumFees; hide Chained;
    if PlanOf(s.m, step.slot).0.earned.generation != s.m.earned.generation {
      NothingCounted(Next(s, step));
    }
  }

  lemma {:induction false} NothingCounted(s: System)
    requires s.counted == [] && s.m.last.None? && !s.m.gap && s.m.earned.total == s.base && s.m.nextSlot.Some?
    requires forall p :: p in s.planned ==> p.mark.nextSlot.Some? && p.mark.nextSlot.value <= p.start
    ensures Inv(s)
  {
  }

  lemma {:induction false} SumFeesSplit(a: seq<Counted>, b: seq<Counted>)
    ensures SumFees(a + b) == SumFees(a) + SumFees(b)
  {
    if b == [] {
      assert a + b == a;
    } else {
      SumFeesSplit(a, b[..|b| - 1]);
      assert (a + b)[..|a + b| - 1] == a + b[..|b| - 1];
    }
  }

  /** A read that counts extends the chain of its generation by its blocks. */
  lemma {:induction false} CountKeeps(s: System, read: Planned, scan: Scan, c: Count)
    requires Inv(s) && read in s.planned && s.m == read.mark && ReadFits(read, scan) && scan.covered.Some?
    requires CountAll(Count(s.m.last, s.m.gap, 0), CoveredSlots(scan.blocks, scan.covered.value)) == Some(c)
    ensures var blocks := CoveredSlots(scan.blocks, scan.covered.value);
            var m := Mark(Some(SaturatingAdd(scan.covered.value, 1)), c.last, c.gap,
                          s.m.earned.(total := SaturatingAdd(s.m.earned.total, c.fees)));
            Inv(s.(m := m, counted := s.counted + Present(blocks)))
  {
    var covered := scan.covered.value;
    var blocks := CoveredSlots(scan.blocks, covered);
    var start := Count(s.m.last, s.m.gap, 0);
    var next := s.m.nextSlot.value;
    CoveredAre(scan.blocks, covered, next);
    ScanCountsIff(start, blocks);
    hide CoveredSlots; hide CountAll;
    ChainGoesOn(s.counted, start, blocks, 0, next, covered);
    PresentAre(blocks, next, covered);
    BetweenMore(s.counted, Present(blocks), 0, next, covered);
    hide AllLink; hide Ascending; hide Present; hide ReadFits;
    LongerChain(s, blocks, covered, c);
  }

  lemma {:induction false} LongerChain(s: System, blocks: seq<Slot>, covered: u64, c: Count)
    requires Inv(s) && covered < U64_MAX && CountsTo(Count(s.m.last, s.m.gap, 0), blocks, c)
    requires Chained(s.counted + Present(blocks)) && Between(s.counted + Present(blocks), 0, covered)
    ensures Inv(s.(m := Mark(Some(SaturatingAdd(covered, 1)), c.last, c.gap,
                             s.m.earned.(total := SaturatingAdd(s.m.earned.total, c.fees))),
                   counted := s.counted + Present(blocks)))
  {
    SumFeesSplit(s.counted, Present(blocks));
    hide SumFees; hide Chained; hide Between; hide Present;
  }

  lemma {:induction false} FinishKeeps(s: System, step: Step)
    requires Inv(s) && step.Finish?
    ensures Inv(Next(s, step))
  {
    if step.read in s.planned && ReadFits(step.read, step.scan) && s.m == step.read.mark && step.scan.covered.Some? {
      var counted := CountAll(Count(s.m.last, s.m.gap, 0), CoveredSlots(step.scan.blocks, step.scan.covered.value));
      if counted.Some? {
        CountKeeps(s, step.read, step.scan, counted.value);
        NextMovesOn(s, step, counted.value);
      } else {
        hide ReadFits; hide CountAll; hide Inv;
        assert Next(s, step).m == Restarted(s.m, step.confirmed);
        KeepsPlanned(s);
        NothingCounted(Next(s, step));
      }
    }
  }

  lemma {:induction false} KeepsPlanned(s: System)
    requires Inv(s)
    ensures forall p :: p in s.planned ==> p.mark.nextSlot.Some? && p.mark.nextSlot.value <= p.start
  {
  }

  lemma {:induction false} NextMovesOn(s: System, step: Step, c: Count)
    requires Inv(s) && step.Finish? && step.read in s.planned && ReadFits(step.read, step.scan)
    requires s.m == step.read.mark && step.scan.covered.Some?
    requires CountAll(Count(s.m.last, s.m.gap, 0), CoveredSlots(step.scan.blocks, step.scan.covered.value)) == Some(c)
    ensures var blocks := CoveredSlots(step.scan.blocks, step.scan.covered.value);
            Next(s, step) == s.(m := Mark(Some(SaturatingAdd(step.scan.covered.value, 1)), c.last, c.gap,
                                          s.m.earned.(total := SaturatingAdd(s.m.earned.total, c.fees))),
                                counted := s.counted + Present(blocks))
  {
    hide Inv; hide CountAll; hide CoveredSlots; hide Ascending;
    KeepsPlanned(s);
  }

  ghost predicate Fresh(s: System) {
    s == System(Mark(None, None, false, Earned(0, 0)), {}, [], 0)
  }

  /** After every interleaving of plans and reads, stale ones too: the blocks
      that the generation counted are one parent-linked chain with strictly
      increasing slots, so none counts twice, and the total grew by exactly
      their fees, up to the top of a u64. */
  lemma {:induction false} GenerationIsOneChain(start: System, steps: seq<Step>)
    requires Fresh(start)
    ensures Inv(Run(start, steps))
  {
    if steps == [] {
    } else {
      var before := Run(start, steps[..|steps| - 1]);
      GenerationIsOneChain(start, steps[..|steps| - 1]);
      hide Inv; hide Next;
      match steps[|steps| - 1]
      case PlanRead(_) => PlanKeeps(before, steps[|steps| - 1]);
      case Finish(_, _, _) => FinishKeeps(before, steps[|steps| - 1]);
    }
  }

  /** A new generation starts exactly when the confirmed slot falls below the
      newest counted block, or when a read from the present state holds a block
      that does not link. */
  lemma {:induction false} NewGenerationIff(s: System, step: Step)
    requires Inv(s)
    ensures Next(s, step).m.earned.generation != s.m.earned.generation <==>
              match step
              case PlanRead(slot) => s.m.last.Some? && slot < s.m.last.value.slot
              case Finish(read, scan, _) =>
                && read in s.planned && ReadFits(read, scan) && scan.covered.Some? && read.mark == s.m
                && var blocks := CoveredSlots(scan.blocks, scan.covered.value);
                   !AllLink(Count(s.m.last, s.m.gap, 0), blocks)
    ensures Next(s, step).m.earned.generation in {s.m.earned.generation, s.m.earned.generation + 1}
  {
    match step
    case PlanRead(slot) =>
      hide SumFees; hide Chained;
      assert s.m.last.Some? ==> s.m.nextSlot.Some? by {
        if s.counted != [] { assert s.counted[0].slot >= 0; }
      }
    case Finish(read, scan, confirmed) =>
      if scan.covered.Some? {
        ScanCountsIff(Count(s.m.last, s.m.gap, 0), CoveredSlots(scan.blocks, scan.covered.value));
      }
      hide Inv; hide CountAll; hide AllLink; hide CoveredSlots; hide ReadFits; hide CountsTo;
  }

  /** The next plan after a read that counts goes on right behind it: the slots
      of the reads of a generation have no gap, unless a backlog was skipped. */
  lemma {:induction false} ReadsAreAdjacent(s: System, step: Step, slot: u64)
    requires Inv(s) && step.Finish? && step.read in s.planned && ReadFits(step.read, step.scan)
    requires step.read.mark == s.m && step.scan.covered.Some?
    requires AllLink(Count(s.m.last, s.m.gap, 0), CoveredSlots(step.scan.blocks, step.scan.covered.value))
    requires step.scan.covered.value < slot <= step.scan.covered.value + 20_000
    ensures var plan := PlanOf(Next(s, step).m, slot).1;
            plan.Some? && plan.value.start == step.scan.covered.value + 1
  {
    var blocks, covered := CoveredSlots(step.scan.blocks, step.scan.covered.value), step.scan.covered.value;
    var start := Count(s.m.last, s.m.gap, 0);
    ScanCountsIff(start, blocks);
    NextMovesOn(s, step, CountAll(start, blocks).value);
    CoveredAre(step.scan.blocks, covered, step.read.start);
    LastIsCovered(start, blocks, covered, CountAll(start, blocks).value);
    assert s.m.last.Some? ==> s.m.last.value.slot <= covered by {
      hide Chained; hide SumFees;
      if s.counted != [] { assert s.counted[|s.counted| - 1].slot <= s.m.nextSlot.value - 1; }
    }
    hide Next; hide CountAll; hide CoveredSlots; hide AllLink; hide ReadFits; hide Inv; hide CountsTo;
  }

  /** A new meter, and a new generation, read on right behind the confirmed slot
      that they started at. */
  lemma {:induction false} StartsBehindTheConfirmed(s: System, step: Step, slot: u64)
    requires s.m.nextSlot.None? || Next(s, step).m.earned.generation != s.m.earned.generation
    requires s.m.nextSlot.None? ==> step.PlanRead? && s.m.last.None?
    requires var at := if step.PlanRead? then step.slot else step.confirmed; at < slot <= at + 20_000
    ensures var plan := PlanOf(Next(s, step).m, slot).1;
            plan.Some? && plan.value.start == (if step.PlanRead? then step.slot else step.confirmed) + 1
  {
    hide CountAll; hide CoveredSlots; hide ReadFits;
  }

  lemma {:induction false} LastIsCovered(c: Count, blocks: seq<Slot>, covered: u64, end: Count)
    requires CountsTo(c, blocks, end) && forall i :: 0 <= i < |blocks| ==> 0 <= blocks[i].slot <= covered
    requires Ascending(blocks)
    ensures end.last.Some? ==> end.last == c.last || end.last.value.slot <= covered
  {
    PresentAre(blocks, 0, covered);
    hide SumFees; hide Present;
  }

  // -------------------------------------------------------------- stale marks

  function NextOf(m: Mark): int { if m.nextSlot.Some? then m.nextSlot.value else -1 }

  /** `n` comes later: a later generation, or further slots in the same one. */
  ghost predicate Later(m: Mark, n: Mark) {
    || m.earned.generation < n.earned.generation
    || (m.earned.generation == n.earned.generation && NextOf(m) < NextOf(n))
  }

  lemma {:induction false} StepMovesOn(s: System, step: Step)
    requires Inv(s)
    ensures Next(s, step).m == s.m || Later(s.m, Next(s, step).m)
    ensures s.m.earned.total <= Next(s, step).m.earned.total
  {
    if step.PlanRead? {
      hide Inv;
    } else {
      hide SumFees; hide CountAll; hide Chained; hide CoveredSlots;
    }
  }

  lemma {:induction false} RunStep(start: System, steps: seq<Step>, front: seq<Step>, step: Step)
    requires steps == front + [step]
    ensures Run(start, steps) == Next(Run(start, front), step)
  {
    hide Next;
    assert steps[..|steps| - 1] == front;
  }

  lemma {:induction false} RunStepMoves(start: System, steps: seq<Step>, front: seq<Step>, step: Step)
    requires Fresh(start) && steps == front + [step]
    ensures var m, n := Run(start, front).m, Run(start, steps).m;
            (m == n || Later(m, n)) && m.earned.total <= n.earned.total
  {
    hide Run; hide Next; hide Inv; hide Later; hide Fresh;
    RunStep(start, steps, front, step);
    GenerationIsOneChain(start, front);
    StepMovesOn(Run(start, front), step);
  }

  lemma {:induction false} RunMovesOn(start: System, before: seq<Step>, more: seq<Step>)
    requires Fresh(start)
    ensures var m, n := Run(start, before).m, Run(start, before + more).m;
            (m == n || Later(m, n)) && m.earned.total <= n.earned.total
  {
    hide Inv; hide Next; hide Run; hide Fresh;
    if more == [] {
      assert before + more == before;
    } else {
      var front := more[..|more| - 1];
      RunMovesOn(start, before, front);
      assert before + more == before + front + [more[|more| - 1]];
      RunStepMoves(start, before + more, before + front, more[|more| - 1]);
    }
  }

  /** A mark counts at most once: after a read moved the meter on, every read
      with the same mark changes nothing, at whatever later time it ends. */
  lemma {:induction false} StaleMarkChangesNothing(
    start: System, before: seq<Step>, step: Step, more: seq<Step>, scan: Scan, confirmed: u64)
    requires Fresh(start) && step.Finish?
    requires Run(start, before + [step]).m != Run(start, before).m
    ensures var late := Run(start, before + [step] + more).m;
            Applied(late, step.read.mark, scan, confirmed) == late
  {
    var at := Run(start, before);
    assert (before + [step])[..|before|] == before;
    GenerationIsOneChain(start, before);
    StepMovesOn(at, step);
    assert at.m == step.read.mark;
    RunMovesOn(start, before + [step], more);
    hide Run; hide Inv;
  }
}
