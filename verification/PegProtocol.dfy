/** The hand-off protocol of the peg daemon: the pass of daemon/src/peg.rs and
    the file of daemon/src/proposals.rs, beside an eCash chain that reorgs and
    a Solana chain that can roll back below its root. */
module PegProtocol {
  import opened Prelude
  import opened ECash
  import opened M6
  import opened Peg
  import opened Proposals

  /** The range of a bundle and the start of its eCash history. */
  datatype Seal = Seal(start: u64, end: u64, sealedHeight: u64)

  /** A bundle that the enforcer holds, with the eCash tip at its newest hand-off. */
  datatype Handed = Handed(seal: Seal, at: nat)

  /** Where the daemon stands inside a pass. `seen` is the tip that the pass
      read first. */
  datatype Phase =
    | Down
    | Idle
    | Checked(m6id: Txid, seal: Seal, seen: u32)
    | Journaled(m6id: Txid, seal: Seal, seen: u32)
    | HandedOff(m6id: Txid, seal: Seal, seen: u32)

  /** `dead`: the bundles whose failure was deep at some time since their
      newest hand-off. */
  datatype System = System(
    journal: Journal,
    phase: Phase,
    chain: seq<Block>,
    handed: map<Txid, Handed>,
    dead: set<Txid>)

  datatype Step =
    | Start(outcome: WriteOutcome)
    | Crash
    | Abort
    | Drop(paidThrough: u64, outcome: WriteOutcome)
    | Check(m6id: Txid, seal: Seal, seen: u32)
    | Record(outcome: WriteOutcome)
    | HandOff(taken: bool, answered: bool)
    | Confirm(outcome: WriteOutcome)
    | Move(chain: seq<Block>)

  function Tip(s: System): nat { TipHeight(s.chain) }

  // -------------------------------------------------------- the eCash chain

  ghost predicate Overlaps(a: Seal, b: Seal) { Overlap(a.start, a.end, b.start, b.end) }

  /** The newest event of the bundle is a failure after `at`, deep enough. */
  ghost predicate DeepFailed(chain: seq<Block>, m6id: Txid, at: nat) {
    var status := BundleStatusOf(EventsOf(chain), m6id);
    status.HasFailed? && status.height > at && TipHeight(chain) - status.height + 1 >= FAILURE_CONFIRMATIONS
  }

  ghost predicate PaidOn(chain: seq<Block>, m6id: Txid) {
    exists b :: b in chain && Succeeded(m6id) in b.bundles
  }

  /** No event of the bundle stands at or below its seal. */
  ghost predicate EventsAfterSeal(chain: seq<Block>, m6id: Txid, sealedHeight: nat) {
    Story(EventsOf(chain[..Min(sealedHeight + 1, |chain|)]), m6id) == []
  }

  ghost predicate Heights(chain: seq<Block>) {
    0 < |chain| <= U32_MAX && forall h :: 0 <= h < |chain| ==> chain[h].height == h
  }

  /** What the enforcer and its KNOWN policy keep: eCash pays only bundles that
      were handed over, and never a dead one. */
  ghost predicate Honest(chain: seq<Block>, handed: map<Txid, Handed>, dead: set<Txid>) {
    && Heights(chain)
    && (forall id :: PaidOn(chain, id) ==> id in handed && id !in dead)
    && (forall id :: id in handed ==> EventsAfterSeal(chain, id, handed[id].seal.sealedHeight))
  }

  ghost function Dying(chain: seq<Block>, handed: map<Txid, Handed>): set<Txid> {
    set id | id in handed && DeepFailed(chain, id, handed[id].at)
  }

  // ------------------------------------------------------------------ steps

  function ProposalOf(m6id: Txid, seal: Seal, proposedAt: u32): Proposal {
    Proposal(seal.start, seal.end, m6id, seal.sealedHeight, proposedAt)
  }

  ghost predicate ListedAs(kept: Kept, m6id: Txid, seal: Seal) {
    forall p :: p in kept.list && p.m6id == m6id ==> p == ProposalOf(m6id, seal, p.proposedAt)
  }

  /** An M6ID keeps one range and one seal, wherever the daemon noted it. */
  ghost predicate SameSeal(s: System, m6id: Txid, seal: Seal) {
    && (m6id in s.handed ==> s.handed[m6id].seal == seal)
    && ListedAs(s.journal.kept, m6id, seal)
    && (s.journal.file.Some? ==> ListedAs(s.journal.file.value, m6id, seal))
  }

  /** A live bundle that the Solana root can show: its range holds records, and
      an M6ID always has the same range and the same seal. */
  ghost predicate Shows(s: System, m6id: Txid, seal: Seal) {
    && seal.start < seal.end
    && SameSeal(s, m6id, seal)
    && EventsAfterSeal(s.chain, m6id, seal.sealedHeight)
  }

  ghost function Next(s: System, step: Step): System {
    match step
    case Start(outcome) =>
      if !s.phase.Down? then s
      else
        var (journal, ok) := Persisted(Loaded(s.journal.file), outcome);
        s.(journal := journal, phase := if ok then Idle else Down)
    case Crash => s.(phase := Down)
    case Abort => if s.phase.Down? then s else s.(phase := Idle)
    case Drop(paidThrough, outcome) =>
      if !s.phase.Idle? then s else s.(journal := Dropped(s.journal, paidThrough, outcome).0)
    case Check(m6id, seal, seen) =>
      if s.phase.Idle? && Shows(s, m6id, seal)
         && RangeIsFree(s.journal.kept, s.chain, seal.start, seal.end, Some(m6id))
      then s.(phase := Checked(m6id, seal, seen))
      else s
    case Record(outcome) =>
      if !s.phase.Checked? then s
      else
        // No failure frees the range until the tip after the hand-off is known.
        var p := ProposalOf(s.phase.m6id, s.phase.seal, U32_MAX);
        var (journal, ok) := Stored(s.journal, WithProposal(s.journal.kept, p), outcome);
        s.(journal := journal, phase := if ok then Journaled(p.m6id, s.phase.seal, s.phase.seen) else Idle)
    case HandOff(taken, answered) =>
      if !s.phase.Journaled? || !Shows(s, s.phase.m6id, s.phase.seal) then s
      else
        var id := s.phase.m6id;
        var held := if taken || answered
                    then s.(handed := s.handed[id := Handed(s.phase.seal, Tip(s))], dead := s.dead - {id})
                    else s;
        held.(phase := if answered then HandedOff(id, s.phase.seal, s.phase.seen) else Idle)
    case Confirm(outcome) =>
      if !s.phase.HandedOff? || Tip(s) > U32_MAX then s
      else
        var p := ProposalOf(s.phase.m6id, s.phase.seal, Max(s.phase.seen, Tip(s)));
        s.(journal := Stored(s.journal, WithProposal(s.journal.kept, p), outcome).0, phase := Idle)
    case Move(chain) =>
      // The tip height does not fall during a hand-off.
      if Honest(chain, s.handed, s.dead) && (s.phase.HandedOff? ==> |chain| >= |s.chain|)
      then s.(chain := chain, dead := s.dead + Dying(chain, s.handed))
      else s
  }

  ghost function Run(s: System, steps: seq<Step>): System {
    if steps == [] then s else Next(Run(s, steps[..|steps| - 1]), steps[|steps| - 1])
  }

  /** A write either happens or does not, and the daemon knows which. */
  predicate AtomicWrite(step: Step) {
    match step
    case Start(outcome) => !outcome.WrittenButFailed?
    case Drop(_, outcome) => !outcome.WrittenButFailed?
    case Record(outcome) => !outcome.WrittenButFailed?
    case Confirm(outcome) => !outcome.WrittenButFailed?
    case _ => true
  }

  /** The store of a hand-off skips the write: the memory already holds the
      proposal. */
  ghost predicate Skips(s: System, step: Step) {
    && step.Record? && s.phase.Checked?
    && WithProposal(s.journal.kept, ProposalOf(s.phase.m6id, s.phase.seal, U32_MAX)) == s.journal.kept
  }

  /** A skip is safe when the file covers the hand-off at every tip. */
  ghost predicate SafeSkip(s: System, step: Step) {
    Skips(s, step) ==> FileCovers(s.journal, s.phase.m6id, s.phase.seal)
  }

  ghost predicate FileCovers(j: Journal, m6id: Txid, seal: Seal) {
    j.file.Some? && CoversOne(j.file.value, m6id, Handed(seal, U32_MAX))
  }

  ghost predicate SafeRun(s: System, steps: seq<Step>) {
    steps == []
    || (SafeRun(s, steps[..|steps| - 1]) && SafeSkip(Run(s, steps[..|steps| - 1]), steps[|steps| - 1]))
  }

  /** The first start of a daemon, with no file, beside a chain that knows no
      bundle of it. */
  ghost predicate Fresh(s: System) {
    && s.journal == Loaded(None)
    && s.phase == Down
    && s.handed == map[] && s.dead == {}
    && Honest(s.chain, map[], {})
  }

  // -------------------------------------------------------------- invariants

  ghost predicate Lists(kept: Kept, m6id: Txid, seal: Seal, at: nat) {
    exists p :: p in kept.list && p == ProposalOf(m6id, seal, p.proposedAt) && p.proposedAt >= at
  }

  ghost predicate CoversOne(kept: Kept, m6id: Txid, h: Handed) {
    h.seal.end <= kept.droppedThrough || Lists(kept, m6id, h.seal, h.at)
  }

  /** Every handed-off bundle is in the file with a tip that is not below its
      newest hand-off, or it ends at or below the dropped index. */
  ghost predicate Covers(kept: Kept, handed: map<Txid, Handed>) {
    forall id :: id in handed ==> CoversOne(kept, id, handed[id])
  }

  /** Every handed-off bundle that overlaps the range is dead. */
  ghost predicate Clear(s: System, m6id: Txid, seal: Seal) {
    forall id :: id in s.handed && id != m6id && Overlaps(s.handed[id].seal, seal) ==> id in s.dead
  }

  /** What the check found in the memory: the range holds records, is not
      dropped, and each overlapping proposal has the tip of a real hand-off. */
  ghost predicate Passed(kept: Kept, m6id: Txid, seal: Seal) {
    && kept.droppedThrough <= seal.start < seal.end
    && forall p :: p in kept.list && p.m6id != m6id && Overlap(p.start, p.end, seal.start, seal.end) ==>
         p.proposedAt < U32_MAX
  }

  ghost predicate PhaseInv(s: System) {
    match s.phase
    case Checked(id, seal, _) => SameSeal(s, id, seal) && Clear(s, id, seal) && Passed(s.journal.kept, id, seal)
    case Journaled(id, seal, _) =>
      && (id in s.handed ==> s.handed[id].seal == seal) && Clear(s, id, seal)
      && CoversOne(s.journal.kept, id, Handed(seal, U32_MAX)) && FileCovers(s.journal, id, seal)
    case HandedOff(id, seal, _) =>
      && id in s.handed && s.handed[id].seal == seal && s.handed[id].at <= Tip(s)
    case _ => true
  }

  /** Of two handed-off bundles that share a record, at most one is not dead. */
  ghost predicate Exclusive(s: System) {
    forall a, b :: a in s.handed && b in s.handed && a != b && Overlaps(s.handed[a].seal, s.handed[b].seal) ==>
      a in s.dead || b in s.dead
  }

  ghost predicate ChainInv(s: System) {
    && Honest(s.chain, s.handed, s.dead)
    && Dying(s.chain, s.handed) <= s.dead
    && forall id :: id in s.handed ==> s.handed[id].at <= U32_MAX
  }

  /** Both the file and the memory of a running daemon cover the hand-offs. */
  ghost predicate JournalInv(s: System) {
    && (s.handed != map[] || !s.phase.Down? ==> s.journal.file.Some?)
    && (s.journal.file.Some? ==> Covers(s.journal.file.value, s.handed))
    && (!s.phase.Down? ==> s.journal.existed && Covers(s.journal.kept, s.handed) && FileIsNear(s.journal))
  }

  /** The file is the memory, or what the one write after it would have made. */
  ghost predicate FileIsNear(j: Journal) {
    && j.file.Some?
    && (j.file.value == j.kept
        || (exists p :: j.file.value == WithProposal(j.kept, p))
        || (exists through :: j.file.value == WithoutPaid(j.kept, through)))
  }

  ghost predicate Inv(s: System) {
    JournalInv(s) && ChainInv(s) && Exclusive(s) && PhaseInv(s)
  }

  // --------------------------------------------------------------- the check

  lemma {:induction false} LateStory(chain: seq<Block>, m6id: Txid, sealedHeight: u64)
    requires EventsAfterSeal(chain, m6id, sealedHeight)
    ensures StatusAt(chain, sealedHeight, m6id) == BundleStatusOf(EventsOf(chain), m6id)
  {
    var k := Min(sealedHeight + 1, |chain|);
    assert EventsOf(chain) == EventsOf(chain[..k]) + EventsOf(chain[k..]);
    StorySplit(EventsOf(chain[..k]), EventsOf(chain[k..]), m6id);
    hide Story;
    var late := Story(EventsOf(chain[k..]), m6id);
    assert [] + late == late;
  }

  /** A check that passes finds every overlapping bundle dead. */
  lemma {:induction false} FreeMeansClear(s: System, m6id: Txid, seal: Seal)
    requires ChainInv(s) && Covers(s.journal.kept, s.handed)
    requires RangeIsFree(s.journal.kept, s.chain, seal.start, seal.end, Some(m6id))
    ensures Clear(s, m6id, seal)
  {
    forall id | id in s.handed && id != m6id && Overlaps(s.handed[id].seal, seal) ensures id in s.dead {
      var h := s.handed[id];
      assert CoversOne(s.journal.kept, id, h);
      var p :| p in s.journal.kept.list && p == ProposalOf(id, h.seal, p.proposedAt) && p.proposedAt >= h.at;
      assert Ended(p, StatusAt(s.chain, p.sealedHeight, id), TipHeight(s.chain));
      LateStory(s.chain, id, h.seal.sealedHeight);
      assert id in Dying(s.chain, s.handed);
    }
  }

  // ------------------------------------------------------------ the coverage

  lemma {:induction false} DropKeepsCover(kept: Kept, handed: map<Txid, Handed>, paidThrough: u64)
    requires Covers(kept, handed)
    ensures Covers(WithoutPaid(kept, paidThrough), handed)
  {
    var next := WithoutPaid(kept, paidThrough);
    forall id | id in handed ensures CoversOne(next, id, handed[id]) {
      var h := handed[id];
      assert CoversOne(kept, id, h);
      if h.seal.end > next.droppedThrough {
        var p :| p in kept.list && p == ProposalOf(id, h.seal, p.proposedAt) && p.proposedAt >= h.at;
        assert p in next.list;
      }
    }
  }

  lemma {:induction false} AddKeepsCover(kept: Kept, handed: map<Txid, Handed>, id: Txid, seal: Seal, at: u32)
    requires Covers(kept, handed)
    requires id in handed ==> handed[id].seal == seal && handed[id].at <= at
    ensures Covers(WithProposal(kept, ProposalOf(id, seal, at)), handed)
  {
    var added := ProposalOf(id, seal, at);
    var next := WithProposal(kept, added);
    forall other | other in handed ensures CoversOne(next, other, handed[other]) {
      var h := handed[other];
      assert CoversOne(kept, other, h);
      if other == id {
        assert added in next.list;
      } else if h.seal.end > kept.droppedThrough {
        var p :| p in kept.list && p == ProposalOf(other, h.seal, p.proposedAt) && p.proposedAt >= h.at;
        assert p in next.list;
      }
    }
  }

  lemma {:induction false} HandOffKeepsCover(kept: Kept, handed: map<Txid, Handed>, id: Txid, h: Handed)
    requires Covers(kept, handed) && CoversOne(kept, id, Handed(h.seal, U32_MAX)) && h.at <= U32_MAX
    ensures Covers(kept, handed[id := h])
  {
    var next := handed[id := h];
    forall other | other in next ensures CoversOne(kept, other, next[other]) {
      if other == id {
        assert h.seal.end > kept.droppedThrough ==> Lists(kept, id, h.seal, h.at);
      } else {
        assert CoversOne(kept, other, handed[other]);
      }
    }
  }

  // ----------------------------------------------------- each step keeps it

  /** A step of the daemon alone changes its journal and its phase. */
  lemma {:induction false} BundlesStay(s: System, next: System)
    requires ChainInv(s) && Exclusive(s) && next == s.(journal := next.journal, phase := next.phase)
    ensures ChainInv(next) && Exclusive(next)
  {
  }

  lemma {:induction false} StartKeeps(s: System, step: Step)
    requires Inv(s) && step.Start?
    ensures Inv(Next(s, step))
  {
    hide CoversOne; hide ChainInv; hide Exclusive; hide Overlaps;
    BundlesStay(s, Next(s, step));
    if s.journal.file.None? {
      assert Covers(Kept(0, []), s.handed);
    }
  }

  lemma {:induction false} DropKeeps(s: System, step: Step)
    requires Inv(s) && step.Drop?
    ensures Inv(Next(s, step))
  {
    hide CoversOne; hide ChainInv; hide Exclusive; hide Overlaps; hide WithoutPaid;
    BundlesStay(s, Next(s, step));
    if s.phase.Idle? {
      DropKeepsCover(s.journal.kept, s.handed, step.paidThrough);
    }
  }

  lemma {:induction false} CheckKeeps(s: System, step: Step)
    requires Inv(s) && step.Check?
    ensures Inv(Next(s, step))
  {
    hide Covers; hide Honest; hide Overlaps; hide Dying; hide RangeIsFree; hide Passed;
    if Next(s, step) != s {
      FreeMeansClear(s, step.m6id, step.seal);
      FreeMeansPassed(s, step.m6id, step.seal);
    }
  }

  lemma {:induction false} FreeMeansPassed(s: System, id: Txid, seal: Seal)
    requires ChainInv(s) && seal.start < seal.end
    requires RangeIsFree(s.journal.kept, s.chain, seal.start, seal.end, Some(id))
    ensures Passed(s.journal.kept, id, seal)
  {
    hide StatusAt; hide Dying; hide EventsAfterSeal; hide PaidOn;
  }

  lemma {:induction false} RecordKeeps(s: System, step: Step)
    requires Inv(s) && step.Record? && SafeSkip(s, step)
    ensures Inv(Next(s, step))
  {
    if s.phase.Checked? {
      hide JournalInv; hide PhaseInv; hide ChainInv; hide Exclusive; hide WithProposal;
      BundlesStay(s, Next(s, step));
      RecordKeepsJournal(s, step);
      RecordKeepsPhase(s, step);
    }
  }

  lemma {:induction false} RecordKeepsJournal(s: System, step: Step)
    requires JournalInv(s) && ChainInv(s) && PhaseInv(s) && step.Record? && s.phase.Checked?
    ensures JournalInv(Next(s, step))
  {
    hide Honest; hide Dying; hide CoversOne; hide Covers; hide Clear; hide WithProposal; hide FileIsNear; hide Passed;
    AddKeepsCover(s.journal.kept, s.handed, s.phase.m6id, s.phase.seal, U32_MAX);
    StoreKeepsNear(s.journal, ProposalOf(s.phase.m6id, s.phase.seal, U32_MAX), step.outcome);
  }

  lemma {:induction false} RecordKeepsPhase(s: System, step: Step)
    requires PhaseInv(s) && step.Record? && s.phase.Checked? && SafeSkip(s, step)
    ensures PhaseInv(Next(s, step))
  {
    hide CoversOne; hide WithProposal; hide Overlaps; hide Passed;
    AddCovers(s.journal.kept, s.phase.m6id, s.phase.seal);
  }

  lemma {:induction false} AddCovers(kept: Kept, id: Txid, seal: Seal)
    ensures CoversOne(WithProposal(kept, ProposalOf(id, seal, U32_MAX)), id, Handed(seal, U32_MAX))
  {
    assert ProposalOf(id, seal, U32_MAX) in WithProposal(kept, ProposalOf(id, seal, U32_MAX)).list;
  }

  lemma {:induction false} StoreKeepsNear(j: Journal, p: Proposal, outcome: WriteOutcome)
    requires FileIsNear(j)
    ensures FileIsNear(Stored(j, WithProposal(j.kept, p), outcome).0)
  {
    hide WithProposal;
  }

  lemma {:induction false} ConfirmKeeps(s: System, step: Step)
    requires Inv(s) && step.Confirm?
    ensures Inv(Next(s, step))
  {
    hide CoversOne; hide ChainInv; hide Exclusive; hide Overlaps;
    BundlesStay(s, Next(s, step));
    if s.phase.HandedOff? && Tip(s) <= U32_MAX {
      AddKeepsCover(s.journal.kept, s.handed, s.phase.m6id, s.phase.seal, Max(s.phase.seen, Tip(s)));
    }
  }

  /** A hand-off makes the bundle payable again, and each overlapping one is
      dead at that moment. */
  lemma {:induction false} HandOffKeeps(s: System, step: Step)
    requires Inv(s) && step.HandOff?
    ensures Inv(Next(s, step))
  {
    hide Covers; hide Honest; hide Dying; hide EventsAfterSeal; hide ChainInv; hide Exclusive;
    if s.phase.Journaled? && Shows(s, s.phase.m6id, s.phase.seal) {
      if step.taken || step.answered {
        HandOffLands(s, Next(s, step), s.phase.m6id, s.phase.seal);
        HandOffKeepsCover(s.journal.file.value, s.handed, s.phase.m6id, Handed(s.phase.seal, Tip(s)));
      } else {
        BundlesStay(s, Next(s, step));
      }
    }
  }

  lemma {:induction false} HandOffLands(s: System, next: System, id: Txid, seal: Seal)
    requires ChainInv(s) && Exclusive(s) && Covers(s.journal.kept, s.handed)
    requires Clear(s, id, seal) && EventsAfterSeal(s.chain, id, seal.sealedHeight)
    requires CoversOne(s.journal.kept, id, Handed(seal, U32_MAX))
    requires next == s.(handed := s.handed[id := Handed(seal, Tip(s))], dead := s.dead - {id}, phase := next.phase)
    ensures ChainInv(next) && Exclusive(next) && Covers(next.journal.kept, next.handed)
    ensures Tip(s) <= U32_MAX
  {
    hide EventsAfterSeal; hide PaidOn; hide Dying; hide CoversOne;
    HandOffKeepsChain(s, next, id, seal);
    assert Tip(s) <= U32_MAX;
    HandOffKeepsCover(s.journal.kept, s.handed, id, Handed(seal, Tip(s)));
    hide Covers; hide ChainInv;
  }

  lemma {:induction false} HandOffKeepsChain(s: System, next: System, id: Txid, seal: Seal)
    requires ChainInv(s) && EventsAfterSeal(s.chain, id, seal.sealedHeight)
    requires next.chain == s.chain
    requires next.handed == s.handed[id := Handed(seal, Tip(s))] && next.dead == s.dead - {id}
    ensures ChainInv(next)
  {
    hide EventsAfterSeal; hide PaidOn; hide BundleStatusOf;
    forall other | other in Dying(next.chain, next.handed) ensures other in next.dead {
      assert other != id;
      assert other in Dying(s.chain, s.handed);
    }
  }

  lemma {:induction false} MoveKeeps(s: System, step: Step)
    requires Inv(s) && step.Move?
    ensures Inv(Next(s, step))
  {
    hide Covers; hide Overlaps; hide Dying; hide PaidOn; hide DeepFailed; hide Heights; hide EventsAfterSeal;
    if Next(s, step) != s {
      NewlyDeadIsUnpaid(step.chain, s.handed, s.dead);
    }
  }

  lemma {:induction false} NewlyDeadIsUnpaid(chain: seq<Block>, handed: map<Txid, Handed>, dead: set<Txid>)
    requires Honest(chain, handed, dead)
    ensures Honest(chain, handed, dead + Dying(chain, handed))
  {
    hide BundleStatusOf; hide Heights; hide EventsAfterSeal;
    forall id | PaidOn(chain, id) ensures id !in Dying(chain, handed) {
      PaidIsNotFailed(chain, id);
    }
  }

  lemma {:induction false} PaidIsNotFailed(chain: seq<Block>, id: Txid)
    requires PaidOn(chain, id)
    ensures BundleStatusOf(EventsOf(chain), id).HasSucceeded?
  {
    var b :| b in chain && Succeeded(id) in b.bundles;
    assert EventOf(b) in EventsOf(chain);
    StoryKnowsThePayment(EventsOf(chain), id);
  }

  lemma {:induction false} NextKeeps(s: System, step: Step)
    requires Inv(s) && SafeSkip(s, step)
    ensures Inv(Next(s, step))
  {
    match step
    case Start(_) => StartKeeps(s, step);
    case Crash => hide Covers; hide Honest; hide Overlaps; hide Dying;
    case Abort => hide Covers; hide Honest; hide Overlaps; hide Dying;
    case Drop(_, _) => DropKeeps(s, step);
    case Check(_, _, _) => CheckKeeps(s, step);
    case Record(_) => RecordKeeps(s, step);
    case HandOff(_, _) => HandOffKeeps(s, step);
    case Confirm(_) => ConfirmKeeps(s, step);
    case Move(_) => MoveKeeps(s, step);
  }

  lemma {:induction false} RunKeeps(s: System, steps: seq<Step>)
    requires Inv(s) && SafeRun(s, steps)
    ensures Inv(Run(s, steps))
  {
    hide Inv; hide SafeSkip; hide Next;
    if steps != [] {
      RunKeeps(s, steps[..|steps| - 1]);
      NextKeeps(Run(s, steps[..|steps| - 1]), steps[|steps| - 1]);
    }
  }

  // ------------------------------------------------------------ the theorems

  ghost predicate Holds(seal: Seal, index: nat) { seal.start <= index < seal.end }

  lemma {:induction false} FreshHolds(s: System)
    requires Fresh(s)
    ensures Inv(s)
  {
    hide Honest;
  }

  /** Over every run with crashes between any two steps, failed writes, Solana
      rollbacks and eCash reorgs, in which each skipped store finds its
      proposal in the file: of two handed-off bundles that share a record, one
      is dead, and eCash pays at most one of them. */
  lemma {:induction false} NoRecordIsPaidTwice(start: System, steps: seq<Step>)
    requires Fresh(start) && SafeRun(start, steps)
    ensures Exclusive(Run(start, steps))
    ensures var s := Run(start, steps);
            forall a, b, index | a in s.handed && b in s.handed && a != b
                                 && Holds(s.handed[a].seal, index) && Holds(s.handed[b].seal, index) ::
              !(PaidOn(s.chain, a) && PaidOn(s.chain, b))
  {
    hide Run; hide SafeRun; hide PaidOn; hide PhaseInv; hide JournalInv; hide Dying; hide Fresh;
    FreshHolds(start);
    RunKeeps(start, steps);
  }

  /** The file knows every bundle that the enforcer may hold, at every moment. */
  lemma {:induction false} FileKnowsEveryHandOff(start: System, steps: seq<Step>)
    requires Fresh(start) && SafeRun(start, steps)
    ensures var s := Run(start, steps);
            && (s.handed != map[] ==> s.journal.file.Some?)
            && (s.journal.file.Some? ==> Covers(s.journal.file.value, s.handed))
  {
    hide Run; hide SafeRun; hide ChainInv; hide Exclusive; hide PhaseInv; hide Covers; hide Fresh;
    FreshHolds(start);
    RunKeeps(start, steps);
  }

  /** When each write either happens or fails as a whole, every run is safe. */
  lemma {:induction false} AtomicWritesAreSafe(start: System, steps: seq<Step>)
    requires Fresh(start) && forall step :: step in steps ==> AtomicWrite(step)
    ensures SafeRun(start, steps)
  {
    AtomicStaysInSync(start, steps);
  }

  /** The memory of a running daemon is the file. */
  ghost predicate InSync(s: System) {
    !s.phase.Down? ==> s.journal.existed && s.journal.file == Some(s.journal.kept)
  }

  lemma {:induction false} AtomicStaysInSync(start: System, steps: seq<Step>)
    requires InSync(start) && forall step :: step in steps ==> AtomicWrite(step)
    ensures InSync(Run(start, steps)) && SafeRun(start, steps)
  {
    if steps != [] {
      AtomicStaysInSync(start, steps[..|steps| - 1]);
      hide Run; hide SafeRun;
      AtomicStep(Run(start, steps[..|steps| - 1]), steps[|steps| - 1]);
    }
  }

  lemma {:induction false} AtomicStep(s: System, step: Step)
    requires InSync(s) && AtomicWrite(step)
    ensures InSync(Next(s, step)) && SafeSkip(s, step)
  {
    hide Shows; hide RangeIsFree; hide Honest; hide Dying; hide WithoutPaid;
    if step.Record? && s.phase.Checked? {
      var p := ProposalOf(s.phase.m6id, s.phase.seal, U32_MAX);
      assert p in WithProposal(s.journal.kept, p).list;
    }
  }
}
