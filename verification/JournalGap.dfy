/** A write that reports a failure after the rename leaves the memory behind
    the file. The next store of the same proposal is then skipped, and the file
    keeps the tip of an older hand-off. One run from a first start shows that a
    daemon gets there. */
module JournalGap {
  import opened Prelude
  import opened ECash
  import opened M6
  import opened Peg
  import opened Proposals
  import opened PegProtocol
  import opened JournalSkip

  const A: Txid := Unknown(1)
  const SEAL_A: Seal := Seal(0, 1, 0)
  const EMPTY: Kept := Kept(0, [])

  ghost function NoteOf(at: u32): Kept { Kept(0, [ProposalOf(A, SEAL_A, at)]) }

  /** eCash at height 0, where nothing happened yet. */
  ghost function FirstBlock(): seq<Block> { FailingChain(1, 1, []) }

  ghost function FreshSystem(): System {
    System(Journal(EMPTY, false, None), Down, FirstBlock(), map[], {})
  }

  /** The daemon holds `A` in its memory with the highest tip, the file names
      tip 0, and the enforcer got `A` at tip 0. */
  ghost function AfterFirstPass(phase: Phase): System {
    System(Journal(NoteOf(U32_MAX), true, Some(NoteOf(0))), phase, FirstBlock(), map[A := Handed(SEAL_A, 0)], {})
  }

  lemma {:induction false} Retains(p: Proposal, q: Proposal)
    requires p.m6id == q.m6id
    ensures WithProposal(EMPTY, q) == Kept(0, [q])
    ensures WithProposal(Kept(0, [p]), q) == Kept(0, [q])
  {
    assert [p][..0] == [];
  }

  lemma {:induction false} FreshIsFresh()
    ensures Fresh(FreshSystem())
  {
    ChainIsHonest(1, 1, [], map[], {});
    hide Honest;
  }

  /** The check lets `A` through, again and again. */
  lemma {:induction false} CheckPasses(s: System)
    requires s.phase.Idle? && s.chain == FirstBlock() && (A in s.handed ==> s.handed[A].seal == SEAL_A)
    requires s.journal.kept in {EMPTY, NoteOf(U32_MAX)}
    requires s.journal.file.Some? && s.journal.file.value in {EMPTY, NoteOf(0)}
    ensures Next(s, Step.Check(A, SEAL_A, 0)) == s.(phase := Checked(A, SEAL_A, 0))
  {
    EventsComeLate(1, 1, [], A, 0);
    hide EventsAfterSeal; hide FailingChain; hide StatusAt;
    assert Shows(s, A, SEAL_A);
    assert RangeIsFree(s.journal.kept, s.chain, 0, 1, Some(A));
  }

  lemma {:induction false} HandOffPasses(s: System)
    requires s.phase == Journaled(A, SEAL_A, 0) && s.chain == FirstBlock() && s.handed == map[] && s.dead == {}
    requires s.journal == Journal(NoteOf(U32_MAX), true, Some(NoteOf(U32_MAX)))
    ensures Next(s, Step.HandOff(true, true))
         == s.(handed := map[A := Handed(SEAL_A, 0)], phase := HandedOff(A, SEAL_A, 0))
  {
    EventsComeLate(1, 1, [], A, 0);
    TipIs(1, 1, []);
    hide EventsAfterSeal; hide FailingChain;
    assert Shows(s, A, SEAL_A);
    var end := HandOver(s, A, SEAL_A, 0);
    assert end.handed == map[A := Handed(SEAL_A, 0)] && end.dead == {};
  }

  /** The daemon hands `A` over at tip 0. */
  lemma {:induction false} FirstHandOff() returns (steps: seq<Step>)
    ensures Reaches(FreshSystem(), steps,
                    System(Journal(NoteOf(U32_MAX), true, Some(NoteOf(U32_MAX))), HandedOff(A, SEAL_A, 0), FirstBlock(),
                           map[A := Handed(SEAL_A, 0)], {}))
  {
    hide Reaches; hide FirstBlock; hide WithProposal; hide RangeIsFree; hide Shows;
    var p := ProposalOf(A, SEAL_A, U32_MAX);
    var first := FreshSystem();
    var idle := first.(journal := Journal(EMPTY, true, Some(EMPTY)), phase := Idle);
    var checked := idle.(phase := Checked(A, SEAL_A, 0));
    var journaled := idle.(journal := Journal(NoteOf(U32_MAX), true, Some(NoteOf(U32_MAX))),
                           phase := Journaled(A, SEAL_A, 0));
    var handed := journaled.(handed := map[A := Handed(SEAL_A, 0)], phase := HandedOff(A, SEAL_A, 0));
    Retains(p, p);
    CheckPasses(idle);
    HandOffPasses(journaled);
    Stand(first);
    assert Next(first, Step.Start(Written)) == idle && Next(checked, Step.Record(Written)) == journaled;
    assert SafeSkip(checked, Step.Record(Written));
    hide Next; hide NoteOf;
    steps := Extend(first, [], first, Step.Start(Written), idle);
    steps := Extend(first, steps, idle, Step.Check(A, SEAL_A, 0), checked);
    steps := Extend(first, steps, checked, Step.Record(Written), journaled);
    steps := Extend(first, steps, journaled, Step.HandOff(true, true), handed);
  }

  lemma {:induction false} RunMore(s: System, a: seq<Step>, b: seq<Step>)
    ensures Run(s, a + b) == Run(Run(s, a), b)
    ensures SafeRun(s, a + b) <==> SafeRun(s, a) && SafeRun(Run(s, a), b)
  {
    if b == [] {
      assert a + b == a;
    } else {
      RunMore(s, a, b[..|b| - 1]);
      assert (a + b)[..|a + b| - 1] == a + b[..|b| - 1];
      hide Next; hide SafeSkip;
    }
  }

  lemma {:induction false} RunOne(s: System, step: Step, more: seq<Step>)
    ensures Run(s, [step] + more) == Run(Next(s, step), more)
  {
    RunMore(s, [step], more);
    assert [step][..0] == [];
    hide Next;
  }

  lemma {:induction false} RunTwo(s: System, one: Step, two: Step)
    requires !one.Record? && !two.Record?
    ensures Run(s, [one, two]) == Next(Next(s, one), two) && SafeRun(s, [one, two])
  {
    hide Next;
    assert [one][..0] == [] && SafeRun(s, []) && Run(s, []) == s;
    assert SafeSkip(s, one);
    assert Run(s, [one]) == Next(s, one) && SafeRun(s, [one]);
    assert [one, two][..1] == [one];
  }

  /** The store of the second pass is skipped, and the file does not cover it. */
  lemma {:induction false} SkipIsUnsafe()
    ensures var s, store := AfterFirstPass(Checked(A, SEAL_A, 0)), Step.Record(Written);
            Skips(s, store) && !SafeSkip(s, store) && HasRoom(s, 1)
  {
    var p := ProposalOf(A, SEAL_A, U32_MAX);
    Retains(p, p);
    hide WithProposal;
  }

  /** The last write of the first pass fails after its rename, and the second
      pass checks `A` again. */
  lemma {:induction false} SecondCheck() returns (before: seq<Step>)
    ensures forall step :: step in before ==> AtomicWrite(step)
    ensures var more := before + [Step.Confirm(WrittenButFailed), Step.Check(A, SEAL_A, 0)];
            && Run(FreshSystem(), more) == AfterFirstPass(Checked(A, SEAL_A, 0))
            && SafeRun(FreshSystem(), more)
  {
    var p, q := ProposalOf(A, SEAL_A, U32_MAX), ProposalOf(A, SEAL_A, 0);
    Retains(p, q);
    TipIs(1, 1, []);
    hide FirstBlock; hide WithProposal; hide RangeIsFree; hide Shows; hide Run; hide SafeRun; hide SafeSkip; hide FailingChain;
    before := FirstHandOff();
    var handed := Run(FreshSystem(), before);
    CheckPasses(AfterFirstPass(Idle));
    assert Next(handed, Step.Confirm(WrittenButFailed)) == AfterFirstPass(Idle);
    hide Next; hide NoteOf;
    RunTwo(handed, Step.Confirm(WrittenButFailed), Step.Check(A, SEAL_A, 0));
    RunMore(FreshSystem(), before, [Step.Confirm(WrittenButFailed), Step.Check(A, SEAL_A, 0)]);
  }

  /** One write that reports a failure after its rename is enough to hold two
      live bundles with one record: every other write of the run is atomic. */
  lemma {:induction false} OneFailedSyncIsEnough() returns (before: seq<Step>, after: seq<Step>)
    ensures Fresh(FreshSystem())
    ensures forall step :: step in before + after ==> AtomicWrite(step)
    ensures var steps := before + [Step.Confirm(WrittenButFailed)] + after;
            !Exclusive(Run(FreshSystem(), steps)) && !SafeRun(FreshSystem(), steps)
  {
    hide FreshSystem; hide AfterFirstPass; hide Run; hide SafeRun; hide Next; hide Exclusive; hide SafeSkip; hide Inv;
    FreshIsFresh();
    before := SecondCheck();
    var two := [Step.Confirm(WrittenButFailed), Step.Check(A, SEAL_A, 0)];
    var s, store := AfterFirstPass(Checked(A, SEAL_A, 0)), Step.Record(Written);
    FreshHolds(FreshSystem());
    hide Fresh;
    RunKeeps(FreshSystem(), before + two);
    SkipIsUnsafe();
    var more := UnsafeSkipLoses(s, store, 1);
    after := [Step.Check(A, SEAL_A, 0), store] + more;
    RunOne(s, store, more);
    RunMore(FreshSystem(), before + two, [store] + more);
    assert before + [Step.Confirm(WrittenButFailed)] + after == before + two + ([store] + more);
    LostRunIsUnsafe(before + two + ([store] + more));
  }

  lemma {:induction false} LostRunIsUnsafe(steps: seq<Step>)
    requires Fresh(FreshSystem()) && !Exclusive(Run(FreshSystem(), steps))
    ensures !SafeRun(FreshSystem(), steps)
  {
    hide Run; hide SafeRun; hide Fresh; hide FreshSystem; hide Exclusive;
    if SafeRun(FreshSystem(), steps) {
      NoRecordIsPaidTwice(FreshSystem(), steps);
    }
  }
}
