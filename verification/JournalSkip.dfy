/** What a skipped store costs, from every state in which the file does not
    cover the hand-off: some run without any further failure ends with two live
    bundles that share a record. */
module JournalSkip {
  import opened Prelude
  import opened ECash
  import opened M6
  import opened Peg
  import opened Proposals
  import opened PegProtocol

  // --------------------------------------------- a chain on which bundles fail

  function Failures(list: seq<Proposal>): (events: seq<BundleEvent>)
    ensures |events| == |list| && forall i :: 0 <= i < |list| ==> events[i] == Failed(list[i].m6id)
  {
    seq(|list|, i requires 0 <= i < |list| => Failed(list[i].m6id))
  }

  ghost predicate IsListed(list: seq<Proposal>, id: Txid) {
    exists p :: p in list && p.m6id == id
  }

  /** The bundles of `list` fail in the block at height `h`, and nothing else
      happens. */
  ghost function BlockAt(k: nat, h: nat, list: seq<Proposal>): Block {
    Block(k + 1, k, k, [], if k == h then Failures(list) else [], None)
  }

  ghost function FailingChain(n: nat, h: nat, list: seq<Proposal>): (chain: seq<Block>)
    ensures |chain| == n && forall k :: 0 <= k < n ==> chain[k] == BlockAt(k, h, list)
  {
    seq(n, k requires 0 <= k < n => BlockAt(k, h, list))
  }

  ghost predicate AllFailAt(story: seq<Entry>, h: nat, id: Txid) {
    forall i :: 0 <= i < |story| ==> story[i] == Entry(h, Failed(id))
  }

  lemma {:induction false} FailedEntries(h: nat, list: seq<Proposal>, id: Txid)
    ensures var entries := EntriesOf(h, Failures(list), id);
            AllFailAt(entries, h, id) && (entries != [] <==> IsListed(list, id))
  {
    if list == [] {
      assert Failures(list) == [];
    } else {
      var n := |list| - 1;
      FailedEntries(h, list[..n], id);
      assert Failures(list)[..n] == Failures(list[..n]) && list == list[..n] + [list[n]];
    }
  }

  lemma {:induction false} FailedStory(n: nat, h: nat, list: seq<Proposal>, id: Txid)
    ensures var story := Story(EventsOf(FailingChain(n, h, list)), id);
            AllFailAt(story, h, id) && (story != [] <==> h < n && IsListed(list, id))
  {
    var chain := FailingChain(n, h, list);
    if n == 0 {
      assert EventsOf(chain) == [];
    } else {
      FailedStory(n - 1, h, list, id);
      assert EventsOf(chain)[..n - 1] == EventsOf(FailingChain(n - 1, h, list));
      FailedEntries(h, list, id);
      assert EntriesOf(n - 1, [], id) == [];
      hide Failures; hide IsListed;
    }
  }

  lemma {:induction false} FailedStatus(story: seq<Entry>, h: nat, id: Txid)
    requires AllFailAt(story, h, id)
    ensures StatusOf(story) == if story == [] then UnknownBundle else HasFailed(h)
  {
    FirstPaidIs(story, |story|);
  }

  lemma {:induction false} StatusIs(n: nat, h: nat, list: seq<Proposal>, id: Txid)
    ensures BundleStatusOf(EventsOf(FailingChain(n, h, list)), id)
         == if h < n && IsListed(list, id) then HasFailed(h) else UnknownBundle
  {
    hide Story; hide EventsOf; hide FailingChain; hide StatusOf; hide IsListed;
    FailedStory(n, h, list, id);
    FailedStatus(Story(EventsOf(FailingChain(n, h, list)), id), h, id);
  }

  lemma {:induction false} EventsComeLate(n: nat, h: nat, list: seq<Proposal>, id: Txid, sealedHeight: nat)
    requires sealedHeight < h || !IsListed(list, id)
    ensures EventsAfterSeal(FailingChain(n, h, list), id, sealedHeight)
  {
    var k := Min(sealedHeight + 1, n);
    assert FailingChain(n, h, list)[..k] == FailingChain(k, h, list);
    FailedStory(k, h, list, id);
    hide Story; hide EventsOf; hide IsListed;
  }

  lemma {:induction false} ChainIsHonest(n: nat, h: nat, list: seq<Proposal>, handed: map<Txid, Handed>, dead: set<Txid>)
    requires 0 < n <= U32_MAX && forall id :: id in handed ==> handed[id].seal.sealedHeight < h
    ensures Honest(FailingChain(n, h, list), handed, dead)
  {
    var chain := FailingChain(n, h, list);
    hide EventsAfterSeal;
    forall id | id in handed ensures EventsAfterSeal(chain, id, handed[id].seal.sealedHeight) {
      EventsComeLate(n, h, list, id, handed[id].seal.sealedHeight);
    }
    forall id ensures !PaidOn(chain, id) {
      forall b | b in chain ensures Succeeded(id) !in b.bundles {
        var k :| 0 <= k < n && chain[k] == b;
        assert b == BlockAt(k, h, list);
      }
    }
  }

  // --------------------------------------------------------- room and names

  /** Every height that the daemon or the enforcer noted is below `h`, and the
      chain can grow past it. */
  ghost predicate HasRoom(s: System, h: nat) {
    && h + 7 <= U32_MAX
    && (forall id :: id in s.handed ==> s.handed[id].seal.sealedHeight < h)
    && (s.phase.Checked? ==> s.phase.seal.sealedHeight < h)
    && ListHasRoom(s.journal.kept.list, h)
    && (s.journal.file.Some? ==> ListHasRoom(s.journal.file.value.list, h))
  }

  ghost predicate ListHasRoom(list: seq<Proposal>, h: nat) {
    forall p :: p in list ==> p.sealedHeight < h && (p.proposedAt < U32_MAX ==> p.proposedAt < h)
  }

  ghost function Names(list: seq<Proposal>): set<Txid> { set p | p in list :: p.m6id }

  /** There is always one more M6ID. */
  lemma {:induction false} OneMoreName(ids: set<Txid>) returns (k: nat)
    ensures forall n: nat :: n >= k ==> Unknown(n) !in ids
    decreases |ids|
  {
    if ids == {} {
      k := 0;
    } else {
      var id :| id in ids;
      k := OneMoreName(ids - {id});
      if id.Unknown? { k := Max(k, id.tag + 1); }
    }
  }

  // -------------------------------------------------------- one step at a time

  /** `steps` lead from `s` to `end`. Each skipped store of them is safe, and no
      write fails after its rename. */
  ghost predicate Reaches(s: System, steps: seq<Step>, end: System) {
    SafeRun(s, steps) && Run(s, steps) == end && forall step :: step in steps ==> AtomicWrite(step)
  }

  lemma {:induction false} Stand(s: System)
    ensures Reaches(s, [], s)
  {
  }

  lemma {:induction false} Extend(s: System, steps: seq<Step>, at: System, step: Step, next: System)
    returns (more: seq<Step>)
    requires Reaches(s, steps, at) && SafeSkip(at, step) && AtomicWrite(step) && Next(at, step) == next
    ensures Reaches(s, more, next) && more == steps + [step]
  {
    more := steps + [step];
    assert more[..|steps|] == steps;
    hide Next; hide SafeSkip;
  }

  /** eCash moves to the failing chain. */
  lemma {:induction false} MoveOn(s: System, n: nat, h: nat, list: seq<Proposal>) returns (next: System)
    requires !s.phase.HandedOff? && 0 < n <= U32_MAX
    requires forall id :: id in s.handed ==> s.handed[id].seal.sealedHeight < h
    ensures next == Next(s, Step.Move(FailingChain(n, h, list)))
    ensures next == s.(chain := FailingChain(n, h, list), dead := next.dead)
    ensures forall id :: id in next.dead && id !in s.dead ==> id in s.handed && s.handed[id].at < h
  {
    var chain := FailingChain(n, h, list);
    ChainIsHonest(n, h, list, s.handed, s.dead);
    forall id | id in Dying(chain, s.handed) ensures s.handed[id].at < h {
      StatusIs(n, h, list, id);
    }
    hide Honest; hide DeepFailed;
    next := Next(s, Step.Move(chain));
  }

  lemma {:induction false} StoreLands(s: System, id: Txid, seal: Seal, seen: u32) returns (next: System)
    requires s.phase == Checked(id, seal, seen) && s.journal.file == Some(s.journal.kept)
    ensures next == Next(s, Step.Record(Written)) && SafeSkip(s, Step.Record(Written))
    ensures next == s.(journal := next.journal, phase := Journaled(id, seal, seen))
    ensures ListedAs(s.journal.kept, id, seal) && next.journal.file.Some? ==>
              ListedAs(next.journal.kept, id, seal) && ListedAs(next.journal.file.value, id, seal)
  {
    AddCovers(s.journal.kept, id, seal);
    next := Next(s, Step.Record(Written));
  }

  lemma {:induction false} HandOver(s: System, id: Txid, seal: Seal, seen: u32) returns (next: System)
    requires s.phase == Journaled(id, seal, seen) && Shows(s, id, seal)
    ensures next == Next(s, Step.HandOff(true, true))
    ensures next == s.(handed := s.handed[id := Handed(seal, Tip(s))], dead := s.dead - {id},
                       phase := HandedOff(id, seal, seen))
  {
    next := Next(s, Step.HandOff(true, true));
  }

  // ------------------------------------------------------------ the lost skip

  /** A file that is near the memory covers what the memory lists, unless the
      last write replaced it. */
  lemma {:induction false} CoveredUnlessReplaced(j: Journal, own: Proposal)
    requires FileIsNear(j) && own in j.kept.list
    ensures var seal := Seal(own.start, own.end, own.sealedHeight);
            || CoversOne(j.file.value, own.m6id, Handed(seal, own.proposedAt))
            || (exists p: Proposal :: p.m6id == own.m6id && j.file.value == WithProposal(j.kept, p))
  {
    var file := j.file.value;
    var seal := Seal(own.start, own.end, own.sealedHeight);
    assert own == ProposalOf(own.m6id, seal, own.proposedAt);
    assert own in file.list ==> Lists(file, own.m6id, seal, own.proposedAt);
    if through :| file == WithoutPaid(j.kept, through) {
      assert own.end > through ==> own in file.list;
    } else if p :| file == WithProposal(j.kept, p) {
      assert p.m6id != own.m6id ==> own in file.list;
    }
  }

  /** What an uncovered file can be: the list of the memory, with an older tip
      for the skipped bundle. */
  lemma {:induction false} UncoveredFile(s: System, step: Step)
    requires Inv(s) && Skips(s, step) && !SafeSkip(s, step)
    ensures s.journal.file.Some?
    ensures var seal, file := s.phase.seal, s.journal.file.value;
            && file.droppedThrough <= seal.start
            && forall p :: p in file.list && Overlap(p.start, p.end, seal.start, seal.end) ==> p.proposedAt < U32_MAX
  {
    hide ChainInv; hide Exclusive; hide Clear; hide Covers; hide FileIsNear;
    var id, seal, kept, file := s.phase.m6id, s.phase.seal, s.journal.kept, s.journal.file.value;
    var own := ProposalOf(id, seal, U32_MAX);
    assert own in WithProposal(kept, own).list;
    CoveredUnlessReplaced(s.journal, own);
    var top: nat := U32_MAX;
    var last: Proposal :| last.m6id == id && file == WithProposal(kept, last);
    forall p | p in file.list && Overlap(p.start, p.end, seal.start, seal.end) ensures p.proposedAt < U32_MAX {
      assert p.m6id == id && p.proposedAt >= top ==> Lists(file, id, seal, top);
    }
  }

  lemma {:induction false} HasFailedSince(n: nat, h: nat, list: seq<Proposal>, p: Proposal)
    requires p in list && p.sealedHeight < h < n
    ensures StatusAt(FailingChain(n, h, list), p.sealedHeight, p.m6id) == HasFailed(h)
  {
    hide StatusAt; hide BundleStatusOf; hide EventsAfterSeal; hide FailingChain;
    EventsComeLate(n, h, list, p.m6id, p.sealedHeight);
    LateStory(FailingChain(n, h, list), p.m6id, p.sealedHeight);
    StatusIs(n, h, list, p.m6id);
  }

  lemma {:induction false} RangeIsFreed(file: Kept, h: nat, id: Txid, seal: Seal)
    requires file.droppedThrough <= seal.start && ListHasRoom(file.list, h) && h + 7 <= U32_MAX
    requires forall p :: p in file.list && Overlap(p.start, p.end, seal.start, seal.end) ==> p.proposedAt < U32_MAX
    ensures RangeIsFree(file, FailingChain(h + 7, h, file.list), seal.start, seal.end, Some(id))
  {
    var chain := FailingChain(h + 7, h, file.list);
    forall p | p in file.list && Overlap(p.start, p.end, seal.start, seal.end) && Some(p.m6id) != Some(id)
      ensures p.sealedHeight <= U32_MAX && Ended(p, StatusAt(chain, p.sealedHeight, p.m6id), TipHeight(chain))
    {
      HasFailedSince(h + 7, h, file.list, p);
    }
    hide StatusAt; hide FailingChain;
  }

  /** The hand-off of the skipped bundle at tip `h`, where it just failed. */
  lemma {:induction false} HandOffAfterTheSkip(s: System, step: Step, h: nat, list: seq<Proposal>)
    returns (steps: seq<Step>, end: System)
    requires Inv(s) && Skips(s, step) && HasRoom(s, h)
    ensures Reaches(Next(s, step), steps, end)
    ensures var id, seal := s.phase.m6id, s.phase.seal;
            && end == System(s.journal, HandedOff(id, seal, s.phase.seen), FailingChain(h + 1, h, list), end.handed, end.dead)
            && end.handed == s.handed[id := Handed(seal, h)] && id !in end.dead
  {
    hide Run; hide SafeRun; hide Reaches; hide EventsAfterSeal; hide Honest; hide Dying; hide FailingChain;
    hide ChainInv; hide Exclusive; hide Clear; hide JournalInv; hide WithProposal; hide ListHasRoom; hide FileCovers;
    var id, seal, seen := s.phase.m6id, s.phase.seal, s.phase.seen;
    var start := Next(s, step);
    assert start == s.(phase := Journaled(id, seal, seen));
    Stand(start);
    var moved := MoveOn(start, h + 1, h, list);
    EventsComeLate(h + 1, h, list, id, seal.sealedHeight);
    assert Shows(moved, id, seal);
    hide Shows; hide Skips;
    steps := Extend(start, [], start, Step.Move(FailingChain(h + 1, h, list)), moved);
    end := HandOver(moved, id, seal, seen);
    TipIs(h + 1, h, list);
    hide Next; hide Inv;
    steps := Extend(start, steps, moved, Step.HandOff(true, true), end);
  }

  lemma {:induction false} TipIs(n: nat, h: nat, list: seq<Proposal>)
    requires n > 0
    ensures TipHeight(FailingChain(n, h, list)) == n - 1
  {
  }

  /** A crash drops the memory, and the daemon starts from the file. */
  lemma {:induction false} Restart(start: System, before: seq<Step>, s: System) returns (steps: seq<Step>, end: System)
    requires Reaches(start, before, s) && s.journal.file.Some?
    ensures Reaches(start, steps, end)
    ensures end == s.(journal := Loaded(s.journal.file), phase := Idle)
  {
    hide Run; hide SafeRun; hide Reaches;
    var down := s.(phase := Down);
    steps := Extend(start, before, s, Step.Crash, down);
    end := s.(journal := Loaded(s.journal.file), phase := Idle);
    steps := Extend(start, steps, down, Step.Start(Written), end);
  }

  /** Six blocks later the old failure looks like one of the newest hand-off,
      so a second bundle with the same records goes to the enforcer. */
  lemma {:induction false} SecondBundle(
    start: System, before: seq<Step>, s: System, h: nat, id: Txid, seal: Seal, other: Txid)
    returns (steps: seq<Step>, end: System)
    requires Reaches(start, before, s) && s.phase == Idle && s.journal.file == Some(s.journal.kept)
    requires h + 7 <= U32_MAX && forall k :: k in s.handed ==> s.handed[k].seal.sealedHeight < h
    requires ListHasRoom(s.journal.kept.list, h) && seal.sealedHeight < h && seal.start < seal.end
    requires s.journal.kept.droppedThrough <= seal.start
    requires forall p :: p in s.journal.kept.list && Overlap(p.start, p.end, seal.start, seal.end) ==> p.proposedAt < U32_MAX
    requires id in s.handed && s.handed[id] == Handed(seal, h) && id !in s.dead
    requires other !in s.handed && !IsListed(s.journal.kept.list, other)
    ensures Reaches(start, steps, end)
    ensures id in end.handed && other in end.handed && id != other && id !in end.dead && other !in end.dead
    ensures end.handed[id].seal == end.handed[other].seal == seal
  {
    hide Run; hide SafeRun; hide Reaches; hide EventsAfterSeal; hide Honest; hide Dying; hide FailingChain; hide WithProposal;
    var list := s.journal.kept.list;
    var moved := MoveOn(s, h + 7, h, list);
    steps := Extend(start, before, s, Step.Move(FailingChain(h + 7, h, list)), moved);
    RangeIsFreed(s.journal.kept, h, other, seal);
    EventsComeLate(h + 7, h, list, other, seal.sealedHeight);
    hide RangeIsFree; hide ListHasRoom; hide Overlap;
    assert forall p :: p in list && p.m6id == other ==> IsListed(list, other);
    assert Shows(moved, other, seal);
    var checked := moved.(phase := Checked(other, seal, 0));
    steps := Extend(start, steps, moved, Step.Check(other, seal, 0), checked);
    var stored := StoreLands(checked, other, seal, 0);
    steps := Extend(start, steps, checked, Step.Record(Written), stored);
    assert Shows(stored, other, seal);
    end := HandOver(stored, other, seal, 0);
    steps := Extend(start, steps, stored, Step.HandOff(true, true), end);
  }

  /** An unsafe skip loses the hand-off: some run without any further failure
      ends with two live bundles that share every record. */
  lemma {:induction false} UnsafeSkipLoses(s: System, step: Step, h: nat) returns (steps: seq<Step>)
    requires Inv(s) && Skips(s, step) && !SafeSkip(s, step) && HasRoom(s, h)
    ensures SafeRun(Next(s, step), steps) && !Exclusive(Run(Next(s, step), steps))
    ensures forall more :: more in steps ==> AtomicWrite(more)
  {
    UncoveredFile(s, step);
    var id, seal, file := s.phase.m6id, s.phase.seal, s.journal.file.value;
    assert seal.start < seal.end;
    var end;
    hide Inv; hide Next; hide SafeRun; hide Run; hide Reaches; hide SafeSkip; hide Skips; hide FailingChain;
    steps, end := HandOffAfterTheSkip(s, step, h, file.list);
    steps, end := Restart(Next(s, step), steps, end);
    var k := OneMoreName(end.handed.Keys + Names(file.list));
    assert Unknown(k) !in end.handed.Keys + Names(file.list);
    assert !IsListed(file.list, Unknown(k));
    steps, end := SecondBundle(Next(s, step), steps, end, h, id, seal, Unknown(k));
    assert !Exclusive(end);
    ReachesIs(Next(s, step), steps, end);
  }

  lemma {:induction false} ReachesIs(s: System, steps: seq<Step>, end: System)
    requires Reaches(s, steps, end)
    ensures SafeRun(s, steps) && Run(s, steps) == end && forall step :: step in steps ==> AtomicWrite(step)
  {
  }

  /** The promise holds from here on, as long as later skips are safe. */
  ghost predicate StaysExclusive(s: System) {
    forall steps :: SafeRun(s, steps) ==> Exclusive(Run(s, steps))
  }

  /** The exact condition: the store of a hand-off keeps the promise if and only
      if it is no unsafe skip, whatever happens later. */
  lemma {:induction false} SafeSkipIsExact(s: System, step: Step, h: nat)
    requires Inv(s) && step.Record? && HasRoom(s, h)
    ensures StaysExclusive(Next(s, step)) <==> SafeSkip(s, step)
  {
    if SafeSkip(s, step) {
      NextKeeps(s, step);
      forall steps | SafeRun(Next(s, step), steps) ensures Exclusive(Run(Next(s, step), steps)) {
        RunKeeps(Next(s, step), steps);
        hide Run; hide SafeRun; hide Next;
      }
    } else {
      var steps := UnsafeSkipLoses(s, step, h);
      hide Run; hide SafeRun; hide Next; hide Exclusive;
    }
  }
}
