/** The bytes of a vote account and their reset (`reset_vote` in
    daemon/src/genesis.rs). */
module VoteAccount {
  import opened Prelude
  import opened Bytes
  import opened VoteReset

  // ------------------------------------------------------------------ layout

  /** The fields before the votes: their length, the length of one vote, and
      whether the prior voters follow the voters. */
  datatype Head = Head(kept: nat, voteLen: nat, prior: bool)

  function ReadHead(data: seq<u8>): (head: Option<Head>)
    ensures head.Some? ==> head.value.kept <= |data|
  {
    if |data| < 4 then None
    else
      var tag := FromLE(data[..4]);
      if tag == 1 || tag == 2 then
        if |data| < 69 then None else Some(Head(69, if tag == 1 then 12 else 13, true))
      else if tag != 3 || |data| < 145 then None
      else if data[144] != 1 then Some(Head(145, 13, false))
      else if |data| < 193 then None
      else Some(Head(193, 13, false))
  }

  /** A vote account through its voters, which end at `end`. */
  datatype Ballot = Ballot(head: Head, votes: u64, root: Option<u64>, voters: seq<Voter>, end: nat)

  function VoterAt(data: seq<u8>, at: nat): Voter
    requires at + 40 <= |data|
  {
    Voter(U64At(data, at), data[at + 8..at + 40])
  }

  function VotersAt(data: seq<u8>, at: nat, count: nat): (voters: seq<Voter>)
    requires at + 40 * count <= |data|
    ensures |voters| == count
  {
    if count == 0 then [] else VotersAt(data, at, count - 1) + [VoterAt(data, at + 40 * (count - 1))]
  }

  function ReadVoters(data: seq<u8>, head: Head, votes: u64, at: nat): Option<Ballot>
    requires at + 1 <= |data|
  {
    var next := at + 1 + if data[at] == 1 then 8 else 0;
    if next + 8 > |data| then None
    else
      var count := U64At(data, next);
      if next + 8 + 40 * count > |data| then None
      else
        var root := if data[at] == 1 then Some(U64At(data, at + 1)) else None;
        Some(Ballot(head, votes, root, VotersAt(data, next + 8, count), next + 8 + 40 * count))
  }

  function ReadBallot(data: seq<u8>): Option<Ballot> {
    var head :- ReadHead(data);
    if head.kept + 8 > |data| then None
    else
      var votes := U64At(data, head.kept);
      var at := head.kept + 8 + votes * head.voteLen;
      if at + 1 > |data| then None else ReadVoters(data, head, votes, at)
  }

  // -------------------------------------------------------------- the reader

  class Reader {
    const data: seq<u8>
    var at: nat

    constructor (data: seq<u8>, at: nat)
      requires |data| <= U64_MAX
      ensures this.data == data && this.at == at
    {
      this.data := data;
      this.at := at;
    }

    /** A failed read leaves the place. `checked_add` fails before the slice. */
    method Take(len: nat) returns (bytes: Option<seq<u8>>)
      requires |data| <= U64_MAX
      modifies this
      ensures old(at) + len <= |data| ==> at == old(at) + len && bytes == Some(data[old(at)..at])
      ensures old(at) + len > |data| ==> bytes.None? && at == old(at)
    {
      if at + len > U64_MAX {
        return None;
      }
      var end := at + len;
      if end > |data| {
        return None;
      }
      bytes := Some(data[at..end]);
      at := end;
    }

    method ReadU64() returns (x: Option<u64>)
      requires |data| <= U64_MAX
      modifies this
      ensures old(at) + 8 <= |data| ==> x == Some(U64At(data, old(at))) && at == old(at) + 8
      ensures old(at) + 8 > |data| ==> x.None? && at == old(at)
    {
      ghost var start := at;
      var bytes :- Take(8);
      x := Some(U64At(bytes, 0));
      assert bytes[0..8] == data[start..start + 8];
    }

    method ReadU8() returns (x: Option<u8>)
      requires |data| <= U64_MAX
      modifies this
      ensures old(at) < |data| ==> x == Some(data[old(at)]) && at == old(at) + 1
      ensures old(at) >= |data| ==> x.None? && at == old(at)
    {
      var bytes :- Take(1);
      x := Some(bytes[0]);
    }
  }

  // --------------------------------------------------------------- the reset

  function VotersBytes(voters: seq<Voter>): seq<u8> {
    if voters == [] then []
    else
      var last := voters[|voters| - 1];
      VotersBytes(voters[..|voters| - 1]) + ToLE(last.epoch, 8) + last.key
  }

  function Zeros(n: nat): (zeros: seq<u8>)
    ensures |zeros| == n && forall i :: 0 <= i < n ==> zeros[i] == 0
  {
    seq(n, _ => 0)
  }

  /** No prior voter, no credits, no timestamp. */
  function EmptyHistory(prior: bool): seq<u8> {
    (if prior then Zeros(32 * 48) + ToLE(31, 8) + [1] else []) + ToLE(0, 8) + Zeros(16)
  }

  /** The kept fields, no vote, no root, `voters`, and no history. */
  function FreshVote(kept: seq<u8>, prior: bool, voters: seq<Voter>): seq<u8> {
    kept + ToLE(0, 8) + [0] + ToLE(|voters|, 8) + VotersBytes(voters) + EmptyHistory(prior)
  }

  function Padded(bytes: seq<u8>, len: nat): Option<seq<u8>> {
    if |bytes| > len then None else Some(bytes + Zeros(len - |bytes|))
  }

  function ResetVoteOf(data: seq<u8>, source: u64): Option<seq<u8>> {
    var ballot :- ReadBallot(data);
    var voters :- RebaseVoters(ballot.voters, source);
    if ballot.head.kept > |data| then None
    else Padded(FreshVote(data[..ballot.head.kept], ballot.head.prior, voters), |data|)
  }

  method ReadHeadOf(reader: Reader) returns (head: Option<Head>)
    requires |reader.data| <= U64_MAX && reader.at == 4 <= |reader.data|
    modifies reader
    ensures head == ReadHead(reader.data)
    ensures head.Some? ==> reader.at == head.value.kept
  {
    var tag := FromLE(reader.data[..4]);
    if tag == 1 || tag == 2 {
      var _ :- reader.Take(65);
      return Some(Head(reader.at, if tag == 1 then 12 else 13, true));
    } else if tag == 3 {
      var _ :- reader.Take(32 * 4 + 2 + 2 + 8);
      var bls :- reader.ReadU8();
      if bls == 1 {
        var _ :- reader.Take(48);
      }
      return Some(Head(reader.at, 13, false));
    }
    return None;
  }

  method ReadVotersOf(reader: Reader, count: u64) returns (voters: Option<seq<Voter>>)
    requires |reader.data| <= U64_MAX && reader.at <= |reader.data|
    modifies reader
    ensures var at := old(reader.at);
            voters == if at + 40 * count <= |reader.data| then Some(VotersAt(reader.data, at, count)) else None
  {
    var found: seq<Voter> := [];
    ghost var start := reader.at;
    for i := 0 to count
      invariant reader.at == start + 40 * i <= |reader.data|
      invariant found == VotersAt(reader.data, start, i)
    {
      var epoch :- reader.ReadU64();
      var key :- reader.Take(32);
      found := found + [Voter(epoch, key)];
    }
    return Some(found);
  }

  method ReadRootAndVoters(reader: Reader, ghost head: Head, ghost votes: u64) returns (voters: Option<seq<Voter>>)
    requires |reader.data| <= U64_MAX && reader.at <= |reader.data|
    modifies reader
    ensures var data, at := reader.data, old(reader.at);
            && (voters.Some? <==> at < |data| && ReadVoters(data, head, votes, at).Some?)
            && (voters.Some? ==> voters.value == ReadVoters(data, head, votes, at).value.voters)
  {
    hide VotersAt; hide U64At;
    var flag :- reader.ReadU8();
    if flag == 1 {
      var _ :- reader.ReadU64();
    }
    var count :- reader.ReadU64();
    voters := ReadVotersOf(reader, count);
  }

  method ReadBallotOf(reader: Reader, head: Head) returns (voters: Option<seq<Voter>>)
    requires |reader.data| <= U64_MAX && reader.at == head.kept <= |reader.data|
    requires ReadHead(reader.data) == Some(head)
    modifies reader
    ensures voters.Some? <==> ReadBallot(reader.data).Some?
    ensures voters.Some? ==> voters.value == ReadBallot(reader.data).value.voters
  {
    hide ReadHead; hide ReadVoters; hide U64At;
    var votes :- reader.ReadU64();
    if votes * head.voteLen > U64_MAX {
      return None;
    }
    var _ :- reader.Take(votes * head.voteLen);
    voters := ReadRootAndVoters(reader, head, votes);
  }

  method WriteVote(kept: seq<u8>, prior: bool, voters: seq<Voter>) returns (bytes: seq<u8>)
    ensures bytes == FreshVote(kept, prior, voters)
  {
    hide ToLE; hide Zeros;
    bytes := kept + ToLE(0, 8);
    bytes := bytes + [0];
    bytes := bytes + ToLE(|voters|, 8);
    ghost var front := bytes;
    assert front + VotersBytes(voters[..0]) == front;
    for i := 0 to |voters|
      invariant bytes == front + VotersBytes(voters[..i])
    {
      assert voters[..i + 1][..i] == voters[..i];
      bytes := bytes + ToLE(voters[i].epoch, 8);
      bytes := bytes + voters[i].key;
      assert bytes == front + VotersBytes(voters[..i + 1]);
    }
    assert voters[..|voters|] == voters;
    hide VotersBytes;
    if prior {
      bytes := bytes + Zeros(32 * 48);
      bytes := bytes + ToLE(31, 8);
      bytes := bytes + [1];
    }
    bytes := bytes + ToLE(0, 8);
    bytes := bytes + Zeros(16);
  }

  method ResetVote(data: seq<u8>, source: u64) returns (reset: Option<seq<u8>>)
    requires |data| <= U64_MAX
    ensures reset == ResetVoteOf(data, source)
  {
    if |data| < 4 {
      return None;
    }
    var reader := new Reader(data, 4);
    var head :- ReadHeadOf(reader);
    var before :- ReadBallotOf(reader, head);
    hide RebaseVoters; hide FreshVote; hide ReadHead; hide ReadVoters;
    var voters :- RebaseVoters(before, source);
    var bytes := WriteVote(data[..head.kept], head.prior, voters);
    reset := Padded(bytes, |data|);
  }

  // ------------------------------------------------------ what the reset means

  /** Every voter key of an account has 32 bytes. */
  ghost predicate Keys(voters: seq<Voter>) {
    forall i :: 0 <= i < |voters| ==> |voters[i].key| == 32
  }

  lemma {:induction false} KeysRead(data: seq<u8>, at: nat, count: nat)
    requires at + 40 * count <= |data|
    ensures Keys(VotersAt(data, at, count))
  {
    if count > 0 { KeysRead(data, at, count - 1); }
  }

  lemma {:induction false} KeysRebase(voters: seq<Voter>, source: u64)
    requires Keys(voters)
    ensures RebaseVoters(voters, source).Some? ==> Keys(RebaseVoters(voters, source).value)
    ensures Keys(LaterVoters(voters, source))
    ensures LastAtOrBefore(voters, source).Some? ==> |LastAtOrBefore(voters, source).value.key| == 32
  {
    if voters != [] {
      KeysRebase(voters[..|voters| - 1], source);
      hide RebaseVoters;
      assert Keys(LaterVoters(voters, source));
      assert LastAtOrBefore(voters, source).Some? ==> |LastAtOrBefore(voters, source).value.key| == 32;
    }
    hide LaterVoters; hide LastAtOrBefore;
  }

  lemma {:induction false} VotersLength(voters: seq<Voter>)
    requires Keys(voters)
    ensures |VotersBytes(voters)| == 40 * |voters|
  {
    if voters != [] { VotersLength(voters[..|voters| - 1]); }
  }

  /** `bytes` stands at `at`. */
  ghost predicate Holds(data: seq<u8>, at: nat, bytes: seq<u8>) {
    at + |bytes| <= |data| && data[at..at + |bytes|] == bytes
  }

  lemma {:induction false} HoldsBoth(data: seq<u8>, at: nat, a: seq<u8>, b: seq<u8>)
    requires Holds(data, at, a + b)
    ensures Holds(data, at, a) && Holds(data, at + |a|, b)
  {
    assert (a + b)[..|a|] == a && (a + b)[|a|..] == b;
    assert data[at..at + |a + b|][..|a|] == data[at..at + |a|];
    assert data[at..at + |a + b|][|a|..] == data[at + |a|..at + |a| + |b|];
  }

  /** The written voters read back. */
  lemma {:induction false} VotersRead(data: seq<u8>, at: nat, voters: seq<Voter>)
    requires Keys(voters) && Holds(data, at, VotersBytes(voters))
    ensures at + 40 * |voters| <= |data| && VotersAt(data, at, |voters|) == voters
  {
    hide ToLE; hide VoterAt; hide VotersBytes;
    VotersLength(voters);
    if voters != [] {
      hide Holds;
      var n := |voters| - 1;
      VotersStep(voters);
      VotersLength(voters[..n]);
      VoterRead(data, at, VotersBytes(voters[..n]), voters[n]);
      VotersRead(data, at, voters[..n]);
      assert voters == voters[..n] + [voters[n]];
    }
  }

  lemma {:induction false} VotersStep(voters: seq<Voter>)
    requires voters != []
    ensures var n := |voters| - 1;
            VotersBytes(voters) == VotersBytes(voters[..n]) + ToLE(voters[n].epoch, 8) + voters[n].key
  {
  }

  lemma {:induction false} VoterRead(data: seq<u8>, at: nat, front: seq<u8>, last: Voter)
    requires |last.key| == 32 && Holds(data, at, front + ToLE(last.epoch, 8) + last.key)
    ensures Holds(data, at, front) && at + |front| + 40 <= |data| && VoterAt(data, at + |front|) == last
  {
    hide ToLE; hide U64At;
    HoldsBoth(data, at, front + ToLE(last.epoch, 8), last.key);
    HoldsBoth(data, at, front, ToLE(last.epoch, 8));
    U64AtIs(data, at + |front|, last.epoch);
  }

  lemma {:induction false} HeadStays(data: seq<u8>, other: seq<u8>, head: Head)
    requires ReadHead(data) == Some(head)
    requires head.kept <= |other| && other[..head.kept] == data[..head.kept]
    ensures ReadHead(other) == Some(head)
  {
    assert other[..4] == other[..head.kept][..4] == data[..4];
    assert head.kept > 144 ==> other[144] == other[..head.kept][144] == data[144];
  }

  /** The pieces of a written account, where a reader finds them. */
  lemma {:induction false} Pieces(kept: seq<u8>, prior: bool, voters: seq<Voter>, pad: nat)
    requires Keys(voters)
    ensures var bytes, k, n := FreshVote(kept, prior, voters) + Zeros(pad), |kept|, 40 * |voters|;
            && |bytes| == k + 17 + n + |EmptyHistory(prior)| + pad
            && bytes[..k] == kept
            && Holds(bytes, k, ToLE(0, 8))
            && Holds(bytes, k + 8, [0])
            && Holds(bytes, k + 9, ToLE(|voters|, 8))
            && Holds(bytes, k + 17, VotersBytes(voters))
            && Holds(bytes, k + 17 + n, EmptyHistory(prior))
            && Holds(bytes, k + 17 + n + |EmptyHistory(prior)|, Zeros(pad))
  {
    VotersLength(voters);
    var zero, count, keys, history := ToLE(0, 8), ToLE(|voters|, 8), VotersBytes(voters), EmptyHistory(prior);
    var bytes := FreshVote(kept, prior, voters) + Zeros(pad);
    assert bytes == kept + zero + [0] + count + keys + history + Zeros(pad);
    hide ToLE; hide EmptyHistory; hide VotersBytes; hide Zeros; hide FreshVote;
    assert Holds(bytes, 0, bytes);
    HoldsBoth(bytes, 0, kept + zero + [0] + count + keys + history, Zeros(pad));
    HoldsBoth(bytes, 0, kept + zero + [0] + count + keys, history);
    HoldsBoth(bytes, 0, kept + zero + [0] + count, keys);
    HoldsBoth(bytes, 0, kept + zero + [0], count);
    HoldsBoth(bytes, 0, kept + zero, [0]);
    HoldsBoth(bytes, 0, kept, zero);
    assert bytes[..|kept|] == kept;
    hide Holds;
  }

  /** No prior voter, no credits and no timestamp from `end` on, and no other
      byte after them. */
  ghost predicate HasNoHistory(data: seq<u8>, prior: bool, end: nat) {
    && Holds(data, end, EmptyHistory(prior))
    && forall i :: end + |EmptyHistory(prior)| <= i < |data| ==> data[i] == 0
  }

  lemma {:induction false} ZerosAreZero(data: seq<u8>, at: nat, n: nat)
    requires Holds(data, at, Zeros(n)) && at + n == |data|
    ensures forall i :: at <= i < |data| ==> data[i] == 0
  {
    forall i | at <= i < |data| ensures data[i] == 0 {
      assert data[i] == data[at..at + n][i - at];
    }
  }

  lemma {:induction false} ReadsTheCount(data: seq<u8>, head: Head, voters: seq<Voter>, at: nat)
    requires Keys(voters) && |voters| <= U64_MAX
    requires Holds(data, at, [0]) && Holds(data, at + 1, ToLE(|voters|, 8)) && Holds(data, at + 9, VotersBytes(voters))
    ensures ReadVoters(data, head, 0, at) == Some(Ballot(head, 0, None, voters, at + 9 + 40 * |voters|))
  {
    hide VotersAt; hide VotersBytes; hide U64At; hide ToLE; hide FromLE; hide Keys;
    U64AtIs(data, at + 1, |voters|);
    VotersRead(data, at + 9, voters);
    assert data[at] == data[at..at + 1][0] == 0;
    hide Holds;
  }

  /** The fields after the first `k` bytes, as the reset writes them. */
  ghost predicate Written(data: seq<u8>, k: nat, prior: bool, voters: seq<Voter>) {
    && Holds(data, k, ToLE(0, 8))
    && Holds(data, k + 8, [0])
    && Holds(data, k + 9, ToLE(|voters|, 8))
    && Holds(data, k + 17, VotersBytes(voters))
    && HasNoHistory(data, prior, k + 17 + 40 * |voters|)
  }

  lemma {:induction false} IsWritten(kept: seq<u8>, prior: bool, voters: seq<Voter>, len: nat, after: seq<u8>)
    requires Keys(voters) && Padded(FreshVote(kept, prior, voters), len) == Some(after)
    ensures |kept| <= |after| == len && after[..|kept|] == kept && Written(after, |kept|, prior, voters)
  {
    hide FreshVote; hide EmptyHistory; hide ToLE; hide VotersBytes; hide Keys; hide Holds;
    var pad := len - |FreshVote(kept, prior, voters)|;
    Pieces(kept, prior, voters, pad);
    hide Zeros; hide Padded;
    ZerosAreZero(after, |kept| + 17 + 40 * |voters| + |EmptyHistory(prior)|, pad);
  }

  lemma {:induction false} ReadsTheBallot(data: seq<u8>, head: Head, voters: seq<Voter>)
    requires Keys(voters) && |voters| <= U64_MAX && ReadHead(data) == Some(head)
    requires Written(data, head.kept, head.prior, voters)
    ensures ReadBallot(data) == Some(Ballot(head, 0, None, voters, head.kept + 17 + 40 * |voters|))
  {
    hide ToLE; hide FromLE; hide VotersBytes; hide U64At; hide Keys; hide ReadVoters; hide ReadHead; hide HasNoHistory;
    ReadsTheCount(data, head, voters, head.kept + 8);
    U64AtIs(data, head.kept, 0);
    assert head.kept + 9 <= |data|;
    hide Holds;
    assert 0 * head.voteLen == 0;
  }

  /** A reader of the new account finds the rebased voters, no vote, no root and
      no history, and the same fields before them. */
  lemma {:induction false} WrittenReadsBack(data: seq<u8>, head: Head, voters: seq<Voter>, after: seq<u8>)
    requires ReadHead(data) == Some(head) && Keys(voters) && |voters| <= U64_MAX
    requires Padded(FreshVote(data[..head.kept], head.prior, voters), |data|) == Some(after)
    ensures |after| == |data| && after[..head.kept] == data[..head.kept]
    ensures var end := head.kept + 17 + 40 * |voters|;
            ReadBallot(after) == Some(Ballot(head, 0, None, voters, end)) && HasNoHistory(after, head.prior, end)
  {
    hide FreshVote; hide Padded; hide ReadHead; hide ReadBallot; hide Keys; hide HasNoHistory; hide Holds; hide VotersBytes;
    IsWritten(data[..head.kept], head.prior, voters, |data|, after);
    HeadStays(data, after, head);
    ReadsTheBallot(after, head, voters);
  }

  lemma {:induction false} BallotKeys(data: seq<u8>)
    requires ReadBallot(data).Some?
    ensures var b := ReadBallot(data).value;
            Keys(b.voters) && ReadHead(data) == Some(b.head) && 40 * |b.voters| <= b.end <= |data|
  {
    var head := ReadHead(data).value;
    var votes := U64At(data, head.kept);
    var at := head.kept + 8 + votes * head.voteLen;
    var next := at + 1 + if data[at] == 1 then 8 else 0;
    KeysRead(data, next + 8, U64At(data, next));
    hide VotersAt; hide ReadHead; hide U64At;
  }

  /** What a reset account says: the same voters at the same distance from the
      halt, and nothing of its history. */
  lemma {:induction false} ResetMeans(data: seq<u8>, source: u64)
    requires |data| <= U64_MAX && ResetVoteOf(data, source).Some?
    ensures ReadBallot(data).Some? && ReadBallot(data).value.voters != []
    ensures var b, after := ReadBallot(data).value, ResetVoteOf(data, source).value;
            var voters := RebaseVoters(b.voters, source).value;
            var end := b.head.kept + 17 + 40 * |voters|;
            && |after| == |data| && b.head.kept <= |data|
            && after[..b.head.kept] == data[..b.head.kept]
            && ReadBallot(after) == Some(Ballot(b.head, 0, None, voters, end))
            && HasNoHistory(after, b.head.prior, end)
  {
    hide ReadBallot; hide ReadHead; hide FreshVote; hide HasNoHistory; hide Keys; hide Padded; hide RebaseVoters;
    var b := ReadBallot(data).value;
    BallotKeys(data);
    RebasedLength(b.voters, source);
    KeysRebase(b.voters, source);
    WrittenReadsBack(data, b.head, RebaseVoters(b.voters, source).value, ResetVoteOf(data, source).value);
  }

  lemma {:induction false} RebasedLength(voters: seq<Voter>, source: u64)
    requires RebaseVoters(voters, source).Some?
    ensures voters != [] && |RebaseVoters(voters, source).value| <= |voters| + 1
  {
    LaterAreLater(voters, source);
    hide LaterVoters; hide LastAtOrBefore;
  }

  /** The reset, end to end: who may vote at an epoch of the new chain is who
      might vote at the same distance from the halt on the old chain, exactly
      when the old chain had a voter there. */
  lemma {:induction false} ResetKeepsTheVoters(data: seq<u8>, source: u64, e: nat)
    requires |data| <= U64_MAX && ResetVoteOf(data, source).Some?
    requires InOrder(ReadBallot(data).value.voters)
    ensures ReadBallot(ResetVoteOf(data, source).value).Some?
    ensures var was, now := ReadBallot(data).value.voters, ReadBallot(ResetVoteOf(data, source).value).value.voters;
            && was != []
            && (SameVoterInForce(was, now, source, e) <==> was[0].epoch <= source + e)
  {
    ResetMeans(data, source);
    VotersKeepTheirEpochs(ReadBallot(data).value.voters, source, e);
    hide ReadBallot; hide ResetVoteOf; hide InOrder; hide SameVoterInForce;
  }

  /** A reset account is a fixed point of the reset at epoch 0. */
  lemma {:induction false} ResetStays(data: seq<u8>, source: u64)
    requires |data| <= U64_MAX && ResetVoteOf(data, source).Some?
    ensures ResetVoteOf(ResetVoteOf(data, source).value, 0) == ResetVoteOf(data, source)
  {
    ResetMeans(data, source);
    RebasedStays(ReadBallot(data).value.voters, source);
    hide ReadBallot; hide RebaseVoters; hide FreshVote; hide EmptyHistory; hide Zeros;
  }

  /** When a reset happens: the voters read, there is one, and the new account
      fits into the old one. */
  lemma {:induction false} ResetHappens(data: seq<u8>, source: u64)
    ensures ResetVoteOf(data, source).Some?
       <==> && ReadBallot(data).Some?
            && var b := ReadBallot(data).value;
               && b.voters != []
               && var kept := |LaterVoters(b.voters, source)| + 1;
                  b.head.kept + 17 + 40 * kept + (if b.head.prior then 1545 else 0) + 24 <= |data|
  {
    if ReadBallot(data).Some? && ReadBallot(data).value.voters != [] {
      var b := ReadBallot(data).value;
      BallotKeys(data);
      KeysRebase(b.voters, source);
      var voters := RebaseVoters(b.voters, source).value;
      hide ReadBallot; hide ReadHead;
      Pieces(data[..b.head.kept], b.head.prior, voters, 0);
      assert FreshVote(data[..b.head.kept], b.head.prior, voters) + Zeros(0)
          == FreshVote(data[..b.head.kept], b.head.prior, voters);
      hide FreshVote; hide LaterVoters; hide LastAtOrBefore;
    }
  }
}
