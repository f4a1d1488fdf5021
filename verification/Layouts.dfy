/** The accounts that `rebase_to_slot_zero` moves (daemon/src/genesis.rs),
    written out field by field: which fields the move changes, and how. */
module Layouts {
  import opened Prelude
  import opened Bytes
  import opened VoteReset
  import opened VoteAccount
  import opened TransferFees
  import opened SlotZero

  // ------------------------------------------------------------------ one field

  /** A field of eight bytes between two others. */
  ghost function Field(front: seq<u8>, x: nat, rest: seq<u8>): seq<u8> { front + ToLE(x, 8) + rest }

  lemma {:induction false} FieldReads(front: seq<u8>, x: u64, rest: seq<u8>)
    ensures U64At(Field(front, x, rest), |front|) == x
  {
    hide ToLE;
    assert Field(front, x, rest)[|front|..|front| + 8] == ToLE(x, 8);
    U64AtIs(Field(front, x, rest), |front|, x);
  }

  lemma {:induction false} FieldSets(front: seq<u8>, was: nat, rest: seq<u8>, x: u64)
    ensures SetU64(Field(front, was, rest), |front|, x) == Field(front, x, rest)
  {
    hide ToLE;
    var data := Field(front, was, rest);
    assert data[..|front|] == front && data[|front| + 8..] == rest;
  }

  /** The epoch that never comes stays, any other value becomes 0. */
  ghost function Zeroed(x: u64): u64 { if x == U64_MAX then U64_MAX else 0 }

  lemma {:induction false} FieldToZero(front: seq<u8>, x: u64, rest: seq<u8>, keepMax: bool)
    ensures ToZero(Field(front, x, rest), |front|, keepMax) == Field(front, if keepMax then Zeroed(x) else 0, rest)
  {
    FieldReads(front, x, rest);
    NeverIsMax(Field(front, x, rest), |front|);
    FieldSets(front, x, rest, 0);
    hide Field; hide IsNever; hide SetU64; hide U64At;
    assert |Field(front, x, rest)| >= |front| + 8 by { FieldLength(front, x, rest); }
  }

  lemma {:induction false} FieldLength(front: seq<u8>, x: nat, rest: seq<u8>)
    ensures |Field(front, x, rest)| == |front| + 8 + |rest|
  {
  }

  lemma {:induction false} FieldBack(front: seq<u8>, x: u64, rest: seq<u8>, source: u64)
    ensures Back(Field(front, x, rest), |front|, source) == Field(front, Max(x - source, 0), rest)
  {
    hide Field; hide MoveEpoch;
    FieldMoves(front, x, rest, source);
  }

  lemma {:induction false} TagReads(tag: u32, rest: seq<u8>)
    ensures Tag(ToLE(tag, 4) + rest) == Some(tag)
  {
    hide ToLE; hide FromLE;
    Pow256Eight();
    LERoundTrip(tag, 4);
    assert (ToLE(tag, 4) + rest)[..4] == ToLE(tag, 4);
  }

  // ------------------------------------------------------- programs and lookup tables

  /** Program data holds its tag and the slot of its deployment. The slot becomes
      0, and an account of the loader with another tag stays. */
  lemma {:induction false} ProgramDataMoves(tag: u32, slot: u64, rest: seq<u8>, source: u64)
    ensures AtSlotZero(UpgradeableLoader, Field(ToLE(tag, 4), slot, rest), source)
         == Field(ToLE(tag, 4), if tag == 3 then 0 else slot, rest)
  {
    hide ToLE; hide Tag; hide ToZero; hide FromLE;
    TagReads(tag, ToLE(slot, 8) + rest);
    assert Field(ToLE(tag, 4), slot, rest) == ToLE(tag, 4) + (ToLE(slot, 8) + rest);
    FieldToZero(ToLE(tag, 4), slot, rest, false);
  }

  /** A program of loader v4 starts with the slot of its deployment. */
  lemma {:induction false} LoaderV4Moves(slot: u64, rest: seq<u8>, source: u64)
    ensures AtSlotZero(LoaderV4, Field([], slot, rest), source) == Field([], 0, rest)
  {
    hide ToLE; hide ToZero;
    FieldToZero([], slot, rest, false);
  }

  ghost function WrittenTable(tag: u32, deactivated: u64, extended: u64, rest: seq<u8>): seq<u8> {
    Field(ToLE(tag, 4), deactivated, ToLE(extended, 8) + rest)
  }

  /** A lookup table holds its tag, the slot of its deactivation and that of its
      last extension. Both become 0, but a table that is not deactivated stays so. */
  lemma {:induction false} LookupTableMoves(tag: u32, deactivated: u64, extended: u64, rest: seq<u8>, source: u64)
    ensures AtSlotZero(LookupTable, WrittenTable(tag, deactivated, extended, rest), source)
         == if tag == 1 then WrittenTable(tag, Zeroed(deactivated), 0, rest)
            else WrittenTable(tag, deactivated, extended, rest)
  {
    hide ToLE; hide Tag; hide ToZero; hide FromLE;
    var head := ToLE(tag, 4);
    TagReads(tag, ToLE(deactivated, 8) + (ToLE(extended, 8) + rest));
    assert WrittenTable(tag, deactivated, extended, rest) == head + (ToLE(deactivated, 8) + (ToLE(extended, 8) + rest));
    FieldToZero(head, deactivated, ToLE(extended, 8) + rest, true);
    var front := head + ToLE(Zeroed(deactivated), 8);
    FieldToZero(front, extended, rest, false);
    assert WrittenTable(tag, Zeroed(deactivated), extended, rest) == Field(front, extended, rest);
    assert WrittenTable(tag, Zeroed(deactivated), 0, rest) == Field(front, 0, rest);
  }

  // --------------------------------------------------------------------- stakes

  /** The fields of a stake before its lockup epoch: tag, reserve, staker,
      withdrawer and the time of the lockup. */
  ghost function StakeHead(tag: u32, reserve: u64, staker: nat, withdrawer: nat, time: u64): seq<u8> {
    ToLE(tag, 4) + ToLE(reserve, 8) + ToLE(staker, 32) + ToLE(withdrawer, 32) + ToLE(time, 8)
  }

  /** The fields between the lockup epoch and the activation: custodian, voter
      and the lamports of the delegation. */
  ghost function Delegation(custodian: nat, voter: nat, lamports: u64): seq<u8> {
    ToLE(custodian, 32) + ToLE(voter, 32) + ToLE(lamports, 8)
  }

  ghost function WrittenDelegated(
    head: seq<u8>, lockup: u64, delegation: seq<u8>, activation: u64, deactivation: u64, rest: seq<u8>): seq<u8>
  {
    Field(head, lockup, delegation + ToLE(activation, 8) + ToLE(deactivation, 8) + rest)
  }

  lemma {:induction false} HeadTag(tag: u32, reserve: u64, staker: nat, withdrawer: nat, time: u64, rest: seq<u8>)
    ensures |StakeHead(tag, reserve, staker, withdrawer, time)| == 84
    ensures Tag(StakeHead(tag, reserve, staker, withdrawer, time) + rest) == Some(tag)
  {
    hide ToLE; hide Tag;
    var tail := ToLE(reserve, 8) + ToLE(staker, 32) + ToLE(withdrawer, 32) + ToLE(time, 8);
    assert StakeHead(tag, reserve, staker, withdrawer, time) + rest == ToLE(tag, 4) + (tail + rest);
    TagReads(tag, tail + rest);
  }

  /** A stake without a delegation: only its lockup epoch moves. */
  lemma {:induction false} InitializedStakeMoves(
    reserve: u64, staker: nat, withdrawer: nat, time: u64, lockup: u64, rest: seq<u8>, source: u64)
    ensures var head := StakeHead(1, reserve, staker, withdrawer, time);
            AtSlotZero(Stake, Field(head, lockup, rest), source) == Field(head, Max(lockup - source, 0), rest)
  {
    hide ToLE; hide Tag; hide Back; hide ToZero; hide StakeHead;
    var head := StakeHead(1, reserve, staker, withdrawer, time);
    HeadTag(1, reserve, staker, withdrawer, time, ToLE(lockup, 8) + rest);
    assert Field(head, lockup, rest) == head + (ToLE(lockup, 8) + rest);
    FieldBack(head, lockup, rest, source);
  }

  lemma {:induction false} ActivationField(
    head: seq<u8>, lockup: u64, delegation: seq<u8>, activation: u64, deactivation: u64, rest: seq<u8>)
    ensures WrittenDelegated(head, lockup, delegation, activation, deactivation, rest)
         == Field(head + ToLE(lockup, 8) + delegation, activation, ToLE(deactivation, 8) + rest)
         == Field(head + ToLE(lockup, 8) + delegation + ToLE(activation, 8), deactivation, rest)
  {
    hide ToLE;
  }

  /** A delegated stake: its lockup epoch keeps what it has left, and the epochs
      of its delegation become 0, unless they never come. */
  lemma {:induction false} DelegatedStakeMoves(
    reserve: u64, staker: nat, withdrawer: nat, time: u64, lockup: u64,
    custodian: nat, voter: nat, lamports: u64, activation: u64, deactivation: u64, rest: seq<u8>, source: u64)
    ensures var head, d := StakeHead(2, reserve, staker, withdrawer, time), Delegation(custodian, voter, lamports);
            AtSlotZero(Stake, WrittenDelegated(head, lockup, d, activation, deactivation, rest), source)
              == WrittenDelegated(head, Max(lockup - source, 0), d, Zeroed(activation), Zeroed(deactivation), rest)
  {
    hide ToLE; hide Tag; hide Back; hide ToZero; hide StakeHead;
    var head, d := StakeHead(2, reserve, staker, withdrawer, time), Delegation(custodian, voter, lamports);
    assert |d| == 72;
    hide Delegation;
    var tail := d + ToLE(activation, 8) + ToLE(deactivation, 8) + rest;
    HeadTag(2, reserve, staker, withdrawer, time, ToLE(lockup, 8) + tail);
    assert Field(head, lockup, tail) == head + (ToLE(lockup, 8) + tail);
    FieldBack(head, lockup, tail, source);
    var left: u64 := Max(lockup - source, 0);
    ActivationField(head, left, d, activation, deactivation, rest);
    ActivationField(head, left, d, Zeroed(activation), deactivation, rest);
    ActivationField(head, left, d, Zeroed(activation), Zeroed(deactivation), rest);
    FieldToZero(head + ToLE(left, 8) + d, activation, ToLE(deactivation, 8) + rest, true);
    FieldToZero(head + ToLE(left, 8) + d + ToLE(Zeroed(activation), 8), deactivation, rest, true);
    hide Field;
  }

  // -------------------------------------------------------------- transfer fees

  /** One fee: from which epoch on, at most how much, and its basis points. */
  datatype Fee = Fee(epoch: u64, most: u64, points: u16)

  ghost function WrittenFee(fee: Fee): seq<u8> { ToLE(fee.epoch, 8) + ToLE(fee.most, 8) + ToLE(fee.points, 2) }

  /** The transfer fee extension of a mint: two authorities, the withheld
      tokens, the older and the newer fee. */
  ghost function WrittenConfig(authority: nat, withdrawer: nat, withheld: u64, older: Fee, newer: Fee): seq<u8> {
    ToLE(authority, 32) + ToLE(withdrawer, 32) + ToLE(withheld, 8) + WrittenFee(older) + WrittenFee(newer)
  }

  ghost function MovedFee(fee: Fee, source: u64): Fee { fee.(epoch := Max(fee.epoch - source, 0)) }

  lemma {:induction false} ConfigFields(front: seq<u8>, keys: seq<u8>, older: Fee, newer: Fee, rest: seq<u8>)
    ensures var tail := ToLE(older.most, 8) + ToLE(older.points, 2);
            front + (keys + WrittenFee(older) + WrittenFee(newer)) + rest
              == Field(front + keys, older.epoch, tail + WrittenFee(newer) + rest)
              == Field(front + keys + ToLE(older.epoch, 8) + tail, newer.epoch,
                       ToLE(newer.most, 8) + ToLE(newer.points, 2) + rest)
  {
    hide ToLE;
  }

  /** Both epochs of a written fee extension move back, and nothing else changes. */
  lemma {:induction false} FeeConfigMoves(
    front: seq<u8>, authority: nat, withdrawer: nat, withheld: u64, older: Fee, newer: Fee, rest: seq<u8>, source: u64)
    requires FeeAt(front + WrittenConfig(authority, withdrawer, withheld, older, newer) + rest) == Some(|front|)
    ensures RebasedFees(front + WrittenConfig(authority, withdrawer, withheld, older, newer) + rest, source)
         == front + WrittenConfig(authority, withdrawer, withheld, MovedFee(older, source), MovedFee(newer, source)) + rest
  {
    hide ToLE; hide FeeAt; hide WrittenFee; hide MoveEpoch;
    var keys := ToLE(authority, 32) + ToLE(withdrawer, 32) + ToLE(withheld, 8);
    var first, second := MovedFee(older, source), MovedFee(newer, source);
    ConfigFields(front, keys, older, newer, rest);
    ConfigFields(front, keys, first, newer, rest);
    ConfigFields(front, keys, first, second, rest);
    var tail := ToLE(older.most, 8) + ToLE(older.points, 2);
    hide Field;
    FieldMoves(front + keys, older.epoch, tail + WrittenFee(newer) + rest, source);
    var last := ToLE(newer.most, 8) + ToLE(newer.points, 2) + rest;
    FieldMoves(front + keys + ToLE(first.epoch, 8) + tail, newer.epoch, last, source);
  }

  lemma {:induction false} FieldMoves(front: seq<u8>, x: u64, rest: seq<u8>, source: u64)
    ensures |Field(front, x, rest)| == |front| + 8 + |rest|
    ensures MoveEpoch(Field(front, x, rest), |front|, source) == Field(front, Max(x - source, 0), rest)
  {
    FieldReads(front, x, rest);
    FieldSets(front, x, rest, SaturatingSub(x, source));
    FieldLength(front, x, rest);
    hide Field; hide SetU64; hide U64At;
  }

  // ------------------------------------------------------------------- votes

  /** A vote state up to its votes, in the three forms of 1.14.11, 3 and 4. */
  datatype VoteHead =
    | Lockouts(node: nat, withdrawer: nat, commission: u8)
    | Landed(node: nat, withdrawer: nat, commission: u8)
    | Collected(node: nat, withdrawer: nat, rewards: nat, fees: nat, commissions: u32, pending: u64, bls: Option<seq<u8>>)

  ghost function HeadBytes(h: VoteHead): seq<u8> {
    match h
    case Lockouts(node, withdrawer, commission) => ToLE(1, 4) + ToLE(node, 32) + ToLE(withdrawer, 32) + [commission]
    case Landed(node, withdrawer, commission) => ToLE(2, 4) + ToLE(node, 32) + ToLE(withdrawer, 32) + [commission]
    case Collected(node, withdrawer, rewards, fees, commissions, pending, bls) =>
      ToLE(3, 4) + ToLE(node, 32) + ToLE(withdrawer, 32) + ToLE(rewards, 32) + ToLE(fees, 32)
        + ToLE(commissions, 4) + ToLE(pending, 8) + (if bls.Some? then [1] + bls.value else [0])
  }

  /** A lockout has 12 bytes, and a landed vote one more. The two old forms keep
      the prior voters behind the voters. */
  ghost function HeadOf(h: VoteHead): Head {
    Head(|HeadBytes(h)|, if h.Lockouts? then 12 else 13, !h.Collected?)
  }

  ghost predicate IsHead(h: VoteHead) { h.Collected? && h.bls.Some? ==> |h.bls.value| == 48 }

  lemma {:induction false} HeadReadsBack(h: VoteHead, rest: seq<u8>)
    requires IsHead(h)
    ensures ReadHead(HeadBytes(h) + rest) == Some(HeadOf(h))
  {
    hide ToLE; hide FromLE;
    var data := HeadBytes(h) + rest;
    var tag: u32 := match h case Lockouts(_, _, _) => 1 case Landed(_, _, _) => 2 case Collected(_, _, _, _, _, _, _) => 3;
    Pow256Eight();
    LERoundTrip(tag, 4);
    assert data[..4] == ToLE(tag, 4);
  }

  /** The history behind the voters of a fresh vote state holds nothing: a ring
      of 32 prior voters at its last place that says it is empty, no epoch of
      credits, and a timestamp of zero at slot zero. */
  lemma {:induction false} FreshHistoryIsEmpty(prior: bool)
    ensures var bytes, at := EmptyHistory(prior), if prior then 1545 else 0;
            && |bytes| == at + 24
            && (prior ==> U64At(bytes, 1536) == 31 && bytes[1544] == 1 && forall i :: 0 <= i < 1536 ==> bytes[i] == 0)
            && forall i :: at <= i < at + 24 ==> bytes[i] == 0
  {
    hide ToLE; hide U64At;
    var ring := Zeros(1536);
    var tail := ToLE(0, 8) + Zeros(16);
    ZeroLE();
    assert forall i :: 0 <= i < 24 ==> tail[i] == 0;
    if prior {
      assert EmptyHistory(prior) == Field(ring, 31, [1] + tail);
      FieldReads(ring, 31, [1] + tail);
    } else {
      assert EmptyHistory(prior) == tail;
    }
  }

  lemma {:induction false} ZeroLE()
    ensures ToLE(0, 8) == [0, 0, 0, 0, 0, 0, 0, 0]
  {
    assert ToLE(0, 1) == [0] && ToLE(0, 2) == [0] + ToLE(0, 1);
    assert ToLE(0, 3) == [0] + ToLE(0, 2) && ToLE(0, 4) == [0] + ToLE(0, 3);
    assert ToLE(0, 5) == [0] + ToLE(0, 4) && ToLE(0, 6) == [0] + ToLE(0, 5);
    assert ToLE(0, 7) == [0] + ToLE(0, 6);
  }

  ghost function RootBytes(root: Option<u64>): seq<u8> { if root.Some? then [1] + ToLE(root.value, 8) else [0] }

  /** A whole vote state: `n` votes in `votes`, the root, the voters, and
      whatever follows. */
  ghost function WrittenBallot(
    h: VoteHead, n: u64, votes: seq<u8>, root: Option<u64>, voters: seq<Voter>, rest: seq<u8>): seq<u8>
  {
    HeadBytes(h) + ToLE(n, 8) + votes + RootBytes(root) + ToLE(|voters|, 8) + VotersBytes(voters) + rest
  }

  lemma {:induction false} VotersFollow(
    front: seq<u8>, root: Option<u64>, voters: seq<Voter>, rest: seq<u8>, data: seq<u8>, head: Head, n: u64)
    requires Keys(voters) && |voters| <= U64_MAX
    requires data == front + RootBytes(root) + ToLE(|voters|, 8) + VotersBytes(voters) + rest
    ensures var end := |front| + |RootBytes(root)| + 8 + 40 * |voters|;
            |front| < |data| && ReadVoters(data, head, n, |front|) == Some(Ballot(head, n, root, voters, end))
  {
    hide ToLE; hide VotersBytes; hide Keys; hide U64At; hide VotersAt; hide RootBytes; hide Field; hide Holds;
    var next := front + RootBytes(root);
    assert data == front + RootBytes(root) + (ToLE(|voters|, 8) + VotersBytes(voters) + rest);
    RootReads(data, front, root, ToLE(|voters|, 8) + VotersBytes(voters) + rest);
    CountReads(data, next, voters, rest);
    VotersRead(data, |next| + 8, voters);
  }

  lemma {:induction false} RootReads(data: seq<u8>, front: seq<u8>, root: Option<u64>, tail: seq<u8>)
    requires data == front + RootBytes(root) + tail
    ensures |RootBytes(root)| == (if root.Some? then 9 else 1) && |front| + |RootBytes(root)| <= |data|
    ensures data[|front|] == 1 <==> root.Some?
    ensures root.Some? ==> U64At(data, |front| + 1) == root.value
  {
    hide ToLE; hide U64At;
    if root.Some? {
      assert data == Field(front + [1], root.value, tail);
      FieldReads(front + [1], root.value, tail);
    }
  }

  lemma {:induction false} CountReads(data: seq<u8>, front: seq<u8>, voters: seq<Voter>, rest: seq<u8>)
    requires data == front + ToLE(|voters|, 8) + VotersBytes(voters) + rest && |voters| <= U64_MAX
    ensures |front| + 8 <= |data| && U64At(data, |front|) == |voters|
    ensures Holds(data, |front| + 8, VotersBytes(voters))
  {
    hide ToLE; hide U64At; hide VotersBytes;
    assert data == Field(front, |voters|, VotersBytes(voters) + rest);
    FieldReads(front, |voters|, VotersBytes(voters) + rest);
  }

  /** The reader gives back every part of a written vote state. */
  lemma {:induction false} BallotReadsBack(
    h: VoteHead, n: u64, votes: seq<u8>, root: Option<u64>, voters: seq<Voter>, rest: seq<u8>)
    requires IsHead(h) && |votes| == n * HeadOf(h).voteLen && Keys(voters) && |voters| <= U64_MAX
    ensures var data := WrittenBallot(h, n, votes, root, voters, rest);
            ReadBallot(data)
              == Some(Ballot(HeadOf(h), n, root, voters,
                             |HeadBytes(h)| + 8 + |votes| + |RootBytes(root)| + 8 + 40 * |voters|))
  {
    hide ToLE; hide VotersBytes; hide Keys; hide U64At; hide ReadHead; hide ReadVoters; hide HeadBytes; hide RootBytes;
    var data := WrittenBallot(h, n, votes, root, voters, rest);
    var tail := votes + RootBytes(root) + ToLE(|voters|, 8) + VotersBytes(voters) + rest;
    assert data == HeadBytes(h) + (ToLE(n, 8) + tail);
    HeadReadsBack(h, ToLE(n, 8) + tail);
    assert data == Field(HeadBytes(h), n, tail);
    FieldReads(HeadBytes(h), n, tail);
    var front := HeadBytes(h) + ToLE(n, 8) + votes;
    VotersFollow(front, root, voters, rest, data, HeadOf(h), n);
  }
}
