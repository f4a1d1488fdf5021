/** Each carried account at the start of the new chain: `rebase_to_slot_zero`
    (daemon/src/genesis.rs). It writes into the data of the account. */
module SlotZero {
  import opened Prelude
  import opened Bytes
  import opened VoteReset
  import opened VoteAccount
  import opened TransferFees

  /** The owners whose accounts hold a slot or an epoch. */
  datatype Owner = UpgradeableLoader | LoaderV4 | LookupTable | Stake | Token2022 | Vote | Other

  const LOCKUP_EPOCH: nat := 84
  const ACTIVATION_EPOCH: nat := 164
  const DEACTIVATION_EPOCH: nat := 172

  function Tag(data: seq<u8>): Option<nat> {
    if |data| < 4 then None else Some(FromLE(data[..4]))
  }

  /** Eight bytes of 0xff: the epoch that never comes. */
  predicate IsNever(bytes: seq<u8>) {
    forall i :: 0 <= i < |bytes| ==> bytes[i] == 0xff
  }

  /** A field moves to 0, unless it is outside the data, or holds the epoch that
      never comes and keeps it. */
  function ToZero(data: seq<u8>, at: nat, keepMax: bool): (after: seq<u8>)
    ensures |after| == |data|
  {
    if at + 8 > |data| || (keepMax && IsNever(data[at..at + 8])) then data else SetU64(data, at, 0)
  }

  /** A field moves back by `source`, if it is inside the data. */
  function Back(data: seq<u8>, at: nat, source: u64): (after: seq<u8>)
    ensures |after| == |data|
  {
    if at + 8 > |data| then data else MoveEpoch(data, at, source)
  }

  function AtSlotZero(owner: Owner, data: seq<u8>, source: u64): seq<u8> {
    match owner
    case UpgradeableLoader => if Tag(data) == Some(3) then ToZero(data, 4, false) else data
    case LoaderV4 => ToZero(data, 0, false)
    case LookupTable => if Tag(data) == Some(1) then ToZero(ToZero(data, 4, true), 12, false) else data
    case Stake =>
      if Tag(data) == Some(1) then Back(data, LOCKUP_EPOCH, source)
      else if Tag(data) == Some(2) then
        ToZero(ToZero(Back(data, LOCKUP_EPOCH, source), ACTIVATION_EPOCH, true), DEACTIVATION_EPOCH, true)
      else data
    case Token2022 => RebasedFees(data, source)
    case Vote =>
      var reset := ResetVoteOf(data, source);
      if Tag(data).Some? && reset.Some? then reset.value else data
    case Other => data
  }

  // --------------------------------------------------------------- the method

  method SetField(data: array<u8>, at: nat, keepMax: bool)
    modifies data
    ensures data[..] == ToZero(old(data[..]), at, keepMax)
  {
    if at + 8 <= data.Length && !(keepMax && IsNever(data[at..at + 8])) {
      assert data[..][at..at + 8] == data[at..at + 8];
      WriteU64(data, at, 0);
    } else if at + 8 <= data.Length {
      assert data[..][at..at + 8] == data[at..at + 8];
    }
  }

  method MoveField(data: array<u8>, at: nat, source: u64)
    modifies data
    ensures data[..] == Back(old(data[..]), at, source)
  {
    if at + 8 <= data.Length {
      var epoch := U64At(data[..], at);
      WriteU64(data, at, SaturatingSub(epoch, source));
    }
  }

  method Overwrite(data: array<u8>, bytes: seq<u8>)
    requires |bytes| == data.Length
    modifies data
    ensures data[..] == bytes
  {
    for i := 0 to |bytes|
      invariant data[..i] == bytes[..i]
    {
      data[i] := bytes[i];
    }
  }

  method RebaseToSlotZero(owner: Owner, data: array<u8>, source: u64)
    requires data.Length <= U64_MAX
    modifies data
    ensures data[..] == AtSlotZero(owner, old(data[..]), source)
  {
    hide FromLE; hide ToZero; hide Back; hide RebasedFees; hide ResetVoteOf;
    var tag := Tag(data[..]);
    match owner
    case UpgradeableLoader => if tag == Some(3) { SetField(data, 4, false); }
    case LoaderV4 => SetField(data, 0, false);
    case LookupTable =>
      if tag == Some(1) {
        SetField(data, 4, true);
        SetField(data, 12, false);
      }
    case Stake =>
      if tag == Some(1) || tag == Some(2) {
        MoveField(data, LOCKUP_EPOCH, source);
        if tag == Some(2) {
          SetField(data, ACTIVATION_EPOCH, true);
          SetField(data, DEACTIVATION_EPOCH, true);
        }
      }
    case Token2022 => RebaseTransferFees(data, source);
    case Vote =>
      if tag.Some? {
        var reset := ResetVote(data[..], source);
        if reset.Some? {
          ResetMeans(data[..], source);
          Overwrite(data, reset.value);
        }
      }
    case Other =>
  }

  // ------------------------------------------------------- what the moves mean

  lemma {:induction false} NeverIsMax(data: seq<u8>, at: nat)
    requires at + 8 <= |data|
    ensures IsNever(data[at..at + 8]) <==> U64At(data, at) == U64_MAX
  {
    var bytes := data[at..at + 8];
    var ones: seq<u8> := seq(8, _ => 0xff);
    assert FromLE(ones) == U64_MAX by {
      assert ones == [0xff, 0xff, 0xff, 0xff, 0xff, 0xff, 0xff, 0xff];
      OnesAreMax();
    }
    if IsNever(bytes) {
      assert bytes == ones;
    }
    if FromLE(bytes) == U64_MAX {
      LEOfFromLE(bytes);
      LEOfFromLE(ones);
    }
  }

  lemma {:induction false} OnesAreMax()
    ensures FromLE([0xff, 0xff, 0xff, 0xff, 0xff, 0xff, 0xff, 0xff]) == U64_MAX
  {
    assert FromLE([0xff, 0xff]) == 0xffff;
    assert FromLE([0xff, 0xff, 0xff, 0xff]) == 0xffff_ffff;
    assert FromLE([0xff, 0xff, 0xff, 0xff, 0xff, 0xff]) == 0xffff_ffff_ffff;
  }

  lemma {:induction false} ToZeroIs(data: seq<u8>, at: nat, keepMax: bool)
    requires at + 8 <= |data|
    ensures var after := ToZero(data, at, keepMax);
            && Agree(data, after, at, at + 8)
            && U64At(after, at) == if keepMax && U64At(data, at) == U64_MAX then U64_MAX else 0
  {
    hide SetU64; hide U64At;
    NeverIsMax(data, at);
    SetU64Is(data, at, 0);
  }

  lemma {:induction false} BackIs(data: seq<u8>, at: nat, source: u64)
    requires at + 8 <= |data|
    ensures Agree(data, Back(data, at, source), at, at + 8)
    ensures U64At(Back(data, at, source), at) == Max(0, U64At(data, at) - source)
  {
    SetU64Is(data, at, SaturatingSub(U64At(data, at), source));
    hide SetU64; hide U64At;
  }

  /** A whole stake account with a delegation. */
  ghost predicate IsDelegated(data: seq<u8>) {
    Tag(data) == Some(2) && |data| >= DEACTIVATION_EPOCH + 8
  }

  /** The stake cannot leave while an epoch is before its lockup epoch. */
  ghost predicate Locked(data: seq<u8>, epoch: nat)
    requires |data| >= LOCKUP_EPOCH + 8
  {
    U64At(data, LOCKUP_EPOCH) > epoch
  }

  /** A delegation that began counts as active since epoch 0, one that ends has
      ended, one that never does either still never does, and the lockup holds
      for the same epochs as on the old chain. */
  lemma {:induction false} DelegationsKeepTheirMeaning(data: seq<u8>, source: u64, e: nat)
    requires IsDelegated(data)
    ensures var after := AtSlotZero(Stake, data, source);
            && |after| == |data|
            && (Locked(after, e) <==> Locked(data, source + e))
            && U64At(after, ACTIVATION_EPOCH) == Moved(U64At(data, ACTIVATION_EPOCH))
            && U64At(after, DEACTIVATION_EPOCH) == Moved(U64At(data, DEACTIVATION_EPOCH))
            && forall i :: 0 <= i < |data| && !InStakeEpochs(i) ==> after[i] == data[i]
  {
    hide ToZero; hide Back; hide U64At; hide FromLE;
    var locked := Back(data, LOCKUP_EPOCH, source);
    var active := ToZero(locked, ACTIVATION_EPOCH, true);
    var after := ToZero(active, DEACTIVATION_EPOCH, true);
    BackIs(data, LOCKUP_EPOCH, source);
    ToZeroIs(locked, ACTIVATION_EPOCH, true);
    ToZeroIs(active, DEACTIVATION_EPOCH, true);
    U64Same(locked, active, LOCKUP_EPOCH, ACTIVATION_EPOCH, ACTIVATION_EPOCH + 8);
    U64Same(active, after, LOCKUP_EPOCH, DEACTIVATION_EPOCH, DEACTIVATION_EPOCH + 8);
    U64Same(active, after, ACTIVATION_EPOCH, DEACTIVATION_EPOCH, DEACTIVATION_EPOCH + 8);
    U64Same(data, locked, ACTIVATION_EPOCH, LOCKUP_EPOCH, LOCKUP_EPOCH + 8);
    U64Same(data, locked, DEACTIVATION_EPOCH, LOCKUP_EPOCH, LOCKUP_EPOCH + 8);
    U64Same(locked, active, DEACTIVATION_EPOCH, ACTIVATION_EPOCH, ACTIVATION_EPOCH + 8);
  }

  /** The epoch that never comes stays, and every other one is 0. */
  function Moved(epoch: u64): u64 {
    if epoch == U64_MAX then U64_MAX else 0
  }

  ghost predicate InStakeEpochs(i: nat) {
    LOCKUP_EPOCH <= i < LOCKUP_EPOCH + 8 || ACTIVATION_EPOCH <= i < DEACTIVATION_EPOCH + 8
  }

  // ------------------------------------------------------ a second move by 0

  /** A field that `ToZero` leaves as it is. */
  ghost predicate Settled(data: seq<u8>, at: nat, keepMax: bool) {
    at + 8 <= |data| ==> U64At(data, at) == 0 || (keepMax && U64At(data, at) == U64_MAX)
  }

  lemma {:induction false} SetSame(data: seq<u8>, at: nat, x: u64)
    requires at + 8 <= |data| && U64At(data, at) == x
    ensures SetU64(data, at, x) == data
  {
    LEOfFromLE(data[at..at + 8]);
    hide ToLE; hide FromLE;
    assert data == data[..at] + data[at..at + 8] + data[at + 8..];
  }

  lemma {:induction false} SettledStays(data: seq<u8>, at: nat, keepMax: bool)
    requires Settled(data, at, keepMax)
    ensures ToZero(data, at, keepMax) == data
  {
    if at + 8 <= |data| {
      NeverIsMax(data, at);
      if U64At(data, at) == 0 { SetSame(data, at, 0); }
      hide U64At; hide SetU64;
    }
  }

  lemma {:induction false} Settles(data: seq<u8>, at: nat, keepMax: bool)
    ensures Settled(ToZero(data, at, keepMax), at, keepMax)
  {
    if at + 8 <= |data| { ToZeroIs(data, at, keepMax); }
    hide ToZero; hide U64At;
  }

  lemma {:induction false} SettledElsewhere(data: seq<u8>, at: nat, keepMax: bool, other: nat, otherKeep: bool)
    requires Settled(data, at, keepMax) && (at + 8 <= other || other + 8 <= at)
    ensures Settled(ToZero(data, other, otherKeep), at, keepMax)
  {
    if at + 8 <= |data| && other + 8 <= |data| {
      ToZeroIs(data, other, otherKeep);
      U64Same(data, ToZero(data, other, otherKeep), at, other, other + 8);
    }
    hide U64At;
  }

  lemma {:induction false} BackByNothing(data: seq<u8>, at: nat)
    ensures Back(data, at, 0) == data
  {
    if at + 8 <= |data| { SetSame(data, at, U64At(data, at)); }
    hide U64At; hide SetU64;
  }

  lemma {:induction false} TagStays(data: seq<u8>, at: nat, keepMax: bool, source: u64)
    requires at >= 4
    ensures Tag(ToZero(data, at, keepMax)) == Tag(data)
    ensures Tag(Back(data, at, source)) == Tag(data)
  {
    if at + 8 <= |data| {
      assert ToZero(data, at, keepMax)[..4] == data[..4];
      assert Back(data, at, source)[..4] == data[..4];
    }
  }

  lemma {:induction false} StakeStays(data: seq<u8>, source: u64)
    ensures AtSlotZero(Stake, AtSlotZero(Stake, data, source), 0) == AtSlotZero(Stake, data, source)
  {
    hide ToZero; hide Back; hide Tag;
    var locked := Back(data, LOCKUP_EPOCH, source);
    TagStays(data, LOCKUP_EPOCH, true, source);
    BackByNothing(locked, LOCKUP_EPOCH);
    if Tag(data) == Some(2) {
      var active := ToZero(locked, ACTIVATION_EPOCH, true);
      var after := ToZero(active, DEACTIVATION_EPOCH, true);
      TagStays(locked, ACTIVATION_EPOCH, true, 0);
      TagStays(active, DEACTIVATION_EPOCH, true, 0);
      Settles(locked, ACTIVATION_EPOCH, true);
      SettledElsewhere(active, ACTIVATION_EPOCH, true, DEACTIVATION_EPOCH, true);
      Settles(active, DEACTIVATION_EPOCH, true);
      BackByNothing(after, LOCKUP_EPOCH);
      SettledStays(after, ACTIVATION_EPOCH, true);
      SettledStays(after, DEACTIVATION_EPOCH, true);
    }
  }

  lemma {:induction false} TableStays(data: seq<u8>, source: u64)
    ensures AtSlotZero(LookupTable, AtSlotZero(LookupTable, data, source), 0) == AtSlotZero(LookupTable, data, source)
  {
    hide ToZero; hide Tag;
    var once := ToZero(data, 4, true);
    var after := ToZero(once, 12, false);
    TagStays(data, 4, true, 0);
    TagStays(once, 12, false, 0);
    Settles(data, 4, true);
    SettledElsewhere(once, 4, true, 12, false);
    Settles(once, 12, false);
    SettledStays(after, 4, true);
    SettledStays(after, 12, false);
  }

  lemma {:induction false} VoteStays(data: seq<u8>, source: u64)
    requires |data| <= U64_MAX
    ensures AtSlotZero(Vote, AtSlotZero(Vote, data, source), 0) == AtSlotZero(Vote, data, source)
  {
    hide Tag;
    if ResetVoteOf(data, source).Some? {
      ResetStays(data, source);
      ResetMeans(data, source);
      hide ResetVoteOf; hide ReadBallot;
      TagNeedsFour(data);
      TagNeedsFour(ResetVoteOf(data, source).value);
    } else if ReadBallot(data).Some? {
      LaterAreLater(ReadBallot(data).value.voters, source);
      ResetHappens(data, source);
      ResetHappens(data, 0);
      hide ResetVoteOf; hide ReadBallot;
    }
  }

  lemma {:induction false} TagNeedsFour(data: seq<u8>)
    ensures Tag(data).Some? <==> |data| >= 4
  {
  }

  /** An account at slot zero is a fixed point of a move by no epoch, for every
      owner and all bytes. */
  lemma {:induction false} SlotZeroStays(owner: Owner, data: seq<u8>, source: u64)
    requires |data| <= U64_MAX
    ensures AtSlotZero(owner, AtSlotZero(owner, data, source), 0) == AtSlotZero(owner, data, source)
  {
    hide ToZero; hide Back; hide Tag; hide RebasedFees; hide ResetVoteOf;
    match owner
    case UpgradeableLoader =>
      Settles(data, 4, false);
      SettledStays(ToZero(data, 4, false), 4, false);
      TagStays(data, 4, false, 0);
    case LoaderV4 =>
      Settles(data, 0, false);
      SettledStays(ToZero(data, 0, false), 0, false);
    case LookupTable => TableStays(data, source);
    case Stake => StakeStays(data, source);
    case Token2022 =>
      TwoMovesAreOne(data, source, 0);
    case Vote => VoteStays(data, source);
    case Other =>
  }
}
