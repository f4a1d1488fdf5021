/** Which accounts of a loader hold a real program (`program_ids` in
    daemon/src/migrate.rs): the states that the loaders write. */
module Programs {
  import opened Prelude
  import opened Bytes
  import opened Migrate
  import opened OwnerWalk
  import opened Withdrawers

  // ---------------------------------------------------------------- the states

  /** A program of loader v4: the slot of its deployment, its authority and its
      status: 0 retracted, 1 deployed, 2 finalized. */
  ghost function WrittenV4(slot: u64, authority: Pubkey, status: u64, rest: seq<u8>): seq<u8> {
    ToLE(slot, 8) + ToLE(authority, 32) + ToLE(status, 8) + rest
  }

  /** The state of an upgradeable program: its tag, and the key of its program data. */
  ghost function WrittenProgram(programData: Pubkey, rest: seq<u8>): seq<u8> {
    ToLE(2, 4) + ToLE(programData, 32) + rest
  }

  /** A finalized program, or any other one with an authority. */
  ghost predicate IsV4State(data: seq<u8>) {
    exists slot: u64, authority: Pubkey, status: u64, rest ::
      && data == WrittenV4(slot, authority, status, rest)
      && IsKey(authority) && (status == 2 || (status <= 1 && authority != 0))
  }

  ghost predicate StartsWith(data: seq<u8>, tag: seq<u8>) {
    exists rest :: data == tag + rest
  }

  ghost predicate IsProgramData(bank: seq<Owned>, owner: Pubkey, key: Pubkey) {
    exists a :: Owned(owner, a) in bank && a.pubkey == key && StartsWith(a.data, ToLE(3, 4))
  }

  const ELF_MAGIC: seq<u8> := [0x7f, 'E' as u8, 'L' as u8, 'F' as u8]

  ghost predicate IsProgramOf(data: seq<u8>, programData: Pubkey) {
    IsKey(programData) && exists rest :: data == WrittenProgram(programData, rest)
  }

  /** The account is a program, by what its owner writes for one. */
  ghost predicate IsRealProgram(bank: seq<Owned>, owner: Pubkey, a: RawAccount) {
    if owner == NATIVE_LOADER then a.executable || a.pubkey in BUILTINS
    else if owner in {BPF_LOADER1, BPF_LOADER2} then StartsWith(a.data, ELF_MAGIC)
    else if owner == LOADER_V4 then IsV4State(a.data)
    else if owner == UPGRADEABLE_LOADER then
      exists key: Pubkey :: IsProgramOf(a.data, key) && IsProgramData(bank, owner, key)
    else a.executable
  }

  // ----------------------------------------------------------------- the readers

  lemma {:induction false} ZeroBytes(bytes: seq<u8>)
    ensures FromLE(bytes) == 0 <==> forall i :: 0 <= i < |bytes| ==> bytes[i] == 0
  {
    if bytes != [] {
      ZeroBytes(bytes[1..]);
      assert forall i :: 0 < i < |bytes| ==> bytes[i] == bytes[1..][i - 1];
    }
  }

  lemma {:induction false} TagIs(data: seq<u8>, tag: seq<u8>)
    ensures HasTag(data, tag) <==> StartsWith(data, tag)
  {
    if HasTag(data, tag) { assert data == tag + data[|tag|..]; }
  }

  lemma {:induction false} TagBytes()
    ensures ToLE(2, 4) == [2, 0, 0, 0] && ToLE(3, 4) == [3, 0, 0, 0]
  {
    assert ToLE(0, 1) == [0] && ToLE(0, 2) == [0] + ToLE(0, 1) && ToLE(0, 3) == [0] + ToLE(0, 2);
    assert ToLE(2, 4) == [2] + ToLE(0, 3) && ToLE(3, 4) == [3] + ToLE(0, 3);
  }

  lemma {:induction false} V4Reads(slot: u64, authority: Pubkey, status: u64, rest: seq<u8>)
    requires IsKey(authority)
    ensures IsV4Program(WrittenV4(slot, authority, status, rest)) <==> status == 2 || (status <= 1 && authority != 0)
  {
    hide ToLE; hide FromLE; hide Pow256;
    var data := WrittenV4(slot, authority, status, rest);
    Pow256Eight();
    ReadsBack(data, ToLE(slot, 8) + ToLE(authority, 32), status, 8, rest);
    assert data == ToLE(slot, 8) + ToLE(authority, 32) + (ToLE(status, 8) + rest);
    ReadsBack(data, ToLE(slot, 8), authority, 32, ToLE(status, 8) + rest);
    ZeroBytes(data[8..40]);
    assert forall i :: 8 <= i < 40 ==> data[i] == data[8..40][i - 8];
    assert forall i :: 0 <= i < 32 ==> data[8..40][i] == data[8 + i];
  }

  lemma {:induction false} V4IsWritten(data: seq<u8>)
    requires |data| >= 48
    ensures FromLE(data[..8]) <= U64_MAX && IsKey(FromLE(data[8..40])) && FromLE(data[40..48]) <= U64_MAX
    ensures data == WrittenV4(FromLE(data[..8]), FromLE(data[8..40]), FromLE(data[40..48]), data[48..])
  {
    hide ToLE; hide FromLE; hide Pow256;
    Pow256Eight();
    assert data[..8] == data[0..8];
    IsWritten(data, 0, 8);
    IsWritten(data, 8, 40);
    IsWritten(data, 40, 48);
    assert data == data[..8] + data[8..40] + data[40..48] + data[48..];
  }

  lemma {:induction false} V4Is(data: seq<u8>)
    ensures IsV4Program(data) <==> IsV4State(data)
  {
    hide WrittenV4; hide FromLE; hide IsKey; hide IsV4Program;
    if IsV4State(data) {
      var slot: u64, authority: Pubkey, status: u64, rest :|
        && data == WrittenV4(slot, authority, status, rest)
        && IsKey(authority) && (status == 2 || (status <= 1 && authority != 0));
      V4Reads(slot, authority, status, rest);
    }
    if IsV4Program(data) { V4HasState(data); }
  }

  lemma {:induction false} V4HasState(data: seq<u8>)
    requires IsV4Program(data)
    ensures IsV4State(data)
  {
    hide ToLE; hide FromLE; hide Pow256; hide IsKey; hide WrittenV4;
    assert |data| >= 48;
    V4IsWritten(data);
    V4Reads(FromLE(data[..8]), FromLE(data[8..40]), FromLE(data[40..48]), data[48..]);
    hide IsV4Program;
  }

  lemma {:induction false} ProgramReads(data: seq<u8>, key: Pubkey)
    ensures HasTag(data, [2, 0, 0, 0]) && |data| >= 36 && FromLE(data[4..36]) == key
       <==> IsProgramOf(data, key)
  {
    hide ToLE; hide FromLE; hide Pow256;
    TagBytes();
    if IsProgramOf(data, key) {
      var rest :| data == WrittenProgram(key, rest);
      ReadsBack(data, ToLE(2, 4), key, 32, rest);
    }
    if HasTag(data, [2, 0, 0, 0]) && |data| >= 36 {
      IsWritten(data, 4, 36);
      assert data == data[..4] + data[4..36] + data[36..];
      assert data == WrittenProgram(FromLE(data[4..36]), data[36..]);
    }
  }

  lemma {:induction false} ProgramDataIs(bank: seq<Owned>, owner: Pubkey, key: Pubkey)
    ensures key in ProgramDataOf(AccountsOf(bank, owner)) <==> IsProgramData(bank, owner, key)
  {
    hide ToLE; hide AccountsOf;
    TagBytes();
    forall a: RawAccount ensures HasTag(a.data, [3, 0, 0, 0]) <==> StartsWith(a.data, ToLE(3, 4)) {
      TagIs(a.data, [3, 0, 0, 0]);
    }
    hide HasTag; hide StartsWith;
  }

  lemma {:induction false} ProgramIs(bank: seq<Owned>, owner: Pubkey, a: RawAccount)
    ensures IsProgram(owner, a, ProgramDataOf(AccountsOf(bank, owner))) <==> IsRealProgram(bank, owner, a)
  {
    hide ToLE; hide FromLE; hide ProgramDataOf; hide AccountsOf; hide HasTag; hide IsV4Program; hide IsV4State;
    hide IsProgramData; hide IsProgramOf; hide StartsWith;
    assert ELF_MAGIC == [0x7f, 0x45, 0x4c, 0x46];
    TagIs(a.data, ELF_MAGIC);
    V4Is(a.data);
    forall key: Pubkey
      ensures HasTag(a.data, [2, 0, 0, 0]) && |a.data| >= 36 && FromLE(a.data[4..36]) == key
         <==> IsProgramOf(a.data, key)
    {
      ProgramReads(a.data, key);
    }
    if HasTag(a.data, [2, 0, 0, 0]) && |a.data| >= 36 {
      assert IsProgramOf(a.data, FromLE(a.data[4..36]));
    }
    forall key: Pubkey ensures key in ProgramDataOf(AccountsOf(bank, owner)) <==> IsProgramData(bank, owner, key) {
      ProgramDataIs(bank, owner, key);
    }
  }

  /** The walk goes on to a key from an owner if and only if the bank has an
      account of that owner at the key that holds a real program. */
  lemma {:induction false} NamesAreThePrograms(bank: seq<Owned>, owner: Pubkey, k: Pubkey)
    ensures k in Names(bank, owner) <==>
              exists a :: Owned(owner, a) in bank && a.pubkey == k && IsRealProgram(bank, owner, a)
  {
    hide IsProgram; hide ProgramDataOf; hide IsRealProgram;
    forall a: RawAccount
      ensures IsProgram(owner, a, ProgramDataOf(AccountsOf(bank, owner))) <==> IsRealProgram(bank, owner, a)
    {
      ProgramIs(bank, owner, a);
    }
  }

  /** The walk starts from the roots and from each executable account of the
      system program and of the bridge. */
  lemma {:induction false} StartsAre(bank: seq<Owned>, bridge: Pubkey, k: Pubkey)
    ensures k in Starts(bank, bridge) <==>
              || k in ROOTS
              || exists x :: x in bank && x.owner in {SYSTEM_PROGRAM, bridge} && x.account.pubkey == k && x.account.executable
  {
    hide AccountsOf; hide Executables;
    if x :| x in bank && x.owner in {SYSTEM_PROGRAM, bridge} && x.account.pubkey == k && x.account.executable {
      assert x == Owned(x.owner, x.account);
    }
  }
}
