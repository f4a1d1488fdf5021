/** Who gets the lamports of a stake or vote account in the export: the readers
    of the two layouts (daemon/src/migrate.rs), and the new chain. */
module Withdrawers {
  import opened Prelude
  import opened Bytes
  import opened Migrate
  import opened Export

  // ---------------------------------------------------------------- the layouts

  /** A key has 32 bytes. */
  ghost predicate IsKey(key: Pubkey) { key < Pow256(32) }

  /** A stake state that was written: its tag, the rent reserve, the two
      authorities, and whatever follows. */
  ghost function WrittenStake(tag: u32, reserve: u64, staker: Pubkey, withdrawer: Pubkey, rest: seq<u8>): seq<u8> {
    ToLE(tag, 4) + ToLE(reserve, 8) + ToLE(staker, 32) + ToLE(withdrawer, 32) + rest
  }

  /** A vote state that was written: its tag, the node, the withdrawer, and
      whatever follows. */
  ghost function WrittenVote(tag: u32, node: Pubkey, withdrawer: Pubkey, rest: seq<u8>): seq<u8> {
    ToLE(tag, 4) + ToLE(node, 32) + ToLE(withdrawer, 32) + rest
  }

  /** An initialized stake account, delegated or not, of this withdrawer. */
  ghost predicate IsStakeOf(data: seq<u8>, w: Pubkey) {
    IsKey(w) && exists tag: u32, reserve: u64, staker: Pubkey, rest ::
      1 <= tag <= 2 && IsKey(staker) && data == WrittenStake(tag, reserve, staker, w, rest)
  }

  /** A vote account of this withdrawer, of any version since 1.14.11. */
  ghost predicate IsVoteOf(data: seq<u8>, w: Pubkey) {
    IsKey(w) && exists tag: u32, node: Pubkey, rest ::
      1 <= tag <= 3 && IsKey(node) && data == WrittenVote(tag, node, w, rest)
  }

  lemma {:induction false} ReadsBack(data: seq<u8>, front: seq<u8>, x: nat, width: nat, rest: seq<u8>)
    requires data == front + ToLE(x, width) + rest && x < Pow256(width)
    ensures FromLE(data[|front|..|front| + width]) == x
  {
    assert data[|front|..|front| + width] == ToLE(x, width);
    LERoundTrip(x, width);
  }

  lemma {:induction false} StakeReads(tag: u32, reserve: u64, staker: Pubkey, w: Pubkey, rest: seq<u8>)
    requires IsKey(staker) && IsKey(w)
    ensures StakeWithdrawer(WrittenStake(tag, reserve, staker, w, rest)) == if 1 <= tag <= 2 then Some(w) else None
  {
    hide ToLE; hide FromLE; hide Pow256;
    var data := WrittenStake(tag, reserve, staker, w, rest);
    var front := ToLE(tag, 4) + ToLE(reserve, 8) + ToLE(staker, 32);
    Pow256Eight();
    assert data == [] + ToLE(tag, 4) + (ToLE(reserve, 8) + ToLE(staker, 32) + ToLE(w, 32) + rest);
    ReadsBack(data, [], tag, 4, ToLE(reserve, 8) + ToLE(staker, 32) + ToLE(w, 32) + rest);
    ReadsBack(data, front, w, 32, rest);
  }

  lemma {:induction false} VoteReads(tag: u32, node: Pubkey, w: Pubkey, rest: seq<u8>)
    requires IsKey(node) && IsKey(w)
    ensures VoteWithdrawer(WrittenVote(tag, node, w, rest)) == if 1 <= tag <= 3 then Some(w) else None
  {
    hide ToLE; hide FromLE; hide Pow256;
    var data := WrittenVote(tag, node, w, rest);
    Pow256Eight();
    assert data == [] + ToLE(tag, 4) + (ToLE(node, 32) + ToLE(w, 32) + rest);
    ReadsBack(data, [], tag, 4, ToLE(node, 32) + ToLE(w, 32) + rest);
    ReadsBack(data, ToLE(tag, 4) + ToLE(node, 32), w, 32, rest);
  }

  lemma {:induction false} IsWritten(data: seq<u8>, i: nat, j: nat)
    requires i <= j <= |data|
    ensures FromLE(data[i..j]) < Pow256(j - i) && ToLE(FromLE(data[i..j]), j - i) == data[i..j]
  {
    FromLEBound(data[i..j]);
    LEOfFromLE(data[i..j]);
  }

  lemma {:induction false} StakeIsWritten(data: seq<u8>)
    requires |data| >= 76
    ensures FromLE(data[..4]) <= U32_MAX && FromLE(data[4..12]) <= U64_MAX
    ensures IsKey(FromLE(data[12..44])) && IsKey(FromLE(data[44..76]))
    ensures data == WrittenStake(FromLE(data[..4]), FromLE(data[4..12]), FromLE(data[12..44]), FromLE(data[44..76]),
                                 data[76..])
  {
    hide ToLE; hide FromLE; hide Pow256;
    Pow256Eight();
    assert data[..4] == data[0..4];
    IsWritten(data, 0, 4);
    IsWritten(data, 4, 12);
    IsWritten(data, 12, 44);
    IsWritten(data, 44, 76);
    assert data == data[..4] + data[4..12] + data[12..44] + data[44..76] + data[76..];
  }

  lemma {:induction false} VoteIsWritten(data: seq<u8>)
    requires |data| >= 68
    ensures FromLE(data[..4]) <= U32_MAX && IsKey(FromLE(data[4..36])) && IsKey(FromLE(data[36..68]))
    ensures data == WrittenVote(FromLE(data[..4]), FromLE(data[4..36]), FromLE(data[36..68]), data[68..])
  {
    hide ToLE; hide FromLE; hide Pow256;
    Pow256Eight();
    assert data[..4] == data[0..4];
    IsWritten(data, 0, 4);
    IsWritten(data, 4, 36);
    IsWritten(data, 36, 68);
    assert data == data[..4] + data[4..36] + data[36..68] + data[68..];
  }

  /** The reader of a stake account answers a key if and only if the bytes are a
      written stake state of that withdrawer, whatever its staker. Short data
      and other tags are none. */
  lemma {:induction false} StakeWithdrawerIs(data: seq<u8>, w: Pubkey)
    ensures StakeWithdrawer(data) == Some(w) <==> IsStakeOf(data, w)
    ensures StakeWithdrawer(data).None? <==> |data| < 76 || FromLE(data[..4]) !in {1, 2}
  {
    hide WrittenStake; hide FromLE; hide IsKey;
    if IsStakeOf(data, w) {
      var tag: u32, reserve: u64, staker: Pubkey, rest :|
        1 <= tag <= 2 && IsKey(staker) && data == WrittenStake(tag, reserve, staker, w, rest);
      StakeReads(tag, reserve, staker, w, rest);
    }
    if |data| >= 76 { StakeIsWritten(data); }
  }

  /** The same for the reader of a vote account. */
  lemma {:induction false} VoteWithdrawerIs(data: seq<u8>, w: Pubkey)
    ensures VoteWithdrawer(data) == Some(w) <==> IsVoteOf(data, w)
    ensures VoteWithdrawer(data).None? <==> |data| < 68 || FromLE(data[..4]) !in {1, 2, 3}
  {
    hide WrittenVote; hide FromLE; hide IsKey;
    if IsVoteOf(data, w) {
      var tag: u32, node: Pubkey, rest :| 1 <= tag <= 3 && IsKey(node) && data == WrittenVote(tag, node, w, rest);
      VoteReads(tag, node, w, rest);
    }
    if |data| >= 68 { VoteIsWritten(data); }
  }

  // ----------------------------------------------------------------- the export

  /** The new genesis brings its own account at the key. */
  ghost predicate IsReplaced(key: Pubkey, p: Pubkey) { key in GENESIS_KEYS || key == p }

  /** A stake or vote account of the withdrawer, at a key that is not replaced. */
  ghost predicate BelongsTo(item: Item, p: Pubkey, w: Pubkey) {
    && item.OfOwner? && !IsReplaced(item.x.account.pubkey, p)
    && ((item.x.owner == STAKE && IsStakeOf(item.x.account.data, w))
        || (item.x.owner == VOTE && IsVoteOf(item.x.account.data, w)))
  }

  /** The lamports of the stake and vote accounts of the withdrawer. */
  ghost function StakeAndVotes(items: seq<Item>, p: Pubkey, w: Pubkey): nat {
    if items == [] then 0
    else
      var last := items[|items| - 1];
      StakeAndVotes(items[..|items| - 1], p, w) + if BelongsTo(last, p, w) then last.Lamports() else 0
  }

  lemma {:induction false} KindIsTo(item: Item, p: Pubkey, w: Pubkey)
    ensures KindOf(item, p) == To(w) <==> BelongsTo(item, p, w)
  {
    hide StakeWithdrawer; hide VoteWithdrawer; hide IsStakeOf; hide IsVoteOf;
    if item.OfOwner? {
      StakeWithdrawerIs(item.x.account.data, w);
      VoteWithdrawerIs(item.x.account.data, w);
    }
  }

  lemma {:induction false} SumIsStakeAndVotes(items: seq<Item>, p: Pubkey, w: Pubkey)
    ensures SumOf(items, To(w), p) == StakeAndVotes(items, p, w)
  {
    if items != [] {
      var front, last := items[..|items| - 1], items[|items| - 1];
      SumIsStakeAndVotes(front, p, w);
      KindIsTo(last, p, w);
      SumOwnedMore(OfKind(front, To(w), p), OwnedOf(last));
      hide KindOf; hide BelongsTo; hide SumOwned;
    }
  }

  /** The withdrawer of a stake or vote account gets its lamports on the new
      chain, all of them, whoever the staker or the node was, beside what it held
      itself; and the account does not come along. At a key that cannot take
      plain lamports, the account carries over byte for byte instead. */
  lemma {:induction false} WithdrawersGetTheirStake(
    config: u64, p: Pubkey, items: seq<Item>, supply: u64, r: Result<State, MigrateError>, w: Pubkey, item: Item)
    requires DistinctKeys(items) && Exports(config, p, items, supply, r) && r.Ok?
    requires item in items && BelongsTo(item, p, w)
    ensures if NotPlain(items, p, w) then
              item.x in r.value.accounts
            else
              && w in r.value.balances
              && r.value.balances[w] == PlainOf(items, p, w) + StakeAndVotes(items, p, w) >= item.Lamports()
              && item.x !in r.value.accounts
  {
    assert item.OfOwner?;
    hide NotPlain; hide KindOf; hide PlainOf; hide IsPlainAt; hide Exports; hide BelongsTo;
    ExportMeans(config, p, items, supply, r);
    KindIsTo(item, p, w);
    SumIsStakeAndVotes(items, p, w);
    HoldsItem(items, p, w, item);
    CarriesIff(p, items, r.value, item);
  }

  lemma {:induction false} CarriesIff(p: Pubkey, items: seq<Item>, state: State, item: Item)
    requires DistinctKeys(items) && Means(p, items, state) && item in items && item.OfOwner?
    ensures item.x in state.accounts <==> CarriesOver(items, p, item)
  {
    hide DistinctKeys; hide CarriesOver; hide HasBalance; hide BalanceOf; hide KeysDiffer;
    if item.x in state.accounts {
      var other :| other in items && OwnedOf(other) == item.x && CarriesOver(items, p, other);
      SameKey(items, item, other);
    }
  }

  lemma {:induction false} SameKey(items: seq<Item>, a: Item, b: Item)
    requires DistinctKeys(items) && a in items && b in items && a.Key() == b.Key()
    ensures a == b
  {
    var i :| 0 <= i < |items| && items[i] == a;
    var j :| 0 <= j < |items| && items[j] == b;
  }

  lemma {:induction false} HoldsItem(items: seq<Item>, p: Pubkey, w: Pubkey, item: Item)
    requires item in items && BelongsTo(item, p, w)
    ensures StakeAndVotes(items, p, w) >= item.Lamports()
  {
    hide BelongsTo;
    var last := items[|items| - 1];
    if item != last {
      InMore(items);
      HoldsItem(items[..|items| - 1], p, w, item);
    }
  }

  /** What the export does with every other account of an owner: those of the
      sysvars, the native loader and the features, and those at a replaced key,
      stay behind, and all the rest carry over byte for byte. */
  lemma {:induction false} OtherAccountsOfOwners(
    config: u64, p: Pubkey, items: seq<Item>, supply: u64, r: Result<State, MigrateError>, item: Item)
    requires DistinctKeys(items) && Exports(config, p, items, supply, r) && r.Ok?
    requires item in items && item.OfOwner? && forall w :: !BelongsTo(item, p, w)
    ensures item.x in r.value.accounts <==>
              !IsReplaced(item.x.account.pubkey, p) && item.x.owner !in {SYSVAR_OWNER, NATIVE_LOADER, FEATURE}
  {
    hide NotPlain; hide Exports; hide BelongsTo; hide StakeWithdrawer; hide VoteWithdrawer;
    ExportMeans(config, p, items, supply, r);
    if KindOf(item, p).To? { KindIsTo(item, p, KindOf(item, p).withdrawer); }
    CarriesIff(p, items, r.value, item);
  }
}
