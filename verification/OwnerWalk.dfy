/** Which accounts of the bank the export reads: the walk over the owners, from
    the loaders to every program that they name (`export` and `program_ids` in
    daemon/src/migrate.rs). */
module OwnerWalk {
  import opened Prelude
  import opened Bytes
  import opened Migrate
  import opened Export

  const BPF_LOADER1: Pubkey := 16
  const BPF_LOADER2: Pubkey := 17
  const UPGRADEABLE_LOADER: Pubkey := 18
  const LOADER_V4: Pubkey := 19
  const CONFIG: Pubkey := 31
  const LOOKUP_TABLE: Pubkey := 32
  const ZK_PROOF: Pubkey := 33

  /** The owners that the walk starts from. */
  const ROOTS: seq<Pubkey> :=
    [STAKE, VOTE, CONFIG, LOOKUP_TABLE, ZK_PROOF, NATIVE_LOADER, SYSVAR_OWNER, FEATURE,
     BPF_LOADER1, BPF_LOADER2, UPGRADEABLE_LOADER, LOADER_V4]

  /** Programs of the validator itself; the last four are the compute budget and
      the three signature checks. */
  const BUILTINS: set<Pubkey> :=
    {SYSTEM_PROGRAM, STAKE, VOTE, CONFIG, BPF_LOADER1, BPF_LOADER2, UPGRADEABLE_LOADER, LOADER_V4, LOOKUP_TABLE,
     ZK_PROOF, FEATURE, 34, 35, 36, 37}

  // --------------------------------------------------------------- program ids

  /** An account whose data begin with the tag `tag`. */
  predicate HasTag(data: seq<u8>, tag: seq<u8>) {
    |tag| <= |data| && data[..|tag|] == tag
  }

  /** A retracted or deployed program with an authority, or a finalized one. */
  predicate IsV4Program(data: seq<u8>) {
    |data| >= 48
    && var status := FromLE(data[40..48]);
       status == 2 || (status <= 1 && exists i :: 8 <= i < 40 && data[i] != 0)
  }

  /** A real program among the accounts of `owner`, whose ProgramData accounts
      are `programData`. */
  predicate IsProgram(owner: Pubkey, a: RawAccount, programData: set<Pubkey>) {
    if owner == NATIVE_LOADER then a.executable || a.pubkey in BUILTINS
    else if owner == BPF_LOADER1 || owner == BPF_LOADER2 then HasTag(a.data, [0x7f, 0x45, 0x4c, 0x46])
    else if owner == LOADER_V4 then IsV4Program(a.data)
    else if owner == UPGRADEABLE_LOADER then
      HasTag(a.data, [2, 0, 0, 0]) && |a.data| >= 36 && FromLE(a.data[4..36]) in programData
    else a.executable
  }

  function ProgramDataOf(accounts: seq<RawAccount>): set<Pubkey> {
    set a | a in accounts && HasTag(a.data, [3, 0, 0, 0]) :: a.pubkey
  }

  function KeysOf(accounts: seq<RawAccount>, owner: Pubkey, programData: set<Pubkey>): (keys: seq<Pubkey>)
    ensures forall k :: k in keys <==> exists a :: a in accounts && a.pubkey == k && IsProgram(owner, a, programData)
  {
    if accounts == [] then []
    else
      var n := |accounts| - 1;
      var front := KeysOf(accounts[..n], owner, programData);
      assert accounts == accounts[..n] + [accounts[n]];
      if IsProgram(owner, accounts[n], programData) then front + [accounts[n].pubkey] else front
  }

  function ProgramIds(owner: Pubkey, accounts: seq<RawAccount>): seq<Pubkey> {
    KeysOf(accounts, owner, ProgramDataOf(accounts))
  }

  // -------------------------------------------------------------------- the bank

  /** The answer of `getProgramAccounts`. */
  function AccountsOf(bank: seq<Owned>, owner: Pubkey): (accounts: seq<RawAccount>)
    ensures forall a :: a in accounts <==> Owned(owner, a) in bank
  {
    if bank == [] then []
    else
      var n := |bank| - 1;
      var front := AccountsOf(bank[..n], owner);
      assert bank == bank[..n] + [bank[n]];
      if bank[n].owner == owner then front + [bank[n].account] else front
  }

  /** The programs that the accounts of `owner` name. */
  function Names(bank: seq<Owned>, owner: Pubkey): seq<Pubkey> {
    ProgramIds(owner, AccountsOf(bank, owner))
  }

  function Executables(accounts: seq<RawAccount>): (keys: seq<Pubkey>)
    ensures forall k :: k in keys <==> exists a :: a in accounts && a.pubkey == k && a.executable
  {
    if accounts == [] then []
    else
      var n := |accounts| - 1;
      var front := Executables(accounts[..n]);
      assert accounts == accounts[..n] + [accounts[n]];
      if accounts[n].executable then front + [accounts[n].pubkey] else front
  }

  /** Where the walk starts: the roots and the executable accounts of the
      system program and of the bridge. */
  function Starts(bank: seq<Owned>, bridge: Pubkey): seq<Pubkey> {
    ROOTS + Executables(AccountsOf(bank, SYSTEM_PROGRAM)) + Executables(AccountsOf(bank, bridge))
  }

  // -------------------------------------------------------------------- the walk

  datatype Read = Read(owner: Pubkey, rule: Rule, accounts: seq<RawAccount>)

  /** `owners` holds every start and every program that one of it names, apart
      from the two owners that were read before. */
  ghost predicate IsClosed(bank: seq<Owned>, bridge: Pubkey, owners: set<Pubkey>) {
    && (forall k :: k in Starts(bank, bridge) ==> IsKnown(bridge, owners, k))
    && (forall o, k :: o in owners && k in Names(bank, o) ==> IsKnown(bridge, owners, k))
  }

  ghost predicate IsKnown(bridge: Pubkey, owners: set<Pubkey>, k: Pubkey) {
    k in owners || k == bridge || k == SYSTEM_PROGRAM
  }

  /** The owners that the walk must read: the least closed set. */
  ghost predicate IsLeast(bank: seq<Owned>, bridge: Pubkey, owners: set<Pubkey>) {
    && IsClosed(bank, bridge, owners)
    && bridge !in owners && SYSTEM_PROGRAM !in owners
    && forall s: set<Pubkey> :: IsClosed(bank, bridge, s) ==> owners <= s
  }

  ghost function OwnersOf(owned: seq<Read>): set<Pubkey> {
    set r | r in owned :: r.owner
  }

  ghost predicate ReadsOnce(bank: seq<Owned>, owned: seq<Read>) {
    && (forall i, j :: 0 <= i < j < |owned| ==> owned[i].owner != owned[j].owner)
    && (forall r :: r in owned ==> r == Read(r.owner, RuleOf(r.owner), AccountsOf(bank, r.owner)))
  }

  /** Every key that the walk can meet. */
  ghost function Universe(bank: seq<Owned>, bridge: Pubkey): set<Pubkey> {
    (set x | x in bank :: x.account.pubkey) + (set k | k in ROOTS) + {bridge, SYSTEM_PROGRAM}
  }

  /** Each known key is read or waits. */
  ghost predicate Covers(bank: seq<Owned>, bridge: Pubkey, queue: seq<Pubkey>, owners: set<Pubkey>) {
    && (forall k :: k in Starts(bank, bridge) ==> IsKnown(bridge, owners, k) || k in queue)
    && (forall o, k :: o in owners && k in Names(bank, o) ==> IsKnown(bridge, owners, k) || k in queue)
  }

  /** Every key that was read or waits is in each closed set. */
  ghost predicate Needed(bank: seq<Owned>, bridge: Pubkey, queue: seq<Pubkey>, owners: set<Pubkey>) {
    forall s, k :: IsClosed(bank, bridge, s) && (k in queue || k in owners) ==> IsKnown(bridge, s, k)
  }

  /** What the loop keeps. */
  ghost predicate Walks(bank: seq<Owned>, bridge: Pubkey, queue: seq<Pubkey>, seen: set<Pubkey>, owned: seq<Read>) {
    && ReadsOnce(bank, owned)
    && seen == OwnersOf(owned) + {bridge, SYSTEM_PROGRAM}
    && bridge !in OwnersOf(owned) && SYSTEM_PROGRAM !in OwnersOf(owned)
    && (forall k :: k in queue ==> k in Universe(bank, bridge))
    && Covers(bank, bridge, queue, OwnersOf(owned))
    && Needed(bank, bridge, queue, OwnersOf(owned))
  }

  lemma {:induction false} NamesAreKeys(bank: seq<Owned>, bridge: Pubkey, owner: Pubkey, k: Pubkey)
    ensures k in Names(bank, owner) ==> k in Universe(bank, bridge)
    ensures k in Starts(bank, bridge) ==> k in Universe(bank, bridge)
  {
    hide IsProgram;
    assert forall o, a :: a in AccountsOf(bank, o) ==> Owned(o, a) in bank;
    if k in Names(bank, owner) {
      var a :| a in AccountsOf(bank, owner) && a.pubkey == k;
      assert Owned(owner, a) in bank;
    }
    if k in Starts(bank, bridge) && k !in ROOTS {
      var o := if k in Executables(AccountsOf(bank, bridge)) then bridge else SYSTEM_PROGRAM;
      var a :| a in AccountsOf(bank, o) && a.pubkey == k;
      assert Owned(o, a) in bank;
    }
  }

  lemma {:induction false} WalkStarts(bank: seq<Owned>, bridge: Pubkey)
    ensures Walks(bank, bridge, Starts(bank, bridge), {bridge, SYSTEM_PROGRAM}, [])
  {
    forall k ensures k in Starts(bank, bridge) ==> k in Universe(bank, bridge) { NamesAreKeys(bank, bridge, bridge, k); }
    hide Starts; hide Names; hide Universe;
    assert OwnersOf([]) == {};
  }

  lemma {:induction false} OneMoreRead(owned: seq<Read>, r: Read)
    ensures OwnersOf(owned + [r]) == OwnersOf(owned) + {r.owner}
  {
    forall o ensures o in OwnersOf(owned + [r]) <==> o in OwnersOf(owned) || o == r.owner {
      if o == r.owner { assert r in owned + [r]; }
      if o in OwnersOf(owned) {
        var x :| x in owned && x.owner == o;
        assert x in owned + [r];
      }
    }
  }

  /** A key that was read before leaves the queue. */
  lemma {:induction false} WalkSkips(
    bank: seq<Owned>, bridge: Pubkey, front: seq<Pubkey>, owner: Pubkey, seen: set<Pubkey>, owned: seq<Read>)
    requires owner in seen && Walks(bank, bridge, front + [owner], seen, owned)
    ensures Walks(bank, bridge, front, seen, owned)
  {
    hide Starts; hide Names; hide Universe; hide IsClosed; hide ReadsOnce; hide OwnersOf;
    assert forall k :: k in front + [owner] <==> k in front || k == owner;
  }

  lemma {:induction false} CoversMore(bank: seq<Owned>, bridge: Pubkey, front: seq<Pubkey>, owner: Pubkey, owners: set<Pubkey>)
    requires Covers(bank, bridge, front + [owner], owners)
    ensures Covers(bank, bridge, front + Names(bank, owner), owners + {owner})
  {
    hide Starts; hide Names;
    assert forall k :: k in front + [owner] <==> k in front || k == owner;
  }

  lemma {:induction false} NeededMore(bank: seq<Owned>, bridge: Pubkey, front: seq<Pubkey>, owner: Pubkey, owners: set<Pubkey>)
    requires Needed(bank, bridge, front + [owner], owners) && owner != bridge && owner != SYSTEM_PROGRAM
    ensures Needed(bank, bridge, front + Names(bank, owner), owners + {owner})
  {
    hide Starts; hide Names;
    forall s: set<Pubkey>, k | IsClosed(bank, bridge, s) && (k in front + Names(bank, owner) || k in owners + {owner})
      ensures IsKnown(bridge, s, k)
    {
      assert owner in front + [owner] && IsKnown(bridge, s, owner);
      if k in front { assert k in front + [owner]; }
    }
  }

  lemma {:induction false} WalkReads(
    bank: seq<Owned>, bridge: Pubkey, front: seq<Pubkey>, owner: Pubkey, seen: set<Pubkey>, owned: seq<Read>)
    requires owner !in seen && Walks(bank, bridge, front + [owner], seen, owned)
    ensures var r := Read(owner, RuleOf(owner), AccountsOf(bank, owner));
            Walks(bank, bridge, front + Names(bank, owner), seen + {owner}, owned + [r])
  {
    hide Starts; hide Universe; hide ReadsOnce; hide OwnersOf; hide RuleOf; hide AccountsOf; hide Covers; hide Needed;
    hide ProgramIds;
    forall k ensures k in Names(bank, owner) ==> k in Universe(bank, bridge) { NamesAreKeys(bank, bridge, owner, k); }
    OneMoreRead(owned, Read(owner, RuleOf(owner), AccountsOf(bank, owner)));
    ReadsOneMore(bank, owned, owner);
    CoversMore(bank, bridge, front, owner, OwnersOf(owned));
    NeededMore(bank, bridge, front, owner, OwnersOf(owned));
    hide Names;
    assert forall k :: k in front ==> k in front + [owner];
  }

  lemma {:induction false} ReadsOneMore(bank: seq<Owned>, owned: seq<Read>, owner: Pubkey)
    requires ReadsOnce(bank, owned) && owner !in OwnersOf(owned)
    ensures ReadsOnce(bank, owned + [Read(owner, RuleOf(owner), AccountsOf(bank, owner))])
  {
    hide RuleOf; hide AccountsOf;
    assert forall i :: 0 <= i < |owned| ==> owned[i] in owned;
  }

  lemma {:induction false} WalkEnds(bank: seq<Owned>, bridge: Pubkey, seen: set<Pubkey>, owned: seq<Read>)
    requires Walks(bank, bridge, [], seen, owned)
    ensures IsLeast(bank, bridge, OwnersOf(owned)) && ReadsOnce(bank, owned)
  {
    hide Starts; hide Names; hide Universe; hide ReadsOnce; hide OwnersOf;
    var owners := OwnersOf(owned);
    assert IsClosed(bank, bridge, owners);
    hide IsClosed;
    forall s: set<Pubkey> | IsClosed(bank, bridge, s) ensures owners <= s {
      forall k | k in owners ensures k in s {
        assert IsKnown(bridge, s, k);
      }
    }
  }

  lemma {:induction false} InUniverse(bank: seq<Owned>, bridge: Pubkey, queue: seq<Pubkey>, seen: set<Pubkey>, owned: seq<Read>)
    requires queue != [] && Walks(bank, bridge, queue, seen, owned)
    ensures queue[|queue| - 1] in Universe(bank, bridge)
  {
    hide Universe; hide Covers; hide Needed; hide ReadsOnce; hide OwnersOf;
    assert queue[|queue| - 1] in queue;
  }

  /** The walk ends, and it reads each owner that it must read once, and no
      other. */
  method Walk(bank: seq<Owned>, bridge: Pubkey) returns (owned: seq<Read>)
    ensures ReadsOnce(bank, owned) && IsLeast(bank, bridge, OwnersOf(owned))
  {
    hide Walks; hide Universe; hide Starts; hide IsLeast; hide ReadsOnce; hide AccountsOf; hide RuleOf; hide ProgramIds;
    var queue, seen := Starts(bank, bridge), {bridge, SYSTEM_PROGRAM};
    owned := [];
    WalkStarts(bank, bridge);
    while queue != []
      invariant Walks(bank, bridge, queue, seen, owned)
      decreases Universe(bank, bridge) - seen, |queue|
    {
      var front, owner := queue[..|queue| - 1], queue[|queue| - 1];
      assert queue == front + [owner];
      InUniverse(bank, bridge, queue, seen, owned);
      queue := front;
      if owner in seen {
        WalkSkips(bank, bridge, front, owner, seen, owned);
      } else {
        WalkReads(bank, bridge, front, owner, seen, owned);
        var accounts := AccountsOf(bank, owner);
        seen := seen + {owner};
        queue := queue + ProgramIds(owner, accounts);
        owned := owned + [Read(owner, RuleOf(owner), accounts)];
      }
    }
    WalkEnds(bank, bridge, seen, owned);
  }

  // --------------------------------------------------- every account, read once

  /** The reads in the order of the export: the bridge without its config, the
      system program, and each other owner. */
  ghost function ItemsOf(bank: seq<Owned>, bridge: Pubkey, config: Pubkey, owned: seq<Read>): seq<Item> {
    BridgeItems(bank, bridge, config) + SystemItems(bank) + OwnerItems(bank, owned)
  }

  ghost function BridgeItems(bank: seq<Owned>, bridge: Pubkey, config: Pubkey): seq<Item> {
    if bank == [] then []
    else
      var front, x := BridgeItems(bank[..|bank| - 1], bridge, config), bank[|bank| - 1];
      if x.owner == bridge && x.account.pubkey != config then front + [OfBridge(x)] else front
  }

  ghost function SystemItems(bank: seq<Owned>): seq<Item> {
    if bank == [] then []
    else
      var front, x := SystemItems(bank[..|bank| - 1]), bank[|bank| - 1];
      if x.owner == SYSTEM_PROGRAM then front + [OfSystem(x.account)] else front
  }

  ghost function ItemsFor(bank: seq<Owned>, owner: Pubkey): seq<Item> {
    if bank == [] then []
    else
      var front, x := ItemsFor(bank[..|bank| - 1], owner), bank[|bank| - 1];
      if x.owner == owner then front + [OfOwner(x)] else front
  }

  ghost function OwnerItems(bank: seq<Owned>, owned: seq<Read>): seq<Item> {
    if owned == [] then []
    else OwnerItems(bank, owned[..|owned| - 1]) + ItemsFor(bank, owned[|owned| - 1].owner)
  }

  /** No two accounts of the bank have one key. */
  ghost predicate OneKeyEach(bank: seq<Owned>) {
    forall i, j :: 0 <= i < j < |bank| ==> bank[i].account.pubkey != bank[j].account.pubkey
  }

  ghost predicate Holds(bank: seq<Owned>, items: seq<Item>) {
    forall item :: item in items ==> OwnedOf(item) in bank && OwnedOf(item).account == item.Account()
  }

  lemma {:induction false} HoldsMore(bank: seq<Owned>, items: seq<Item>)
    requires bank != [] && Holds(bank[..|bank| - 1], items)
    ensures Holds(bank, items)
  {
    hide OwnedOf;
    assert bank == bank[..|bank| - 1] + [bank[|bank| - 1]];
  }

  /** One more account of the bank at the end of the items. */
  lemma {:induction false} OneMoreItem(bank: seq<Owned>, items: seq<Item>, item: Item)
    requires bank != [] && OneKeyEach(bank) && Holds(bank[..|bank| - 1], items) && DistinctKeys(items)
    requires OwnedOf(item) == bank[|bank| - 1] && OwnedOf(item).account == item.Account()
    ensures Holds(bank, items + [item]) && DistinctKeys(items + [item])
  {
    hide OwnedOf;
    HoldsMore(bank, items);
    assert bank[|bank| - 1] in bank;
    var n := |bank| - 1;
    forall i | 0 <= i < |items| ensures items[i].Key() != item.Key() {
      assert items[i] in items;
      var j :| 0 <= j < n && bank[..n][j] == OwnedOf(items[i]);
      assert bank[j].account.pubkey != bank[n].account.pubkey;
    }
  }

  lemma {:induction false} PartsHold(bank: seq<Owned>, owner: Pubkey, config: Pubkey)
    requires OneKeyEach(bank)
    ensures Holds(bank, BridgeItems(bank, owner, config)) && DistinctKeys(BridgeItems(bank, owner, config))
    ensures Holds(bank, SystemItems(bank)) && DistinctKeys(SystemItems(bank))
    ensures Holds(bank, ItemsFor(bank, owner)) && DistinctKeys(ItemsFor(bank, owner))
  {
    if bank != [] {
      var front, x := bank[..|bank| - 1], bank[|bank| - 1];
      PartsHold(front, owner, config);
      hide Holds; hide DistinctKeys; hide OneKeyEach;
      HoldsMore(bank, BridgeItems(front, owner, config));
      HoldsMore(bank, SystemItems(front));
      HoldsMore(bank, ItemsFor(front, owner));
      if x.owner == owner {
        OneMoreItem(bank, BridgeItems(front, owner, config), OfBridge(x));
        OneMoreItem(bank, ItemsFor(front, owner), OfOwner(x));
      }
      if x.owner == SYSTEM_PROGRAM { OneMoreItem(bank, SystemItems(front), OfSystem(x.account)); }
    }
  }

  lemma {:induction false} PartsHave(bank: seq<Owned>, owner: Pubkey, config: Pubkey, x: Owned)
    ensures OfBridge(x) in BridgeItems(bank, owner, config) <==> x in bank && x.owner == owner && x.account.pubkey != config
    ensures OfSystem(x.account) in SystemItems(bank) <==> Owned(SYSTEM_PROGRAM, x.account) in bank
    ensures OfOwner(x) in ItemsFor(bank, owner) <==> x in bank && x.owner == owner
    ensures forall item :: item in BridgeItems(bank, owner, config) ==> item.OfBridge?
    ensures forall item :: item in SystemItems(bank) ==> item.OfSystem?
    ensures forall item :: item in ItemsFor(bank, owner) ==> item.OfOwner? && item.x.owner == owner
  {
    if bank != [] {
      PartsHave(bank[..|bank| - 1], owner, config, x);
      assert bank == bank[..|bank| - 1] + [bank[|bank| - 1]];
    }
  }

  /** The items are the answers of the reads, in their order. */
  lemma {:induction false} ItemsAreTheAnswers(bank: seq<Owned>, owner: Pubkey, config: Pubkey)
    ensures var answer := AccountsOf(bank, owner);
            && |ItemsFor(bank, owner)| == |answer|
            && forall i :: 0 <= i < |answer| ==> ItemsFor(bank, owner)[i] == OfOwner(Owned(owner, answer[i]))
    ensures var answer := AccountsOf(bank, SYSTEM_PROGRAM);
            && |SystemItems(bank)| == |answer|
            && forall i :: 0 <= i < |answer| ==> SystemItems(bank)[i] == OfSystem(answer[i])
    ensures var answer := Without(AccountsOf(bank, owner), config);
            && |BridgeItems(bank, owner, config)| == |answer|
            && forall i :: 0 <= i < |answer| ==> BridgeItems(bank, owner, config)[i] == OfBridge(Owned(owner, answer[i]))
  {
    OwnerItemsAnswer(bank, owner);
    SystemItemsAnswer(bank);
    BridgeItemsAnswer(bank, owner, config);
  }

  lemma {:induction false} OwnerItemsAnswer(bank: seq<Owned>, owner: Pubkey)
    ensures var answer := AccountsOf(bank, owner);
            && |ItemsFor(bank, owner)| == |answer|
            && forall i :: 0 <= i < |answer| ==> ItemsFor(bank, owner)[i] == OfOwner(Owned(owner, answer[i]))
  {
    if bank != [] { OwnerItemsAnswer(bank[..|bank| - 1], owner); }
  }

  lemma {:induction false} SystemItemsAnswer(bank: seq<Owned>)
    ensures var answer := AccountsOf(bank, SYSTEM_PROGRAM);
            && |SystemItems(bank)| == |answer|
            && forall i :: 0 <= i < |answer| ==> SystemItems(bank)[i] == OfSystem(answer[i])
  {
    if bank != [] { SystemItemsAnswer(bank[..|bank| - 1]); }
  }

  lemma {:induction false} BridgeItemsAnswer(bank: seq<Owned>, bridge: Pubkey, config: Pubkey)
    ensures var answer := Without(AccountsOf(bank, bridge), config);
            && |BridgeItems(bank, bridge, config)| == |answer|
            && forall i :: 0 <= i < |answer| ==> BridgeItems(bank, bridge, config)[i] == OfBridge(Owned(bridge, answer[i]))
  {
    if bank != [] {
      var front, x := bank[..|bank| - 1], bank[|bank| - 1];
      BridgeItemsAnswer(front, bridge, config);
      if x.owner == bridge { WithoutMore(AccountsOf(front, bridge), x.account, config); }
      hide Without;
    }
  }

  /** The answer without the config account of the bridge. */
  function Without(accounts: seq<RawAccount>, config: Pubkey): seq<RawAccount> {
    if accounts == [] then []
    else
      var front, last := Without(accounts[..|accounts| - 1], config), accounts[|accounts| - 1];
      if last.pubkey == config then front else front + [last]
  }

  lemma {:induction false} WithoutMore(accounts: seq<RawAccount>, a: RawAccount, config: Pubkey)
    ensures Without(accounts + [a], config) == Without(accounts, config) + if a.pubkey == config then [] else [a]
  {
    assert (accounts + [a])[..|accounts|] == accounts;
  }

  ghost predicate OtherKeys(a: seq<Item>, b: seq<Item>) {
    forall x, y :: x in a && y in b ==> x.Key() != y.Key()
  }

  lemma {:induction false} DistinctBoth(a: seq<Item>, b: seq<Item>)
    requires DistinctKeys(a) && DistinctKeys(b) && OtherKeys(a, b)
    ensures DistinctKeys(a + b)
  {
    forall i, j | 0 <= i < j < |a + b| ensures (a + b)[i].Key() != (a + b)[j].Key() {
      if i < |a| <= j { assert a[i] in a && b[j - |a|] in b; }
    }
  }

  /** Accounts of two owners have two keys. */
  lemma {:induction false} OwnersApart(bank: seq<Owned>, a: seq<Item>, b: seq<Item>)
    requires OneKeyEach(bank) && Holds(bank, a) && Holds(bank, b)
    requires forall x, y :: x in a && y in b ==> OwnedOf(x).owner != OwnedOf(y).owner
    ensures OtherKeys(a, b)
  {
    hide OwnedOf;
    forall x, y | x in a && y in b ensures x.Key() != y.Key() {
      var i :| 0 <= i < |bank| && bank[i] == OwnedOf(x);
      var j :| 0 <= j < |bank| && bank[j] == OwnedOf(y);
      assert i != j;
    }
  }

  lemma {:induction false} OwnerItemsHold(bank: seq<Owned>, owned: seq<Read>)
    requires OneKeyEach(bank) && (forall i, j :: 0 <= i < j < |owned| ==> owned[i].owner != owned[j].owner)
    ensures Holds(bank, OwnerItems(bank, owned)) && DistinctKeys(OwnerItems(bank, owned))
    ensures forall item :: item in OwnerItems(bank, owned) ==> item.OfOwner? && item.x.owner in OwnersOf(owned)
    ensures forall x :: OfOwner(x) in OwnerItems(bank, owned) <==> x in bank && x.owner in OwnersOf(owned)
  {
    if owned != [] {
      var front, owner := owned[..|owned| - 1], owned[|owned| - 1].owner;
      OwnerItemsHold(bank, front);
      OneMoreRead(front, owned[|owned| - 1]);
      assert owned == front + [owned[|owned| - 1]];
      forall x ensures OfOwner(x) in ItemsFor(bank, owner) <==> x in bank && x.owner == owner {
        PartsHave(bank, owner, owner, x);
      }
      OnlyOwner(bank, owner);
      PartsHold(bank, owner, owner);
      assert owner !in OwnersOf(front);
      hide OneKeyEach; hide Holds; hide DistinctKeys; hide OwnersOf; hide ItemsFor;
      OwnersApart(bank, OwnerItems(bank, front), ItemsFor(bank, owner));
      DistinctBoth(OwnerItems(bank, front), ItemsFor(bank, owner));
      HoldsBoth(bank, OwnerItems(bank, front), ItemsFor(bank, owner));
    }
  }

  lemma {:induction false} OnlyOwner(bank: seq<Owned>, owner: Pubkey)
    ensures forall item :: item in ItemsFor(bank, owner) ==> item.OfOwner? && item.x.owner == owner
  {
    if bank != [] { OnlyOwner(bank[..|bank| - 1], owner); }
  }

  lemma {:induction false} HoldsBoth(bank: seq<Owned>, a: seq<Item>, b: seq<Item>)
    requires Holds(bank, a) && Holds(bank, b)
    ensures Holds(bank, a + b)
  {
    hide OwnedOf;
  }

  /** The account is read: the walk reads its owner, and it is not the config. */
  ghost predicate IsRead(bridge: Pubkey, config: Pubkey, owners: set<Pubkey>, x: Owned) {
    IsKnown(bridge, owners, x.owner) && !(x.owner == bridge && x.account.pubkey == config)
  }

  /** The export reads every account of the owners of the walk exactly once. */
  lemma {:induction false} EachAccountOnce(bank: seq<Owned>, bridge: Pubkey, config: Pubkey, owned: seq<Read>)
    requires OneKeyEach(bank) && ReadsOnce(bank, owned) && IsLeast(bank, bridge, OwnersOf(owned)) && bridge != SYSTEM_PROGRAM
    ensures DistinctKeys(ItemsOf(bank, bridge, config, owned))
    ensures forall x :: (exists item :: item in ItemsOf(bank, bridge, config, owned) && OwnedOf(item) == x)
                   <==> x in bank && IsRead(bridge, config, OwnersOf(owned), x)
  {
    var a, b, c := BridgeItems(bank, bridge, config), SystemItems(bank), OwnerItems(bank, owned);
    PartsHold(bank, bridge, config);
    OwnerItemsHold(bank, owned);
    assert bridge !in OwnersOf(owned) && SYSTEM_PROGRAM !in OwnersOf(owned);
    hide IsLeast; hide ReadsOnce; hide OneKeyEach; hide Holds; hide DistinctKeys; hide OwnersOf;
    hide BridgeItems; hide SystemItems; hide OwnerItems;
    FirstPartsAre(bank, bridge, config);
    OwnersApart(bank, a, b);
    DistinctBoth(a, b);
    HoldsBoth(bank, a, b);
    OwnersApart(bank, a + b, c);
    DistinctBoth(a + b, c);
    forall x ensures (exists item :: item in a + b + c && OwnedOf(item) == x)
                <==> x in bank && IsRead(bridge, config, OwnersOf(owned), x)
    {
      PartsHave(bank, bridge, config, x);
      if x in bank && IsRead(bridge, config, OwnersOf(owned), x) {
        var item := if x.owner == bridge then OfBridge(x) else if x.owner == SYSTEM_PROGRAM then OfSystem(x.account) else OfOwner(x);
        assert item in a + b + c && OwnedOf(item) == x;
      }
      if item :| item in a + b + c && OwnedOf(item) == x {
        PartsHave(bank, bridge, config, OwnedOf(item));
      }
    }
  }

  lemma {:induction false} FirstPartsAre(bank: seq<Owned>, bridge: Pubkey, config: Pubkey)
    ensures forall item :: item in BridgeItems(bank, bridge, config) ==> item.OfBridge? && item.x.owner == bridge
    ensures forall item :: item in SystemItems(bank) ==> item.OfSystem?
  {
    if bank != [] { FirstPartsAre(bank[..|bank| - 1], bridge, config); }
  }

  // ------------------------------------------------------ who leads to an owner

  /** A chain of at most `depth` programs leads from a start to `owner`. */
  ghost predicate Led(bank: seq<Owned>, bridge: Pubkey, owner: Pubkey, depth: nat)
    decreases depth
  {
    || owner == bridge || owner == SYSTEM_PROGRAM || owner in Starts(bank, bridge)
    || (depth > 0 && exists p :: p != bridge && p != SYSTEM_PROGRAM
                              && Led(bank, bridge, p, depth - 1) && owner in Names(bank, p))
  }

  lemma {:induction false} LedIsKnown(bank: seq<Owned>, bridge: Pubkey, owners: set<Pubkey>, owner: Pubkey, depth: nat)
    requires IsClosed(bank, bridge, owners) && Led(bank, bridge, owner, depth)
    ensures IsKnown(bridge, owners, owner)
    decreases depth
  {
    hide Starts; hide Names;
    if owner != bridge && owner != SYSTEM_PROGRAM && owner !in Starts(bank, bridge) {
      var p :| p != bridge && p != SYSTEM_PROGRAM && Led(bank, bridge, p, depth - 1) && owner in Names(bank, p);
      LedIsKnown(bank, bridge, owners, p, depth - 1);
    }
  }

  ghost predicate HasChain(bank: seq<Owned>, bridge: Pubkey, owner: Pubkey) {
    exists depth: nat :: Led(bank, bridge, owner, depth)
  }

  /** The walk reads the accounts of an owner exactly when a chain of programs
      leads to it, however long. */
  lemma {:induction false} ReadMeansLed(bank: seq<Owned>, bridge: Pubkey, owners: set<Pubkey>, owner: Pubkey)
    requires IsLeast(bank, bridge, owners)
    ensures IsKnown(bridge, owners, owner) <==> HasChain(bank, bridge, owner)
  {
    hide Starts; hide Names;
    if HasChain(bank, bridge, owner) {
      var depth: nat :| Led(bank, bridge, owner, depth);
      LedIsKnown(bank, bridge, owners, owner, depth);
    }
    if owner in owners {
      var led := set o | o in owners && HasChain(bank, bridge, o);
      forall k | k in Starts(bank, bridge) ensures IsKnown(bridge, led, k) {
        assert Led(bank, bridge, k, 0);
      }
      forall o, k | o in led && k in Names(bank, o) ensures IsKnown(bridge, led, k) {
        var depth: nat :| Led(bank, bridge, o, depth);
        assert IsKnown(bridge, owners, k) && Led(bank, bridge, k, depth + 1);
      }
      assert IsClosed(bank, bridge, led);
    }
    if owner == bridge || owner == SYSTEM_PROGRAM { assert Led(bank, bridge, owner, 0); }
  }

  // ------------------------------------------------------------- the ownerless

  /** The lamports of the accounts whose owner is not in `known`. */
  ghost function Rest(bank: seq<Owned>, known: set<Pubkey>): nat {
    if bank == [] then 0
    else
      var x := bank[|bank| - 1];
      Rest(bank[..|bank| - 1], known) + if x.owner in known then 0 else x.account.lamports
  }

  ghost function ConfigLamports(bank: seq<Owned>, bridge: Pubkey, config: Pubkey): nat {
    if bank == [] then 0
    else
      var x := bank[|bank| - 1];
      ConfigLamports(bank[..|bank| - 1], bridge, config)
        + if x.owner == bridge && x.account.pubkey == config then x.account.lamports else 0
  }

  lemma {:induction false} SumAllMore(items: seq<Item>, item: Item)
    ensures SumAll(items + [item]) == SumAll(items) + item.Lamports()
  {
    assert (items + [item])[..|items|] == items;
  }

  lemma {:induction false} PartsSum(bank: seq<Owned>, owner: Pubkey, config: Pubkey, known: set<Pubkey>)
    requires owner !in known
    ensures Rest(bank, known) == SumAll(ItemsFor(bank, owner)) + Rest(bank, known + {owner})
    ensures Rest(bank, known)
         == ConfigLamports(bank, owner, config) + SumAll(BridgeItems(bank, owner, config)) + Rest(bank, known + {owner})
    ensures owner == SYSTEM_PROGRAM ==> Rest(bank, known) == SumAll(SystemItems(bank)) + Rest(bank, known + {owner})
    ensures Rest(bank, {}) == SumOwned(bank)
  {
    if bank != [] {
      var front, x := bank[..|bank| - 1], bank[|bank| - 1];
      PartsSum(front, owner, config, known);
      SumAllMore(ItemsFor(front, owner), OfOwner(x));
      SumAllMore(BridgeItems(front, owner, config), OfBridge(x));
      SumAllMore(SystemItems(front), OfSystem(x.account));
      hide SumAll;
    }
  }

  lemma {:induction false} OwnersSum(bank: seq<Owned>, owned: seq<Read>, known: set<Pubkey>)
    requires forall i, j :: 0 <= i < j < |owned| ==> owned[i].owner != owned[j].owner
    requires known !! OwnersOf(owned)
    ensures Rest(bank, known) == SumAll(OwnerItems(bank, owned)) + Rest(bank, known + OwnersOf(owned))
  {
    if owned == [] {
      assert known + OwnersOf(owned) == known;
    } else {
      var front, last := owned[..|owned| - 1], owned[|owned| - 1];
      assert owned == front + [last];
      OneMoreRead(front, last);
      OwnersSum(bank, front, known);
      assert last.owner !in known + OwnersOf(front);
      PartsSum(bank, last.owner, 0, known + OwnersOf(front));
      SumAllSplit(OwnerItems(bank, front), ItemsFor(bank, last.owner));
      assert known + OwnersOf(front) + {last.owner} == known + OwnersOf(owned);
      hide Rest; hide SumAll; hide ItemsFor;
    }
  }

  /** The export of a halted bank, end to end: the lamports that stay behind are
      those of the accounts to whose owner no chain of programs leads, and all
      others are in the new genesis. */
  lemma {:induction false} OnlyTheOwnerlessStayBehind(
    bank: seq<Owned>, bridge: Pubkey, config: Pubkey, owned: seq<Read>, r: Result<State, MigrateError>)
    requires OneKeyEach(bank) && ReadsOnce(bank, owned) && IsLeast(bank, bridge, OwnersOf(owned)) && bridge != SYSTEM_PROGRAM
    requires SumOwned(bank) <= U64_MAX && ConfigLamports(bank, bridge, config) <= U64_MAX
    requires Exports(ConfigLamports(bank, bridge, config), bridge, ItemsOf(bank, bridge, config, owned), SumOwned(bank), r)
    requires r.Ok?
    ensures r.value.ownerless == Rest(bank, OwnersOf(owned) + {bridge, SYSTEM_PROGRAM})
    ensures MapSum(Lamports(r.value.balances)) + SumOwned(r.value.accounts) + r.value.fixed + r.value.ownerless
         == SumOwned(bank)
  {
    var a, b, c := BridgeItems(bank, bridge, config), SystemItems(bank), OwnerItems(bank, owned);
    EachAccountOnce(bank, bridge, config, owned);
    PartsSum(bank, bridge, config, {});
    PartsSum(bank, SYSTEM_PROGRAM, config, {bridge});
    OwnersSum(bank, owned, {bridge, SYSTEM_PROGRAM});
    SumAllSplit(a, b);
    SumAllSplit(a + b, c);
    assert {} + {bridge} == {bridge} && {bridge} + {SYSTEM_PROGRAM} == {bridge, SYSTEM_PROGRAM};
    assert OwnersOf(owned) + {bridge, SYSTEM_PROGRAM} == {bridge, SYSTEM_PROGRAM} + OwnersOf(owned);
    hide Rest; hide SumAll; hide BridgeItems; hide SystemItems; hide OwnerItems; hide SumOwned; hide Exports; hide IsLeast;
    hide OneKeyEach; hide MapSum; hide OwnersOf; hide DistinctKeys; hide ReadsOnce; hide OwnedOf;
    LamportsAreConserved(ConfigLamports(bank, bridge, config), bridge, ItemsOf(bank, bridge, config, owned), SumOwned(bank), r);
  }
}
