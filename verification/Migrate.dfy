/** What the export of a halted chain does with each account
    (daemon/src/migrate.rs). */
module Migrate {
  import opened Prelude
  import opened Bytes

  type Pubkey = nat

  /** The owners that the export names, each a key of its own. */
  const SYSTEM_PROGRAM: Pubkey := 0
  const STAKE: Pubkey := 11
  const VOTE: Pubkey := 12
  const SYSVAR_OWNER: Pubkey := 13
  const NATIVE_LOADER: Pubkey := 14
  const FEATURE: Pubkey := 15

  /** Stake config, token programs, memo program and DEX: the new genesis
      brings its own. */
  const GENESIS_KEYS: set<Pubkey> := {21, 22, 23, 24, 25}

  datatype RawAccount = RawAccount(pubkey: Pubkey, lamports: u64, data: seq<u8>, executable: bool)

  datatype Rule = Carry | StakeToWithdrawer | VoteToWithdrawer | Fixed

  function RuleOf(owner: Pubkey): Rule {
    if owner == STAKE then StakeToWithdrawer
    else if owner == VOTE then VoteToWithdrawer
    else if owner in {SYSVAR_OWNER, NATIVE_LOADER, FEATURE} then Fixed
    else Carry
  }

  /** The withdrawer of a stake account, after the tag, the reserve and the staker. */
  function StakeWithdrawer(data: seq<u8>): Option<Pubkey> {
    if |data| >= 76 && 1 <= FromLE(data[..4]) <= 2 then Some(FromLE(data[44..76])) else None
  }

  /** The withdrawer of a vote account, after the tag and the node. */
  function VoteWithdrawer(data: seq<u8>): Option<Pubkey> {
    if |data| >= 68 && 1 <= FromLE(data[..4]) <= 3 then Some(FromLE(data[36..68])) else None
  }

  /** An account with its owner: what carries over byte for byte, and what
      turns into lamports. */
  datatype Owned = Owned(owner: Pubkey, account: RawAccount)

  // ------------------------------------------------------------- the source code

  /** The accounts so far, sorted by what happens to them. */
  datatype Collected = Collected(
    balances: map<Pubkey, u64>,
    accounts: seq<Owned>,
    converted: map<Pubkey, seq<Owned>>,
    fixed: u64,
    read: u64,
    bridgeProgram: Pubkey)

  function CarryOver(c: Collected, x: Owned): Collected {
    c.(read := SaturatingAdd(c.read, x.account.lamports), accounts := c.accounts + [x])
  }

  function System(c: Collected, a: RawAccount): Collected {
    if a.data == [] && !a.executable then
      var balances := if a.lamports > 0 then c.balances[a.pubkey := a.lamports] else c.balances;
      c.(read := SaturatingAdd(c.read, a.lamports), balances := balances)
    else CarryOver(c, Owned(SYSTEM_PROGRAM, a))
  }

  function SourcesOf(c: Collected, withdrawer: Pubkey): seq<Owned> {
    if withdrawer in c.converted then c.converted[withdrawer] else []
  }

  function ApplyRule(c: Collected, rule: Rule, x: Owned): Collected {
    var used := if x.account.pubkey in GENESIS_KEYS || x.account.pubkey == c.bridgeProgram then Fixed else rule;
    match used
    case Carry => CarryOver(c, x)
    case Fixed =>
      c.(read := SaturatingAdd(c.read, x.account.lamports), fixed := SaturatingAdd(c.fixed, x.account.lamports))
    case _ =>
      var withdrawer := if used == StakeToWithdrawer then StakeWithdrawer(x.account.data)
                        else VoteWithdrawer(x.account.data);
      match withdrawer
      case Some(w) => c.(converted := c.converted[w := SourcesOf(c, w) + [x]])
      case None => CarryOver(c, x)
  }

  /** One account of a read: of the bridge, of the system program, or of another
      owner. */
  datatype Item = OfBridge(x: Owned) | OfSystem(a: RawAccount) | OfOwner(x: Owned)
  {
    function Account(): RawAccount { if OfSystem? then a else x.account }
    function Key(): Pubkey { Account().pubkey }
    function Lamports(): u64 { Account().lamports }
  }

  function Take(c: Collected, item: Item): Collected {
    match item
    case OfBridge(x) => CarryOver(c, x)
    case OfSystem(a) => System(c, a)
    case OfOwner(x) => ApplyRule(c, RuleOf(x.owner), x)
  }

  ghost function TakeAll(c: Collected, items: seq<Item>): Collected {
    if items == [] then c else Take(TakeAll(c, items[..|items| - 1]), items[|items| - 1])
  }

  // ---------------------------------------------------------- what it means

  /** Where the lamports of an account go: to its own key, into the same
      account, into the fixed part, or to a withdrawer if its key is plain. */
  datatype Kind = Plain | Same | Remade | To(withdrawer: Pubkey)

  function KindOf(item: Item, bridgeProgram: Pubkey): Kind {
    match item
    case OfBridge(_) => Same
    case OfSystem(a) => if a.data == [] && !a.executable then Plain else Same
    case OfOwner(x) =>
      if x.account.pubkey in GENESIS_KEYS || x.account.pubkey == bridgeProgram then Remade
      else
        match RuleOf(x.owner)
        case Carry => Same
        case Fixed => Remade
        case StakeToWithdrawer =>
          (match StakeWithdrawer(x.account.data) case Some(w) => To(w) case None => Same)
        case VoteToWithdrawer =>
          (match VoteWithdrawer(x.account.data) case Some(w) => To(w) case None => Same)
  }

  function OwnedOf(item: Item): Owned {
    if item.OfSystem? then Owned(SYSTEM_PROGRAM, item.a) else item.x
  }

  /** The accounts of one kind, in the order of the reads. */
  ghost function OfKind(items: seq<Item>, kind: Kind, p: Pubkey): seq<Owned> {
    if items == [] then []
    else
      var front, last := OfKind(items[..|items| - 1], kind, p), items[|items| - 1];
      if KindOf(last, p) == kind then front + [OwnedOf(last)] else front
  }

  ghost function SumOwned(list: seq<Owned>): nat {
    if list == [] then 0 else SumOwned(list[..|list| - 1]) + list[|list| - 1].account.lamports
  }

  ghost function SumOf(items: seq<Item>, kind: Kind, p: Pubkey): nat { SumOwned(OfKind(items, kind, p)) }

  ghost function SumAll(items: seq<Item>): nat {
    if items == [] then 0 else SumAll(items[..|items| - 1]) + items[|items| - 1].Lamports()
  }

  ghost function SumRead(items: seq<Item>, p: Pubkey): nat {
    if items == [] then 0
    else
      var last := items[|items| - 1];
      SumRead(items[..|items| - 1], p) + if KindOf(last, p).To? then 0 else last.Lamports()
  }

  ghost predicate DistinctKeys(items: seq<Item>) {
    forall i, j :: 0 <= i < j < |items| ==> items[i].Key() != items[j].Key()
  }

  /** A key that cannot take plain lamports: an account carries over there, or a
      stake or vote account stands there. */
  ghost predicate NotPlain(items: seq<Item>, p: Pubkey, key: Pubkey) {
    exists x :: x in items && x.Key() == key && (KindOf(x, p).Same? || KindOf(x, p).To?)
  }

  /** The plain account at `key`. */
  ghost predicate IsPlainAt(item: Item, p: Pubkey, key: Pubkey) {
    KindOf(item, p).Plain? && item.Key() == key && item.Lamports() > 0
  }

  /** The lamports that stood at `key`, if they were plain. */
  ghost function PlainOf(items: seq<Item>, p: Pubkey, key: Pubkey): nat {
    if items == [] then 0
    else
      var last := items[|items| - 1];
      if IsPlainAt(last, p, key) then last.Lamports() else PlainOf(items[..|items| - 1], p, key)
  }

  /** The lamports that the new chain gives to `key` as a plain balance. */
  ghost function BalanceOf(items: seq<Item>, p: Pubkey, key: Pubkey): nat {
    PlainOf(items, p, key) + if NotPlain(items, p, key) then 0 else SumOf(items, To(key), p)
  }

  ghost predicate HasBalance(items: seq<Item>, p: Pubkey, key: Pubkey) {
    || (exists x :: x in items && IsPlainAt(x, p, key))
    || (!NotPlain(items, p, key) && exists x :: x in items && KindOf(x, p) == To(key))
  }

  /** The account carries over byte for byte. */
  ghost predicate CarriesOver(items: seq<Item>, p: Pubkey, item: Item) {
    var kind := KindOf(item, p);
    kind.Same? || (kind.To? && NotPlain(items, p, kind.withdrawer))
  }

  // -------------------------------------------------------- sums over maps

  /** The sum of a map, in any order of its keys. */
  ghost function MapSum(m: map<Pubkey, nat>): nat
    decreases |m|
  {
    if m == map[] then 0
    else
      var k :| k in m;
      m[k] + MapSum(m - {k})
  }

  lemma {:induction false} MapSumWithout(m: map<Pubkey, nat>, k: Pubkey)
    requires k in m
    ensures MapSum(m) == m[k] + MapSum(m - {k})
    decreases |m|
  {
    var j :| j in m && MapSum(m) == m[j] + MapSum(m - {j});
    if j != k {
      MapSumWithout(m - {j}, k);
      MapSumWithout(m - {k}, j);
      assert m - {j} - {k} == m - {k} - {j};
    }
  }

  lemma {:induction false} MapSumUpdate(m: map<Pubkey, nat>, k: Pubkey, v: nat)
    ensures MapSum(m[k := v]) == MapSum(m) + v - (if k in m then m[k] else 0)
  {
    MapSumWithout(m[k := v], k);
    if k in m {
      MapSumWithout(m, k);
      assert m[k := v] - {k} == m - {k};
    } else {
      assert m[k := v] - {k} == m;
    }
  }

  ghost function Lamports(balances: map<Pubkey, u64>): map<Pubkey, nat> {
    map k | k in balances :: balances[k]
  }

  /** The lamports that wait for the withdrawers in `keys`. */
  ghost function Waiting(converted: map<Pubkey, seq<Owned>>, keys: set<Pubkey>): map<Pubkey, nat> {
    map k | k in converted && k in keys :: SumOwned(converted[k])
  }

  // ------------------------------------------------- what the reads collect

  ghost predicate BalancesReflect(c: Collected, items: seq<Item>) {
    && (forall k :: k in c.balances <==> exists x :: x in items && IsPlainAt(x, c.bridgeProgram, k))
    && (forall k :: k in c.balances ==> c.balances[k] == PlainOf(items, c.bridgeProgram, k))
  }

  ghost predicate ConvertedReflect(c: Collected, items: seq<Item>) {
    && (forall w :: SourcesOf(c, w) == OfKind(items, To(w), c.bridgeProgram))
    && (forall w :: w in c.converted ==> c.converted[w] != [])
  }

  ghost predicate TotalsReflect(c: Collected, items: seq<Item>, config: u64) {
    && c.fixed == Min(config + SumOf(items, Remade, c.bridgeProgram), U64_MAX)
    && c.read == Min(config + SumRead(items, c.bridgeProgram), U64_MAX)
  }

  ghost predicate Reflects(c: Collected, items: seq<Item>, config: u64) {
    && BalancesReflect(c, items) && ConvertedReflect(c, items) && TotalsReflect(c, items, config)
    && c.accounts == OfKind(items, Same, c.bridgeProgram)
  }

  lemma {:induction false} SumOwnedMore(list: seq<Owned>, x: Owned)
    ensures SumOwned(list + [x]) == SumOwned(list) + x.account.lamports
  {
    assert (list + [x])[..|list|] == list;
  }

  lemma {:induction false} InMore(items: seq<Item>)
    requires items != []
    ensures forall x :: x in items <==> x in items[..|items| - 1] || x == items[|items| - 1]
  {
    assert items == items[..|items| - 1] + [items[|items| - 1]];
  }

  lemma {:induction false} NoPlainBefore(items: seq<Item>, p: Pubkey, key: Pubkey)
    requires forall x :: x in items ==> x.Key() != key
    ensures PlainOf(items, p, key) == 0
  {
    if items != [] {
      InMore(items);
      NoPlainBefore(items[..|items| - 1], p, key);
    }
  }

  /** What one account does to the collection, by its kind. */
  lemma {:induction false} TakeIs(c: Collected, item: Item)
    ensures var next := Take(c, item);
            var kind := KindOf(item, c.bridgeProgram);
            var x := OwnedOf(item);
            && x.account == item.Account()
            && next.bridgeProgram == c.bridgeProgram
            && next.balances == (if kind.Plain? && item.Lamports() > 0 then c.balances[item.Key() := item.Lamports()] else c.balances)
            && next.accounts == (if kind.Same? then c.accounts + [x] else c.accounts)
            && next.converted == (if kind.To? then c.converted[kind.withdrawer := SourcesOf(c, kind.withdrawer) + [x]]
                                  else c.converted)
            && next.fixed == (if kind.Remade? then SaturatingAdd(c.fixed, item.Lamports()) else c.fixed)
            && next.read == (if kind.To? then c.read else SaturatingAdd(c.read, item.Lamports()))
  {
    hide StakeWithdrawer; hide VoteWithdrawer;
  }

  lemma {:induction false} BalancesKeep(c: Collected, next: Collected, items: seq<Item>)
    requires items != [] && BalancesReflect(c, items[..|items| - 1])
    requires var last := items[|items| - 1];
             && next.bridgeProgram == c.bridgeProgram
             && next.balances == (if KindOf(last, c.bridgeProgram).Plain? && last.Lamports() > 0
                                  then c.balances[last.Key() := last.Lamports()] else c.balances)
    ensures BalancesReflect(next, items)
  {
    InMore(items);
    var p, front, last := c.bridgeProgram, items[..|items| - 1], items[|items| - 1];
    hide KindOf;
    forall k ensures k in next.balances <==> exists x :: x in items && IsPlainAt(x, p, k) {
      if k in c.balances {
        var x :| x in front && IsPlainAt(x, p, k);
        assert x in items;
      }
      if IsPlainAt(last, p, k) { assert last in items; }
    }
    forall k | k in next.balances ensures next.balances[k] == PlainOf(items, p, k) {
      if !IsPlainAt(last, p, k) { assert PlainOf(items, p, k) == PlainOf(front, p, k); }
    }
  }

  lemma {:induction false} ConvertedKeep(c: Collected, next: Collected, items: seq<Item>)
    requires items != [] && ConvertedReflect(c, items[..|items| - 1])
    requires var kind := KindOf(items[|items| - 1], c.bridgeProgram);
             && next.bridgeProgram == c.bridgeProgram
             && next.converted == (if kind.To?
                                   then c.converted[kind.withdrawer := SourcesOf(c, kind.withdrawer) + [OwnedOf(items[|items| - 1])]]
                                   else c.converted)
    ensures ConvertedReflect(next, items)
  {
    hide KindOf;
  }

  lemma {:induction false} TakeReflects(c: Collected, items: seq<Item>, config: u64)
    requires items != [] && Reflects(c, items[..|items| - 1], config)
    ensures Reflects(Take(c, items[|items| - 1]), items, config)
    ensures Take(c, items[|items| - 1]).bridgeProgram == c.bridgeProgram
  {
    var last := items[|items| - 1];
    var next := Take(c, last);
    TakeIs(c, last);
    SumOwnedMore(OfKind(items[..|items| - 1], Remade, c.bridgeProgram), OwnedOf(last));
    hide Take; hide SumOwned; hide KindOf;
    BalancesKeep(c, next, items);
    ConvertedKeep(c, next, items);
    hide BalancesReflect; hide ConvertedReflect;
  }

  /** The collection before any account: the config account is already fixed. */
  function Empty(config: u64, bridgeProgram: Pubkey): Collected {
    Collected(map[], [], map[], config, config, bridgeProgram)
  }

  lemma {:induction false} ReadsReflect(config: u64, p: Pubkey, items: seq<Item>)
    ensures Reflects(TakeAll(Empty(config, p), items), items, config)
    ensures TakeAll(Empty(config, p), items).bridgeProgram == p
  {
    if items != [] {
      ReadsReflect(config, p, items[..|items| - 1]);
      hide Reflects; hide Take;
      TakeReflects(TakeAll(Empty(config, p), items[..|items| - 1]), items, config);
    }
  }

  // ------------------------------------------------------------- conservation

  /** Every lamport of the collection. */
  ghost function Held(c: Collected): nat {
    MapSum(Lamports(c.balances)) + SumOwned(c.accounts) + MapSum(Waiting(c.converted, c.converted.Keys))
  }

  lemma {:induction false} LamportsUpdate(m: map<Pubkey, u64>, k: Pubkey, v: u64)
    ensures MapSum(Lamports(m[k := v])) == MapSum(Lamports(m)) + v - (if k in m then m[k] else 0)
  {
    MapSumUpdate(Lamports(m), k, v);
    assert Lamports(m[k := v]) == Lamports(m)[k := v];
  }

  lemma {:induction false} WaitingUpdate(m: map<Pubkey, seq<Owned>>, k: Pubkey, list: seq<Owned>)
    ensures var n := m[k := list];
            MapSum(Waiting(n, n.Keys)) == MapSum(Waiting(m, m.Keys)) + SumOwned(list) - (if k in m then SumOwned(m[k]) else 0)
  {
    var n := m[k := list];
    MapSumUpdate(Waiting(m, m.Keys), k, SumOwned(list));
    assert Waiting(n, n.Keys) == Waiting(m, m.Keys)[k := SumOwned(list)];
  }

  lemma {:induction false} TakeConserves(c: Collected, item: Item)
    requires KindOf(item, c.bridgeProgram).Plain? ==> item.Key() !in c.balances
    ensures Held(Take(c, item)) == Held(c) + if KindOf(item, c.bridgeProgram).Remade? then 0 else item.Lamports()
  {
    TakeIs(c, item);
    var kind := KindOf(item, c.bridgeProgram);
    hide Take; hide KindOf; hide MapSum; hide SumOwned; hide Lamports; hide Waiting;
    match kind
    case Plain => LamportsUpdate(c.balances, item.Key(), item.Lamports());
    case Same => SumOwnedMore(c.accounts, OwnedOf(item));
    case Remade =>
    case To(w) =>
      SumOwnedMore(SourcesOf(c, w), OwnedOf(item));
      WaitingUpdate(c.converted, w, SourcesOf(c, w) + [OwnedOf(item)]);
      EmptySum();
  }

  lemma {:induction false} EmptySum()
    ensures SumOwned([]) == 0
  {
  }

  /** What was read is all held, or stays in the fixed part. */
  lemma {:induction false} ReadsConserve(config: u64, p: Pubkey, items: seq<Item>)
    requires DistinctKeys(items)
    ensures Held(TakeAll(Empty(config, p), items)) + SumOf(items, Remade, p) == SumAll(items)
    ensures SumRead(items, p) + MapSum(Waiting(TakeAll(Empty(config, p), items).converted,
                                               TakeAll(Empty(config, p), items).converted.Keys)) == SumAll(items)
  {
    if items == [] {
      assert Lamports(map[]) == map[] && Waiting(map[], {}) == map[];
    } else {
      var front, last := items[..|items| - 1], items[|items| - 1];
      ReadsConserve(config, p, front);
      ReadsReflect(config, p, front);
      var c := TakeAll(Empty(config, p), front);
      assert KindOf(last, p).Plain? ==> last.Key() !in c.balances by {
        hide KindOf;
        forall x | x in front ensures x.Key() != last.Key() {
          var i :| 0 <= i < |front| && front[i] == x;
        }
      }
      SumOwnedMore(OfKind(front, Remade, p), OwnedOf(last));
      TakeConserves(c, last);
      WaitingGrows(c, last);
      hide KindOf; hide Take; hide Held; hide MapSum; hide SumOwned; hide Waiting; hide Reflects;
    }
  }

  lemma {:induction false} WaitingGrows(c: Collected, item: Item)
    ensures var next := Take(c, item);
            MapSum(Waiting(next.converted, next.converted.Keys))
              == MapSum(Waiting(c.converted, c.converted.Keys))
                 + if KindOf(item, c.bridgeProgram).To? then item.Lamports() else 0
  {
    TakeIs(c, item);
    hide Take; hide KindOf; hide MapSum; hide SumOwned; hide Waiting;
    var kind := KindOf(item, c.bridgeProgram);
    if kind.To? {
      SumOwnedMore(SourcesOf(c, kind.withdrawer), OwnedOf(item));
      WaitingUpdate(c.converted, kind.withdrawer, SourcesOf(c, kind.withdrawer) + [OwnedOf(item)]);
      EmptySum();
    }
  }
}
