/** The end of the export: which stake and vote accounts turn into lamports,
    and that no lamport gets lost (daemon/src/migrate.rs). */
module Export {
  import opened Prelude
  import opened Migrate

  datatype MigrateError = Overcounted(supply: u64, found: u64) | Overflow

  datatype State = State(
    balances: map<Pubkey, u64>, accounts: seq<Owned>, supply: u64, fixed: u64, ownerless: u64)

  /** The keys that carry over, and those of the stake and vote accounts. */
  ghost predicate KeyTaken(c: Collected, key: Pubkey) {
    || (exists x :: x in c.accounts && x.account.pubkey == key)
    || (exists w :: w in c.converted && exists x :: x in c.converted[w] && x.account.pubkey == key)
  }

  /** The withdrawers of `keys` that get lamports. */
  ghost predicate Gets(c: Collected, keys: set<Pubkey>, k: Pubkey) { k in keys && k in c.converted && !KeyTaken(c, k) }

  ghost function Before(c: Collected, k: Pubkey): nat { if k in c.balances then c.balances[k] else 0 }

  /** The balance of `k` once the withdrawers of `keys` are done. */
  ghost function Balance(c: Collected, keys: set<Pubkey>, k: Pubkey): nat {
    Before(c, k) + if Gets(c, keys, k) then SumOwned(c.converted[k]) else 0
  }

  ghost predicate PartlyBalances(c: Collected, keys: set<Pubkey>, balances: map<Pubkey, u64>) {
    && (forall k :: k in balances <==> k in c.balances || Gets(c, keys, k))
    && (forall k :: k in balances ==> balances[k] == Balance(c, keys, k))
  }

  /** No two of the accounts have one key. */
  ghost predicate KeysDiffer(list: seq<Owned>) {
    forall i, j :: 0 <= i < j < |list| ==> list[i].account.pubkey != list[j].account.pubkey
  }

  ghost predicate NoCommonKey(a: seq<Owned>, b: seq<Owned>) {
    forall x, y :: x in a && y in b ==> x.account.pubkey != y.account.pubkey
  }

  /** No two accounts of the whole collection have one key. */
  ghost predicate KeysApart(c: Collected) {
    && KeysDiffer(c.accounts)
    && (forall w :: w in c.converted ==> KeysDiffer(c.converted[w]) && NoCommonKey(c.accounts, c.converted[w]))
    && (forall v, w :: v in c.converted && w in c.converted && v != w ==> NoCommonKey(c.converted[v], c.converted[w]))
  }

  ghost predicate PartlyAccounts(c: Collected, keys: set<Pubkey>, accounts: seq<Owned>) {
    && (forall x :: x in accounts <==> x in c.accounts || Returns(c, keys, x))
    && (KeysApart(c) ==> KeysDiffer(accounts))
  }

  ghost predicate PartlyTotals(c: Collected, keys: set<Pubkey>, balances: map<Pubkey, u64>, accounts: seq<Owned>, read: u64) {
    && read == Min(c.read + MapSum(Waiting(c.converted, keys)), U64_MAX)
    && MapSum(Lamports(balances)) + SumOwned(accounts)
         == MapSum(Lamports(c.balances)) + SumOwned(c.accounts) + MapSum(Waiting(c.converted, keys))
  }

  /** The export after the withdrawers of `keys`. */
  ghost predicate Partly(c: Collected, keys: set<Pubkey>, balances: map<Pubkey, u64>, accounts: seq<Owned>, read: u64) {
    PartlyBalances(c, keys, balances) && PartlyAccounts(c, keys, accounts) && PartlyTotals(c, keys, balances, accounts, read)
  }

  /** No balance that a withdrawer of `keys` gets is above a u64. */
  ghost predicate NoOverflow(c: Collected, keys: set<Pubkey>) {
    forall k :: Gets(c, keys, k) ==> Balance(c, keys, k) <= U64_MAX
  }

  /** The account stays as it is, because its withdrawer has no plain key. */
  ghost predicate Returns(c: Collected, keys: set<Pubkey>, x: Owned) {
    exists w :: w in keys && w in c.converted && KeyTaken(c, w) && x in c.converted[w]
  }

  /** What `finish` answers. */
  ghost predicate Finishes(c: Collected, supply: u64, r: Result<State, MigrateError>) {
    var keys := c.converted.Keys;
    match r
    case Err(Overflow) => exists k :: Gets(c, keys, k) && Balance(c, keys, k) > U64_MAX
    case Err(Overcounted(s, found)) =>
      && NoOverflow(c, keys)
      && s == supply < found == Min(c.read + MapSum(Waiting(c.converted, keys)), U64_MAX)
    case Ok(state) =>
      && state.ownerless <= supply
      && Partly(c, keys, state.balances, state.accounts, supply - state.ownerless)
      && state.supply == supply && state.fixed == c.fixed
  }

  class Carried {
    var balances: map<Pubkey, u64>
    var accounts: seq<Owned>
    var converted: map<Pubkey, seq<Owned>>
    var fixed: u64
    var read: u64
    const bridgeProgram: Pubkey

    constructor (config: u64, bridgeProgram: Pubkey)
      ensures View() == Empty(config, bridgeProgram)
    {
      balances, accounts, converted, fixed, read := map[], [], map[], config, config;
      this.bridgeProgram := bridgeProgram;
    }

    function View(): Collected
      reads this
    {
      Collected(balances, accounts, converted, fixed, read, bridgeProgram)
    }

    method Carry(x: Owned)
      modifies this
      ensures View() == CarryOver(old(View()), x)
    {
      read := SaturatingAdd(read, x.account.lamports);
      accounts := accounts + [x];
    }

    method TakeSystem(a: RawAccount)
      modifies this
      ensures View() == System(old(View()), a)
    {
      if a.data == [] && !a.executable {
        read := SaturatingAdd(read, a.lamports);
        if a.lamports > 0 { balances := balances[a.pubkey := a.lamports]; }
      } else {
        Carry(Owned(SYSTEM_PROGRAM, a));
      }
    }

    method Apply(rule: Rule, x: Owned)
      modifies this
      ensures View() == ApplyRule(old(View()), rule, x)
    {
      var used := if x.account.pubkey in GENESIS_KEYS || x.account.pubkey == bridgeProgram then Fixed else rule;
      match used {
        case Carry => Carry(x);
        case Fixed =>
          read := SaturatingAdd(read, x.account.lamports);
          fixed := SaturatingAdd(fixed, x.account.lamports);
        case _ =>
          var withdrawer := if used == StakeToWithdrawer then StakeWithdrawer(x.account.data)
                            else VoteWithdrawer(x.account.data);
          match withdrawer {
            case Some(w) =>
              converted := converted[w := SourcesOf(View(), w) + [x]];
            case None => Carry(x);
          }
      }
    }

    method NotPlainKeys() returns (keys: set<Pubkey>)
      ensures forall k :: k in keys <==> KeyTaken(View(), k)
    {
      keys := set x | x in accounts :: x.account.pubkey;
      var all := set w, x | w in converted && x in converted[w] :: x.account.pubkey;
      keys := keys + all;
    }

    /** The stake and vote accounts of a withdrawer without a plain key. */
    method CarryBack(list: seq<Owned>)
      modifies `accounts, `read
      ensures accounts == old(accounts) + list
      ensures read == Min(old(read) + SumOwned(list), U64_MAX)
    {
      for i := 0 to |list|
        invariant accounts == old(accounts) + list[..i]
        invariant read == Min(old(read) + SumOwned(list[..i]), U64_MAX)
      {
        read := SaturatingAdd(read, list[i].account.lamports);
        accounts := accounts + [list[i]];
        SumOwnedMore(list[..i], list[i]);
        assert list[..i + 1] == list[..i] + [list[i]];
      }
      assert list[..|list|] == list;
    }

    /** Their lamports, to a withdrawer with a plain key. */
    method Give(w: Pubkey, list: seq<Owned>) returns (ok: bool)
      requires list != []
      modifies `balances, `read
      ensures var before := if w in old(balances) then old(balances)[w] else 0;
              && (ok <==> before + SumOwned(list) <= U64_MAX)
              && (ok ==> balances == old(balances)[w := before + SumOwned(list)])
      ensures ok ==> read == Min(old(read) + SumOwned(list), U64_MAX)
    {
      hide SumOwned;
      SumOwnedNone(list[..0]);
      ghost var before := if w in balances then balances[w] else 0;
      for i := 0 to |list|
        invariant read == Min(old(read) + SumOwned(list[..i]), U64_MAX)
        invariant before + SumOwned(list[..i]) <= U64_MAX
        invariant balances == if i == 0 then old(balances) else old(balances)[w := before + SumOwned(list[..i])]
      {
        SumOwnedMore(list[..i], list[i]);
        assert list[..i + 1] == list[..i] + [list[i]];
        read := SaturatingAdd(read, list[i].account.lamports);
        var held := if w in balances then balances[w] else 0;
        if held + list[i].account.lamports > U64_MAX {
          SumOwnedPrefix(list, i + 1);
          return false;
        }
        balances := balances[w := held + list[i].account.lamports];
      }
      assert list[..|list|] == list;
      return true;
    }

    /** One withdrawer: its accounts carry over, or it gets their lamports. */
    method Decide(w: Pubkey, list: seq<Owned>, notPlain: bool, ghost c: Collected, ghost done: set<Pubkey>)
      returns (ok: bool)
      requires w in c.converted && w !in done && list == c.converted[w] != [] && notPlain == KeyTaken(c, w)
      requires Partly(c, done, balances, accounts, read) && NoOverflow(c, done)
      modifies `balances, `accounts, `read
      ensures ok ==> Partly(c, done + {w}, balances, accounts, read) && NoOverflow(c, done + {w})
      ensures !ok ==> Gets(c, c.converted.Keys, w) && Balance(c, c.converted.Keys, w) > U64_MAX
    {
      ghost var was := Collected(balances, accounts, c.converted, fixed, read, bridgeProgram);
      hide Partly; hide KeyTaken; hide SumOwned; hide Gets; hide Balance; hide NoOverflow;
      if notPlain {
        CarryBack(list);
        PartlyReturns(c, done, w, was, accounts, read);
        ok := true;
      } else {
        ok := Give(w, list);
        if ok {
          PartlyGives(c, done, w, was, balances, read);
        } else {
          OverflowsAt(c, done, w, was);
        }
      }
    }

    /** The withdrawers in any order. */
    method DecideAll(waiting: map<Pubkey, seq<Owned>>, notPlain: set<Pubkey>, ghost c: Collected) returns (ok: bool)
      requires waiting == c.converted && forall w :: w in waiting ==> waiting[w] != []
      requires forall k :: k in notPlain <==> KeyTaken(c, k)
      requires balances == c.balances && accounts == c.accounts && read == c.read
      modifies `balances, `accounts, `read
      ensures ok ==> Partly(c, c.converted.Keys, balances, accounts, read) && NoOverflow(c, c.converted.Keys)
      ensures !ok ==> exists k :: Gets(c, c.converted.Keys, k) && Balance(c, c.converted.Keys, k) > U64_MAX
    {
      var left := waiting.Keys;
      ghost var done := {};
      NothingDone(c);
      hide Partly; hide KeyTaken; hide Gets; hide Balance; hide NoOverflow;
      assert done + left == c.converted.Keys;
      while left != {}
        invariant done + left == c.converted.Keys && done !! left
        invariant Partly(c, done, balances, accounts, read) && NoOverflow(c, done)
        decreases left
      {
        var w :| w in left;
        var ok := Decide(w, waiting[w], w in notPlain, c, done);
        if !ok { return false; }
        left, done := left - {w}, done + {w};
      }
      assert done == c.converted.Keys;
      return true;
    }

    /** Each withdrawer gets the lamports of its stake and vote accounts, or
        these accounts carry over. */
    method Finish(supply: u64) returns (r: Result<State, MigrateError>)
      requires forall w :: w in converted ==> converted[w] != []
      modifies this
      ensures Finishes(old(View()), supply, r)
    {
      ghost var c := View();
      var waiting := converted;
      var notPlain := NotPlainKeys();
      converted := map[];
      hide Partly; hide KeyTaken; hide Gets; hide Balance; hide NoOverflow;
      var ok := DecideAll(waiting, notPlain, c);
      if !ok { return Err(Overflow); }
      if read > supply {
        ReadIs(c, c.converted.Keys, balances, accounts, read);
        return Err(Overcounted(supply, read));
      }
      return Ok(State(balances, accounts, supply, fixed, supply - read));
    }
  }

  lemma {:induction false} SumOwnedNone(list: seq<Owned>)
    requires list == []
    ensures SumOwned(list) == 0
  {
  }

  lemma {:induction false} SumOwnedPrefix(list: seq<Owned>, n: nat)
    requires n <= |list|
    ensures SumOwned(list[..n]) <= SumOwned(list)
  {
    if n == |list| {
      assert list[..n] == list;
    } else {
      SumOwnedPrefix(list[..|list| - 1], n);
      assert list[..|list| - 1][..n] == list[..n];
    }
  }

  lemma {:induction false} SumOwnedSplit(a: seq<Owned>, b: seq<Owned>)
    ensures SumOwned(a + b) == SumOwned(a) + SumOwned(b)
  {
    if b == [] {
      assert a + b == a;
    } else {
      SumOwnedSplit(a, b[..|b| - 1]);
      assert (a + b)[..|a + b| - 1] == a + b[..|b| - 1];
    }
  }

  lemma {:induction false} NothingDone(c: Collected)
    ensures Partly(c, {}, c.balances, c.accounts, c.read) && NoOverflow(c, {})
  {
    assert Waiting(c.converted, {}) == map[];
  }

  lemma {:induction false} OneMoreWaits(c: Collected, done: set<Pubkey>, w: Pubkey)
    requires w in c.converted && w !in done
    ensures MapSum(Waiting(c.converted, done + {w})) == MapSum(Waiting(c.converted, done)) + SumOwned(c.converted[w])
  {
    MapSumUpdate(Waiting(c.converted, done), w, SumOwned(c.converted[w]));
    assert Waiting(c.converted, done + {w}) == Waiting(c.converted, done)[w := SumOwned(c.converted[w])];
  }

  lemma {:induction false} ReadIs(
    c: Collected, keys: set<Pubkey>, balances: map<Pubkey, u64>, accounts: seq<Owned>, read: u64)
    requires Partly(c, keys, balances, accounts, read)
    ensures read == Min(c.read + MapSum(Waiting(c.converted, keys)), U64_MAX)
  {
    hide PartlyBalances; hide PartlyAccounts; hide MapSum; hide Waiting; hide SumOwned; hide Lamports;
  }

  lemma {:induction false} TotalsReturn(
    c: Collected, done: set<Pubkey>, w: Pubkey, was: Collected, accounts: seq<Owned>, read: u64)
    requires PartlyTotals(c, done, was.balances, was.accounts, was.read)
    requires w in c.converted && w !in done && accounts == was.accounts + c.converted[w]
    requires read == Min(was.read + SumOwned(c.converted[w]), U64_MAX)
    ensures PartlyTotals(c, done + {w}, was.balances, accounts, read)
  {
    OneMoreWaits(c, done, w);
    SumOwnedSplit(was.accounts, c.converted[w]);
    hide MapSum; hide SumOwned; hide Waiting; hide Lamports;
  }

  lemma {:induction false} AccountsReturn(c: Collected, done: set<Pubkey>, w: Pubkey, was: seq<Owned>, accounts: seq<Owned>)
    requires PartlyAccounts(c, done, was) && w in c.converted && w !in done && KeyTaken(c, w)
    requires accounts == was + c.converted[w]
    ensures PartlyAccounts(c, done + {w}, accounts)
  {
    hide KeyTaken;
    forall x ensures x in accounts <==> x in c.accounts || Returns(c, done + {w}, x) {
      assert x in accounts <==> x in was || x in c.converted[w];
      if Returns(c, done, x) {
        var v :| v in done && v in c.converted && KeyTaken(c, v) && x in c.converted[v];
        assert v in done + {w};
      }
      if x in c.converted[w] { assert w in done + {w}; }
    }
    if KeysApart(c) {
      forall x, y | x in was && y in c.converted[w] ensures x.account.pubkey != y.account.pubkey {
        if x !in c.accounts {
          var v :| v in done && v in c.converted && x in c.converted[v];
          assert NoCommonKey(c.converted[v], c.converted[w]);
        } else {
          assert NoCommonKey(c.accounts, c.converted[w]);
        }
      }
      KeysDifferMore(was, c.converted[w]);
    }
  }

  lemma {:induction false} KeysDifferMore(a: seq<Owned>, b: seq<Owned>)
    requires KeysDiffer(a) && KeysDiffer(b) && NoCommonKey(a, b)
    ensures KeysDiffer(a + b)
  {
    var all := a + b;
    forall i, j | 0 <= i < j < |all| ensures all[i].account.pubkey != all[j].account.pubkey {
      if i < |a| <= j { assert all[i] in a && all[j] in b; }
    }
  }

  /** A withdrawer whose key is taken gets nothing. */
  lemma {:induction false} BalancesStay(c: Collected, done: set<Pubkey>, w: Pubkey, balances: map<Pubkey, u64>)
    requires PartlyBalances(c, done, balances) && NoOverflow(c, done) && KeyTaken(c, w)
    ensures PartlyBalances(c, done + {w}, balances) && NoOverflow(c, done + {w})
  {
    hide KeyTaken; hide SumOwned;
    forall k ensures Gets(c, done + {w}, k) <==> Gets(c, done, k) {}
    assert forall k :: Balance(c, done + {w}, k) == Balance(c, done, k);
    hide Gets; hide Balance;
  }

  lemma {:induction false} PartlyReturns(
    c: Collected, done: set<Pubkey>, w: Pubkey, was: Collected, accounts: seq<Owned>, read: u64)
    requires Partly(c, done, was.balances, was.accounts, was.read) && NoOverflow(c, done)
    requires w in c.converted && w !in done && KeyTaken(c, w)
    requires accounts == was.accounts + c.converted[w]
    requires read == Min(was.read + SumOwned(c.converted[w]), U64_MAX)
    ensures Partly(c, done + {w}, was.balances, accounts, read) && NoOverflow(c, done + {w})
  {
    TotalsReturn(c, done, w, was, accounts, read);
    AccountsReturn(c, done, w, was.accounts, accounts);
    BalancesStay(c, done, w, was.balances);
    hide PartlyTotals; hide PartlyAccounts; hide PartlyBalances; hide NoOverflow;
  }

  lemma {:induction false} TotalsGive(
    c: Collected, done: set<Pubkey>, w: Pubkey, was: Collected, balances: map<Pubkey, u64>, read: u64)
    requires PartlyTotals(c, done, was.balances, was.accounts, was.read)
    requires w in c.converted && w !in done
    requires var before := if w in was.balances then was.balances[w] else 0;
             before + SumOwned(c.converted[w]) <= U64_MAX && balances == was.balances[w := before + SumOwned(c.converted[w])]
    requires read == Min(was.read + SumOwned(c.converted[w]), U64_MAX)
    ensures PartlyTotals(c, done + {w}, balances, was.accounts, read)
  {
    OneMoreWaits(c, done, w);
    LamportsUpdate(was.balances, w, balances[w]);
    hide MapSum; hide SumOwned; hide Waiting; hide Lamports;
  }

  lemma {:induction false} AccountsStay(c: Collected, done: set<Pubkey>, w: Pubkey, accounts: seq<Owned>)
    requires PartlyAccounts(c, done, accounts) && !KeyTaken(c, w)
    ensures PartlyAccounts(c, done + {w}, accounts)
  {
    hide KeyTaken;
    forall x ensures Returns(c, done, x) <==> Returns(c, done + {w}, x) {
      if Returns(c, done, x) {
        var v :| v in done && v in c.converted && KeyTaken(c, v) && x in c.converted[v];
        assert v in done + {w};
      }
    }
    hide Returns;
  }

  lemma {:induction false} BalancesGive(
    c: Collected, done: set<Pubkey>, w: Pubkey, was: map<Pubkey, u64>, balances: map<Pubkey, u64>)
    requires PartlyBalances(c, done, was) && NoOverflow(c, done) && w in c.converted && w !in done && !KeyTaken(c, w)
    requires var before := if w in was then was[w] else 0;
             before + SumOwned(c.converted[w]) <= U64_MAX && balances == was[w := before + SumOwned(c.converted[w])]
    ensures PartlyBalances(c, done + {w}, balances) && NoOverflow(c, done + {w})
  {
    hide KeyTaken; hide SumOwned;
    assert !Gets(c, done, w) && Gets(c, done + {w}, w);
    assert forall k :: k != w ==> (Gets(c, done + {w}, k) <==> Gets(c, done, k));
    assert forall k :: k != w ==> Balance(c, done + {w}, k) == Balance(c, done, k);
    assert Balance(c, done + {w}, w) == Before(c, w) + SumOwned(c.converted[w]);
    assert Balance(c, done, w) == Before(c, w);
    hide Gets; hide Balance;
  }

  lemma {:induction false} PartlyGives(
    c: Collected, done: set<Pubkey>, w: Pubkey, was: Collected, balances: map<Pubkey, u64>, read: u64)
    requires Partly(c, done, was.balances, was.accounts, was.read) && NoOverflow(c, done)
    requires w in c.converted && w !in done && !KeyTaken(c, w)
    requires var before := if w in was.balances then was.balances[w] else 0;
             before + SumOwned(c.converted[w]) <= U64_MAX && balances == was.balances[w := before + SumOwned(c.converted[w])]
    requires read == Min(was.read + SumOwned(c.converted[w]), U64_MAX)
    ensures Partly(c, done + {w}, balances, was.accounts, read) && NoOverflow(c, done + {w})
  {
    TotalsGive(c, done, w, was, balances, read);
    AccountsStay(c, done, w, was.accounts);
    BalancesGive(c, done, w, was.balances, balances);
    hide PartlyTotals; hide PartlyAccounts; hide PartlyBalances; hide NoOverflow;
  }

  lemma {:induction false} OverflowsAt(c: Collected, done: set<Pubkey>, w: Pubkey, was: Collected)
    requires Partly(c, done, was.balances, was.accounts, was.read)
    requires w in c.converted && w !in done && !KeyTaken(c, w)
    requires (if w in was.balances then was.balances[w] else 0) + SumOwned(c.converted[w]) > U64_MAX
    ensures Gets(c, c.converted.Keys, w) && Balance(c, c.converted.Keys, w) > U64_MAX
  {
    hide PartlyTotals; hide PartlyAccounts; hide SumOwned; hide KeyTaken;
    assert !Gets(c, done, w);
  }

  // ----------------------------------------------------------- the whole export

  /** `finish` after the reads of `items`. */
  ghost predicate Exports(config: u64, p: Pubkey, items: seq<Item>, supply: u64, r: Result<State, MigrateError>) {
    Finishes(TakeAll(Empty(config, p), items), supply, r)
  }

  /** No lamport gets lost or appears: what carries over, the balances, the
      fixed part and the ownerless part are the whole supply. Accounts that hold
      more than the supply stop the export; only a supply at the top of a u64
      cannot tell. */
  lemma {:induction false} LamportsAreConserved(
    config: u64, p: Pubkey, items: seq<Item>, supply: u64, r: Result<State, MigrateError>)
    requires DistinctKeys(items) && Exports(config, p, items, supply, r) && r.Ok?
    ensures supply < U64_MAX ==> config + SumAll(items) <= supply
    ensures config + SumAll(items) <= U64_MAX ==>
              && MapSum(Lamports(r.value.balances)) + SumOwned(r.value.accounts) + r.value.fixed + r.value.ownerless == supply
              && r.value.fixed == config + SumOf(items, Remade, p)
              && r.value.ownerless == supply - config - SumAll(items)
  {
    ReadsReflect(config, p, items);
    ReadsConserve(config, p, items);
    hide TakeAll; hide MapSum; hide SumOwned; hide Waiting; hide Lamports; hide SumAll; hide SumRead; hide SumOf;
    hide PartlyBalances; hide PartlyAccounts; hide BalancesReflect; hide ConvertedReflect;
  }

  lemma {:induction false} OfKindHas(items: seq<Item>, kind: Kind, p: Pubkey, x: Owned)
    ensures x in OfKind(items, kind, p) <==> exists item :: item in items && KindOf(item, p) == kind && OwnedOf(item) == x
  {
    hide KindOf;
    if items != [] {
      OfKindHas(items[..|items| - 1], kind, p, x);
      InMore(items);
      if x in OfKind(items[..|items| - 1], kind, p) {
        var item :| item in items[..|items| - 1] && KindOf(item, p) == kind && OwnedOf(item) == x;
        assert item in items;
      }
      if KindOf(items[|items| - 1], p) == kind && OwnedOf(items[|items| - 1]) == x {
        assert items[|items| - 1] in items;
      }
    }
  }

  lemma {:induction false} OfKindSplit(a: seq<Item>, b: seq<Item>, kind: Kind, p: Pubkey)
    ensures OfKind(a + b, kind, p) == OfKind(a, kind, p) + OfKind(b, kind, p)
  {
    hide KindOf;
    if b == [] {
      assert a + b == a;
    } else {
      OfKindSplit(a, b[..|b| - 1], kind, p);
      assert (a + b)[..|a + b| - 1] == a + b[..|b| - 1];
    }
  }

  lemma {:induction false} OfKindPermutes(a: seq<Item>, b: seq<Item>, kind: Kind, p: Pubkey)
    requires multiset(a) == multiset(b)
    ensures multiset(OfKind(a, kind, p)) == multiset(OfKind(b, kind, p))
    decreases |a|
  {
    hide KindOf;
    if a == [] {
      assert |b| == |multiset(b)| == 0;
    } else {
      var n, last := |a| - 1, a[|a| - 1];
      var j := WithoutLast(a, b);
      assert a == a[..n] + [last];
      OfKindPermutes(a[..n], b[..j] + b[j + 1..], kind, p);
      OfKindSplit(b[..j], b[j + 1..], kind, p);
      OfKindSplit(b[..j] + [last], b[j + 1..], kind, p);
      OfKindSplit(b[..j], [last], kind, p);
      assert [last][..0] == [];
      hide OfKind;
    }
  }

  lemma {:induction false} SumOwnedPermutes(a: seq<Owned>, b: seq<Owned>)
    requires multiset(a) == multiset(b)
    ensures SumOwned(a) == SumOwned(b)
    decreases |a|
  {
    if a == [] {
      assert |b| == |multiset(b)| == 0;
    } else {
      var n, last := |a| - 1, a[|a| - 1];
      var j := WithoutLast(a, b);
      assert a == a[..n] + [last];
      SumOwnedPermutes(a[..n], b[..j] + b[j + 1..]);
      SumOwnedSplit(b[..j], b[j + 1..]);
      SumOwnedSplit(b[..j] + [last], b[j + 1..]);
      SumOwnedMore(b[..j], last);
      SumOwnedMore(a[..n], last);
      hide SumOwned;
    }
  }

  // ------------------------------------------------------- what the state means

  lemma {:induction false} TakenIsNotPlain(config: u64, p: Pubkey, items: seq<Item>, key: Pubkey)
    ensures KeyTaken(TakeAll(Empty(config, p), items), key) <==> NotPlain(items, p, key)
  {
    var c := TakeAll(Empty(config, p), items);
    ReadsReflect(config, p, items);
    hide TakeAll; hide KindOf; hide OfKind; hide SumOf; hide SumRead;
    if KeyTaken(c, key) {
      if x :| x in c.accounts && x.account.pubkey == key {
        OfKindHas(items, Same, p, x);
      } else {
        var w :| w in c.converted && exists x :: x in c.converted[w] && x.account.pubkey == key;
        var x :| x in c.converted[w] && x.account.pubkey == key;
        assert SourcesOf(c, w) == OfKind(items, To(w), p);
        OfKindHas(items, To(w), p, x);
      }
    }
    if NotPlain(items, p, key) {
      var item :| item in items && item.Key() == key && (KindOf(item, p).Same? || KindOf(item, p).To?);
      OfKindHas(items, KindOf(item, p), p, OwnedOf(item));
      if KindOf(item, p).To? {
        assert SourcesOf(c, KindOf(item, p).withdrawer) == OfKind(items, KindOf(item, p), p);
      }
    }
  }

  lemma {:induction false} ConvertedIs(config: u64, p: Pubkey, items: seq<Item>, w: Pubkey)
    ensures var c := TakeAll(Empty(config, p), items);
            && (w in c.converted <==> exists item :: item in items && KindOf(item, p) == To(w))
            && (w in c.converted ==> c.converted[w] == OfKind(items, To(w), p))
  {
    var c := TakeAll(Empty(config, p), items);
    ReadsReflect(config, p, items);
    hide TakeAll; hide KindOf; hide OfKind; hide SumOf; hide SumRead;
    assert SourcesOf(c, w) == OfKind(items, To(w), p);
    if w in c.converted {
      OfKindHas(items, To(w), p, c.converted[w][0]);
    }
    if item :| item in items && KindOf(item, p) == To(w) {
      OfKindHas(items, To(w), p, OwnedOf(item));
    }
  }

  /** Who gets lamports, and how many, in terms of the accounts alone. */
  lemma {:induction false} BalanceIs(config: u64, p: Pubkey, items: seq<Item>, k: Pubkey)
    ensures var c := TakeAll(Empty(config, p), items);
            && ((k in c.balances || Gets(c, c.converted.Keys, k)) <==> HasBalance(items, p, k))
            && Balance(c, c.converted.Keys, k) == BalanceOf(items, p, k)
  {
    var c := TakeAll(Empty(config, p), items);
    ReadsReflect(config, p, items);
    TakenIsNotPlain(config, p, items, k);
    ConvertedIs(config, p, items, k);
    NoPlainMeansNothing(items, p, k);
    if !(exists item :: item in items && KindOf(item, p) == To(k)) {
      NoneOfKind(items, To(k), p);
    }
    hide TakeAll; hide KindOf; hide OfKind; hide SumRead; hide KeyTaken; hide NotPlain; hide PlainOf; hide SumOwned;
    hide ConvertedReflect; hide TotalsReflect;
  }

  lemma {:induction false} NoneOfKind(items: seq<Item>, kind: Kind, p: Pubkey)
    requires !exists item :: item in items && KindOf(item, p) == kind
    ensures SumOf(items, kind, p) == 0
  {
    if OfKind(items, kind, p) != [] {
      OfKindHas(items, kind, p, OfKind(items, kind, p)[0]);
    }
  }

  lemma {:induction false} NoPlainMeansNothing(items: seq<Item>, p: Pubkey, key: Pubkey)
    ensures (!exists x :: x in items && IsPlainAt(x, p, key)) ==> PlainOf(items, p, key) == 0
  {
    hide KindOf;
    if items != [] {
      InMore(items);
      NoPlainMeansNothing(items[..|items| - 1], p, key);
      if !(exists x :: x in items && IsPlainAt(x, p, key)) {
        assert items[|items| - 1] in items;
        forall x | x in items[..|items| - 1] ensures !IsPlainAt(x, p, key) {
          assert x in items;
        }
      }
    }
  }

  lemma {:induction false} CarriedIs(config: u64, p: Pubkey, items: seq<Item>, x: Owned)
    ensures var c := TakeAll(Empty(config, p), items);
            (x in c.accounts || Returns(c, c.converted.Keys, x))
            <==> exists item :: item in items && OwnedOf(item) == x && CarriesOver(items, p, item)
  {
    var c := TakeAll(Empty(config, p), items);
    ReadsReflect(config, p, items);
    OfKindHas(items, Same, p, x);
    forall w ensures KeyTaken(c, w) <==> NotPlain(items, p, w) { TakenIsNotPlain(config, p, items, w); }
    hide TakeAll; hide KindOf; hide OfKind; hide SumOf; hide SumRead; hide KeyTaken; hide NotPlain;
    hide BalancesReflect; hide TotalsReflect;
    if Returns(c, c.converted.Keys, x) {
      var w :| w in c.converted && KeyTaken(c, w) && x in c.converted[w];
      assert SourcesOf(c, w) == OfKind(items, To(w), p);
      OfKindHas(items, To(w), p, x);
    }
    if item :| item in items && OwnedOf(item) == x && CarriesOver(items, p, item) {
      var kind := KindOf(item, p);
      if kind.To? {
        assert SourcesOf(c, kind.withdrawer) == OfKind(items, kind, p);
        OfKindHas(items, kind, p, x);
        assert kind.withdrawer in c.converted.Keys;
      }
    }
  }

  /** The balances and the carried accounts, in terms of the accounts alone. */
  ghost predicate Means(p: Pubkey, items: seq<Item>, state: State) {
    && (forall k :: k in state.balances <==> HasBalance(items, p, k))
    && (forall k :: k in state.balances ==> state.balances[k] == BalanceOf(items, p, k))
    && (forall x :: x in state.accounts <==> exists item :: item in items && OwnedOf(item) == x && CarriesOver(items, p, item))
    && KeysDiffer(state.accounts)
  }

  lemma {:induction false} ReadsAreApart(config: u64, p: Pubkey, items: seq<Item>)
    requires DistinctKeys(items)
    ensures KeysApart(TakeAll(Empty(config, p), items))
  {
    var c := TakeAll(Empty(config, p), items);
    ReadsReflect(config, p, items);
    forall w | w in c.converted ensures c.converted[w] == OfKind(items, To(w), p) {
      ConvertedIs(config, p, items, w);
    }
    forall kind ensures KeysDiffer(OfKind(items, kind, p)) { KindDiffers(items, kind, p); }
    forall kind, other | kind != other ensures NoCommonKey(OfKind(items, kind, p), OfKind(items, other, p)) {
      KindsApart(items, kind, other, p);
    }
    hide TakeAll; hide OfKind; hide KindOf; hide KeysDiffer; hide NoCommonKey; hide BalancesReflect; hide TotalsReflect;
  }

  lemma {:induction false} KindDiffers(items: seq<Item>, kind: Kind, p: Pubkey)
    requires DistinctKeys(items)
    ensures KeysDiffer(OfKind(items, kind, p))
  {
    hide KindOf;
    if items != [] {
      var front, last := items[..|items| - 1], items[|items| - 1];
      KindDiffers(front, kind, p);
      forall x | x in OfKind(front, kind, p) ensures x.account.pubkey != last.Key() {
        OfKindHas(front, kind, p, x);
        var item :| item in front && OwnedOf(item) == x;
        var i :| 0 <= i < |front| && front[i] == item;
      }
    }
  }

  lemma {:induction false} KindsApart(items: seq<Item>, kind: Kind, other: Kind, p: Pubkey)
    requires DistinctKeys(items) && kind != other
    ensures NoCommonKey(OfKind(items, kind, p), OfKind(items, other, p))
  {
    hide KindOf; hide OfKind;
    forall x, y | x in OfKind(items, kind, p) && y in OfKind(items, other, p)
      ensures x.account.pubkey != y.account.pubkey
    {
      OfKindHas(items, kind, p, x);
      OfKindHas(items, other, p, y);
      var a :| a in items && KindOf(a, p) == kind && OwnedOf(a) == x;
      var b :| b in items && KindOf(b, p) == other && OwnedOf(b) == y;
      var i :| 0 <= i < |items| && items[i] == a;
      var j :| 0 <= j < |items| && items[j] == b;
      assert i != j;
    }
  }

  /** Every export means the same thing: which key gets which balance and which
      account carries over depends on the accounts alone. */
  lemma {:induction false} ExportMeans(config: u64, p: Pubkey, items: seq<Item>, supply: u64, r: Result<State, MigrateError>)
    requires DistinctKeys(items) && Exports(config, p, items, supply, r) && r.Ok?
    ensures Means(p, items, r.value)
  {
    ReadsAreApart(config, p, items);
    forall k { BalanceIs(config, p, items, k); }
    forall x { CarriedIs(config, p, items, x); }
    hide TakeAll; hide KeysApart; hide KeysDiffer; hide Gets; hide Returns; hide Balance; hide HasBalance; hide BalanceOf;
    hide CarriesOver; hide PartlyTotals; hide OwnedOf;
  }

  /** No key is both a plain balance and an account that carries over. */
  lemma {:induction false} BalancesAndAccountsAreDisjoint(p: Pubkey, items: seq<Item>, state: State, x: Owned)
    requires DistinctKeys(items) && Means(p, items, state) && x in state.accounts
    ensures x.account.pubkey !in state.balances
  {
    var k := x.account.pubkey;
    hide KindOf; hide KeysDiffer; hide BalanceOf;
    var item :| item in items && OwnedOf(item) == x && CarriesOver(items, p, item);
    assert NotPlain(items, p, k);
  }

  // ------------------------------------------------------------- any read order

  lemma {:induction false} SameItems(a: seq<Item>, b: seq<Item>)
    requires multiset(a) == multiset(b)
    ensures forall x :: x in a <==> x in b
  {
    forall x ensures x in a <==> x in b {
      assert x in a <==> x in multiset(a);
      assert x in b <==> x in multiset(b);
    }
  }

  lemma {:induction false} PlainIs(items: seq<Item>, p: Pubkey, x: Item, key: Pubkey)
    requires DistinctKeys(items) && x in items && IsPlainAt(x, p, key)
    ensures PlainOf(items, p, key) == x.Lamports()
  {
    hide KindOf;
    InMore(items);
    var front, last := items[..|items| - 1], items[|items| - 1];
    if !IsPlainAt(last, p, key) {
      assert x in front;
      PlainIs(front, p, x, key);
    }
  }

  /** The meaning does not see the order of the reads. */
  lemma {:induction false} MeaningHasNoOrder(a: seq<Item>, b: seq<Item>, p: Pubkey, k: Pubkey)
    requires multiset(a) == multiset(b) && DistinctKeys(a) && DistinctKeys(b)
    ensures NotPlain(a, p, k) <==> NotPlain(b, p, k)
    ensures HasBalance(a, p, k) <==> HasBalance(b, p, k)
    ensures BalanceOf(a, p, k) == BalanceOf(b, p, k)
  {
    SameItems(a, b);
    OfKindPermutes(a, b, To(k), p);
    SumOwnedPermutes(OfKind(a, To(k), p), OfKind(b, To(k), p));
    hide KindOf; hide OfKind; hide SumOwned;
    if x :| x in a && IsPlainAt(x, p, k) {
      PlainIs(a, p, x, k);
      PlainIs(b, p, x, k);
    } else {
      NoPlainMeansNothing(a, p, k);
      NoPlainMeansNothing(b, p, k);
    }
    hide PlainOf; hide IsPlainAt;
  }

  lemma {:induction false} SameMeaning(p: Pubkey, a: seq<Item>, b: seq<Item>, s: State, t: State)
    requires multiset(a) == multiset(b) && DistinctKeys(a) && DistinctKeys(b)
    requires Means(p, a, s) && Means(p, b, t)
    ensures s.balances == t.balances
    ensures multiset(s.accounts) == multiset(t.accounts)
  {
    SameItems(a, b);
    forall k { MeaningHasNoOrder(a, b, p, k); }
    forall x ensures CarriesOver(a, p, x) <==> CarriesOver(b, p, x) {
      hide NotPlain; hide KindOf;
    }
    hide NotPlain; hide HasBalance; hide BalanceOf; hide CarriesOver; hide OwnedOf; hide KeysDiffer;
    SameSet(s.accounts, t.accounts);
  }

  lemma {:induction false} CountsOnce(list: seq<Owned>, x: Owned)
    requires KeysDiffer(list)
    ensures multiset(list)[x] == if x in list then 1 else 0
  {
    if list != [] {
      var n := |list| - 1;
      assert list == list[..n] + [list[n]];
      CountsOnce(list[..n], x);
    }
  }

  lemma {:induction false} SameSet(a: seq<Owned>, b: seq<Owned>)
    requires KeysDiffer(a) && KeysDiffer(b) && forall x :: x in a <==> x in b
    ensures multiset(a) == multiset(b)
  {
    forall x ensures multiset(a)[x] == multiset(b)[x] {
      CountsOnce(a, x);
      CountsOnce(b, x);
    }
  }

  lemma {:induction false} SumAllSplit(a: seq<Item>, b: seq<Item>)
    ensures SumAll(a + b) == SumAll(a) + SumAll(b)
  {
    if b == [] {
      assert a + b == a;
    } else {
      SumAllSplit(a, b[..|b| - 1]);
      assert (a + b)[..|a + b| - 1] == a + b[..|b| - 1];
    }
  }

  lemma {:induction false} SumAllPermutes(a: seq<Item>, b: seq<Item>)
    requires multiset(a) == multiset(b)
    ensures SumAll(a) == SumAll(b)
    decreases |a|
  {
    if a == [] {
      assert |b| == |multiset(b)| == 0;
    } else {
      var n, last := |a| - 1, a[|a| - 1];
      var j := WithoutLast(a, b);
      SumAllPermutes(a[..n], b[..j] + b[j + 1..]);
      SumAllSplit(b[..j], b[j + 1..]);
      SumAllSplit(b[..j] + [last], b[j + 1..]);
      SumAllSplit(b[..j], [last]);
      assert [last][..0] == [] && SumAll([last]) == SumAll([]) + last.Lamports();
      assert a == a[..n] + [last];
      SumAllSplit(a[..n], [last]);
      hide SumAll;
    }
  }

  /** How an export ends, in terms of the accounts alone. */
  ghost predicate Ends(config: u64, p: Pubkey, items: seq<Item>, supply: u64, r: Result<State, MigrateError>) {
    match r
    case Err(Overflow) => exists k :: BalanceOf(items, p, k) > U64_MAX
    case Err(Overcounted(s, found)) =>
      && (forall k :: BalanceOf(items, p, k) <= U64_MAX)
      && s == supply < found == Min(config + SumAll(items), U64_MAX)
    case Ok(state) =>
      && (forall k :: BalanceOf(items, p, k) <= U64_MAX)
      && Min(config + SumAll(items), U64_MAX) <= supply == state.supply
      && state.ownerless == supply - Min(config + SumAll(items), U64_MAX)
      && state.fixed == Min(config + SumOf(items, Remade, p), U64_MAX)
  }

  lemma {:induction false} ExportEnds(config: u64, p: Pubkey, items: seq<Item>, supply: u64, r: Result<State, MigrateError>)
    requires DistinctKeys(items) && Exports(config, p, items, supply, r)
    ensures Ends(config, p, items, supply, r)
  {
    var c := TakeAll(Empty(config, p), items);
    ReadsReflect(config, p, items);
    ReadsConserve(config, p, items);
    forall k ensures (Gets(c, c.converted.Keys, k) && Balance(c, c.converted.Keys, k) > U64_MAX) <==> BalanceOf(items, p, k) > U64_MAX {
      BalanceIs(config, p, items, k);
      BeforeFits(c, k);
    }
    hide TakeAll; hide Gets; hide Balance; hide BalanceOf; hide SumAll; hide SumRead; hide SumOf; hide MapSum; hide Waiting;
    hide PartlyBalances; hide PartlyAccounts; hide BalancesReflect; hide ConvertedReflect; hide Held; hide SumOwned;
  }

  lemma {:induction false} BeforeFits(c: Collected, k: Pubkey)
    ensures !Gets(c, c.converted.Keys, k) ==> Balance(c, c.converted.Keys, k) <= U64_MAX
  {
  }

  /** Two read orders of the same accounts end alike, for chains of stake
      withdrawers too: the same end, the same balances, the same accounts. */
  lemma {:induction false} ReadOrderDoesNotMatter(
    config: u64, p: Pubkey, a: seq<Item>, b: seq<Item>, supply: u64,
    r: Result<State, MigrateError>, q: Result<State, MigrateError>)
    requires multiset(a) == multiset(b) && DistinctKeys(a) && DistinctKeys(b)
    requires Exports(config, p, a, supply, r) && Exports(config, p, b, supply, q)
    ensures match (r, q)
            case (Ok(s), Ok(t)) =>
              && s.balances == t.balances && multiset(s.accounts) == multiset(t.accounts)
              && s.(balances := t.balances, accounts := t.accounts) == t
            case (Err(e), Err(f)) => e == f
            case _ => false
  {
    hide Exports; hide BalanceOf; hide SumAll; hide OfKind; hide SumOwned; hide DistinctKeys; hide Means;
    ExportEnds(config, p, a, supply, r);
    ExportEnds(config, p, b, supply, q);
    SumAllPermutes(a, b);
    OfKindPermutes(a, b, Remade, p);
    SumOwnedPermutes(OfKind(a, Remade, p), OfKind(b, Remade, p));
    forall k ensures BalanceOf(a, p, k) == BalanceOf(b, p, k) { MeaningHasNoOrder(a, b, p, k); }
    if r.Ok? && q.Ok? {
      ExportMeans(config, p, a, supply, r);
      ExportMeans(config, p, b, supply, q);
      SameMeaning(p, a, b, r.value, q.value);
    }
  }
}
