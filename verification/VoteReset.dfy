/** The vote accounts of the migration: `reset_vote` and `rebase_voters`
    (daemon/src/genesis.rs). The reset keeps who may vote in which epoch and
    drops every vote. */
module VoteReset {
  import opened Prelude
  import opened Bytes

  // ------------------------------------------------------------------ voters

  /** One entry of the authorized voters: `key` votes from `epoch` on. */
  datatype Voter = Voter(epoch: u64, key: seq<u8>)

  function LastAtOrBefore(voters: seq<Voter>, source: u64): Option<Voter> {
    if voters == [] then None
    else
      var last := voters[|voters| - 1];
      if last.epoch <= source then Some(last) else LastAtOrBefore(voters[..|voters| - 1], source)
  }

  function MovedBy(voter: Voter, source: u64): Voter
    requires voter.epoch >= source
  {
    Voter(voter.epoch - source, voter.key)
  }

  /** The voters after `source`, moved back by it. */
  function LaterVoters(voters: seq<Voter>, source: u64): seq<Voter> {
    if voters == [] then []
    else
      var front := LaterVoters(voters[..|voters| - 1], source);
      var last := voters[|voters| - 1];
      if last.epoch > source then front + [MovedBy(last, source)] else front
  }

  function RebaseVoters(voters: seq<Voter>, source: u64): Option<seq<Voter>> {
    if voters == [] then None
    else
      var found := LastAtOrBefore(voters, source);
      var current := if found.Some? then found.value else voters[0];
      Some([Voter(0, current.key)] + LaterVoters(voters, source))
  }

  /** Vote accounts hold their voters as a map in epoch order. */
  ghost predicate InOrder(voters: seq<Voter>) {
    forall i, j :: 0 <= i < j < |voters| ==> voters[i].epoch < voters[j].epoch
  }

  /** Entry `i` is the newest one at `epoch`. */
  ghost predicate HoldsAt(voters: seq<Voter>, i: nat, epoch: nat) {
    && i < |voters| && voters[i].epoch <= epoch
    && forall j :: 0 <= j < |voters| && voters[j].epoch <= epoch ==> voters[j].epoch <= voters[i].epoch
  }

  /** `key` may vote at `epoch`: it holds the newest entry that is not later. */
  ghost predicate InForce(voters: seq<Voter>, epoch: nat, key: seq<u8>) {
    exists i: nat :: HoldsAt(voters, i, epoch) && voters[i].key == key
  }

  ghost function Shifted(voters: seq<Voter>, source: u64): (later: seq<Voter>)
    requires forall i :: 0 <= i < |voters| ==> voters[i].epoch > source
    ensures |later| == |voters|
    ensures forall i :: 0 <= i < |later| ==> later[i] == MovedBy(voters[i], source)
  {
    seq(|voters|, i requires 0 <= i < |voters| => MovedBy(voters[i], source))
  }

  /** The first `k` voters are not later than `source`, and all others are. */
  ghost predicate CutAt(voters: seq<Voter>, source: u64, k: nat) {
    k <= |voters| && forall i :: 0 <= i < |voters| ==> (voters[i].epoch <= source <==> i < k)
  }

  /** `source` cuts an ordered list in two. */
  lemma {:induction false} Cut(voters: seq<Voter>, source: u64) returns (k: nat)
    requires InOrder(voters)
    ensures CutAt(voters, source, k)
  {
    k := 0;
    while k < |voters| && voters[k].epoch <= source
      invariant k <= |voters|
      invariant forall i :: 0 <= i < k ==> voters[i].epoch <= source
    {
      k := k + 1;
    }
  }

  lemma {:induction false} LastIs(voters: seq<Voter>, source: u64, k: nat)
    requires CutAt(voters, source, k)
    ensures LastAtOrBefore(voters, source) == if k == 0 then None else Some(voters[k - 1])
  {
    if k < |voters| {
      LastIs(voters[..|voters| - 1], source, k);
    }
  }

  lemma {:induction false} NoneIsLater(voters: seq<Voter>, source: u64)
    requires forall i :: 0 <= i < |voters| ==> voters[i].epoch <= source
    ensures LaterVoters(voters, source) == []
  {
    if voters != [] {
      NoneIsLater(voters[..|voters| - 1], source);
    }
  }

  lemma {:induction false} AllAreLater(first: seq<Voter>, voters: seq<Voter>, source: u64)
    requires LaterVoters(first, source) == []
    requires forall i :: 0 <= i < |voters| ==> voters[i].epoch > source
    ensures LaterVoters(first + voters, source) == Shifted(voters, source)
  {
    var all := first + voters;
    if voters == [] {
      assert all == first;
    } else {
      var n := |voters| - 1;
      AllAreLater(first, voters[..n], source);
      assert all[..|all| - 1] == first + voters[..n] && all[|all| - 1] == voters[n];
      hide MovedBy;
      assert LaterVoters(all, source) == LaterVoters(first + voters[..n], source) + [MovedBy(voters[n], source)];
    }
  }

  /** In an ordered list, the newest entry is the one before the first later one. */
  ghost predicate Newest(voters: seq<Voter>, i: nat, epoch: nat) {
    && i < |voters| && voters[i].epoch <= epoch
    && (i + 1 < |voters| ==> voters[i + 1].epoch > epoch)
  }

  lemma {:induction false} NewestHolds(voters: seq<Voter>, i: nat, epoch: nat)
    requires InOrder(voters)
    ensures HoldsAt(voters, i, epoch) <==> Newest(voters, i, epoch)
  {
    if i + 1 < |voters| {
      assert voters[i].epoch < voters[i + 1].epoch;
    }
    if Newest(voters, i, epoch) {
      forall j | i < j < |voters| ensures voters[j].epoch > epoch {
        if j > i + 1 { assert voters[i + 1].epoch < voters[j].epoch; }
      }
    }
  }

  /** Entry `i` of the rebased list `r` stands for `voters[k + i - 1]`. */
  ghost predicate StandsFor(voters: seq<Voter>, source: u64, k: nat, r: seq<Voter>, i: nat)
    requires 1 <= i < |r| && k + i - 1 < |voters|
  {
    voters[k + i - 1].epoch == r[i].epoch + source && voters[k + i - 1].key == r[i].key
  }

  /** The rebased list, entry by entry. The first `k` voters are not later than
      `source`. */
  ghost predicate Moved(voters: seq<Voter>, source: u64, k: nat, r: seq<Voter>) {
    && CutAt(voters, source, k) && voters != []
    && |r| == 1 + |voters| - k
    && r[0] == Voter(0, voters[if k == 0 then 0 else k - 1].key)
    && forall i :: 1 <= i < |r| ==> StandsFor(voters, source, k, r, i)
  }

  lemma {:induction false} LaterIs(voters: seq<Voter>, source: u64, k: nat) returns (later: seq<Voter>)
    requires CutAt(voters, source, k)
    ensures later == LaterVoters(voters, source) && |later| == |voters| - k
    ensures forall i :: 0 <= i < |later| ==> later[i] == MovedBy(voters[k + i], source)
  {
    NoneIsLater(voters[..k], source);
    AllAreLater(voters[..k], voters[k..], source);
    assert voters[..k] + voters[k..] == voters;
    hide LaterVoters; hide MovedBy;
    later := Shifted(voters[k..], source);
  }

  lemma {:induction false} RebasedIs(voters: seq<Voter>, source: u64) returns (k: nat)
    requires InOrder(voters) && voters != []
    ensures Moved(voters, source, k, RebaseVoters(voters, source).value)
    ensures InOrder(RebaseVoters(voters, source).value)
  {
    k := Cut(voters, source);
    LastIs(voters, source, k);
    var later := LaterIs(voters, source, k);
    var first := Voter(0, voters[if k == 0 then 0 else k - 1].key);
    assert RebaseVoters(voters, source) == Some([first] + later);
    hide RebaseVoters; hide LastAtOrBefore; hide LaterVoters;
    var r := [first] + later;
    forall i | 1 <= i < |r| ensures StandsFor(voters, source, k, r, i) {
      assert r[i] == later[i - 1];
    }
    StaysInOrder(voters, source, k, r);
  }

  lemma {:induction false} StaysInOrder(voters: seq<Voter>, source: u64, k: nat, r: seq<Voter>)
    requires InOrder(voters) && Moved(voters, source, k, r)
    ensures InOrder(r)
  {
    forall i, j | 0 <= i < j < |r| ensures r[i].epoch < r[j].epoch {
      assert StandsFor(voters, source, k, r, j);
      if i > 0 {
        assert StandsFor(voters, source, k, r, i);
        assert voters[k + i - 1].epoch < voters[k + j - 1].epoch;
      }
    }
  }

  lemma {:induction false} MovedForward(voters: seq<Voter>, source: u64, k: nat, r: seq<Voter>, e: nat, i: nat)
    requires Moved(voters, source, k, r) && Newest(voters, i, source + e)
    ensures exists j: nat :: Newest(r, j, e) && r[j].key == voters[i].key
  {
    if i < k {
      if |r| > 1 { assert StandsFor(voters, source, k, r, 1); }
      assert Newest(r, 0, e);
    } else {
      var at := i - k + 1;
      assert StandsFor(voters, source, k, r, at);
      if at + 1 < |r| { assert StandsFor(voters, source, k, r, at + 1); }
      assert Newest(r, at, e);
    }
  }

  lemma {:induction false} MovedBack(voters: seq<Voter>, source: u64, k: nat, r: seq<Voter>, e: nat, i: nat)
    requires Moved(voters, source, k, r) && Newest(r, i, e) && voters[0].epoch <= source + e
    ensures exists j: nat :: Newest(voters, j, source + e) && voters[j].key == r[i].key
  {
    if i + 1 < |r| { assert StandsFor(voters, source, k, r, i + 1); }
    if i > 0 { assert StandsFor(voters, source, k, r, i); }
    assert Newest(voters, k + i - 1, source + e);
  }

  lemma {:induction false} InForceIsNewest(voters: seq<Voter>, epoch: nat, key: seq<u8>)
    requires InOrder(voters)
    ensures InForce(voters, epoch, key) <==> exists i: nat :: Newest(voters, i, epoch) && voters[i].key == key
  {
    forall i: nat ensures HoldsAt(voters, i, epoch) <==> Newest(voters, i, epoch) {
      NewestHolds(voters, i, epoch);
    }
    hide HoldsAt; hide InOrder;
  }

  ghost predicate SameVoterInForce(voters: seq<Voter>, r: seq<Voter>, source: u64, e: nat) {
    forall key :: InForce(r, e, key) <==> InForce(voters, source + e, key)
  }

  /** The voter in force at an epoch of the new chain is the one in force at
      the same distance from the halt on the old chain, unless the old chain
      had no voter there yet: then the first voter may vote early. */
  lemma {:induction false} VotersKeepTheirEpochs(voters: seq<Voter>, source: u64, e: nat)
    requires InOrder(voters) && voters != []
    ensures InOrder(RebaseVoters(voters, source).value)
    ensures SameVoterInForce(voters, RebaseVoters(voters, source).value, source, e)
       <==> voters[0].epoch <= source + e
  {
    var k := RebasedIs(voters, source);
    var r := RebaseVoters(voters, source).value;
    hide RebaseVoters; hide InForce;
    forall key
      ensures voters[0].epoch <= source + e ==> (InForce(r, e, key) <==> InForce(voters, source + e, key))
    {
      InForceIsNewest(voters, source + e, key);
      InForceIsNewest(r, e, key);
      hide InOrder;
      if InForce(voters, source + e, key) {
        var i: nat :| Newest(voters, i, source + e) && voters[i].key == key;
        MovedForward(voters, source, k, r, e, i);
      }
      if InForce(r, e, key) && voters[0].epoch <= source + e {
        var i: nat :| Newest(r, i, e) && r[i].key == key;
        MovedBack(voters, source, k, r, e, i);
      }
    }
    if voters[0].epoch > source + e {
      TooEarly(voters, source, k, r, e);
    }
  }

  lemma {:induction false} NoneYet(voters: seq<Voter>, epoch: nat, i: nat)
    requires InOrder(voters) && voters != [] && voters[0].epoch > epoch
    ensures !Newest(voters, i, epoch)
  {
    assert 0 < i < |voters| ==> voters[0].epoch < voters[i].epoch;
  }

  lemma {:induction false} TooEarly(voters: seq<Voter>, source: u64, k: nat, r: seq<Voter>, e: nat)
    requires InOrder(voters) && InOrder(r) && Moved(voters, source, k, r) && voters[0].epoch > source + e
    ensures InForce(r, e, r[0].key) && !InForce(voters, source + e, r[0].key)
  {
    InForceIsNewest(voters, source + e, r[0].key);
    InForceIsNewest(r, e, r[0].key);
    hide InForce;
    assert StandsFor(voters, source, k, r, 1);
    assert Newest(r, 0, e);
    var epoch := source + e;
    forall i: nat ensures !Newest(voters, i, epoch) {
      NoneYet(voters, epoch, i);
    }
  }

  /** Two moves are one: the distances of the voters add up. */
  lemma {:induction false} TwoRebasesAreOne(voters: seq<Voter>, s: u64, t: u64)
    requires InOrder(voters) && voters != [] && s + t <= U64_MAX
    ensures RebaseVoters(RebaseVoters(voters, s).value, t) == RebaseVoters(voters, s + t)
  {
    var once := RebaseVoters(voters, s).value;
    var k := RebasedIs(voters, s);
    var m := RebasedIs(once, t);
    var n := RebasedIs(voters, s + t);
    MovedTwice(voters, s, t, k, m, n, once, RebaseVoters(once, t).value, RebaseVoters(voters, s + t).value);
  }

  lemma {:induction false} MovedTwice(
    voters: seq<Voter>, s: u64, t: u64, k: nat, m: nat, n: nat,
    once: seq<Voter>, twice: seq<Voter>, straight: seq<Voter>)
    requires s + t <= U64_MAX
    requires Moved(voters, s, k, once) && Moved(once, t, m, twice) && Moved(voters, s + t, n, straight)
    ensures twice == straight
  {
    if m > 1 { assert StandsFor(voters, s, k, once, m - 1); }
    if m < |once| { assert StandsFor(voters, s, k, once, m); }
    assert once[0].epoch <= t;
    assert n == k + m - 1;
    forall i | 1 <= i < |twice| ensures twice[i] == straight[i] {
      assert StandsFor(once, t, m, twice, i);
      assert StandsFor(voters, s, k, once, m + i - 1);
      assert StandsFor(voters, s + t, n, straight, i);
    }
  }

  // ------------------------------------------------------------- any list

  lemma {:induction false} LaterAreLater(voters: seq<Voter>, source: u64)
    ensures forall i :: 0 <= i < |LaterVoters(voters, source)| ==> LaterVoters(voters, source)[i].epoch > 0
    ensures |LaterVoters(voters, source)| <= |LaterVoters(voters, 0)| <= |voters|
  {
    if voters != [] {
      LaterAreLater(voters[..|voters| - 1], source);
    }
  }

  lemma {:induction false} LaterStay(first: Voter, later: seq<Voter>)
    requires first.epoch == 0 && forall i :: 0 <= i < |later| ==> later[i].epoch > 0
    ensures LaterVoters([first] + later, 0) == later
    ensures LastAtOrBefore([first] + later, 0) == Some(first)
  {
    var all := [first] + later;
    if later == [] {
      assert all[..0] == [];
    } else {
      LaterStay(first, later[..|later| - 1]);
      assert all[..|all| - 1] == [first] + later[..|later| - 1];
    }
  }

  /** A rebased list is a fixed point, whatever order the old list had. */
  lemma {:induction false} RebasedStays(voters: seq<Voter>, source: u64)
    requires voters != []
    ensures RebaseVoters(RebaseVoters(voters, source).value, 0) == RebaseVoters(voters, source)
  {
    LaterAreLater(voters, source);
    var r := RebaseVoters(voters, source).value;
    LaterStay(r[0], r[1..]);
    assert r == [r[0]] + r[1..];
    hide LaterVoters; hide LastAtOrBefore;
  }
}
