/** The paged reads of the active eCash chain and the header cache
    (daemon/src/enforcer.rs). */
module Headers {
  import opened Prelude
  import opened Bridge
  import opened ECash
  import opened BlockTree

  /** No call to the enforcer spans more blocks than this. */
  const PAGE_BLOCKS: nat := 1_000

  datatype Header = Header(height: nat, hash: Hash, prev: Hash)

  ghost function HeaderOf(b: Block): Header { Header(b.height, b.hash, b.prev) }

  /** The answer of the enforcer to call number `n`. `None` is a failed call. */
  type HeadersAnswer = (nat, Hash, nat) -> Option<seq<Header>>
  type EventsAnswer = (nat, Hash, Hash) -> Option<seq<PegEvent>>

  /** The enforcer: it counts the calls and keeps the widest one. */
  class Enforcer {
    const headers: HeadersAnswer
    const events: EventsAnswer
    var calls: nat
    var widest: nat

    constructor (headers: HeadersAnswer, events: EventsAnswer)
      ensures this.headers == headers && this.events == events && calls == 0 && widest == 0
    {
      this.headers, this.events, calls, widest := headers, events, 0, 0;
    }

    method Headers(from: Hash, maxAncestors: nat) returns (r: Option<seq<Header>>)
      modifies this
      ensures r == headers(old(calls), from, maxAncestors)
      ensures calls == old(calls) + 1 && widest == Max(old(widest), maxAncestors)
    {
      r := headers(calls, from, maxAncestors);
      calls, widest := calls + 1, Max(widest, maxAncestors);
    }

    method PegEvents(start: Hash, end: Hash) returns (r: Option<seq<PegEvent>>)
      modifies this
      ensures r == events(old(calls), start, end)
      ensures calls == old(calls) + 1 && widest == old(widest)
    {
      r := events(calls, start, end);
      calls := calls + 1;
    }
  }

  /** Every header that the enforcer ever gives is a header of the tree. */
  ghost predicate GivesTrueHeaders(t: Tree, answer: HeadersAnswer) {
    forall n, from, span :: answer(n, from, span).Some? ==> AllTrue(t, answer(n, from, span).value)
  }

  ghost predicate AllTrue(t: Tree, headers: seq<Header>) {
    forall i :: 0 <= i < |headers| ==> IsTrue(t, headers[i])
  }

  ghost predicate IsTrue(t: Tree, x: Header) { x.hash in t && x == HeaderOf(t[x.hash]) }

  // ---------------------------------------------------------------- one page

  ghost predicate ChildOf(headers: seq<Header>, i: nat)
    requires 0 < i < |headers|
  {
    headers[i].hash == headers[i - 1].prev && headers[i].height + 1 == headers[i - 1].height
  }

  /** The headers from `top` down, newest first and without a gap. */
  ghost predicate RunsDown(headers: seq<Header>, top: Point) {
    && headers != [] && headers[0].hash == top.hash && headers[0].height == top.height
    && forall i :: 0 < i < |headers| ==> ChildOf(headers, i)
  }

  predicate Links(page: seq<Header>) {
    forall i :: 1 <= i < |page| ==> page[i].hash == page[i - 1].prev && page[i].height + 1 == page[i - 1].height
  }

  lemma {:induction false} LinksAreChildren(page: seq<Header>)
    ensures Links(page) <==> forall i :: 0 < i < |page| ==> ChildOf(page, i)
  {
    if forall i :: 0 < i < |page| ==> ChildOf(page, i) {
      forall i | 1 <= i < |page|
        ensures page[i].hash == page[i - 1].prev && page[i].height + 1 == page[i - 1].height
      {
        assert ChildOf(page, i);
      }
    }
  }

  /** Call `n` for the headers from `at` down failed, or gave no such run. */
  ghost predicate IsRefused(answer: HeadersAnswer, n: nat, at: Point) {
    exists span :: answer(n, at.hash, span).None? || !RunsDown(answer(n, at.hash, span).value, at)
  }

  method ReadPage(e: Enforcer, at: Point, floor: nat, span: nat) returns (r: Option<seq<Header>>)
    requires floor <= at.height
    modifies e
    ensures e.calls == old(e.calls) + 1
    ensures e.widest <= Max(old(e.widest), PAGE_BLOCKS)
    ensures r.Some? ==> RunsDown(r.value, at)
    ensures r.Some? ==> exists width :: e.headers(old(e.calls), at.hash, width) == r
    ensures r.None? ==> IsRefused(e.headers, old(e.calls), at)
  {
    var width := Min(Min(span, at.height - floor), PAGE_BLOCKS);
    ghost var n := e.calls;
    r := e.Headers(at.hash, width);
    assert e.headers(n, at.hash, width) == r;
    if r.Some? {
      var page := r.value;
      var linked := page != [] && page[0].hash == at.hash && page[0].height == at.height && Links(page);
      LinksAreChildren(page);
      if !linked { return None; }
    }
  }

  /** Where the walk goes on: the parent of the last header of `page`, if it is
      not below the floor. */
  function Below(page: seq<Header>, floor: nat): (p: Option<Point>)
    ensures p.Some? ==> p.value.height >= floor
  {
    if page == [] then None
    else
      var oldest := page[|page| - 1];
      if oldest.height > floor then Some(Point(oldest.prev, oldest.height - 1)) else None
  }

  lemma {:induction false} RunHeights(headers: seq<Header>, top: Point, i: nat)
    requires RunsDown(headers, top) && i < |headers|
    ensures headers[i].height == top.height - i
  {
    if i > 0 {
      RunHeights(headers, top, i - 1);
      assert ChildOf(headers, i);
    }
  }

  lemma {:induction false} RunsJoin(upper: seq<Header>, top: Point, lower: seq<Header>, floor: nat)
    requires RunsDown(upper, top) && Below(upper, floor).Some? && RunsDown(lower, Below(upper, floor).value)
    ensures RunsDown(upper + lower, top)
  {
    var all := upper + lower;
    forall i | 0 < i < |all| ensures ChildOf(all, i) {
      if i < |upper| {
        assert ChildOf(upper, i);
      } else if i > |upper| {
        assert ChildOf(lower, i - |upper|);
      }
    }
  }

  // ---------------------------------------------------------------- the cache

  type ByHeight = map<nat, Header>

  /** The heights from `low` up to below `high`, and no other. */
  ghost predicate Spans(m: ByHeight, low: nat, high: nat) {
    low <= high && forall k: nat :: k in m <==> low <= k < high
  }

  ghost predicate CachedAt(t: Tree, m: ByHeight, k: nat)
    requires k in m
  {
    && m[k].height == k && IsTrue(t, m[k])
    && (k > 0 && k - 1 in m ==> m[k].prev == m[k - 1].hash)
  }

  /** The kept headers are true, gapless and linked by their parents. */
  ghost predicate Cached(t: Tree, m: ByHeight, low: nat, high: nat) {
    Spans(m, low, high) && forall k {:trigger CachedAt(t, m, k)} :: k in m ==> CachedAt(t, m, k)
  }

  function Extended(m: ByHeight, headers: seq<Header>): ByHeight {
    if headers == [] then m
    else Extended(m, headers[..|headers| - 1])[headers[|headers| - 1].height := headers[|headers| - 1]]
  }

  /** The block is an ancestor of the tip, or the tip, if the tree knows the tip. */
  ghost predicate OnTipPath(t: Tree, tip: Point, at: Point) {
    IsTree(t) && Knows(t, tip) ==> TruePoint(t, tip, at)
  }

  /** One of the calls from `first` to below `end` asked for a block of the path
      of the tip and was refused. */
  ghost predicate PageFailed(t: Tree, answer: HeadersAnswer, tip: Point, first: nat, end: nat) {
    exists n, at :: first <= n < end && OnTipPath(t, tip, at) && IsRefused(answer, n, at)
  }

  /** A run of true headers from the tip holds its ancestors one by one. */
  lemma {:induction false} RunOnPath(t: Tree, headers: seq<Header>, tip: Point, i: nat)
    requires IsTree(t) && Knows(t, tip) && AllTrue(t, headers) && RunsDown(headers, tip) && i < |headers|
    ensures i <= tip.height && headers[i] == HeaderOf(At(t, tip.hash, tip.height - i))
  {
    assert IsTrue(t, headers[i]);
    assert At(t, tip.hash, tip.height) == t[tip.hash];
    hide At; hide IsTree; hide AllTrue;
    if i > 0 {
      RunOnPath(t, headers, tip, i - 1);
      assert ChildOf(headers, i);
      AtParent(t, tip.hash, tip.height - i);
    }
  }

  lemma {:induction false} BelowOnPath(t: Tree, headers: seq<Header>, tip: Point, floor: nat)
    requires AllTrue(t, headers) && RunsDown(headers, tip) && Below(headers, floor).Some?
    ensures OnTipPath(t, tip, Below(headers, floor).value)
  {
    if IsTree(t) && Knows(t, tip) {
      RunOnPath(t, headers, tip, |headers| - 1);
      AtParent(t, tip.hash, headers[|headers| - 1].height - 1);
    }
  }

  lemma {:induction false} PathRunsDown(t: Tree, at: Point, page: seq<Header>)
    requires IsTree(t) && Knows(t, at) && IsPath(t, at.hash, page)
    ensures RunsDown(page, at)
  {
    assert At(t, at.hash, at.height) == t[at.hash];
    hide At; hide IsTree;
    forall i | 0 < i < |page| ensures ChildOf(page, i) {
      AtParent(t, at.hash, at.height - i);
    }
  }

  /** A truthful enforcer refuses only by a failed call. */
  lemma {:induction false} RefusedMeansFailed(t: Tree, answer: HeadersAnswer, n: nat, at: Point)
    requires IsTree(t) && Knows(t, at) && AnswersPaths(t, answer) && IsRefused(answer, n, at)
    ensures exists span :: answer(n, at.hash, span).None?
  {
    forall span | answer(n, at.hash, span).Some? ensures RunsDown(answer(n, at.hash, span).value, at) {
      PathRunsDown(t, at, answer(n, at.hash, span).value);
    }
  }

  /** `n` is `m` with the run from `top` down over it. */
  ghost predicate IsExtended(m: ByHeight, headers: seq<Header>, top: Point, n: ByHeight) {
    && |headers| <= top.height + 1
    && (forall k: nat :: k in n <==> k in m || top.height - |headers| < k <= top.height)
    && (forall k: nat :: k in n ==> n[k] == if top.height - |headers| < k <= top.height then headers[top.height - k] else m[k])
  }

  lemma {:induction false} ExtendedOnce(m: ByHeight, headers: seq<Header>, top: Point)
    requires RunsDown(headers, top)
    ensures IsExtended(m, headers, top, Extended(m, headers))
  {
    RunHeights(headers, top, |headers| - 1);
    ExtendedIs(m, headers, top, |headers|);
    hide Extended; hide RunsDown;
  }

  /** A new header in its place, above or below the old ones. */
  lemma {:induction false} NewKept(t: Tree, m: ByHeight, headers: seq<Header>, top: Point, n: ByHeight, k: nat)
    requires IsExtended(m, headers, top, n) && AllTrue(t, headers) && RunsDown(headers, top)
    requires top.height - |headers| < k <= top.height
    requires k == top.height - |headers| + 1 && k > 0 && k - 1 in m ==> headers[|headers| - 1].prev == m[k - 1].hash
    ensures k in n && CachedAt(t, n, k)
  {
    var i := top.height - k;
    RunHeights(headers, top, i);
    assert n[k] == headers[i] && IsTrue(t, headers[i]);
    if k > 0 && k - 1 in n && i + 1 < |headers| {
      assert n[k - 1] == headers[i + 1] && ChildOf(headers, i + 1);
    }
  }

  /** An old header stays linked when its parent stays, or the run brings it. */
  lemma {:induction false} OldKept(t: Tree, m: ByHeight, headers: seq<Header>, top: Point, n: ByHeight, k: nat)
    requires IsExtended(m, headers, top, n) && RunsDown(headers, top)
    requires k in m && CachedAt(t, m, k) && !(top.height - |headers| < k <= top.height)
    requires if k == top.height + 1 then m[k].prev == top.hash else k > 0 ==> k - 1 in m || k - 1 !in n
    requires k != top.height + 1 ==> !(top.height - |headers| < k - 1 <= top.height)
    ensures k in n && n[k] == m[k] && CachedAt(t, n, k)
  {
    if k == top.height + 1 {
      assert n[k - 1] == headers[0];
    }
  }

  /** A run that ends just above the cache joins it. */
  lemma {:induction false} ExtendJoins(t: Tree, m: ByHeight, low: nat, high: nat, headers: seq<Header>, top: Point)
    requires Cached(t, m, low, high) && AllTrue(t, headers) && RunsDown(headers, top)
    requires top.height + 1 == high + |headers|
    requires low < high ==> headers[|headers| - 1].prev == m[high - 1].hash
    ensures Cached(t, Extended(m, headers), if low < high then low else high, top.height + 1)
    ensures Extended(m, headers)[top.height].hash == top.hash
  {
    hide Extended; hide CachedAt; hide RunsDown; hide AllTrue;
    var n := Extended(m, headers);
    ExtendedOnce(m, headers, top);
    TopOfRun(headers, top);
    forall k {:trigger CachedAt(t, n, k)} | k in n ensures CachedAt(t, n, k) {
      if k >= high {
        NewKept(t, m, headers, top, n, k);
      } else {
        assert CachedAt(t, m, k);
        OldKept(t, m, headers, top, n, k);
      }
    }
  }

  /** A run that ends just below the cache joins it. */
  lemma {:induction false} ExtendBelow(t: Tree, m: ByHeight, low: nat, high: nat, headers: seq<Header>, top: Point)
    requires Cached(t, m, low, high) && AllTrue(t, headers) && RunsDown(headers, top)
    requires low < high && top.height + 1 == low && m[low].prev == top.hash
    ensures |headers| <= low
    ensures Cached(t, Extended(m, headers), low - |headers|, high)
    ensures forall k :: k in m ==> Extended(m, headers)[k] == m[k]
  {
    hide Extended; hide CachedAt; hide RunsDown; hide AllTrue;
    var n := Extended(m, headers);
    ExtendedOnce(m, headers, top);
    forall k {:trigger CachedAt(t, n, k)} | k in n ensures CachedAt(t, n, k) {
      if k < low {
        NewKept(t, m, headers, top, n, k);
      } else {
        assert CachedAt(t, m, k);
        OldKept(t, m, headers, top, n, k);
      }
    }
  }

  lemma {:induction false} TopOfRun(headers: seq<Header>, top: Point)
    requires RunsDown(headers, top)
    ensures headers != [] && headers[0].hash == top.hash && headers[0].height == top.height
  {
  }

  lemma {:induction false} ExtendedIs(m: ByHeight, headers: seq<Header>, top: Point, n: nat)
    requires RunsDown(headers, top) && n <= |headers| <= top.height + 1
    ensures forall k: nat :: k in Extended(m, headers[..n]) <==> k in m || top.height - n < k <= top.height
    ensures forall k: nat :: k in Extended(m, headers[..n]) ==>
              Extended(m, headers[..n])[k] == if top.height - n < k <= top.height then headers[top.height - k] else m[k]
    ensures headers[..|headers|] == headers
  {
    if n > 0 {
      ExtendedIs(m, headers, top, n - 1);
      RunHeights(headers, top, n - 1);
      assert headers[..n][..n - 1] == headers[..n - 1];
    }
  }

  class ActiveHeaders {
    ghost const tree: Tree
    var byHeight: ByHeight
    ghost var low: nat
    ghost var high: nat

    constructor (ghost tree: Tree)
      ensures Valid() && byHeight == map[] && this.tree == tree
    {
      this.tree, byHeight, low, high := tree, map[], 0, 0;
    }

    ghost predicate Valid()
      reads this
    {
      Cached(tree, byHeight, low, high)
    }

    function Get(height: nat): Option<Header>
      reads this
    {
      if height in byHeight then Some(byHeight[height]) else None
    }

    /** The cache runs up to `tip`. */
    ghost predicate EndsAt(tip: Point)
      reads this
    {
      high == tip.height + 1 && (byHeight != map[] ==> Get(tip.height).Some? && byHeight[tip.height].hash == tip.hash)
    }

    /** Where the kept headers of `tip` start: above it when there are none. */
    ghost function Start(tip: Point): nat
      reads this
    {
      if tip.height in byHeight && byHeight[tip.height].hash == tip.hash then low else tip.height + 1
    }

    method Retain(from: nat, through: nat)
      requires Valid()
      modifies this
      ensures Valid()
      ensures byHeight == map k | k in old(byHeight) && from <= k <= through :: old(byHeight)[k]
      ensures forall k: nat :: k in byHeight <==> Max(from, old(low)) <= k < Min(through + 1, old(high))
      ensures high <= through + 1
      ensures byHeight != map[] ==> low == Max(from, old(low)) && high == Min(through + 1, old(high))
    {
      ghost var was := byHeight;
      byHeight := map k | k in byHeight && from <= k <= through :: byHeight[k];
      high := Min(through + 1, high);
      low := Max(from, low);
      if low > high { low := high; }
      forall k | k in byHeight ensures CachedAt(tree, byHeight, k) {
        assert CachedAt(tree, was, k);
      }
    }

    method LastKey() returns (top: Option<nat>)
      requires Valid()
      ensures top.None? <==> byHeight == map[]
      ensures top.Some? ==> high == top.value + 1
    {
      if byHeight == map[] { return None; }
      assert high - 1 in byHeight;
      var k :| k in byHeight && forall j :: j in byHeight ==> j <= k;
      return Some(k);
    }

    method FirstKey() returns (lowest: Option<nat>)
      requires Valid()
      ensures lowest.None? <==> byHeight == map[]
      ensures lowest.Some? ==> low == lowest.value && low in byHeight
    {
      if byHeight == map[] { return None; }
      assert low in byHeight;
      var k :| k in byHeight && forall j :: j in byHeight ==> k <= j;
      return Some(k);
    }

    method Clear(ghost at: nat)
      modifies this
      ensures Valid() && byHeight == map[] && low == high == at
    {
      byHeight, low, high := map[], at, at;
    }

    /** The cache takes the run from `tip` down to just above it. */
    method Join(newer: seq<Header>, tip: Point)
      requires Valid() && high + |newer| == tip.height + 1
      requires newer != [] ==> AllTrue(tree, newer) && RunsDown(newer, tip)
      requires low < high ==>
                 byHeight[high - 1].hash == if newer == [] then tip.hash else newer[|newer| - 1].prev
      modifies this
      ensures Valid() && EndsAt(tip)
      ensures low == Min(old(low), old(high))
      ensures byHeight == map[] <==> newer == [] && old(byHeight) == map[]
    {
      if newer != [] {
        ExtendJoins(tree, byHeight, low, high, newer, tip);
      }
      assert low < high ==> high - 1 in byHeight;
      high := tip.height + 1;
      byHeight := Extended(byHeight, newer);
      assert newer != [] ==> tip.height in byHeight;
    }

    /** What the walk down from the tip keeps: `newer` runs from the tip to
        just above the cursor. */
    ghost predicate Walks(newer: seq<Header>, cursor: Option<Point>, tip: Point, floor: nat)
      reads this
    {
      if newer == [] then cursor == Some(tip)
      else AllTrue(tree, newer) && RunsDown(newer, tip) && cursor == Below(newer, floor)
    }

    lemma {:induction false} WalkedTo(newer: seq<Header>, cursor: Option<Point>, tip: Point, floor: nat)
      requires Walks(newer, cursor, tip, floor) && floor <= tip.height
      ensures |newer| <= tip.height + 1
      ensures cursor.Some? ==> floor <= cursor.value.height && cursor.value.height + |newer| == tip.height
      ensures cursor.Some? && newer != [] ==> cursor.value.hash == newer[|newer| - 1].prev
      ensures cursor.None? ==> newer != [] && tip.height + 1 - |newer| <= floor
    {
      if newer != [] { RunHeights(newer, tip, |newer| - 1); }
    }

    lemma {:induction false} WalksOn(
      newer: seq<Header>, cursor: Point, tip: Point, floor: nat, page: seq<Header>)
      requires Walks(newer, Some(cursor), tip, floor) && RunsDown(page, cursor) && AllTrue(tree, page)
      ensures Walks(newer + page, Below(page, floor), tip, floor)
    {
      if newer == [] {
        assert newer + page == page;
      } else {
        RunsJoin(newer, tip, page, floor);
      }
    }

    lemma {:induction false} WalkFailed(
      newer: seq<Header>, cursor: Point, tip: Point, floor: nat, answer: HeadersAnswer, n: nat, first: nat, end: nat)
      requires Walks(newer, Some(cursor), tip, floor) && IsRefused(answer, n, cursor) && first <= n < end
      ensures PageFailed(tree, answer, tip, first, end)
    {
      hide IsRefused; hide RunsDown;
      if newer != [] { BelowOnPath(tree, newer, tip, floor); }
      assert OnTipPath(tree, tip, cursor);
    }

    /** The first loop of `follow`: the walk down from the tip to the kept
        headers of its chain, or to the floor, or through all pages. */
    method Meet(e: Enforcer, tip: Point, floor: nat, pages: nat) returns (ok: bool, count: nat)
      requires Valid() && GivesTrueHeaders(tree, e.headers) && floor <= tip.height
      requires high <= tip.height + 1
      modifies this, e
      ensures Valid() && count <= pages && e.calls <= old(e.calls) + pages
      ensures e.widest <= Max(old(e.widest), PAGE_BLOCKS)
      ensures ok ==>
        && e.calls == old(e.calls) + count
        && EndsAt(tip)
        && (byHeight == map[] ==> count == pages)
        && low <= Max(floor, old(Start(tip)) - count)
      ensures !ok ==> PageFailed(tree, e.headers, tip, old(e.calls), e.calls)
    {
      hide PageFailed; hide IsRefused; hide RunsDown; hide IsTrue;
      count := 0;
      var newer := [];
      var cursor := Some(tip);
      while true
        invariant Valid() && byHeight == old(byHeight) && low == old(low) && high == old(high)
        invariant count <= pages && e.calls == old(e.calls) + count && count <= |newer|
        invariant e.widest <= Max(old(e.widest), PAGE_BLOCKS)
        invariant Walks(newer, cursor, tip, floor)
        invariant if count == 0 then newer == [] else Start(tip) == tip.height + 1
        decreases pages - count
      {
        WalkedTo(newer, cursor, tip, floor);
        if cursor.None? {
          Clear(tip.height + 1 - |newer|);
          break;
        }
        var at := cursor.value;
        var kept := Get(at.height);
        if kept.Some? && kept.value.hash == at.hash {
          Retain(0, at.height);
          assert at.height in byHeight && high == at.height + 1 && byHeight[high - 1].hash == at.hash;
          break;
        }
        if count == pages {
          Clear(tip.height + 1 - |newer|);
          break;
        }
        var top := LastKey();
        var gap := if top.Some? && top.value < at.height then at.height - top.value - 1 else PAGE_BLOCKS;
        ghost var n := e.calls;
        var page := ReadPage(e, at, floor, gap);
        if page.None? {
          WalkFailed(newer, at, tip, floor, e.headers, n, old(e.calls), e.calls);
          return false, count + 1;
        }
        assert AllTrue(tree, page.value);
        WalksOn(newer, at, tip, floor, page.value);
        count := count + 1;
        cursor := Below(page.value, floor);
        newer := newer + page.value;
      }
      Join(newer, tip);
      ok := true;
    }

    lemma {:induction false} LowestOnPath(tip: Point, floor: nat)
      requires Valid() && EndsAt(tip) && low in byHeight && Below([byHeight[low]], floor).Some?
      ensures OnTipPath(tree, tip, Below([byHeight[low]], floor).value)
    {
      if IsTree(tree) {
        KeptIsTheActiveChain(tree, byHeight, low, high, tip, low);
        AtParent(tree, tip.hash, low - 1);
      }
    }

    /** One page below the lowest kept header, if it is above the floor. */
    method Deepen(e: Enforcer, tip: Point, floor: nat) returns (ok: bool, more: bool)
      requires Valid() && EndsAt(tip) && GivesTrueHeaders(tree, e.headers)
      modifies this, e
      ensures Valid() && EndsAt(tip) && e.widest <= Max(old(e.widest), PAGE_BLOCKS)
      ensures e.calls == old(e.calls) + if more then 1 else 0
      ensures ok && more ==> low < old(low) && byHeight != map[]
      ensures ok && !more ==> low == old(low) && byHeight == old(byHeight) && (byHeight == map[] || low <= floor)
      ensures !ok ==> PageFailed(tree, e.headers, tip, old(e.calls), e.calls)
    {
      var lowest := FirstKey();
      if lowest.None? { return true, false; }
      assert CachedAt(tree, byHeight, low);
      var at := Below([byHeight[lowest.value]], floor);
      if at.None? { return true, false; }
      ghost var n := e.calls;
      var page := ReadPage(e, at.value, floor, PAGE_BLOCKS);
      if page.None? {
        LowestOnPath(tip, floor);
        assert IsRefused(e.headers, n, at.value);
        return false, true;
      }
      assert AllTrue(tree, page.value);
      ExtendBelow(tree, byHeight, low, high, page.value, at.value);
      byHeight := Extended(byHeight, page.value);
      low := low - |page.value|;
      return true, true;
    }

    /** Brings the cache to `tip` within a budget of `pages` calls. Whatever the cache held before, it then runs up to the
        tip, and it is complete unless the pages ran out. */
    method Follow(e: Enforcer, tip: Point, floor: nat, pages: nat) returns (ok: bool)
      requires Valid() && GivesTrueHeaders(tree, e.headers)
      modifies this, e
      ensures Valid() && e.widest <= Max(old(e.widest), PAGE_BLOCKS)
      ensures old(e.calls) <= e.calls <= old(e.calls) + pages
      ensures ok && floor > tip.height ==> byHeight == map[]
      ensures ok && floor <= tip.height ==>
        && EndsAt(tip)
        && low <= Max(floor, old(Start(tip)) - pages)
        && (e.calls < old(e.calls) + pages ==> low <= floor)
      ensures !ok ==> PageFailed(tree, e.headers, tip, old(e.calls), e.calls)
    {
      Retain(floor, tip.height);
      if floor > tip.height {
        Clear(0);
        return true;
      }
      ghost var start := Start(tip);
      assert start <= Max(floor, old(Start(tip)));
      var count: nat;
      ok, count := Meet(e, tip, floor, pages);
      if !ok { return; }
      while count < pages
        invariant Valid() && EndsAt(tip) && count <= pages
        invariant e.calls == old(e.calls) + count && e.widest <= Max(old(e.widest), PAGE_BLOCKS)
        invariant byHeight == map[] ==> count == pages
        invariant low <= Max(floor, start - count)
        decreases pages - count
      {
        var deeper, more := Deepen(e, tip, floor);
        if !deeper { return false; }
        if !more { break; }
        count := count + 1;
      }
    }

    /** The follows of several rounds at one tip: each one that is not complete
        lowers the kept headers, so enough of them reach the floor. */
    method FollowAgain(e: Enforcer, tip: Point, floor: nat, pages: nat, times: nat) returns (ok: bool)
      requires Valid() && GivesTrueHeaders(tree, e.headers) && floor <= tip.height && pages > 0
      modifies this, e
      ensures Valid() && old(e.calls) <= e.calls
      ensures ok && times > 0 ==> EndsAt(tip) && low <= Max(floor, tip.height + 1 - times)
      ensures ok && times > tip.height + 1 - floor ==> low <= floor
      ensures !ok ==> PageFailed(tree, e.headers, tip, old(e.calls), e.calls)
    {
      for i := 0 to times
        invariant Valid() && old(e.calls) <= e.calls
        invariant i > 0 ==> EndsAt(tip) && low <= Max(floor, tip.height + 1 - i)
      {
        ok := Follow(e, tip, floor, pages);
        if !ok { return false; }
      }
      return true;
    }
  }

  /** Each kept header of a cache that runs up to the tip is the true ancestor
      of the tip at its height. */
  lemma {:induction false} KeptIsTheActiveChain(t: Tree, m: ByHeight, low: nat, high: nat, tip: Point, height: nat)
    requires IsTree(t) && Cached(t, m, low, high)
    requires high == tip.height + 1 && tip.height in m && m[tip.height].hash == tip.hash && height in m
    ensures Knows(t, tip)
    ensures m[height] == HeaderOf(At(t, tip.hash, height))
    decreases tip.height - height
  {
    assert CachedAt(t, m, tip.height) && CachedAt(t, m, height);
    if height < tip.height {
      KeptIsTheActiveChain(t, m, low, high, tip, height + 1);
      assert CachedAt(t, m, height + 1);
      AtParent(t, tip.hash, height);
    }
  }

  // -------------------------------------------------------- the paged walks

  /** Each answer is the path down from the block that the call names. */
  ghost predicate AnswersPaths(t: Tree, answer: HeadersAnswer)
    requires IsTree(t)
  {
    forall n, from, span :: from in t && answer(n, from, span).Some? ==> IsPath(t, from, answer(n, from, span).value)
  }

  ghost predicate IsPath(t: Tree, from: Hash, headers: seq<Header>)
    requires IsTree(t) && from in t
  {
    && 0 < |headers| <= t[from].height + 1
    && forall i :: 0 <= i < |headers| ==> headers[i] == HeaderOf(At(t, from, t[from].height - i))
  }

  ghost predicate AnswersEvents(t: Tree, answer: EventsAnswer)
    requires IsTree(t)
  {
    forall n, start, end | OnPath(t, start, end) && answer(n, start, end).Some? ::
      answer(n, start, end).value == PathEvents(t, end, t[start].height)
  }

  ghost predicate OnPath(t: Tree, start: Hash, end: Hash)
    requires IsTree(t)
  {
    start in t && end in t && t[start].height <= t[end].height && At(t, end, t[start].height).hash == start
  }

  function Find(headers: seq<Header>, height: nat): (r: Option<Header>)
    ensures r.Some? ==> r.value in headers && r.value.height == height
    ensures r.None? ==> forall x :: x in headers ==> x.height != height
  {
    if headers == [] then None
    else if headers[0].height == height then Some(headers[0])
    else Find(headers[1..], height)
  }

  /** One of the calls from `first` to below `end` was for a block of the path of
      the tip, and it failed. */
  ghost predicate CallFailed(t: Tree, answer: HeadersAnswer, tip: Point, first: nat, end: nat)
    requires IsTree(t) && Knows(t, tip)
  {
    exists n, at: Point, span :: first <= n < end && TruePoint(t, tip, at) && answer(n, at.hash, span).None?
  }

  ghost predicate EventsFailed(t: Tree, answer: EventsAnswer, tip: Point, first: nat, end: nat)
    requires IsTree(t) && Knows(t, tip)
  {
    exists n, low: Point, high: Point ::
      first <= n < end && TruePoint(t, tip, low) && TruePoint(t, tip, high) && answer(n, low.hash, high.hash).None?
  }

  lemma {:induction false} TipIsTrue(t: Tree, tip: Point)
    requires IsTree(t) && Knows(t, tip)
    ensures TruePoint(t, tip, tip)
  {
  }

  lemma {:induction false} FailedBelow(t: Tree, answer: HeadersAnswer, tip: Point, at: Point, first: nat, end: nat)
    requires IsTree(t) && Knows(t, tip) && TruePoint(t, tip, at) && CallFailed(t, answer, at, first, end)
    ensures forall start: nat :: start <= first ==> CallFailed(t, answer, tip, start, end)
  {
    var n, low: Point, span :| first <= n < end && TruePoint(t, at, low) && answer(n, low.hash, span).None?;
    AtOfAt(t, tip.hash, at.height, low.height);
    assert TruePoint(t, tip, low);
  }

  /** The walk from `tip` down to `height`, page by page. It ends on every answer, and a
      truthful enforcer gives the ancestor of the tip. */
  method HeaderAt(e: Enforcer, ghost t: Tree, tip: Point, height: nat) returns (r: Option<Header>)
    requires IsTree(t)
    modifies e
    ensures e.widest <= Max(old(e.widest), PAGE_BLOCKS)
    ensures r.Some? ==> r.value.height == height <= tip.height
    ensures r.Some? && Knows(t, tip) && AnswersPaths(t, e.headers) ==>
      r.value == HeaderOf(At(t, tip.hash, height))
    ensures old(e.calls) <= e.calls
    ensures r.None? && height <= tip.height && Knows(t, tip) && AnswersPaths(t, e.headers) ==>
      CallFailed(t, e.headers, tip, old(e.calls), e.calls)
  {
    if height > tip.height { return None; }
    var cursor := tip;
    ghost var honest := Knows(t, tip) && AnswersPaths(t, e.headers);
    while true
      invariant height <= cursor.height <= tip.height
      invariant e.widest <= Max(old(e.widest), PAGE_BLOCKS) && old(e.calls) <= e.calls
      invariant honest ==> TruePoint(t, tip, cursor)
      decreases cursor.height
    {
      var span := Min(cursor.height - height, PAGE_BLOCKS);
      ghost var n := e.calls;
      var headers := e.Headers(cursor.hash, span);
      if headers.None? {
        assert e.headers(n, cursor.hash, span).None?;
        return None;
      }
      var page := headers.value;
      assert honest ==> IsPath(t, cursor.hash, page) by {
        assert e.headers(n, cursor.hash, span) == headers;
      }
      var found := Find(page, height);
      if honest { PathHolds(t, tip, cursor, page, height); }
      if found.Some? { return found; }
      if page == [] { return None; }
      var oldest := page[|page| - 1];
      if !(height < oldest.height <= cursor.height) { return None; }
      cursor := Point(oldest.prev, oldest.height - 1);
    }
  }

  /** Header `i` of a truthful page from a block of the path. */
  lemma {:induction false} PageIsPath(t: Tree, tip: Point, cursor: Point, page: seq<Header>, i: nat)
    requires IsTree(t) && Knows(t, tip) && TruePoint(t, tip, cursor) && IsPath(t, cursor.hash, page) && i < |page|
    ensures i <= cursor.height && page[i] == HeaderOf(At(t, tip.hash, cursor.height - i))
  {
    AtOfAt(t, tip.hash, cursor.height, cursor.height - i);
  }

  /** One truthful page on the walk from `tip` to `height`: it holds the wanted
      header, or the parent of its oldest one continues the walk. */
  lemma {:induction false} PathHolds(t: Tree, tip: Point, cursor: Point, page: seq<Header>, height: nat)
    requires IsTree(t) && Knows(t, tip) && TruePoint(t, tip, cursor) && height <= cursor.height
    requires IsPath(t, cursor.hash, page)
    ensures forall x :: x in page && x.height == height ==> x == HeaderOf(At(t, tip.hash, height))
    ensures page != []
    ensures var oldest := page[|page| - 1];
            if oldest.height <= height then exists x :: x in page && x.height == height
            else
              oldest.height <= cursor.height && TruePoint(t, tip, Point(oldest.prev, oldest.height - 1))
  {
    assert page != [];
    hide At; hide IsTree;
    forall i: nat | i < |page|
      ensures i <= cursor.height && page[i] == HeaderOf(At(t, tip.hash, cursor.height - i))
    {
      PageIsPath(t, tip, cursor, page, i);
    }
    hide IsPath;
    var last := cursor.height - (|page| - 1);
    if last <= height {
      assert page[cursor.height - height].height == height;
      assert page[cursor.height - height] in page;
    } else {
      AtParent(t, tip.hash, last - 1);
    }
  }

  lemma {:induction false} EventsSplit(a: seq<Block>, b: seq<Block>)
    ensures EventsOf(a + b) == EventsOf(a) + EventsOf(b)
  {
  }

  /** The two ends of one page of peg events. */
  datatype Page = Page(lower: Point, upper: Point)

  /** The pages hang off the tip, newest first, down to `end`. None is wider
      than the message limit allows, and none goes below `startHeight`. */
  ghost predicate PagesHang(pages: seq<Page>, tip: Point, end: Point, startHeight: nat) {
    && (if pages == [] then end == tip else pages[0].upper == tip && pages[|pages| - 1].lower == end)
    && forall i :: 0 <= i < |pages| ==> PageHangs(pages, i, startHeight)
  }

  ghost predicate PageHangs(pages: seq<Page>, i: nat, startHeight: nat)
    requires i < |pages|
  {
    && startHeight <= pages[i].lower.height < pages[i].upper.height <= pages[i].lower.height + PAGE_BLOCKS
    && (i > 0 ==> pages[i].upper == pages[i - 1].lower)
  }

  lemma {:induction false} HangOneMore(pages: seq<Page>, tip: Point, end: Point, startHeight: nat, lower: Point)
    requires PagesHang(pages, tip, end, startHeight)
    requires startHeight <= lower.height < end.height <= lower.height + PAGE_BLOCKS
    ensures PagesHang(pages + [Page(lower, end)], tip, lower, startHeight)
  {
    var more := pages + [Page(lower, end)];
    forall i | 0 <= i < |more| ensures PageHangs(more, i, startHeight) {
      if i < |pages| { assert PageHangs(pages, i, startHeight); }
    }
  }

  ghost predicate PagesTrue(t: Tree, tip: Point, pages: seq<Page>)
    requires IsTree(t) && Knows(t, tip)
  {
    forall i :: 0 <= i < |pages| ==> TruePoint(t, tip, pages[i].lower) && TruePoint(t, tip, pages[i].upper)
  }

  ghost predicate TruePoint(t: Tree, tip: Point, p: Point)
    requires IsTree(t) && Knows(t, tip)
  {
    p.height <= tip.height && Knows(t, p) && At(t, tip.hash, p.height).hash == p.hash
  }

  /** The first loop of `peg_data_from`: the page borders from the tip down. */
  method PageBorders(e: Enforcer, ghost t: Tree, tip: Point, startHeight: nat) returns (r: Option<seq<Page>>)
    requires IsTree(t)
    modifies e
    ensures e.widest <= Max(old(e.widest), PAGE_BLOCKS)
    ensures r.Some? ==> forall i :: 0 <= i < |r.value| ==> PageHangs(r.value, i, startHeight)
    ensures r.Some? ==>
      if r.value == [] then tip.height <= startHeight
      else r.value[0].upper == tip && r.value[|r.value| - 1].lower.height == startHeight
    ensures r.Some? && Knows(t, tip) && AnswersPaths(t, e.headers) ==> PagesTrue(t, tip, r.value)
    ensures old(e.calls) <= e.calls
    ensures r.None? && Knows(t, tip) && AnswersPaths(t, e.headers) ==>
      CallFailed(t, e.headers, tip, old(e.calls), e.calls)
  {
    hide At; hide IsTree; hide AnswersPaths; hide CallFailed;
    var pages: seq<Page> := [];
    var upper := tip;
    ghost var honest := Knows(t, tip) && AnswersPaths(t, e.headers);
    if honest { TipIsTrue(t, tip); }
    while upper.height > startHeight
      invariant e.widest <= Max(old(e.widest), PAGE_BLOCKS) && old(e.calls) <= e.calls
      invariant PagesHang(pages, tip, upper, startHeight)
      invariant honest ==> TruePoint(t, tip, upper) && PagesTrue(t, tip, pages)
      decreases upper.height
    {
      var lowerHeight := Max(if upper.height > PAGE_BLOCKS then upper.height - PAGE_BLOCKS else 0, startHeight);
      ghost var first := e.calls;
      var lower := HeaderAt(e, t, upper, lowerHeight);
      if lower.None? {
        if honest { FailedBelow(t, e.headers, tip, upper, first, e.calls); }
        return None;
      }
      var next := Point(lower.value.hash, lower.value.height);
      if honest { AtOfAt(t, tip.hash, upper.height, lowerHeight); }
      HangOneMore(pages, tip, upper, startHeight, next);
      pages, upper := pages + [Page(next, upper)], next;
    }
    assert pages != [] ==> PageHangs(pages, |pages| - 1, startHeight);
    return Some(pages);
  }

  /** What happened on the path of `tip` above `startHeight`, in block order:
      no event is lost or repeated at a page border. */
  method PegDataFrom(e: Enforcer, ghost t: Tree, tip: Point, startHeight: nat)
    returns (r: Option<seq<PegEvent>>, ghost pages: seq<Page>)
    requires IsTree(t)
    modifies e
    ensures e.widest <= Max(old(e.widest), PAGE_BLOCKS)
    ensures r.Some? ==> forall i :: 0 <= i < |pages| ==> PageHangs(pages, i, startHeight)
    ensures r.Some? && Knows(t, tip) && AnswersPaths(t, e.headers) && AnswersEvents(t, e.events) ==>
      r.value == PathEvents(t, tip.hash, startHeight)
    ensures old(e.calls) <= e.calls
    ensures r.None? && Knows(t, tip) && AnswersPaths(t, e.headers) && AnswersEvents(t, e.events) ==>
      || CallFailed(t, e.headers, tip, old(e.calls), e.calls)
      || EventsFailed(t, e.events, tip, old(e.calls), e.calls)
  {
    hide At; hide IsTree; hide AnswersPaths; hide AnswersEvents; hide CallFailed; hide PathEvents;
    ghost var honest := Knows(t, tip) && AnswersPaths(t, e.headers) && AnswersEvents(t, e.events);
    var borders := PageBorders(e, t, tip, startHeight);
    if borders.None? { return None, []; }
    if honest { NothingAbove(t, tip, startHeight); }
    var list := borders.value;
    pages := list;
    var events := [];
    for i := |list| downto 0
      invariant e.widest <= Max(old(e.widest), PAGE_BLOCKS) && old(e.calls) <= e.calls
      invariant honest ==> events == EventsBelow(t, tip, list, i, startHeight)
    {
      var page := list[i];
      ghost var n := e.calls;
      var answer := e.PegEvents(page.lower.hash, page.upper.hash);
      if answer.None? {
        assert e.events(n, page.lower.hash, page.upper.hash).None?;
        return None, list;
      }
      if honest {
        assert PageHangs(list, i, startHeight) && (i + 1 < |list| ==> PageHangs(list, i + 1, startHeight));
        NextPage(e, t, tip, page, startHeight, n);
      }
      events := events + answer.value;
    }
    return Some(events), list;
  }

  /** The events up to the lower border of page `i - 1`: the upper one of page `i`. */
  ghost function EventsBelow(t: Tree, tip: Point, pages: seq<Page>, i: nat, startHeight: nat): seq<PegEvent>
    requires IsTree(t) && Knows(t, tip) && PagesTrue(t, tip, pages) && i <= |pages|
  {
    if i < |pages| then PathEvents(t, pages[i].upper.hash, startHeight) else []
  }

  lemma {:induction false} NothingAbove(t: Tree, tip: Point, startHeight: nat)
    requires IsTree(t) && Knows(t, tip)
    ensures tip.height <= startHeight ==> PathEvents(t, tip.hash, startHeight) == []
  {
  }

  lemma {:induction false} NextPage(e: Enforcer, t: Tree, tip: Point, page: Page, startHeight: nat, n: nat)
    requires IsTree(t) && Knows(t, tip) && AnswersEvents(t, e.events)
    requires TruePoint(t, tip, page.lower) && TruePoint(t, tip, page.upper)
    requires startHeight <= page.lower.height <= page.upper.height
    requires e.events(n, page.lower.hash, page.upper.hash).Some?
    ensures PathEvents(t, page.upper.hash, startHeight)
         == PathEvents(t, page.lower.hash, startHeight) + e.events(n, page.lower.hash, page.upper.hash).value
    ensures page.lower.height == startHeight ==> PathEvents(t, page.lower.hash, startHeight) == []
  {
    AtOfAt(t, tip.hash, page.upper.height, page.lower.height);
    assert OnPath(t, page.lower.hash, page.upper.hash);
    PathSplit(t, page.upper.hash, startHeight, page.lower.height);
    EventsSplit(Path(t, page.lower.hash, startHeight), Path(t, page.upper.hash, page.lower.height));
  }
}
