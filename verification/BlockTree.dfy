/** The eCash blocks as a content-addressed tree: a block id determines the
    parent, the height and everything in the block. */
module BlockTree {
  import opened Prelude
  import opened Bridge
  import opened ECash

  type Tree = map<Hash, Block>

  /** A block id and its height, as the enforcer names a tip. */
  datatype Point = Point(hash: Hash, height: nat)

  /** Each block is under its own id, and above height zero its parent is one
      below it. */
  ghost predicate IsTree(t: Tree) {
    forall h :: h in t ==> t[h].hash == h && (t[h].height > 0 ==> HasParent(t, h))
  }

  ghost predicate HasParent(t: Tree, h: Hash)
    requires h in t
  {
    t[h].prev in t && t[t[h].prev].height + 1 == t[h].height
  }

  ghost predicate Knows(t: Tree, p: Point) { p.hash in t && t[p.hash].height == p.height }

  /** The ancestor of `h` at `height`, or `h` itself. */
  ghost function At(t: Tree, h: Hash, height: nat): (b: Block)
    requires IsTree(t) && h in t && height <= t[h].height
    ensures b.height == height && b.hash in t && t[b.hash] == b
    decreases t[h].height
  {
    if t[h].height == height then t[h]
    else
      assert HasParent(t, h);
      At(t, t[h].prev, height)
  }

  lemma {:induction false} AtOfAt(t: Tree, h: Hash, high: nat, low: nat)
    requires IsTree(t) && h in t && low <= high <= t[h].height
    ensures At(t, At(t, h, high).hash, low) == At(t, h, low)
    decreases t[h].height
  {
    if t[h].height > high {
      assert HasParent(t, h);
      AtOfAt(t, t[h].prev, high, low);
    }
  }

  lemma {:induction false} AtParent(t: Tree, h: Hash, height: nat)
    requires IsTree(t) && h in t && height < t[h].height
    ensures At(t, h, height + 1).prev == At(t, h, height).hash
  {
    AtOfAt(t, h, height + 1, height);
    assert HasParent(t, At(t, h, height + 1).hash);
  }

  /** The blocks above `from` up to `h`, oldest first. */
  ghost function Path(t: Tree, h: Hash, from: nat): seq<Block>
    requires IsTree(t) && h in t
    decreases t[h].height
  {
    if t[h].height <= from then []
    else
      assert HasParent(t, h);
      Path(t, t[h].prev, from) + [t[h]]
  }

  /** The path is the ancestors one by one: none is lost or repeated. */
  lemma {:induction false} PathIs(t: Tree, h: Hash, from: nat)
    requires IsTree(t) && h in t
    ensures |Path(t, h, from)| == Max(t[h].height - from, 0)
    ensures forall i :: 0 <= i < |Path(t, h, from)| ==> Path(t, h, from)[i] == At(t, h, from + 1 + i)
    decreases t[h].height
  {
    if t[h].height > from {
      assert HasParent(t, h);
      PathIs(t, t[h].prev, from);
    }
  }

  lemma {:induction false} PathSplit(t: Tree, h: Hash, from: nat, mid: nat)
    requires IsTree(t) && h in t && from <= mid <= t[h].height
    ensures Path(t, h, from) == Path(t, At(t, h, mid).hash, from) + Path(t, h, mid)
    decreases t[h].height
  {
    if t[h].height > mid {
      assert HasParent(t, h);
      PathSplit(t, t[h].prev, from, mid);
    }
  }

  ghost function PathEvents(t: Tree, h: Hash, from: nat): seq<PegEvent>
    requires IsTree(t) && h in t
  {
    EventsOf(Path(t, h, from))
  }
}
