/** Blocks and peg events of the eCash chain, as the enforcer reports them
    (daemon/src/enforcer.rs). */
module ECash {
  import opened Prelude
  import opened Bridge
  import M6

  datatype BundleEvent = Submitted(m6id: M6.Txid) | Failed(m6id: M6.Txid) | Succeeded(m6id: M6.Txid)

  /** A block id names its parent, its height and everything in the block. */
  datatype Block = Block(
    hash: Hash, prev: Hash, height: nat, deposits: seq<Deposit>, bundles: seq<BundleEvent>,
    commitment: Option<Commitment>)

  datatype PegEvent =
    | Connect(blockHash: Hash, height: nat, deposits: seq<Deposit>, bundles: seq<BundleEvent>)
    | Disconnect(blockHash: Hash)

  function EventOf(block: Block): PegEvent {
    Connect(block.hash, block.height, block.deposits, block.bundles)
  }

  function EventsOf(blocks: seq<Block>): (events: seq<PegEvent>)
    ensures |events| == |blocks|
    ensures forall i :: 0 <= i < |blocks| ==> events[i] == EventOf(blocks[i])
  {
    seq(|blocks|, i requires 0 <= i < |blocks| => EventOf(blocks[i]))
  }

  /** The peg events after height `from`, as the enforcer pages give them. */
  function EventsAfter(chain: seq<Block>, from: nat): seq<PegEvent> {
    EventsOf(chain[Min(from + 1, |chain|)..])
  }

  ghost predicate IsChild(child: Block, parent: Block) {
    child.prev == parent.hash && child.height == parent.height + 1
  }

  ghost predicate LinkedAt(blocks: seq<Block>, i: nat)
    requires 0 < i < |blocks|
  {
    IsChild(blocks[i], blocks[i - 1])
  }

  /** Each block names the one before it as its parent, one height below. */
  ghost predicate Linked(blocks: seq<Block>) {
    forall i :: 0 < i < |blocks| ==> LinkedAt(blocks, i)
  }
}
