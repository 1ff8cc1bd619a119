/**
 The state of a main-chain block of a sharded blockchain (the `MainBlock` class), its
 ancestry through parent references, and the walk that collects the nearest ancestors.
 */
module MainChain {
  import opened Wrappers

  /** Shard identifiers as produced by the shard-assignment function. */
  type ShardId = int

  /** Read-only snapshot of a shard chain's tip: its id, its sequence number and how
      many transactions it holds (the length of its transaction list). */
  datatype ShardHead = ShardHead(shardId: ShardId, blockNo: int, txCount: nat)

  /** The network configuration constants the block reads: the number of shards, the
      number of blocks in a retargeting epoch, and the per-block transaction budget. */
  datatype Params = Params(numberOfShards: nat, epochLength: nat, ethTxBlock: nat)

  /** A main block. `blockNo == -1` means not yet confirmed; `header` is present only
      after a successful confirmation; `parent` is the previous block of the chain. */
  datatype Block = Block(
    blockNo: int,
    parentHash: nat,
    parent: Option<Block>,
    shards: map<ShardId, ShardHead>,
    shardLength: map<ShardId, real>,
    difficulty: nat,
    nonce: nat,
    header: Option<nat>)

  /** The block number sentinel of an unconfirmed block. */
  const Unconfirmed: int := -1

  /** A freshly constructed block: unconfirmed and without a header, holding exactly
      the given parent, shard heads, length caps, difficulty and nonce. */
  function NewBlock(parentHash: nat, parent: Option<Block>, shards: map<ShardId, ShardHead>,
                    shardLength: map<ShardId, real>, difficulty: nat, nonce: nat): (r: Block)
    ensures r.blockNo == Unconfirmed && r.header.None?
    ensures r.parentHash == parentHash && r.parent == parent
    ensures r.shards == shards && r.shardLength == shardLength
    ensures r.difficulty == difficulty && r.nonce == nonce
  {
    Block(Unconfirmed, parentHash, parent, shards, shardLength, difficulty, nonce, None)
  }

  /** A freshly built block obeys the numbering rule, and its chain is valid exactly
      when the chain of its parent is. */
  lemma NewBlockKeepsValidChain(parentHash: nat, parent: Option<Block>, shards: map<ShardId, ShardHead>,
                                shardLength: map<ShardId, real>, difficulty: nat, nonce: nat)
    ensures WellNumbered(NewBlock(parentHash, parent, shards, shardLength, difficulty, nonce))
    ensures ValidChain(NewBlock(parentHash, parent, shards, shardLength, difficulty, nonce)) <==>
            (parent.None? || ValidChain(parent.value))
  {
  }

  /** The numbering rule of one block: unconfirmed, or one past its parent's number. */
  predicate WellNumbered(b: Block) {
    b.blockNo == Unconfirmed || (b.parent.Some? && b.blockNo == b.parent.value.blockNo + 1)
  }

  /** Every block of the chain ending in `b` obeys the numbering rule. */
  predicate ValidChain(b: Block)
    decreases b
  {
    WellNumbered(b) && (b.parent.Some? ==> ValidChain(b.parent.value))
  }

  /** All ancestors of `b`, nearest first: its parent, its grandparent, and so on. */
  function Ancestors(b: Block): seq<Block>
    decreases b
  {
    match b.parent
    case None => []
    case Some(q) => [q] + Ancestors(q)
  }

  /** How many ancestors `b` has. */
  function Depth(b: Block): nat {
    |Ancestors(b)|
  }

  /** The `k`-th block up the parent chain from `b` (`b` itself for `k == 0`), or
      `None` when the chain is shorter than that. */
  function Up(b: Block, k: nat): Option<Block>
    decreases k
  {
    if k == 0 then Some(b)
    else match b.parent
      case None => None
      case Some(q) => Up(q, k - 1)
  }

  /** Entry `i` of the ancestor list is the block `i + 1` steps up, and the list is
      exactly as long as the parent chain. */
  lemma {:induction false} AncestorsAreUp(b: Block, i: nat)
    ensures i < Depth(b) <==> Up(b, i + 1).Some?
    ensures i < Depth(b) ==> Up(b, i + 1) == Some(Ancestors(b)[i])
    decreases b
  {
    match b.parent
    case None =>
    case Some(q) =>
      if i > 0 {
        AncestorsAreUp(q, i - 1);
      }
  }

  /** Consecutive entries of the ancestor list are linked by parent references, and the
      farthest one has no parent. */
  lemma {:induction false} AncestorsLinked(b: Block, i: nat)
    requires i < Depth(b)
    ensures i == 0 ==> b.parent == Some(Ancestors(b)[0])
    ensures i + 1 < Depth(b) ==> Ancestors(b)[i].parent == Some(Ancestors(b)[i + 1])
    ensures i + 1 == Depth(b) ==> Ancestors(b)[i].parent.None?
    decreases b
  {
    var q := b.parent.value;
    if i > 0 {
      AncestorsLinked(q, i - 1);
    } else if Depth(q) > 0 {
      AncestorsLinked(q, 0);
    }
  }

  /** The `n` nearest ancestors of `b`, nearest first, found by following parent
      references `n` times. The walk dereferences the parent of every block it
      collects, so the chain must be at least `n` blocks deep. A count of zero or
      less walks nowhere and yields no ancestors. */
  method RetrieveParents(b: Block, n: int) returns (parents: seq<Block>)
    requires n <= Depth(b)
    ensures n <= 0 ==> parents == []
    ensures n >= 0 ==> |parents| == n
    ensures n > 0 ==> b.parent == Some(parents[0])
    ensures forall i :: 0 <= i < n - 1 ==> parents[i].parent == Some(parents[i + 1])
    ensures forall i :: 0 <= i < n ==> Up(b, i + 1) == Some(parents[i])
    ensures n >= 0 ==> parents == Ancestors(b)[..n]
  {
    var pointer := b.parent;
    parents := [];
    var i := 0;
    while i < n
      invariant 0 <= i <= (if n < 0 then 0 else n)
      invariant parents == Ancestors(b)[..i]
      invariant i < Depth(b) ==> pointer == Some(Ancestors(b)[i])
    {
      AncestorsLinked(b, i);
      parents := parents + [pointer.value];
      pointer := pointer.value.parent;
      i := i + 1;
    }
    forall i | 0 <= i < n
      ensures Up(b, i + 1) == Some(parents[i])
    {
      AncestorsAreUp(b, i);
    }
    forall i | 0 <= i < n - 1
      ensures parents[i].parent == Some(parents[i + 1])
    {
      AncestorsLinked(b, i);
    }
    if n > 0 {
      AncestorsLinked(b, 0);
    }
  }
}
