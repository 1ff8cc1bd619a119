/**
 Epoch retargeting (`adjust_shard_length`): each included shard's length cap becomes
 the number of transactions that shard carried over the last epoch's ancestors,
 divided by the epoch's transaction budget.
 */
module EpochRetarget {
  import opened Wrappers
  import opened MainChain

  /** The two divisions by zero `adjust_shard_length` can hit: the epoch budget
      (epoch length times per-block budget) is zero, or a shard's new cap is zero and
      the difficulty formula divides by it. */
  datatype RetargetError = EmptyBudget | DegenerateEpoch

  /** Every block of `window` includes a head for shard `id`. */
  predicate CoversShard(window: seq<Block>, id: ShardId) {
    forall i :: 0 <= i < |window| ==> id in window[i].shards
  }

  /** The number of transactions shard `id` carried across the blocks of `window`. */
  function EpochTransactions(window: seq<Block>, id: ShardId): nat
    requires CoversShard(window, id)
    decreases |window|
  {
    if |window| == 0 then 0
    else EpochTransactions(window[..|window| - 1], id) + window[|window| - 1].shards[id].txCount
  }

  /** The loop of `adjust_shard_length` that adds up one shard's transaction counts
      over the ancestors, in the order the walk returns them. */
  method SumTransactions(parents: seq<Block>, id: ShardId) returns (total: nat)
    requires CoversShard(parents, id)
    ensures total == EpochTransactions(parents, id)
  {
    total := 0;
    var i := 0;
    while i < |parents|
      invariant 0 <= i <= |parents|
      invariant total == EpochTransactions(parents[..i], id)
    {
      assert parents[..i + 1][..i] == parents[..i];
      total := total + parents[i].shards[id].txCount;
      i := i + 1;
    }
    assert parents[..i] == parents;
  }

  /** The transaction budget of one epoch. */
  function Budget(p: Params): nat {
    p.epochLength * p.ethTxBlock
  }

  /** The ancestors one epoch back, nearest first. */
  function Window(p: Params, b: Block): seq<Block>
    requires p.epochLength <= Depth(b)
  {
    Ancestors(b)[..p.epochLength]
  }

  /** What `adjust_shard_length` dereferences before it can fail: with at least one
      shard included, the chain must be an epoch deep, and every ancestor of the
      epoch must include every shard of this block. */
  predicate RetargetDefined(p: Params, b: Block) {
    b.shards.Keys == {} ||
    (p.epochLength <= Depth(b) && forall id :: id in b.shards ==> CoversShard(Window(p, b), id))
  }

  /** A shard's new cap: its epoch transactions over the epoch budget, as a true
      (non-rounded) division. */
  function Cap(p: Params, b: Block, id: ShardId): real
    requires p.epochLength <= Depth(b) && CoversShard(Window(p, b), id) && Budget(p) > 0
  {
    EpochTransactions(Window(p, b), id) as real / Budget(p) as real
  }

  /** Some included shard carried no transactions over the epoch, so its cap is 0. */
  predicate HasIdleShard(p: Params, b: Block)
    requires RetargetDefined(p, b) && b.shards.Keys != {}
  {
    exists id :: id in b.shards && EpochTransactions(Window(p, b), id) == 0
  }

  /** `adjust_shard_length`: with no shards it does nothing; otherwise it fails when
      the epoch budget is zero or when some shard's new cap is zero, and on success it
      sets the cap of every included shard to its recomputed ratio, keeps the caps of
      shards that are not included, and changes nothing else. */
  function AdjustShardLength(p: Params, b: Block): (r: Result<Block, RetargetError>)
    requires RetargetDefined(p, b)
    ensures b.shards.Keys == {} ==> r == Success(b)
    ensures b.shards.Keys != {} ==> (r == Failure(EmptyBudget) <==> Budget(p) == 0)
    ensures b.shards.Keys != {} && Budget(p) > 0 ==> (r == Failure(DegenerateEpoch) <==> HasIdleShard(p, b))
    ensures r.Success? ==> r.value == b.(shardLength := r.value.shardLength)
    ensures r.Success? ==> r.value.shardLength.Keys == b.shardLength.Keys + b.shards.Keys
    ensures r.Success? ==> forall id :: id in b.shards ==>
              Budget(p) > 0 && r.value.shardLength[id] == Cap(p, b, id) && r.value.shardLength[id] > 0.0
    ensures r.Success? ==> forall id :: id in b.shardLength && id !in b.shards ==>
              r.value.shardLength[id] == b.shardLength[id]
  {
    if b.shards.Keys == {} then Success(b)
    else if Budget(p) == 0 then Failure(EmptyBudget)
    else if HasIdleShard(p, b) then Failure(DegenerateEpoch)
    else
      var caps := map id | id in b.shardLength.Keys + b.shards.Keys ::
        if id in b.shards then Cap(p, b, id) else b.shardLength[id];
      Success(b.(shardLength := caps))
  }

  /** `adjust_shard_length` as the loop it is: for each included shard, walk one epoch
      of ancestors, add up the shard's transactions, divide by the budget, store the
      cap, and fail on the first zero cap. It computes exactly `AdjustShardLength`. */
  method AdjustShardLengthLoop(p: Params, b: Block) returns (r: Result<Block, RetargetError>)
    requires RetargetDefined(p, b)
    ensures r == AdjustShardLength(p, b)
  {
    var remaining := b.shards.Keys;
    var caps := b.shardLength;
    while remaining != {}
      invariant remaining <= b.shards.Keys
      invariant remaining != b.shards.Keys ==> Budget(p) > 0 && p.epochLength <= Depth(b)
      invariant caps.Keys == b.shardLength.Keys + (b.shards.Keys - remaining)
      invariant forall id :: id in b.shards && id !in remaining ==>
                  caps[id] == Cap(p, b, id) && EpochTransactions(Window(p, b), id) != 0
      invariant forall id :: id in b.shardLength && (id !in b.shards || id in remaining) ==>
                  caps[id] == b.shardLength[id]
      decreases remaining
    {
      HasElement(remaining);
      var id :| id in remaining;
      var parents := RetrieveParents(b, p.epochLength);
      assert parents == Window(p, b);
      var total := SumTransactions(parents, id);
      if Budget(p) == 0 {
        return Failure(EmptyBudget);
      }
      var cap := total as real / Budget(p) as real;
      caps := caps[id := cap];
      remaining := remaining - {id};
      if total == 0 {
        assert EpochTransactions(Window(p, b), id) == 0;
        return Failure(DegenerateEpoch);
      }
    }
    if b.shards.Keys == {} {
      return Success(b);
    }
    assert !HasIdleShard(p, b);
    var expected := AdjustShardLength(p, b).value.shardLength;
    assert caps == expected;
    r := Success(b.(shardLength := caps));
  }

  /** A non-empty set of shard ids has a member to pick. */
  lemma HasElement(s: set<ShardId>)
    requires s != {}
    ensures exists id :: id in s
  {
    if forall id :: id !in s {
      assert false;
    }
  }

  /** If no block of the window holds more than `limit` transactions for shard `id`,
      the epoch total is at most `limit` per block. */
  lemma {:induction false} EpochTransactionsBounded(window: seq<Block>, id: ShardId, limit: nat)
    requires CoversShard(window, id)
    requires forall i :: 0 <= i < |window| ==> window[i].shards[id].txCount <= limit
    ensures EpochTransactions(window, id) <= |window| * limit
    decreases |window|
  {
    if |window| > 0 {
      var k := |window| - 1;
      EpochTransactionsBounded(window[..k], id, limit);
      assert EpochTransactions(window, id) <= k * limit + limit;
    }
  }

  /** A shard that never exceeded the per-block budget during the epoch gets a cap
      of at most 1, and every cap is non-negative. */
  lemma CapWithinBudget(p: Params, b: Block, id: ShardId)
    requires p.epochLength <= Depth(b) && CoversShard(Window(p, b), id) && Budget(p) > 0
    requires forall i :: 0 <= i < p.epochLength ==> Window(p, b)[i].shards[id].txCount <= p.ethTxBlock
    ensures 0.0 <= Cap(p, b, id) <= 1.0
  {
    var w := Window(p, b);
    EpochTransactionsBounded(w, id, p.ethTxBlock);
    assert |w| == p.epochLength;
    RatioAtMostOne(EpochTransactions(w, id), Budget(p));
  }

  /** A count no larger than a positive budget makes a ratio in [0, 1]. */
  lemma RatioAtMostOne(x: nat, y: nat)
    requires 0 < y && x <= y
    ensures 0.0 <= x as real / y as real <= 1.0
  {
  }

  /** Retargeting keeps the block's number, parent, nonce and header and the modelled
      shard heads, so it cannot affect the chain's numbering. */
  lemma AdjustKeepsChain(p: Params, b: Block)
    requires RetargetDefined(p, b)
    requires AdjustShardLength(p, b).Success?
    ensures ValidChain(AdjustShardLength(p, b).value) <==> ValidChain(b)
    ensures AdjustShardLength(p, b).value.shards == b.shards
  {
  }

  /** Two ancestors carrying 4 and 6 transactions for shard 0, with an epoch of 2
      blocks and a budget of 5 per block, give that shard a cap of exactly 1. */
  lemma TwoBlockEpochExample()
    ensures var root := NewBlock(0, None, map[0 := ShardHead(0, 0, 6)], map[], 0, 0);
            var mid := NewBlock(1, Some(root), map[0 := ShardHead(0, 1, 4)], map[], 0, 0);
            var b := NewBlock(2, Some(mid), map[0 := ShardHead(0, 2, 0)], map[0 := 1.0], 0, 0);
            RetargetDefined(Params(2, 2, 5), b) &&
            AdjustShardLength(Params(2, 2, 5), b) == Success(b.(shardLength := map[0 := 1.0]))
  {
    var root := NewBlock(0, None, map[0 := ShardHead(0, 0, 6)], map[], 0, 0);
    var mid := NewBlock(1, Some(root), map[0 := ShardHead(0, 1, 4)], map[], 0, 0);
    var b := NewBlock(2, Some(mid), map[0 := ShardHead(0, 2, 0)], map[0 := 1.0], 0, 0);
    var p := Params(2, 2, 5);
    assert Ancestors(root) == [];
    assert Ancestors(b) == [mid, root];
    var w := Window(p, b);
    assert w == [mid, root];
    assert w[..1] == [mid];
    assert w[..1][..0] == [];
    assert EpochTransactions(w, 0) == 10;
    var r := AdjustShardLength(p, b);
    assert r.value.shardLength == map[0 := 1.0];
  }
}
