/**
 Inclusion of shard heads into a main block: lookup by shard id, the progress check a
 candidate head must pass, and `add_shard`, which stores an accepted head and silently
 ignores a rejected one.
 */
module ShardInclusion {
  import opened Wrappers
  import opened MainChain

  /** `retrieve_shard` called with a shard id or with no argument at all: the head
      stored under that id, or `None`. Indexing the dictionary raises on a missing id,
      so the id must be present. */
  function RetrieveShard(b: Block, k: Option<ShardId>): (r: Option<ShardHead>)
    requires k.Some? ==> k.value in b.shards
    ensures k.None? <==> r.None?
    ensures k.Some? ==> r == Some(b.shards[k.value])
  {
    match k
    case None => None
    case Some(id) => Some(b.shards[id])
  }

  /** What the progress check dereferences: the candidate's id in this block's shards,
      in its length caps, and in the shards of an existing parent. */
  predicate ShardCheckDefined(b: Block, s: ShardHead) {
    && s.shardId in b.shards
    && s.shardId in b.shardLength
    && b.parent.Some?
    && s.shardId in b.parent.value.shards
  }

  /** `_is_valid_shard` as written: the sequence number already STORED in this block
      for the candidate's shard, minus the parent's, must equal the length cap exactly.
      The candidate's own sequence number is never read; the evidently intended check
      is `IsProgressingShard` below. */
  function IsValidShard(b: Block, s: ShardHead): (valid: bool)
    requires ShardCheckDefined(b, s)
    ensures valid <==> b.shardLength[s.shardId] == b.shardLength[s.shardId].Floor as real
                       && b.shards[s.shardId].blockNo == b.parent.value.shards[s.shardId].blockNo + b.shardLength[s.shardId].Floor
  {
    var id := s.shardId;
    (b.shards[id].blockNo - b.parent.value.shards[id].blockNo) as real == b.shardLength[id]
  }

  /** `add_shard` as written: an accepted head replaces the entry under its own shard
      id and nothing else changes; a rejected head is ignored. */
  function AddShard(b: Block, s: ShardHead): (r: Block)
    requires ShardCheckDefined(b, s)
    ensures r == b.(shards := r.shards)
    ensures IsValidShard(b, s) ==> r.shards.Keys == b.shards.Keys && r.shards[s.shardId] == s
    ensures forall id :: id in b.shards && id != s.shardId ==> id in r.shards && r.shards[id] == b.shards[id]
    ensures !IsValidShard(b, s) ==> r == b
  {
    if IsValidShard(b, s) then b.(shards := b.shards[s.shardId := s]) else b
  }

  /** As written, whether a head is accepted does not depend on its own sequence
      number: two candidates for the same shard are accepted or rejected together. */
  lemma AcceptanceIgnoresCandidateNumber(b: Block, s: ShardHead, t: ShardHead)
    requires ShardCheckDefined(b, s) && t.shardId == s.shardId
    ensures ShardCheckDefined(b, t)
    ensures IsValidShard(b, s) <==> IsValidShard(b, t)
  {
  }

  /** After an accepted inclusion, looking the shard up returns the included head,
      and every other shard still returns what it returned before. */
  lemma RetrieveAfterAdd(b: Block, s: ShardHead, k: ShardId)
    requires ShardCheckDefined(b, s) && k in b.shards
    ensures IsValidShard(b, s) && k == s.shardId ==> RetrieveShard(AddShard(b, s), Some(k)) == Some(s)
    ensures k != s.shardId ==> RetrieveShard(AddShard(b, s), Some(k)) == RetrieveShard(b, Some(k))
  {
  }

  /** Inclusion never changes the number of included shards, so it can neither
      complete nor break the shard set required for confirmation, and it keeps the
      chain's numbering intact. */
  lemma AddShardKeepsShape(b: Block, s: ShardHead)
    requires ShardCheckDefined(b, s)
    ensures |AddShard(b, s).shards| == |b.shards|
    ensures ValidChain(AddShard(b, s)) <==> ValidChain(b)
  {
  }

  /** The evidently intended progress check: the CANDIDATE's sequence number minus
      the parent's must equal the cap exactly (equality, not "at least"). */
  predicate IsProgressingShard(b: Block, s: ShardHead)
    requires b.parent.Some? && s.shardId in b.parent.value.shards && s.shardId in b.shardLength
  {
    (s.blockNo - b.parent.value.shards[s.shardId].blockNo) as real == b.shardLength[s.shardId]
  }

  /** `add_shard` with the intended check. It no longer reads this block's own entry,
      so a shard not yet included can be added. */
  function AddShardIntended(b: Block, s: ShardHead): (r: Block)
    requires b.parent.Some? && s.shardId in b.parent.value.shards && s.shardId in b.shardLength
    ensures r == b.(shards := r.shards)
    ensures r.shards.Keys <= b.shards.Keys + {s.shardId}
    ensures forall id :: id in b.shards && id != s.shardId ==> id in r.shards && r.shards[id] == b.shards[id]
    ensures r != b ==> s.shardId in r.shards && r.shards[s.shardId] == s
    ensures !IsProgressingShard(b, s) ==> r == b
  {
    if IsProgressingShard(b, s) then b.(shards := b.shards[s.shardId := s]) else b
  }

  /** For a candidate not already stored, the intended inclusion stores it exactly
      when it advanced by the cap: heads that advanced by more or by less are both
      ignored. */
  lemma IntendedAcceptsExactProgress(b: Block, s: ShardHead)
    requires b.parent.Some? && s.shardId in b.parent.value.shards && s.shardId in b.shardLength
    requires s.shardId in b.shards ==> b.shards[s.shardId] != s
    ensures var delta := s.blockNo - b.parent.value.shards[s.shardId].blockNo;
            (delta as real == b.shardLength[s.shardId]) <==>
            (s.shardId in AddShardIntended(b, s).shards && AddShardIntended(b, s).shards[s.shardId] == s)
  {
  }

  /** The as-written check agrees with the intended one whenever the stored head
      carries the candidate's sequence number, e.g. when the candidate is re-submitted
      after being stored. */
  lemma AsWrittenAgreesOnStoredNumber(b: Block, s: ShardHead)
    requires ShardCheckDefined(b, s)
    requires b.shards[s.shardId].blockNo == s.blockNo
    ensures IsValidShard(b, s) <==> IsProgressingShard(b, s)
  {
  }

  /** A two-shard chain: a genesis block whose heads are both at sequence 0, and a
      child block that starts from the same heads with caps of 1. */
  function ScenarioChild(stored: ShardHead): Block {
    var genesis := NewBlock(0, None, map[0 := ShardHead(0, 0, 0), 1 := ShardHead(1, 0, 0)], map[], 0, 0);
    NewBlock(1, Some(genesis), map[0 := stored, 1 := ShardHead(1, 0, 0)], map[0 := 1.0, 1 := 1.0], 0, 0)
  }

  /** As written, the check contradicts the exact-progress rule of `IsProgressingShard`
      in both directions: a head at sequence 1 (advanced by the cap) is ignored because
      the stored head is still at 0, and once a head at 1 is stored a head at 3
      (advanced by 3 from the parent's head) is accepted. The intended check decides
      both the other way. */
  lemma AsWrittenIgnoresCandidate()
    ensures var b := ScenarioChild(ShardHead(0, 0, 0));
            AddShard(b, ShardHead(0, 1, 0)) == b
            && AddShardIntended(b, ShardHead(0, 1, 0)).shards[0] == ShardHead(0, 1, 0)
    ensures var b := ScenarioChild(ShardHead(0, 1, 0));
            AddShard(b, ShardHead(0, 3, 0)).shards[0] == ShardHead(0, 3, 0)
            && AddShardIntended(b, ShardHead(0, 3, 0)) == b
  {
  }
}
