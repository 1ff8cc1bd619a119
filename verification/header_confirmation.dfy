/**
 Proof-of-work confirmation of a main block's header (`confirm_header`) and the
 validity query that re-derives the same check (`is_valid_block`). SHA-256 over the
 key-sorted JSON of the shard map is abstracted as two functions supplied by the caller.
 */
module HeaderConfirmation {
  import opened Wrappers
  import opened MainChain

  /** The hash functions: `contents` digests the whole shard-id -> head map (a map has
      no insertion order, which is what sorting the keys before hashing achieves), and
      `seal` digests a content digest together with a nonce. Digests are read as
      unsigned integers. */
  datatype Hashing = Hashing(contents: map<ShardId, ShardHead> -> nat, seal: (nat, nat) -> nat)

  /** The two ways `confirm_header` raises. */
  datatype ConfirmError = AlreadyConfirmed | NonceInvalid

  /** The header digest that a nonce produces for a set of shard heads. */
  function Digest(h: Hashing, shards: map<ShardId, ShardHead>, nonce: nat): nat {
    h.seal(h.contents(shards), nonce)
  }

  /** The proof-of-work condition: the digest is strictly below the difficulty and
      exactly one head is included per configured shard. */
  predicate ProofHolds(p: Params, h: Hashing, b: Block, nonce: nat) {
    Digest(h, b.shards, nonce) < b.difficulty && |b.shards| == p.numberOfShards
  }

  /** `confirm_header` reads the parent's number only on the success path, so only a
      successful confirmation needs a parent. */
  predicate ConfirmDefined(p: Params, h: Hashing, b: Block, nonce: nat) {
    b.blockNo != Unconfirmed || b.parent.Some? || !ProofHolds(p, h, b, nonce)
  }

  /** `confirm_header(nonce)`: a confirmed block raises "already confirmed" for every
      nonce; an unconfirmed one confirms exactly when the proof holds, taking the
      digest as its header, the nonce, and the number one past its parent's; every
      failure leaves the block as it was. */
  function ConfirmHeader(p: Params, h: Hashing, b: Block, nonce: nat): (r: Result<Block, ConfirmError>)
    requires ConfirmDefined(p, h, b, nonce)
    ensures b.blockNo != Unconfirmed ==> r == Failure(AlreadyConfirmed)
    ensures b.blockNo == Unconfirmed ==>
              (r.Success? <==> Digest(h, b.shards, nonce) < b.difficulty && |b.shards| == p.numberOfShards)
    ensures b.blockNo == Unconfirmed && r.Failure? ==> r.error == NonceInvalid
    ensures r.Success? ==>
              && b.parent.Some?
              && r.value == b.(header := Some(Digest(h, b.shards, nonce)), nonce := nonce,
                               blockNo := b.parent.value.blockNo + 1)
  {
    if b.blockNo != Unconfirmed then Failure(AlreadyConfirmed)
    else if ProofHolds(p, h, b, nonce) then
      Success(b.(header := Some(Digest(h, b.shards, nonce)), nonce := nonce,
                 blockNo := b.parent.value.blockNo + 1))
    else Failure(NonceInvalid)
  }

  /** `is_valid_block`: the proof-of-work condition for the block's stored nonce. It
      does not look at the block number or the header. */
  function IsValidBlock(p: Params, h: Hashing, b: Block): (valid: bool)
    ensures valid <==> ProofHolds(p, h, b, b.nonce)
    ensures valid ==> b.difficulty > 0 && |b.shards| == p.numberOfShards
    ensures b.blockNo == Unconfirmed && b.parent.Some? ==>
              (valid <==> ConfirmHeader(p, h, b, b.nonce).Success?)
  {
    ProofHolds(p, h, b, b.nonce)
  }

  /** A block confirms at most once: after a successful confirmation every further
      attempt raises "already confirmed", whatever the nonce. Parent numbers never go
      below the sentinel, so the new number is never the sentinel itself. */
  lemma ConfirmsAtMostOnce(p: Params, h: Hashing, b: Block, n1: nat, n2: nat)
    requires ConfirmDefined(p, h, b, n1)
    requires b.parent.Some? ==> b.parent.value.blockNo >= Unconfirmed
    requires ConfirmHeader(p, h, b, n1).Success?
    ensures ConfirmDefined(p, h, ConfirmHeader(p, h, b, n1).value, n2)
    ensures ConfirmHeader(p, h, ConfirmHeader(p, h, b, n1).value, n2) == Failure(AlreadyConfirmed)
  {
  }

  /** In a chain that keeps the numbering rule, numbers never drop below the sentinel. */
  lemma {:induction false} ValidChainNumbers(b: Block)
    requires ValidChain(b)
    ensures b.blockNo >= Unconfirmed
    decreases b
  {
    if b.parent.Some? {
      ValidChainNumbers(b.parent.value);
    }
  }

  /** Confirmation preserves the numbering rule of the whole chain: a success numbers
      the block one past its parent, a failure changes nothing. */
  lemma ConfirmKeepsValidChain(p: Params, h: Hashing, b: Block, nonce: nat)
    requires ConfirmDefined(p, h, b, nonce) && ValidChain(b)
    ensures ConfirmHeader(p, h, b, nonce).Success? ==> ValidChain(ConfirmHeader(p, h, b, nonce).value)
    ensures ConfirmHeader(p, h, b, nonce).Success? ==> ConfirmHeader(p, h, b, nonce).value.blockNo >= 0
  {
    var r := ConfirmHeader(p, h, b, nonce);
    if r.Success? {
      ValidChainNumbers(b.parent.value);
    }
  }

  /** Right after a successful confirmation the block passes the validity query. */
  lemma ConfirmedIsValid(p: Params, h: Hashing, b: Block, nonce: nat)
    requires ConfirmDefined(p, h, b, nonce)
    requires ConfirmHeader(p, h, b, nonce).Success?
    ensures IsValidBlock(p, h, ConfirmHeader(p, h, b, nonce).value)
  {
  }

  /** A block with the default difficulty 0, or with an incomplete shard set, can never
      be confirmed: every nonce raises. */
  lemma NoNonceConfirms(p: Params, h: Hashing, b: Block, nonce: nat)
    requires b.blockNo == Unconfirmed
    requires b.difficulty == 0 || |b.shards| != p.numberOfShards
    ensures ConfirmDefined(p, h, b, nonce)
    ensures ConfirmHeader(p, h, b, nonce) == Failure(NonceInvalid)
    ensures !IsValidBlock(p, h, b)
  {
  }

  /** Hashing is deterministic and independent of insertion order: including two heads
      of different shards in either order yields the same digest for every nonce. */
  lemma DigestIgnoresInsertionOrder(h: Hashing, m: map<ShardId, ShardHead>, a: ShardHead, c: ShardHead, nonce: nat)
    requires a.shardId != c.shardId
    ensures Digest(h, m[a.shardId := a][c.shardId := c], nonce) == Digest(h, m[c.shardId := c][a.shardId := a], nonce)
  {
    assert m[a.shardId := a][c.shardId := c] == m[c.shardId := c][a.shardId := a];
  }
}
