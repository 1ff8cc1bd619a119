# Main-chain block of a sharded blockchain, in Dafny

This project models `MainBlock`, the main-chain coordinator of a sharded blockchain
(`main_block.py`). A main block aggregates the latest head of every shard chain, links
to its parent main block, and goes through four pieces of logic:

- **shard inclusion** (`retrieve_shard`, `_is_valid_shard`, `add_shard`): a new shard
  head is stored only when the shard advanced by exactly its length cap since the
  parent block; a rejected head is silently ignored;
- **header confirmation** (`hash_contents`, `confirm_header`, `is_valid_block`): a
  one-shot proof of work. `block_no == -1` means unconfirmed. A block confirms once,
  when the digest of its shard heads and a nonce is below the difficulty and every
  shard is included. It then takes the digest as its header and the number one past
  its parent's;
- **ancestor traversal** (`retrieve_parents`): the `n` nearest ancestors, nearest first;
- **epoch retargeting** (`adjust_shard_length`): each included shard's length cap
  becomes its transaction total over one epoch of ancestors, divided by the epoch's
  transaction budget.

Blocks are immutable values (`MainChain.Block`) whose `parent` field holds the
previous block itself. Operations are pure functions returning the new block or a
`Result` failure where the code raises. Python crashes (a `KeyError` on a missing
shard id, an attribute access on a missing parent) become preconditions. The
configuration constants become a `Params` value. SHA-256 over the key-sorted JSON of
the shard map becomes a `Hashing` value: two arbitrary functions passed in by the
caller, with digests read as natural numbers.

Files: `wrappers.dfy` (Option, Result), `main_chain.dfy` (state, ancestry,
traversal), `shard_inclusion.dfy`, `header_confirmation.dfy`, `epoch_retarget.dfy`.

In these places the model keeps the code's behaviour rather than a tidier rule one might expect:

- the progress check reads the shard head already stored in the block, not the
  candidate's (see Findings; the corrected check `ShardInclusion.IsProgressingShard`,
  candidate's number minus the parent's equal to the cap, is modelled as well);
- a rejected shard head is ignored rather than reported;
- insufficient work and an incomplete shard set raise the same "Nonce invalid"
  error (`NonceInvalid`);
- asking for more ancestors than exist crashes rather than reporting missing history,
  so `RetrieveParents` requires the chain to be deep enough;
- the two divisions by zero of retargeting are both failures: a zero epoch budget
  (`EmptyBudget`) and a zero cap (`DegenerateEpoch`).

## Model

| member | source | states |
|---|---|---|
| `MainChain.NewBlock` | main_block.py:22-39 | a new block is unconfirmed (number -1), has no header, and holds exactly the given parent hash, parent, shard heads, caps, difficulty and nonce |
| `MainChain.NewBlockKeepsValidChain` | main_block.py:31-33 | a new block obeys the numbering rule, and its chain is valid exactly when its parent's chain is (or it has no parent) |
| `MainChain.AncestorsAreUp` | main_block.py:121-127 | entry i of the ancestor list is the block i+1 parent steps up, and it exists exactly when the chain is deeper than i |
| `MainChain.AncestorsLinked` | main_block.py:122-126 | consecutive ancestors are linked by parent references, the first is the block's parent, and the farthest has no parent |
| `MainChain.RetrieveParents` | main_block.py:121-127 | when the chain is at least n deep, the walk returns exactly n blocks: the first is the parent, each next one is the previous one's parent, entry i is the block i+1 steps up; n = 0 or a negative n gives the empty list |
| `ShardInclusion.RetrieveShard` | main_block.py:48-56 | looking up a present shard id returns exactly the head stored under it; calling with no argument returns None |
| `ShardInclusion.IsValidShard` | main_block.py:62-66 | as written, a candidate is accepted if and only if the cap is a whole number and the STORED head's number is the parent's plus that cap |
| `ShardInclusion.AddShard` | main_block.py:62-74 | an accepted head replaces only the entry under its own shard id (same key set); a rejected head changes nothing; no field except the shard map ever changes |
| `ShardInclusion.AcceptanceIgnoresCandidateNumber` | main_block.py:62-66 | as written, two candidates for the same shard are accepted or rejected together, whatever their own sequence numbers |
| `ShardInclusion.RetrieveAfterAdd` | main_block.py:72-74 | after an accepted inclusion the shard's lookup returns the included head; other shards' lookups are unchanged |
| `ShardInclusion.AddShardKeepsShape` | main_block.py:72-74 | inclusion keeps the number of included shards and the chain's numbering rule |
| `ShardInclusion.AddShardIntended` | main_block.py:62-74 | the corrected inclusion changes at most the candidate's own entry, stores the candidate whenever it changes anything, and ignores a candidate that did not advance by exactly the cap |
| `ShardInclusion.IntendedAcceptsExactProgress` | main_block.py:62-66 | for a candidate not already stored, the corrected inclusion stores it if and only if its sequence number minus the parent's equals the cap exactly |
| `ShardInclusion.AsWrittenAgreesOnStoredNumber` | main_block.py:62-66 | the as-written and corrected checks agree whenever the stored head has the candidate's sequence number |
| `ShardInclusion.AsWrittenIgnoresCandidate` | main_block.py:63-66 | on a two-shard chain with caps of 1, the as-written check ignores a head that advanced by 1 and accepts one that advanced by 2; the corrected check does the opposite |
| `HeaderConfirmation.IsValidBlock` | main_block.py:111-116 | the validity query is the proof-of-work condition for the stored nonce, needs a positive difficulty and a complete shard set, and on an unconfirmed block with a parent agrees exactly with whether confirming with the stored nonce would succeed |
| `HeaderConfirmation.ConfirmHeader` | main_block.py:94-105 | a confirmed block fails with AlreadyConfirmed for every nonce; an unconfirmed block confirms if and only if the digest is below the difficulty and the shard count equals the configured count; success sets header, nonce and number (parent's + 1) and nothing else; any failure returns no new state |
| `HeaderConfirmation.ConfirmsAtMostOnce` | main_block.py:95-103 | after a successful confirmation, confirming again fails with AlreadyConfirmed for every nonce |
| `HeaderConfirmation.ValidChainNumbers` | main_block.py:31 | in a chain obeying the numbering rule, no block number is below -1 |
| `HeaderConfirmation.ConfirmKeepsValidChain` | main_block.py:99-105 | a successful confirmation keeps the numbering rule "-1 or parent's number + 1" for the whole chain and gives a number of at least 0 |
| `HeaderConfirmation.ConfirmedIsValid` | main_block.py:101-116 | right after a successful confirmation the validity query, which re-checks with the stored nonce, returns true |
| `HeaderConfirmation.NoNonceConfirms` | main_block.py:99-105 | with difficulty 0 or an incomplete shard set, every nonce fails with NonceInvalid and the block is not valid |
| `HeaderConfirmation.DigestIgnoresInsertionOrder` | main_block.py:80-82 | including two heads of different shards in either order gives the same digest for every nonce |
| `EpochRetarget.SumTransactions` | main_block.py:137-140 | the accumulation loop returns the shard's transaction total over the given ancestors |
| `EpochRetarget.AdjustShardLength` | main_block.py:133-144 | with no shards nothing changes; otherwise it fails if and only if the epoch budget is zero or some shard's epoch total is zero; on success each included shard's cap is its epoch total over the budget (and positive), caps of other shards are kept, and no other field changes |
| `EpochRetarget.AdjustShardLengthLoop` | main_block.py:133-144 | the per-shard loop (walk, sum, divide, store, fail on a zero cap) computes exactly the retargeting function |
| `EpochRetarget.EpochTransactionsBounded` | main_block.py:139-140 | if no window block holds more than a limit of a shard's transactions, the epoch total is at most the limit times the window length |
| `EpochRetarget.CapWithinBudget` | main_block.py:141 | every cap is at least 0, and at most 1 when no block of the epoch exceeded the per-block transaction budget |
| `EpochRetarget.AdjustKeepsChain` | main_block.py:133-142 | retargeting keeps the modelled shard heads (which carry no difficulty) and the chain's numbering rule |
| `EpochRetarget.TwoBlockEpochExample` | main_block.py:136-142 | with an epoch of 2, a budget of 5 per block and counts 4 and 6, the shard's cap becomes exactly 1 |

## Left out

- SHA-256 and JSON serialisation (lines 81-82, 97-98, 112): modelled only as arbitrary functions. The string concatenation of digest and nonce, the missing `.hexdigest()` at line 112 and the hex-string difficulty at line 99 are ignored: digests, nonces and difficulty are natural numbers.
- The address-scan branch of `retrieve_shard` (lines 51-55): it iterates the dictionary's keys as if they were address collections, which has no clear meaning; `RetrieveShard` takes only the shard-id argument.
- The per-shard difficulty formula (line 144): a floating-point constant 1.32, the unused-elsewhere `TIME_MAINBLOCK` and `NETWORK_HASHRATE`, and a write into a shard-head object that ancestors may share. Only its division-by-zero failure is modelled (`DegenerateEpoch`); shard heads carry no difficulty field.
- `timestamp` (line 27): wall-clock time, informational only.
- `jsontype` (line 39): a constant serialisation tag with no effect on the logic.
- The shared mutable default dictionaries (lines 25-26): every block has its own maps.
- A shard head's transaction list is modelled by its length, the only thing retargeting reads from it; the whole head, list included, is hashed at line 81, which the content digest function stands for.
- Floating-point division (line 141): caps are exact reals, so rounding is not modelled.
- `NUMBER_OF_NODES` (line 5): imported but never used.
- MainChain.Block: the parent is held as a value fixed when the child is built, while the code reads `parent_block` through a live reference at each call (lines 64, 103, 122-126). Changes made to a parent after its child exists are not seen by the child: in the code, confirming a child of an unconfirmed parent gives the child number 0, and confirming the parent afterwards also gives it 0, which breaks the numbering rule that `ValidChain` states; `add_shard` on the parent likewise changes what line 64 reads for the child. The model assumes a parent is final before children are built on it.
- EpochRetarget.AdjustKeepsChain: line 144 writes a new `difficulty` into every included shard head, and line 81 hashes the whole heads, so in the code retargeting changes `hash_contents` and can make `is_valid_block` false for an already confirmed block. Shard heads in the model carry no difficulty, so the lemma's "heads unchanged" holds only for the modelled fields.
- Params: the configuration constants (shard count, epoch length, per-block budget) are natural numbers; a negative epoch length or budget, which the code would accept as a Python integer, is not modelled.
- Mining loops, concurrency, fork choice and network transport: not present in this code.
- EpochRetarget.AdjustShardLength: on a division by zero the code has already stored the caps of the shards it visited before raising; the model's failure carries no state, so this partial update is not modelled.
- HeaderConfirmation.ConfirmHeader: a successful proof on a block without a parent crashes after writing the header and nonce; the precondition excludes that case instead of modelling the partial write.

## Findings

| source | as written | input that shows it | evidently intended | confidence | as-written member | corrected member |
|---|---|---|---|---|---|---|
| main_block.py:63 | the progress check reads `self.shards[shard.shard_id].block_no`, the head already stored in the block, so the candidate's own number is never used | a child of a genesis block with both shard heads at 0, storing those same heads, caps 1: a candidate at 1 (advanced by the cap) is ignored; with a head at 1 stored, a candidate at 3 (advanced by 3 from the parent's head) is accepted | compare the candidate's `shard.block_no` with the parent's | not executed; high (the code computes a progress delta for the block being offered, yet the value it subtracts from never depends on that block) | `ShardInclusion.AsWrittenIgnoresCandidate` | `ShardInclusion.AddShardIntended` |

`ShardInclusion.AddShard` keeps the code's behaviour. `ShardInclusion.AddShardIntended`
is the corrected inclusion, and `ShardInclusion.IntendedAcceptsExactProgress` proves the
exact-progress rule for it.
