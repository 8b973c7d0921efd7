# Consensus core of gumptionchain, verified

A Dafny model of the part of gumptionchain on which all nodes must agree: the block tree with its
fork choice and the flat table that stands in for walking parent links, the ledger that decides which
blocks enter the tree, the block template, the transaction builders, and the two encoders that give
identities their meaning (bech32m keys and the transaction-id preimage). To verify:
`dafny verify dfyconfig.toml`.

## How the model is laid out

| files | what they hold |
|---|---|
| `Bits`, `BitStreams`, `Polymod`, `Checksum`, `ConvertBits`, `Bech32`, `KeyCodec` | bech32m: the GF(32) register, its error detection, bit regrouping, strings, keys |
| `ShiftRegister`, `Bip350` | the same register as six 5-bit cells, and published examples worked through on it |
| `Text`, `Payload`, `Transactions`, `Formats` | comma-joined preimages, flows, the two transaction classes, and the hashed texts written out |
| `Order`, `Blocks` | canonical transaction order, block header, block shape |
| `Sums`, `Pools`, `PoolTheory` | the draining loop of one transaction and what it decides |
| `Ledger`, `LedgerTheory`, `Unspent`, `Conservation`, `StakeBalance`, `Revalidation` | block verdicts and theorems over whole accepted chains |
| `Protocol`, `Acceptance` | the rules for a block once more, flat and independent of the code's steps, and the proof that the code accepts exactly the blocks that obey them |
| `Tree`, `Store`, `ForkChoice`, `Ancestry`, `ChainStore` | the block tree, the tables as one value, what runs keep, ancestry queries, and the tables updated in place |
| `BatchFill`, `ForwardSync`, `Node` | batch fill behind a tip and forward sync: what they come to against arbitrary peers and against honest ones, and the node that runs them |
| `Assembly`, `Template`, `Mining`, `Builders` | block templates, their acceptance, the miller, the transaction builders |

Values (transactions, blocks, chains, pools) are datatypes and functions; what the program updates in
place is a class: `ChainStore.ChainStore` holds the `block`, `chain` and `longest_chain_block` tables,
`Node.Node` the staging table, `Mining.Miller` the pending pool. Each method is proved equal to a
specification function on the tables' value, and the theorems are about those functions. What those
functions compute is fixed a second time: `Protocol.Lawful` says in one flat predicate, with the protocol's
own constants, what a block must be. With the step-by-step verdict it is equal to it shares only the hashed
texts, the alphabets and the pool arithmetic, which have laws of their own (`Formats`, `PoolTheory`, `Bip350`).

## What is assumed

* `Rules` collects what comes from libraries: the digest, the merkle root, signature validity, the
  calendar, the retarget arithmetic and the hash-below-target test are arbitrary functions. A text the
  calendar accepts has no comma (the format has none); any 32 bytes make a public key, as in the key
  library.
* Digests are not assumed injective. Where identity matters, the lemma asks that the digest does not
  collide *on the texts that were actually hashed* (`CollisionFree` over the headers, transaction
  preimages and the genesis text in question), or that it does not take two given blocks for each other,
  headers, merkle roots and contents (`Blocks.NoAccident`).
* A peer is an arbitrary function that may answer differently at every request; clocks are arbitrary. The
  results on honest peers (`BatchFill.HonestFill`, `ForwardSync.HonestSync`) say what they ask of them.
* Stored blocks are read with the timestamp text they came with, where the program reads them back
  reformatted (`src/gumptionchain/block.py:412-426`). Of a stored block the verdicts on other blocks use
  only the instant, so the two agree if formatting an instant and parsing the text gives the instant
  back. That is assumed of the calendar;
  what the reload of a block changes about its own validity is proved in `Revalidation`.
* `_is_longest` is its uncached definition (`src/gumptionchain/models.py:1078-1079`); soundness of the
  cached verdict is not claimed.

## Results that are not what one might expect

* Not every valid block can be stored. A block may spend an output of a transaction it carries itself:
  validation looks the source up in the block (`src/gumptionchain/chain.py:427-443`). Its rows cannot be
  written, because the row of an inflow is linked to the row of its outflow by a query made while the
  block's own transactions have no rows yet (`src/gumptionchain/models.py:237-258`), and that link may not
  be null (`src/gumptionchain/models.py:218`). The same goes for a nonce of 2^63 or more
  (`src/gumptionchain/models.py:275`). `Store.StorableIff` is the exact condition on a valid block that is
  not stored: its nonce fits, and none of its transactions that no stored block carries spends another one
  that no stored block carries. The miller builds such templates (`tests/test_miller.py:268-295`):
  `Mining.InTemplateSpendIsRefused` is one that validates and is refused, `Mining.MinedBlockAccepted` the
  exact condition for templates. The refusal is an outcome of its own everywhere above the tables.
* Acceptance of a transaction depends on the order of its outflows: `PoolTheory.OrderMatters` gives two
  outflows refused in one order and accepted in the other. `PoolTheory.DrainsIffBalanced` says exactly
  when the loop accepts.
* The pool check does not see a transaction that names one inflow twice; the block it is put in is
  refused. `Template.RepeatedInflowPassesThePool` is such a transaction, `Template.TemplateSound` the
  exact condition under which a template is accepted.
* A block whose timestamps are not written canonically is accepted, but does not validate after it is
  read back, because `strptime` is more liberal than the reformatting. `Revalidation.ReloadValidIffCanonical`
  is the exact condition, `Revalidation.UnpaddedTimestampIsLost` an instance.
* The stake builders draw candidates without looking at the outflows the caller handed in. One that is in
  both lists is consumed twice: `Builders.DoubledClaim` is such a call, whose result the pool check accepts
  and every block refuses. `Builders.CreateStake` says when the inflows are distinct.
* The synchronisation of the materialised chain returns early when its tip is already in the table. That
  is right for a tip that wins the fork choice and would be wrong for a lower one, which
  `ChainStore.ChainStore.SyncMaterialization` states for every table content.
* The branch for two chains without a common ancestor and the no-progress guard of the forward sync are
  unreachable (`ChainStore.NoOverlapUnreachable`, the `assert false` in `Node.Node.SyncForward`).

## Model

| member | source | states |
|---|---|---|
| Polymod.ComputePolymod | src/gumptionchain/bech32.py:36-45 | the checksum loop, five conditional feedback words a step, computes the register recursion for symbol lists of any length |
| Polymod.RunLinear | src/gumptionchain/bech32.py:36-45 | the register is linear over exclusive or, in its start and in every symbol |
| Polymod.StepInjective | src/gumptionchain/bech32.py:40-44 | no two registers are merged by one step |
| Polymod.RunInjective | src/gumptionchain/bech32.py:36-45 | registers that differ still differ after any number of common symbols |
| Checksum.BurstDetected | src/gumptionchain/bech32.py:36-60 | with prefix fixed, symbols changed inside six consecutive positions leave the register equal if and only if nothing changed, at any length |
| Checksum.ChecksumUnique | src/gumptionchain/bech32.py:53-68 | of all six-symbol suffixes exactly the created one verifies, for either encoding constant |
| ConvertBits.ConvertInPlace | src/gumptionchain/bech32.py:97-117 | the accumulator loop, masking included, is the regrouping of the whole bit string, with the same padding errors |
| ConvertBits.ConvertThenBack | src/gumptionchain/bech32.py:97-117 | padded regrouping into narrower groups is undone by strict regrouping, for inputs of any length |
| ConvertBits.BackThenConvert | src/gumptionchain/bech32.py:97-117 | whatever strict regrouping accepts is reproduced by padded regrouping |
| Bech32.DecodeOfEncode | src/gumptionchain/bech32.py:71-94 | decoding undoes encoding for every prefix and data within the length limit |
| Bech32.EncodeOfDecode | src/gumptionchain/bech32.py:71-94 | a string that decodes is, in lower case, the encoding of what it decodes to |
| KeyCodec.KeyRoundTrip | src/gumptionchain/bech32.py:123-146 | every 32-byte key encodes and decodes to itself |
| KeyCodec.OnlyKeysEncode | src/gumptionchain/bech32.py:123-132 | exactly the lists of 32 bytes have an encoding |
| KeyCodec.DecodesExactly | src/gumptionchain/bech32.py:135-146 | a text decodes to a key if and only if it is that key's encoding up to uniform case |
| KeyCodec.DecodedIsEncoding | src/gumptionchain/bech32.py:164-175 | the same uniqueness for any prefix, secrets included |
| KeyCodec.AddressLooks | tests/test_bech32.py:28-29 | an address has 61 characters and starts with "gc1", a secret 64 and starts with "gcsec1", in either case |
| KeyCodec.AddressOrSecret | src/gumptionchain/bech32.py:149-175 | no text is both an address and a secret, and secrets decode exactly from their own encodings |
| KeyCodec.PrefixProtected | src/gumptionchain/bech32.py:48-60 | two prefixes of two characters never leave the register in one state, whatever follows |
| KeyCodec.AddressPrefix | src/gumptionchain/bech32.py:135-146 | an address whose prefix characters are changed is no key of any kind |
| Bech32.MixedCase | src/gumptionchain/bech32.py:77-82 | a text with letters of both cases does not decode |
| Bip350.CountdownExample | tests/test_bech32.py:109-118 | the published text of the symbols 31 down to 0 under "abcdef" is what encoding gives and decodes to them, in bech32m |
| Bip350.EmptyExample | src/gumptionchain/bech32.py:53-74 | the published text of the empty list under "a" is what encoding gives and decodes to it, in bech32 |
| ShiftRegister.ShiftAllIsRun | src/gumptionchain/bech32.py:36-45 | six 5-bit cells, shifted by one with masks of their own, are the 30-bit register after any number of symbols |
| KeyCodec.AddressBurst | src/gumptionchain/bech32.py:135-146 | a valid address changed within six consecutive characters is never a valid address |
| Text.JoinInjective | src/gumptionchain/transaction.py:163-177 | comma-joining is unambiguous on comma-free fields |
| Payload.AddressText | src/gumptionchain/payload.py:80-104 | a valid address has no comma and cannot be mistaken for a number |
| Transactions.OutflowInjective | src/gumptionchain/payload.py:134-146 | the six fields of a valid outflow determine it |
| Transactions.ParseInflows | src/gumptionchain/transaction.py:163-177 | the end of the uncounted inflow list can be read off the joined fields |
| Transactions.DataCsvInjective | src/gumptionchain/transaction.py:163-177 | two valid transactions, regular or coinbase, with the same preimage have the same content |
| Transactions.SigningDataInjective | src/gumptionchain/transaction.py:183-185 | valid transactions with the same signed text have the same content and txid: a signature is over all of it |
| Formats.OutflowTexts | src/gumptionchain/payload.py:134-146 | which of the six fields each kind of outflow fills, and with what text |
| Formats.StringLessIff | src/gumptionchain/block.py:188-196 | texts are compared at the first place where they part, a proper beginning being smaller |
| Order.CanonicalSorted | src/gumptionchain/block.py:188-196 | the canonical order is a sorted permutation of its input |
| Order.CanonicalOfSet | src/gumptionchain/block.py:188-196 | with distinct txids every permutation has the same canonical order |
| Blocks.HeaderInjective | src/gumptionchain/block.py:160-179 | the hashed header text determines every header field |
| Blocks.HashCommits | src/gumptionchain/block.py:301-307 | two valid blocks of one hash have the same header, txids and transaction contents in the same order, unless a digest collides on them: signatures are all the hash leaves open |
| Blocks.ShapeIsCanonical | src/gumptionchain/block.py:330-347 | a block that validates is its own canonical order, its only coinbase last |
| Blocks.ReloadPreserves | src/gumptionchain/block.py:412-426 | transaction rows in any order give back the same leaves, regular transactions and coinbase |
| Pools.NetStakeMint | src/gumptionchain/chain.py:73-86 | half the net new stake, floored at zero, summed over every subject mentioned anywhere |
| Pools.RouteInflows | src/gumptionchain/chain.py:274-298 | consumed value lands in the pool of its kind and subject, the rest in the general pool |
| Pools.DrainPools | src/gumptionchain/chain.py:299-366 | the draining loop over pool dictionaries succeeds exactly when every pool level ends at zero, with the four metrics |
| PoolTheory.DrainsIffBalanced | src/gumptionchain/chain.py:299-355 | the order-dependent loop accepts if and only if value in equals value out, every pool is used up, and every rescind is covered when it comes |
| PoolTheory.PoolTheorem | src/gumptionchain/chain.py:282-366 | for accepted transactions in equals out, rescinded is at most consumed per subject, new stake is never negative, and all new stake came from the general pool |
| PoolTheory.MintBound | src/gumptionchain/chain.py:356-366 | twice the metrics is at most new stake plus rescinded stake |
| PoolTheory.OrderMatters | src/gumptionchain/chain.py:299-348 | placing before rescinding the same stake is refused where the reverse order is accepted |
| LedgerTheory.NoDoubleSpend | src/gumptionchain/chain.py:395-400 | along every accepted chain no outpoint is consumed twice |
| LedgerTheory.TxidsUnique | src/gumptionchain/chain.py:250-264 | txids never repeat along an accepted chain: replays fail on their inflows, coinbases bind their previous hash |
| LedgerTheory.DistinctHashes | src/gumptionchain/block.py:301-303 | no two blocks of an accepted chain have the same hash |
| LedgerTheory.TimeNeverRunsBack | src/gumptionchain/chain.py:229-235 | block timestamps never decrease along an accepted chain |
| LedgerTheory.DifficultyFloor | src/gumptionchain/chain.py:173-177 | every accepted block meets its target and no target is easier than the floor |
| Unspent.UnspentIsNet | src/gumptionchain/models.py:816-828 | under any weighting of outflows, what no inflow consumes is created less consumed |
| LedgerTheory.SignedByAddress | src/gumptionchain/transaction.py:226-241 | every transaction of an accepted chain is signed under its address and named by its own content |
| Conservation.WhoSpends | src/gumptionchain/chain.py:368-401 | each inflow of an accepted chain names one outflow created on it, not a rescind, owned by the spender, spent by nobody else, and the spend is signed under the owner's address |
| Conservation.CoinbasePays | src/gumptionchain/chain.py:403-418 | a coinbase pays out exactly the reward plus the minted metrics, whatever the destinations |
| Conservation.ValueIsConserved | src/gumptionchain/chain.py:250-264 | unspent held, staked and rescinded value together equal the rewards plus all metrics |
| Conservation.SupplyBound | src/gumptionchain/chain.py:266-366 | on every accepted chain of n blocks twice the held value plus the staked value is at most twice n rewards |
| StakeBalance.StakeBalances | src/gumptionchain/models.py:915-925 | a subject's balance is new stake plus coinbase-placed stake less rescinded stake, with no negative contribution |
| StakeBalance.RescindsAreFinal | src/gumptionchain/chain.py:384-386 | rescinded value is terminal: all of it ever created is still unspent |
| Protocol.TargetLaw | src/gumptionchain/chain.py:150-179 | along an accepted chain each target is the previous one, and every 24 blocks what the retarget gives for the time the last 24 took, or the floor where that would be easier than the floor |
| Protocol.TxnIff | src/gumptionchain/transaction.py:222-244 | the two validations of a transaction accept exactly what is signed, named by its content, and has plain flows in the allowed numbers |
| Protocol.ShapeIff | src/gumptionchain/block.py:330-347 | a block passes its own rules if and only if it is sealed (hash, difficulty, merkle root over its transactions as they stand) and filled (ordinary transactions at most four hours old, in order, then one coinbase) |
| Protocol.NextIff | src/gumptionchain/chain.py:216-264 | a block may follow an accepted chain if and only if it is lawful: sealed, filled, in place, each inflow the only use of an outflow its address owns, each transaction balanced, and the coinbase paying the reward and the metrics and naming the parent |
| Acceptance.VerdictIff | src/gumptionchain/chain.py:216-264 | a block that is not stored passes validation against the tables if and only if it is lawful on its parent's path, not from the future, and not a second genesis |
| Acceptance.Refusals | src/gumptionchain/chain.py:216-248 | which error a block is refused with: that of the first rule it breaks, the rules being those of `Protocol`; money comes last |
| Protocol.MoneyRefusals | src/gumptionchain/chain.py:250-264 | the error of the first bad transaction; without one, that of the coinbase: amounts after the reward, then the parent it names, then the reward |
| Protocol.TxnRefusals | src/gumptionchain/chain.py:266-355 | a transaction is refused for its first bad inflow, and without one exactly if it is not balanced |
| Protocol.InflowRefusals | src/gumptionchain/chain.py:368-401 | an outflow that was rescinded, belongs to somebody else or is used already is refused with the error of the first of these that applies, in a block and in the pool |
| Acceptance.StoredIsSigned | src/gumptionchain/node.py:214-236 | every transaction of every stored block is signed under its address and named by its content |
| Acceptance.StoredSpend | src/gumptionchain/node.py:214-236 | every inflow of a stored block is the only use on that block's path of one outflow that its signing address owns |
| Revalidation.TargetIsStable | src/gumptionchain/chain.py:136-179 | the target of a height, found by reverse index from any longer tip, is the one demanded when the block was added |
| Revalidation.AcceptedRevalidates | src/gumptionchain/chain.py:216-264 | every block of an accepted chain, as it was received and looked up through its own row, passes validation again at any later clock |
| Revalidation.AcceptedReloads | src/gumptionchain/block.py:412-426 | the transactions of an accepted block come back the same from rows in any order |
| Revalidation.ReloadValidIffCanonical | src/gumptionchain/block.py:412-426 | the block's own rules hold of a block read back if and only if its timestamps were written canonically |
| Revalidation.ReloadedRevalidates | src/gumptionchain/chain.py:204-264 | a block of an accepted chain, read back from its rows, passes full validation again if and only if its timestamps were written canonically |
| Revalidation.ChainRevalidates | src/gumptionchain/chain.py:204-214 | `validate()` over an accepted chain with every block read back succeeds if and only if all timestamps on it were written canonically |
| Revalidation.UnpaddedTimestampIsLost | src/gumptionchain/util.py:22-31 | an accepted block with an unpadded timestamp is refused after its reload |
| Tree.BestIsFirst | src/gumptionchain/models.py:1358-1370 | the fork-choice winner is the greatest height, then earliest timestamp, then smallest hash |
| Tree.SameGenesis | src/gumptionchain/chain.py:220-226 | all stored paths start at one genesis |
| Store.StoredIsValid | src/gumptionchain/chain.py:199-202 | storing an accepted block keeps the table a tree all of whose paths are valid chains |
| Store.StorableIff | src/gumptionchain/models.py:237-258 | a valid new block can be written if and only if its nonce fits its column and no transaction without a row spends another one without a row |
| Store.EnrolKeepsBest | src/gumptionchain/chain.py:804-844 | finding, moving or making a chain row never loses the row of the best block |
| ForkChoice.StepKeepsInv | src/gumptionchain/node.py:214-236 | after every accepted block the materialised table is the path of the best block of the whole tree, which has a row, at any prune depth |
| ForkChoice.LongestIsBest | src/gumptionchain/models.py:1186-1204 | pruning is invisible: a row wins among the remaining rows if and only if its tip is the best stored block |
| ForkChoice.Convergence | src/gumptionchain/node.py:214-236 | two nodes holding the same blocks have the same tip and the same materialised chain, whatever came in which order and at any prune depth |
| ForkChoice.RowsAfter | src/gumptionchain/models.py:1189-1204 | exactly which chain rows a step leaves: the block's own and all older ones, except the parent's if the block takes it over, and those further behind than the prune depth if the block is now the best of the tree |
| ForkChoice.OneContentIs | src/gumptionchain/block.py:301-307 | accepted blocks of one hash are one block once their signatures are the same |
| ForkChoice.AnyOrderSameTip | src/gumptionchain/node.py:214-236 | two orders in which the same blocks are all accepted end in the same tip and materialisation |
| ForkChoice.AcceptedInAnyOrder | src/gumptionchain/node.py:214-236 | the blocks of one accepted run, given once each to another node, parents first and at clocks past their timestamps, are all accepted again, apart from the row lookups of blocks that spend within themselves and provided one hash never comes with two sets of signatures; the nodes agree on tip and materialisation |
| ForkChoice.HeightNeverDecreases | src/gumptionchain/node.py:214-236 | the best height never decreases along a run |
| Ancestry.WalkToCache | src/gumptionchain/models.py:324-352 | the walk returns the path above the materialisation, nearest first, and the position where it meets it |
| Ancestry.FastPathIsAncestry | src/gumptionchain/models.py:354-390 | divergent ids plus positions up to the cap are exactly the block and its ancestors, without overlap, for any genesis-rooted table however stale |
| Ancestry.GetTransactionInChain | src/gumptionchain/models.py:421-447 | with unique txids the query finds what walking the parent links finds and never sees two rows |
| Ancestry.GetBlockInChain | src/gumptionchain/models.py:455-485 | a lookup by hash or height has at most one answer, and it is the ancestor that matches |
| Ancestry.GetBlockAt | src/gumptionchain/chain.py:136-148 | by height it is the block at that position of the path |
| Ancestry.InflowsInChainCount | src/gumptionchain/models.py:487-525 | one if the block or an ancestor consumes the outpoint, otherwise zero |
| Ancestry.TransactionProvenance | src/gumptionchain/models.py:1254-1313 | a canonical transaction is reported in the block that carries it, with its true depth; an orphan is on no ancestor of the tip |
| ChainStore.ChainStore.GetTransaction | src/gumptionchain/chain.py:427-443 | the unpersisted block first, then the ancestry query: the ledger's lookup |
| ChainStore.ChainStore.GetInflowsCount | src/gumptionchain/chain.py:445-466 | uses in the unpersisted block are counted, on the persisted chain found or not |
| ChainStore.ChainStore.ValidateTxnInflow | src/gumptionchain/chain.py:368-401 | missing, rescinded, foreign and spent outflows are refused in that order |
| ChainStore.ChainStore.ValidateBlockTxn | src/gumptionchain/chain.py:266-366 | the first inflow error, the imbalance error, or the metrics |
| ChainStore.ChainStore.ValidateMoney | src/gumptionchain/chain.py:250-264 | transactions in order, metrics added up, coinbase against their sum |
| ChainStore.ChainStore.TargetAt | src/gumptionchain/chain.py:150-179 | the target computed through ancestry queries is the target computed on the path |
| ChainStore.ChainStore.ValidateBlock | src/gumptionchain/chain.py:216-264 | the verdict of the tables is the ledger's verdict on the parent's path, with the same error |
| ChainStore.ChainStore.Longest | src/gumptionchain/models.py:1358-1370 | the row that wins the fork choice, or none if there are no rows |
| ChainStore.ChainStore.SyncMaterialization | src/gumptionchain/models.py:1120-1184 | bootstrap, in-sync, reorg and disjoint branches: unless the tip is in the table already, the table becomes the tip's path |
| ChainStore.ChainStore.RebuildLongestChainBlocks | src/gumptionchain/models.py:1206-1229 | the table becomes the tip's path from any content |
| ChainStore.ChainStore.SyncLongestChainBlocks | src/gumptionchain/models.py:1083-1118 | nothing unless the row wins; then the path is materialised and stale rows are pruned |
| ChainStore.ChainStore.ToDb | src/gumptionchain/chain.py:804-853 | the row of the new tip is found, moved or made, and the tables synchronised |
| ChainStore.ChainStore.WriteBlock | src/gumptionchain/block.py:355-391 | writing a block succeeds exactly when it is storable and then adds it under its hash, otherwise nothing changes |
| ChainStore.ChainStore.AddBlock | src/gumptionchain/node.py:214-236 | an invalid or unstorable block leaves the tables unchanged, with the validation error or the storage error; any other takes them to the specified next state, and the invariant holds again |
| ChainStore.ChainStore.StoredIff | src/gumptionchain/node.py:214-236 | a block is stored if and only if it is valid and storable |
| ChainStore.StoredRevalidates | src/gumptionchain/chain.py:204-264 | after any run, a stored block handed in again at a clock past its timestamp is valid and accepted |
| ChainStore.StoredChainRevalidates | src/gumptionchain/chain.py:204-214 | after any run, the path of any stored block, read back whole, validates if and only if its timestamps were written canonically |
| ChainStore.CachedBest | src/gumptionchain/models.py:1159-1161 | a winning tip that is in the table already is the tip of the tabled path |
| ChainStore.NoOverlapUnreachable | src/gumptionchain/models.py:1163-1175 | a non-empty table always shares a block with the walk |
| Node.Node.RequestBlock | src/gumptionchain/node.py:247-283 | the block of the first peer in order whose answer hashes to what was asked for; none only if no peer's does |
| BatchFill.OneReply | src/gumptionchain/node.py:247-283 | a request has one answer or none, whatever the peers send, and the answer carries and hashes to what was asked for |
| BatchFill.FilledHeights | src/gumptionchain/node.py:377-413 | a walk that was stored whole goes down exactly one height at a time |
| BatchFill.ByIdxRises | src/gumptionchain/models.py:1649-1653 | the staged rows come back all, once each, and rising in height, whatever heights they claim |
| BatchFill.WalkIsReversed | src/gumptionchain/models.py:1649-1653 | a walk down in height is applied from the bottom up; `FillChain` shows that every filled walk is one |
| BatchFill.OneFate | src/gumptionchain/node.py:421-450 | on given tables and clocks a batch is either accepted row by row or refused at one row with one error, never both |
| Node.Node.WalkBack | src/gumptionchain/node.py:377-413 | every staged block after the first is the first answer to the request for its parent; the walk stops at the first stored parent or genesis, at the depth limit, or where no peer answers, and says which |
| Node.Node.ApplyAll | src/gumptionchain/node.py:421-450 | every row is accepted by the tables with all rows before it written, and the tables become exactly that; or the tables are as before and the first row so refused, invalid or unstorable, gives the error |
| Node.Node.FillChain | src/gumptionchain/node.py:371-471 | all or nothing for any peers: tables unchanged, or extended by exactly the walk, whose heights fall one by one and which is applied and announced in reverse, parent first; staging empty; requests bounded; each outcome with its reason in terms of the node's own tables and the answers given |
| BatchFill.RowAsNamed | src/gumptionchain/node.py:247-283 | what a fill writes under a hash is what the hash names: any valid block of that hash has the written row's header and transaction contents |
| BatchFill.HonestFill | src/gumptionchain/node.py:371-471 | if the peers serve the tip's path from a tree that agrees with the node's and the clocks have passed, a fill fails only because the stored part of the path is beyond the depth limit, exactly when it is, or because a block spends within itself or has too large a nonce |
| ForkChoice.AgreeingTableAccepts | src/gumptionchain/chain.py:216-264 | a block of one valid tree is valid on any other that agrees with it where both hold a block, has the same genesis and holds the parent |
| ForwardSync.ExtendsTip | src/gumptionchain/node.py:534-555 | a block accepted on the tip is new, becomes the tip, and extends the canonical chain by itself |
| ForwardSync.CommitsLawful | src/gumptionchain/node.py:524-555 | a new block is committed if and only if it is lawful on top of the canonical chain, not from the future, and storable |
| Node.Node.CommitNext | src/gumptionchain/node.py:524-555 | exactly a wrong hash, a parent other than the tip, or a block that is invalid or cannot be stored stops the import and changes nothing; otherwise the chain grows by the block |
| Node.Node.SyncForward | src/gumptionchain/node.py:505-555 | what is committed is all answers of the finished rounds and a beginning of the next, each asked for at tip plus one, and it extends the starting chain; catching up means the last request made, at tip plus one, was answered empty; any other stop is owed to the next block of the answer under way: diverged, invalid, or impossible to store |
| ForwardSync.HonestSync | src/gumptionchain/node.py:505-555 | against a peer that serves a chain extending the node's own, every commit follows that chain, the sync never diverges, and with more rounds than missing blocks it ends at the peer's tip unless a block cannot be written |
| Assembly.AssembleSelects | src/gumptionchain/miller.py:68-97 | the template holds distinct pool transactions, none of which is discarded as well |
| Assembly.TakenForCause | src/gumptionchain/miller.py:68-97 | every transaction of the template is pending, unexpired, not mined, valid, in order, and passes the pool check after those taken before it |
| Assembly.DiscardedForCause | src/gumptionchain/miller.py:86-99 | a transaction is discarded only if it fails one of the last three after some of those taken |
| Assembly.NothingIsLost | src/gumptionchain/miller.py:86-99 | every live unmined pool entry is in the block or discarded, unless the block is full |
| Assembly.CoinbaseIsValid | src/gumptionchain/transaction.py:358-386 | the assembled coinbase passes the coinbase rules |
| Template.WholeInflow | src/gumptionchain/chain.py:395-400 | the whole-block check of an inflow repeats the pool check unless its transaction names it twice |
| Template.TemplateSound | src/gumptionchain/miller.py:80-102 | a solved template is accepted if and only if no transaction repeats an inflow, all are timely at the seal, and the clock is between the tip's and the judge's |
| Template.RepeatedInflowPassesThePool | src/gumptionchain/chain.py:395-400 | a transaction that spends one outflow twice passes the pool check and fails in its block |
| Mining.Miller.FillDraft | src/gumptionchain/miller.py:80-97 | the loop over the pool builds the specified draft against the node's tables |
| Mining.Miller.CreateBlock | src/gumptionchain/miller.py:80-102 | the sealed template sits on the winning row; the pool loses exactly the expired and the discarded transactions, and the sweep does not change the draft |
| Mining.WithoutAre | src/gumptionchain/miller.py:98-99 | exactly the entries with the txid of a discarded transaction leave the pool |
| Mining.SealedTemplate | src/gumptionchain/block.py:266-280 | the sealed template is the draft in canonical order and one coinbase, signed and stamped by the miller, that pays the reward and then each metric that is not zero to the miller |
| Mining.MinedBlockValid | src/gumptionchain/miller.py:112-139 | the node's own verdict on the solved template, under the same exact condition as `Template.TemplateSound` |
| Mining.MinedBlockAccepted | src/gumptionchain/miller.py:112-139 | the node stores the solved template if and only if that condition holds, the nonce fits, and no template transaction spends another while no stored block carries either |
| Mining.InTemplateSpendIsRefused | src/gumptionchain/miller.py:80-102 | two pool transactions, the second spending the first, make a template that validates and cannot be stored |
| Builders.Gather | src/gumptionchain/chain.py:468-485 | the shortest prefix of the candidates that reaches the limit, or all of them |
| Builders.QueriedCoins | src/gumptionchain/models.py:830-839 | on an accepted chain the rows of the two candidate queries, whatever is pending, are distinct coins the builders may spend |
| Builders.QueriedBalance | src/gumptionchain/models.py:841-854 | the candidates of an address fall short of its confirmed balance exactly when pending transactions tie up some of its outflows |
| Builders.QueriedStake | src/gumptionchain/models.py:895-913 | the staked candidates of an address add up to all its unspent stake on the subject less what pending transactions consume: the whole of it exactly when they consume none |
| Builders.OnePrefix | src/gumptionchain/chain.py:468-485 | candidates and limit determine the inflows drawn |
| Builders.CreateTransfer | src/gumptionchain/chain.py:637-656 | a funds error exactly when the candidates fall short, a pending one exactly when the confirmed balance would do; otherwise a sealed transaction without repeated inflows that pays the destination, returns all change to the sender, and is accepted with zero metrics |
| Builders.CreateSplit | src/gumptionchain/chain.py:658-687 | the same for a split into equal chips, every outflow going back to the sender |
| Builders.CreateStake | src/gumptionchain/chain.py:689-725 | opposition and support alike, the caller's outflows first: change returns to the sender, the inflows are distinct if claims and candidates are, and with truthful claims it is accepted, minting half the amount in the metric of its kind |
| Builders.DoubledClaim | src/gumptionchain/chain.py:701-717 | an outflow both handed in and offered by the query is consumed twice; the pool check accepts the result and every block refuses it |
| Builders.CreateRescind | src/gumptionchain/chain.py:727-758 | accepted, minting half the rescinded amount and no stake mint; change is staked again on the same subject |
| Builders.SignedIsRegular | src/gumptionchain/transaction.py:212-241 | what a builder returns, once signed, obeys the shape rules of regular transactions if it stays within the flow limits |
| Builders.BuiltEntersBlock | src/gumptionchain/chain.py:368-401 | a block that holds a built transaction accepts it with the same metrics, provided nothing else in the block spends the same outflows |

## Left out

- Surrogate row ids, sessions, autoflush, the identity map and SQL plans: tables are maps by hash, rollback restores a snapshot.
- Failures of the database itself (locks, lost connections, full disks), and the path of `add_block` that swallows one when the block turns out to be stored. The refusals that follow from the block and the tables, a missing outflow row and a nonce too large, are modelled.
- Column widths of heights and amounts: 64 bits hold any height or amount an accepted chain of imaginable length can reach.
- `_is_longest` caching and its generation counter: the uncached definition is used.
- Decoded subject text: a subject is any non-empty unpadded URL-safe base64 text; the length limit, printability and canonical padding bits of the decoded text are not modelled, so the model admits more subjects than the program.
- Base64 shape of signatures and the padding rule of digests: a digest is 64 base64 characters, signature validity is uninterpreted.
- Negative inflow indices: the models forbid them, so Python's indexing from the end is not modelled.
- Exact retarget arithmetic (it goes through a float) and the clamp of the factor: an arbitrary function of previous target and elapsed time, capped at the floor.
- `Block` under construction (`add_txn`, `seal`, `solve`) and the `prev_txn` loop of `Block.validate` are modelled on values: update in place of a block object is not captured.
- Node.Node.SyncForward: runs at most `rounds` batches, because a peer may go on answering for ever; every finished round is proved to raise the tip, and a peer of bounded height is exhausted after as many rounds.
- Node.Node.FillChain: exceptions of the staging table itself (the program logs them and returns false) are not modelled.
- ChainStore.ChainStore.AddBlock: asks that the texts hashed so far and those of the new block do not collide; on a collision the program may raise on a second row.
- Store.StoredIsValid: the same assumption, for the headers only.
- ForkChoice.AcceptedInAnyOrder: asks that blocks of one hash carry the same signatures, which are outside the hash, and that no digest takes two of the blocks for each other.
- The search for a proof of work: the nonce is a parameter.
- Builders.SignedIsRegular: asks that the flow counts fit. A builder may gather more than 50 inflows, which only later validation refuses.
- Mining.Miller.CreateBlock: starts from the pool with whatever the milling peer sent already received into it (`src/gumptionchain/miller.py:38-60`); reception is not modelled.
- Ancestry.TransactionProvenance: reports placement only; the outflow view and the lookup of pending transactions are display code.
- Gossip (`send_block`, `fill_peer`, `receive_block`), pending-pool reception and its size limit, leaderboards, subject search and statistics.
- Ed25519, SHA, HKDF, merkle inclusion proofs, `bip39`, milling processes, web views and the command line.
