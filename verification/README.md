# Arbor, modelled and proved in Dafny

Arbor is a multi-domain chain: one root domain keeps a registry of domains, every consensus block carries one
batch per domain, and each domain's state is committed in an Ethereum-style trie. This project models the parts of
it where correctness is subtle and proves what they are for, for all inputs and all runs.

| component | files | main results |
|---|---|---|
| authenticated state | `Rlp`, `HexPrefix`, `Trie*`, `HeadsTree`, `DomainHeads`, `CollectionRoots`, `CollectionTree` | roots bind their contents; reads, walks and proofs are sound on every store, and complete exactly when stated; the sparse and the level-by-level trees equal the naive ones |
| canonical encodings | `Layout`, `Canonical`, `Cursor`, `BlockBody`, `CheckpointCodec` | exact both ways |
| vote safety | `Quorum`, `SafetyStore` | weighted quorums overlap; certificates agree in every crash history |
| storage | `Storage`, `StorageHistory`, `Database` | garbage collection and the flat cache agree with the retained history in every run |
| pool and scheduler | `Sorting`, `Mempool`, `MempoolQueues`, `Scheduler`, `Proposer`, `Booking`, `PoolLimit` | limits, gap-free nonces, fairness; no entry is lost |
| block machine and registry | `Chain`, `ChainAgreement`, `BlockMachine`, `DomainTree`, `Registry`, `Deposits`, `RegistrySync`, `Executor` | proposer and validator agree; domains form a tree; registry and projection agree; deposits are conserved |
| durable engine | `Alike`, `Recovery`, `Reload`, `CommitEffects`, `Engine*`, `CheckpointComplete` | every crash and restart comes back to the last durable commit, under any retention; the whole engine keeps columns, pool and proposal in agreement |
| snapshot and sync | `Snapshot`, `Staging`, `SnapshotTransfer`, `Sync` | chunking is lossless, staging converges in any order, a received snapshot is durable, the head only moves along the verified chain |

Objects the program updates in place are classes (`Walker`, `DomainHeadsCommitment`, `Encoder`, `Decoder`,
`DurableSafetyStore`, `Database`, `Queues`, `SingleValidatorEngine`, `SnapshotStaging`), and loops are methods with
invariants; both are proved against functions on values, and the theorems are about those functions.

## Hypotheses

Each theorem names the ones it needs.

- `CollisionFree(k, S)`: Keccak is a parameter, and it maps no two members of the finite set `S` to one hash. `S` is
  always spelled out: the preimages in play.
- `Alike.Respects`, `EngineRecovery.LoadsUsable`, `EngineRecovery.CommittedRespects`, together
  `EngineRecovery.Sound`: executing a batch, and asking whether the registry commits to a descriptor, read a state
  only through its root and leaves, on a class of usable states that holds the genesis and every loaded state. This
  ranges over all stores, so it idealizes Keccak: code bodies that load under one hash count as one.
- `Executor.TxFaithful`, `CodecsAgree`, `HashesNonZero`, `Runs`: a transaction of the root, run with the runtime the
  batch loop makes for it, changes the registry account only by registry steps and credits, a prepared creation
  standing exactly when its transaction succeeds; an encoded account is read back; no prepared creation hashes to zero,
  which idealizes Keccak too; the machine runs batches by `Executor.RunBatch`. From these
  `Executor.ExecutorIsFaithful` derives `RegistrySync.Faithful`, which the registry agreement is stated on, and
  `Executor.HypothesesHold` gives a machine that meets them all.
- `SafetyStore.Conforms`, `Honest`: a signature that verifies under the key of a conforming validator is a vote its
  store released.
- `EngineRuns.GoodImport`: a checkpoint handed to the engine can be rebuilt from what it carries.
  `SnapshotTransfer.ReceivedIsGood` proves it of every received snapshot that meets `SnapshotTransfer.Transferable`: the
  audited, usable chain state it was taken from is `SnapshotTransfer.Offered`, names all its code, and its tries do
  not collide. `CheckpointComplete.ImportReopens` says exactly when a checkpoint comes back, under
  `CheckpointComplete.Stands`: what is stored, what is carried and the storage tries do not collide.
- `Reload.Apart`: one collision-free set holds a store and every trie that can be read from it; what a pruned database
  still needs is stated under it. `EngineRetention.Tidy`: every root has its manifest, which every commit and prune keeps.
- `Booking.HashesTellApart`: transaction hashes tell the transactions held in the pool apart while a proposal is built.

## Findings

Properties one would expect and the code does not have, each with a failing input and its exact condition.

- Reads and walks of a committed state can fail. Two keys that share 63 nibbles give a leaf with an empty path, which
  the decoder refuses (`TrieWalker.LastNibbleRefused`), and equal hashed subtrees are taken for a cycle
  (`TrieWalker.EqualSubtreesRefused`). Reads fail for exactly such keys (`TrieLookup.ReadIsComplete`), walks for
  exactly such states (`TrieWalk.CollectIsExact`).
- Not every encodable block decodes: the encoder lets more than 256 batches through
  (`BlockBody.LargeBlockUndecodable`), and exactly those the decoder refuses (`BlockBody.BlockExact`).
- The pool limit is not an invariant: restoring reserved entries checks no capacity (`PoolLimit.LimitExceeded`). An
  abandon stays within the limit exactly when the returning keys fit (`Booking.AbandonWithinLimit`), and the limit
  plus 10,000 holds in every run (`Booking.RunBalanced`).
- An accepted checkpoint may not reopen: the commit checks account tries but not storage tries or code
  (`CheckpointComplete.MissingCodeIsLost`). It reopens exactly when every storage node and code body is carried or
  already stored (`CheckpointComplete.ImportReopens`).
- Under full retention the state of an imported checkpoint can be pruned, and then the database does not open: one
  block of a domain that was idle for the window is enough (`EngineRetention.WindowLosesCheckpoint`). Pruning a root, or a
  whole pass, keeps a database openable exactly when no hash its checkpoint asks for loses its last manifest
  (`EngineRetention.PruneReopens`, `EngineRetention.RetainReopens`), and always when the chain started at genesis
  (`EngineRetention.KeptRunDurable`).
- An offered snapshot may not be importable: unreferenced code, which execution never drops, is refused
  (`SnapshotTransfer.UnreferencedCodeRefused`). It is imported exactly when all code is referenced and the chunks fit
  512 MiB (`SnapshotTransfer.SnapshotTransfers`).
- Full retention is a height window, not a number of roots: a checkpoint with a domain last touched before the window
  commits and reports a pruning error (`EngineRetention.IdleDomainStopsPruning`), as does exactly every commit of a state
  older than the window (`Database.FinishedKeeps`); blocks never do (`EngineRetention.BlockPruningFinishes`).
- The scheduler has no cap on domains, and a block carries at most 256: while the selection spans more, every build
  fails and no block is ever proposed (`EngineLife.CrowdedStalls`); what is built never spans more
  (`EngineLife.BuildCounts`).
- Header heights saturate at the 64-bit maximum (`Sync.SaturatedHeights`); below it they are consecutive
  (`Sync.AcceptedChain`).
- The chunk packer reserves 63 bytes for a chunk header of 61, so it refuses records whose chunk would fit: exactly those
  that leave zero or one byte free (`Snapshot.TightRecordRefused`). Packing succeeds exactly when every record fits the
  reserved size and at most 65,536 chunks are needed (`Snapshot.PackDecides`).

## Model

| member | source | states |
|---|---|---|
| HexPrefix.DecodeCompact | crates/arbor-state/src/mpt.rs:423-462 | every nibble path and leaf flag survives compact encoding |
| HexPrefix.EncodeCompact | crates/arbor-state/src/mpt.rs:441-462 | the compact decoder accepts exactly the images of the encoder, and re-encoding gives the accepted bytes back |
| HexPrefix.CompactEncodeLoop | crates/arbor-state/src/mpt.rs:423-439 | the two-nibbles-a-round loop computes the specified compact encoding |
| HexPrefix.CompactDecodeLoop | crates/arbor-state/src/mpt.rs:441-462 | the pushing loop computes the specified decoding, with the same refusals |
| HexPrefix.UnpackKeepsOrder | crates/arbor-state/src/mpt.rs:464-471 | byte order of keys is nibble order of their paths, so a key-sorted range is path-sorted |
| Rlp.DecodeEncodedBytes | crates/arbor-state/src/mpt.rs:512-548 | an encoded byte string decodes to itself whatever bytes follow it |
| Rlp.DecodeEncodedPayload | crates/arbor-state/src/mpt.rs:405-421 | an encoded list frame decodes to its own payload whatever bytes follow it |
| Rlp.AccumulateLength | crates/arbor-state/src/mpt.rs:550-565 | the shift-and-add loop over at most eight length bytes yields their big-endian value and cannot overflow 64 bits |
| Rlp.DecodeListLoop | crates/arbor-state/src/mpt.rs:497-510 | the loop over the remaining payload returns the specified item list or its first error |
| TrieNode.DecodeEncodedNode | crates/arbor-state/src/mpt.rs:587-642 | decoding an encoded leaf, extension or branch gives back its one-level view; the strict decoder refuses exactly the leaves with an empty path |
| TrieBinding.EncodeInjective | crates/arbor-state/src/mpt.rs:333-421 | two trees with one encoding are the same tree, through inline and hashed children, unless two of their preimages collide |
| TrieBinding.CanonicalUnique | crates/arbor-state/src/mpt.rs:333-380 | a mapping has only one canonical tree: leaf, extension and branch choices are forced |
| TrieBuild.CommonPrefixShared | crates/arbor-state/src/mpt.rs:382-390 | comparing only the first and last key of a sorted range finds the prefix of every key, and the two part right after it |
| TrieBuild.ShapeIsCanonical | crates/arbor-state/src/mpt.rs:333-380 | the tree built for any sorted range is well formed and canonical |
| TrieBuild.ShapeHolds | crates/arbor-state/src/mpt.rs:333-380 | the built tree answers every key, present or absent, exactly as the sorted leaves do |
| TrieCommit.BuildNode | crates/arbor-state/src/mpt.rs:333-380 | on every range it is called with, the recursive builder returns the encoding and hash of that tree and adds exactly its nodes to the shared map; empty ranges and depths past 64 are refused with the map untouched |
| TrieCommit.BuildExtension | crates/arbor-state/src/mpt.rs:351-358 | the extension arm encodes the extension over the recursively built child and stores the child |
| TrieCommit.BuildBranch | crates/arbor-state/src/mpt.rs:359-375 | the branch arm encodes sixteen slots and stores every child in nibble order |
| TrieCommit.Build | crates/arbor-state/src/mpt.rs:211-234 | building succeeds exactly up to 2^32-1 leaves and returns the root, the leaves and exactly the nodes of their tree |
| TrieCommit.RootBindsLeaves | crates/arbor-state/src/mpt.rs:211-234 | leaf maps with equal roots are equal, unless two of the preimages hashed for them collide |
| TrieCommit.RootIsCanonical | crates/arbor-state/src/mpt.rs:211-234 | any canonical tree with the same contents has the same root |
| TrieCommit.StoreHolds | crates/arbor-state/src/mpt.rs:377-379 | storing a subtree adds exactly its encodings under their hashes and loses nothing stored before |
| TrieCommit.SnapshotHolds | crates/arbor-state/src/mpt.rs:211-234 | a built snapshot carries exactly the encodings its root was computed from |
| TrieLookup.Proof | crates/arbor-state/src/mpt.rs:241-287 | on every store, built or not, the single-key loop gives the answer of the recursive walk, visits at most 65 nodes and starts at the root |
| TrieLookup.ReadIsSound | crates/arbor-state/src/mpt.rs:241-287 | on every store a completed read against the root of a leaf map returns what the map holds for that key, present or absent |
| TrieLookup.ReadIsComplete | crates/arbor-state/src/mpt.rs:241-287 | with all nodes stored a read fails for exactly the keys that share their first 63 nibbles with another, always with the empty-path refusal, and otherwise returns the map value |
| TrieLookup.EmptyLeafIffTwin | crates/arbor-state/src/mpt.rs:341-349 | the builder puts an empty leaf path on the way to a key exactly when that key has such a twin |
| TrieWalk.WalkBuilt | crates/arbor-state/src/mpt.rs:662-722 | walking any built subtree succeeds exactly when no leaf path is empty and no hash repeats, and then adds exactly its leaves |
| TrieWalk.CollectIsSound | crates/arbor-state/src/mpt.rs:294-312 | on every store a completed full walk of a root returns the leaf map of that root |
| TrieWalk.CollectIsExact | crates/arbor-state/src/mpt.rs:294-312 | on every store, complete or not, whose bytes and the preimages of a leaf map do not collide, the full walk of its root returns the leaves if and only if no two keys share 63 nibbles, no node hash is met twice and every hash on the way is stored; with every hash stored a refusal is the empty path or the cycle, and names the condition that failed |
| TrieWalk.HeldLoads | crates/arbor-state/src/mpt.rs:705-722 | a store that holds the preimages of a leaf map has every hash the walk asks for |
| TrieWalker.Walker.constructor | crates/arbor-state/src/mpt.rs:294-312 | the walker starts with an empty path and only the root visited |
| TrieWalker.Walker.WalkEncoded | crates/arbor-state/src/mpt.rs:662-703 | pushing, walking and truncating one buffer follows the recursive walk, and on success the buffer is back where it was |
| TrieWalker.Walker.WalkSlots | crates/arbor-state/src/mpt.rs:689-700 | one push and pop per child follows the recursive walk over sixteen slots |
| TrieWalker.Walker.WalkReferenced | crates/arbor-state/src/mpt.rs:705-722 | following an inline or hashed child, with its visited check, follows the recursive walk |
| TrieWalker.Collect | crates/arbor-state/src/mpt.rs:294-312 | the mutable walk computes the specified leaf collection on every store |
| TrieWalker.EqualSubtreesRefused | crates/arbor-state/src/mpt.rs:714-717 | two keys that differ in their first nibble only and hold one value are refused as a cycle by the walk of their own complete node set |
| TrieWalker.LastNibbleRefused | crates/arbor-state/src/mpt.rs:587-642 | two keys that differ in their last nibble only can be committed, but each read of them and the full walk of their complete node set fail with the empty path |
| DomainHeads.SubtreeIsFullTree | crates/arbor-state/src/domain_heads.rs:183-196 | the recursion that skips empty ranges computes the hash of the literal 256-level tree under every prefix |
| DomainHeads.EmptyHashes | crates/arbor-state/src/domain_heads.rs:171-181 | the bottom-up table holds the empty-subtree hash of every depth |
| DomainHeads.KeyBitOrder | crates/arbor-state/src/domain_heads.rs:198-200 | after a shared bit prefix byte order of keys is order of their next bit, so a sorted range splits at one point |
| DomainHeads.BitIsShift | crates/arbor-state/src/domain_heads.rs:198-200 | shifting and masking a key byte yields the bit of the path at every depth below 256 |
| DomainHeads.Verify | crates/arbor-state/src/domain_heads.rs:42-63 | the folding loop accepts exactly the proofs whose 256 siblings climb to the root, and reports depth errors exactly for other lengths |
| DomainHeads.ProofBinds | crates/arbor-state/src/domain_heads.rs:42-63 | a proof that verifies against the root of a table carries exactly the head of its domain, or its absence, unless two preimages on that path collide |
| DomainHeads.DomainHeadsCommitment.constructor | crates/arbor-state/src/domain_heads.rs:75-77 | a new commitment holds no head |
| DomainHeads.DomainHeadsCommitment.Insert | crates/arbor-state/src/domain_heads.rs:80-83 | inserting replaces the head under the hashed key and no other |
| DomainHeads.DomainHeadsCommitment.Remove | crates/arbor-state/src/domain_heads.rs:86-90 | removing returns the previous head and drops that key only |
| DomainHeads.DomainHeadsCommitment.Root | crates/arbor-state/src/domain_heads.rs:94-96 | the root is that of the full tree over the current heads |
| DomainHeads.DomainHeadsCommitment.Proof | crates/arbor-state/src/domain_heads.rs:100-124 | the produced membership or absence proof carries the current head and verifies against the current root |
| DomainHeads.DomainHeadsCommitment.Siblings | crates/arbor-state/src/domain_heads.rs:104-116 | the range-narrowing loop collects the full tree hash of every sibling on the path |
| CollectionTree.ComputeRoot | crates/arbor-chain/src/lib.rs:1333-1357 | the level-by-level loop with per-depth padding computes the root of the padded binary tree |
| CollectionTree.DepthFits | crates/arbor-chain/src/lib.rs:1333-1357 | no tree over a 32-bit count is taller than 32 levels, so the 16-bit depth of the loops never saturates |
| CollectionTree.ClimbBinds | crates/arbor-chain/src/lib.rs:770-801 | if siblings of the right number climb from a hash at some position to the root of a level, the level holds that hash at that position, unless preimages of the tree or of the climb collide |
| CollectionTree.Prove | crates/arbor-chain/src/lib.rs:700-733 | the loop that collects siblings while folding the level returns the tree siblings of a position |
| CollectionTree.ProveDomain | crates/arbor-chain/src/lib.rs:685-746 | the proof of a domain is that of its first result, with position, count and tree siblings; a block without it gives none |
| CollectionTree.Verify | crates/arbor-chain/src/lib.rs:770-801 | the verifier accepts exactly the proofs of the right height that climb to the root, and otherwise names the first of position, depth, encoding and root that is wrong |
| CollectionTree.ProofVerifies | crates/arbor-chain/src/lib.rs:685-801 | the proof produced for every position of a committed result list verifies |
| CollectionTree.ProofBinds | crates/arbor-chain/src/lib.rs:770-801 | any proof accepted against the root of a result list has the true count and the true header at its index, odd widths included, unless preimages collide |
| Canonical.ConsensusHeaderExact | crates/arbor-codec/src/canonical.rs:208-246 | consensus headers decode to themselves and accepted bytes re-encode to themselves |
| Canonical.ConsensusHeaderEncodes | crates/arbor-codec/src/canonical.rs:208-222 | encoding a consensus header cannot fail |
| Canonical.DomainHeaderExact | crates/arbor-codec/src/canonical.rs:253-293 | domain headers are exact both ways |
| Canonical.DomainHeaderEncodes | crates/arbor-codec/src/canonical.rs:253-268 | encoding a domain header cannot fail |
| Canonical.DomainBatchExact | crates/arbor-codec/src/canonical.rs:300-346 | domain batches within their limits are exact both ways |
| Canonical.ValidatorSetExact | crates/arbor-codec/src/canonical.rs:502-557 | validator sets are exact both ways, unsorted ones refused on both sides |
| Canonical.VoteExact | crates/arbor-codec/src/canonical.rs:564-603 | votes are exact both ways |
| Canonical.CertificateExact | crates/arbor-codec/src/canonical.rs:610-682 | quorum certificates are exact both ways |
| BlockBody.BlockExact | crates/arbor-chain/src/lib.rs:1460-1545 | block bodies are exact both ways; the encoder alone lets more than 256 batches through and exactly those the decoder refuses |
| BlockBody.LargeBlockUndecodable | crates/arbor-chain/src/lib.rs:1460-1545 | every block of 257 to 1,000 empty batches encodes, and its encoding is refused by the decoder for its number of batches |
| Cursor.Encoder.Prefixed | crates/arbor-codec/src/canonical.rs:66-69 | a length-prefixed field is appended after what is already written |
| Cursor.Decoder.Next | crates/arbor-codec/src/canonical.rs:104-115 | a bounded read returns the next bytes and advances past them, or fails and stays put |
| Cursor.EncodeBatch | crates/arbor-codec/src/canonical.rs:300-319 | the growing encoder, checking each envelope as it appends it, computes the specified batch bytes or the same error |
| Cursor.DecodeBatch | crates/arbor-codec/src/canonical.rs:326-346 | the counted loop over the moving cursor computes the specified decoding |
| CheckpointCodec.U256Exact | crates/arbor-codec/src/canonical.rs:62-64 | 256-bit integers are exact both ways at 32 bytes |
| CheckpointCodec.DescriptorDecodes | crates/arbor-codec/src/canonical.rs:353-426 | an encodable descriptor with valid names comes back unchanged and is never empty |
| CheckpointCodec.CheckpointDecodes | crates/arbor-consensus/src/checkpoint.rs:178-314 | every checkpoint that can be stored is read back exactly, whatever its number of domains |
| Quorum.ValidateSet | crates/arbor-crypto/src/lib.rs:113-129 | the loop reports the first invalid validator, a zero total, or success |
| Quorum.MemberFound | crates/arbor-crypto/src/lib.rs:263-302 | on a sorted validator list the binary search finds every member at its own position |
| Quorum.QuorumAccepted | crates/arbor-crypto/src/lib.rs:263-302 | a certificate whose signatures are those of members of a sorted, valid set, in canonical order and verified, holding more than two thirds of the power is accepted |
| Quorum.Verify | crates/arbor-crypto/src/lib.rs:263-302 | the accumulation loop accepts and refuses exactly as specified, with the same first error |
| Quorum.AcceptedPower | crates/arbor-crypto/src/lib.rs:263-302 | an accepted certificate names distinct signers with more than two thirds of the total power |
| Quorum.QuorumsOverlap | crates/arbor-crypto/src/lib.rs:263-302 | any two accepted certificates over one list share signers holding more than a third of the total power |
| Quorum.SignerVoted | crates/arbor-crypto/src/lib.rs:237-302 | every signer counted by an accepted certificate carries a verified signature on exactly that vote |
| Quorum.NeverOverflows | crates/arbor-crypto/src/lib.rs:263-302 | over a set of codec-bounded length the verification never reports a power overflow: neither twice the total nor three times the signed power exceeds 128 bits |
| SafetyStore.RecordExact | spikes/consensus/src/main.rs:79-104 | vote records are exact both ways and exactly the 49-byte files are read |
| SafetyStore.DurableSafetyStore.constructor | spikes/consensus/src/main.rs:25-41 | a store over no file has voted nothing |
| SafetyStore.DurableSafetyStore.Open | spikes/consensus/src/main.rs:31-41 | reopening reads the last durable vote or fails without changing anything |
| SafetyStore.DurableSafetyStore.PersistBeforeVote | spikes/consensus/src/main.rs:43-69 | whatever fault strikes, memory, file and released votes end as the specified step says, and nothing is released before it is durable |
| SafetyStore.StepSafe | spikes/consensus/src/main.rs:31-69 | every vote, fault, restart or power loss keeps the store readable and never releases two blocks for one slot |
| SafetyStore.RunSafe | spikes/consensus/src/main.rs:162-185 | over every history the store reopens and no two released votes conflict |
| SafetyStore.CertificatesAgree | spikes/consensus/src/main.rs:120-160 | with at most a third of the power outside the store rule, accepted certificates for one height, round and phase name one block, in every crash history of any weighted validator set |
| Storage.CollectStable | crates/arbor-storage/src/lib.rs:369-441 | a root that walks on some nodes walks to the same leaves on any more nodes |
| StorageHistory.FlatReplaced | crates/arbor-storage/src/lib.rs:399-418 | deleting what the old manifest lists and the new state lacks leaves exactly the new entries |
| StorageHistory.CommitKeeps | crates/arbor-storage/src/lib.rs:295-441 | a commit adds exactly its snapshots to the retained history, makes the flat cache of each committed domain exact, loses no node and touches no other domain |
| StorageHistory.PruneKeeps | crates/arbor-storage/src/lib.rs:690-714 | pruning forgets one snapshot and keeps every node any other retained manifest of any domain lists |
| StorageHistory.PruneDecides | crates/arbor-storage/src/lib.rs:690-714 | pruning is refused for exactly the current head and unknown roots |
| StorageHistory.PruneHeightsDecides | crates/arbor-storage/src/lib.rs:761-800 | a domain pass stops exactly when it meets its current head below the cutoff, and otherwise leaves nothing below it |
| StorageHistory.PruneDomainsKeeps | crates/arbor-storage/src/lib.rs:761-780 | retention forgets only roots of committed domains below the cutoff, and stops early exactly when one of them has its head there |
| Database.RetainedRootsWalk | crates/arbor-storage/src/lib.rs:690-759 | every retained root of every domain walks to exactly the leaves committed under it, with all its listed nodes stored |
| Database.HeadsWalk | crates/arbor-storage/src/lib.rs:724-740 | each head keeps its root, manifest and nodes, and its walk gives the flat entries |
| Database.FlatSurvives | crates/arbor-storage/src/lib.rs:761-780 | retention does not disturb the flat cache of any domain |
| Database.FinishedKeeps | crates/arbor-storage/src/lib.rs:295-367 | a whole commit under any policy loses only roots of committed domains outside the height window, and reports an error exactly when one of the committed states is itself older than the window |
| Database.StepConsistent | crates/arbor-storage/src/lib.rs:295-555 | every commit, prune, clear and rebuild keeps columns and history in agreement; rebuilding a head makes its flat entries exact |
| Database.RunConsistent | crates/arbor-storage/src/lib.rs:295-780 | in every run of commits, prunes, clears and rebuilds under any retention policy the columns agree with the retained history |
| Database.Open | crates/arbor-storage/src/lib.rs:256-269 | opening gives back the stored columns with their history, and is refused exactly for a zero history window or for metadata that does not belong to the identity, with the error named and the metadata unchanged |
| Database.OpenedBelongs | crates/arbor-storage/src/lib.rs:826-871 | a database opens exactly when it is blank or carries this identity; once opened it opens again for the same identity and for no other |
| Database.Database.Over | crates/arbor-storage/src/lib.rs:256-269 | a database over consistent columns starts consistent |
| Database.Database.constructor | crates/arbor-storage/src/lib.rs:256-269 | a new database is empty and consistent |
| Database.Database.AppendStateChanges | crates/arbor-storage/src/lib.rs:369-441 | one domain is merged into the pending columns exactly as specified |
| Database.Database.MergeNodes | crates/arbor-storage/src/lib.rs:385-398 | only hashes absent from the database and not pending are written, and a hash stored with other bytes is refused |
| Database.Database.ReplaceFlat | crates/arbor-storage/src/lib.rs:399-418 | stale keys go and new entries are written in one pass |
| Database.Database.Commit | crates/arbor-storage/src/lib.rs:295-367 | all or nothing: an error leaves columns and history as they were, success gives the committed and retained columns |
| Database.Database.ApplyRetention | crates/arbor-storage/src/lib.rs:761-780 | the pruning loops leave the columns, count and error of the specified pass |
| Database.Database.PruneBelow | crates/arbor-storage/src/lib.rs:769-777 | one domain is pruned in ascending height until the cutoff or an error |
| Database.Database.PruneRoot | crates/arbor-storage/src/lib.rs:690-714 | exactly the nodes no remaining manifest lists are deleted, and their number is returned |
| Database.Database.LiveNodeHashes | crates/arbor-storage/src/lib.rs:742-759 | the scan returns every hash listed by any other manifest of any domain |
| Database.Database.ClearFlatState | crates/arbor-storage/src/lib.rs:528-535 | clearing empties one domain only and counts what it removed |
| Database.Database.RebuildFlatState | crates/arbor-storage/src/lib.rs:542-555 | rebuilding from the head root cannot fail and restores exactly the leaves of the head |
| Mempool.RegisterKeeps | crates/arbor-mempool/src/lib.rs:147-168 | registration succeeds exactly for a non-zero pair new to both sides or already known, and keeps chain IDs unique |
| Mempool.ReplacementMinExact | crates/arbor-mempool/src/lib.rs:386-397 | the split division is the exact rounded-up percentage bump, saturated at 128 bits |
| Mempool.AdmitKeeps | crates/arbor-mempool/src/lib.rs:175-256 | admission changes at most the entry under its own key, adds one only below capacity, displaces one only for a sufficiently dearer one, and an error changes nothing |
| Mempool.ReadyIsRun | crates/arbor-mempool/src/lib.rs:260-271 | the ready run starts at the state nonce, has no gap and stops only where the queue does |
| Mempool.ContiguousIsReady | crates/arbor-mempool/src/lib.rs:356-364 | an entry is reported pending exactly when the proposer would be offered it |
| Mempool.CountIsHeld | crates/arbor-mempool/src/lib.rs:366-373 | per-sender counts are the number of held entries, with no count for a sender without one |
| Mempool.HashesDistinct | crates/arbor-mempool/src/lib.rs:289-304 | hashes that tell transactions apart tell held entries apart |
| Mempool.ReserveIsSelection | crates/arbor-mempool/src/lib.rs:289-304 | reserving the hashes of an ordered selection of held entries returns exactly that selection |
| Mempool.ReserveKeeps | crates/arbor-mempool/src/lib.rs:289-304 | reserving keeps the pool valid and splits its entries without loss |
| Mempool.RestoreKeeps | crates/arbor-mempool/src/lib.rs:311-323 | restoring brings back every entry whose key is free and domain known, overwrites nothing and adds nothing else |
| Mempool.RestoreAdds | crates/arbor-mempool/src/lib.rs:311-323 | restoring grows the pool by exactly the number of distinct keys of the list that are free and whose domain is known |
| MempoolQueues.Queues.constructor | crates/arbor-mempool/src/lib.rs:128-139 | the envelope limit is capped at the protocol maximum and the pool starts empty |
| MempoolQueues.Queues.RegisterDomain | crates/arbor-mempool/src/lib.rs:147-168 | the maps updated in place give the specified registration and stay valid |
| MempoolQueues.Queues.Insert | crates/arbor-mempool/src/lib.rs:175-256 | the entry map and sender counts updated in place give the specified admission and stay valid |
| MempoolQueues.Queues.NonceIsContiguous | crates/arbor-mempool/src/lib.rs:356-364 | the nonce loop decides whether every nonce up to the target is held |
| MempoolQueues.Queues.ReadyRun | crates/arbor-mempool/src/lib.rs:260-271 | the loop returns the specified gap-free run |
| MempoolQueues.Queues.Senders | crates/arbor-mempool/src/lib.rs:275-282 | exactly the senders holding an entry of the domain, in address order |
| MempoolQueues.Queues.ReserveHashes | crates/arbor-mempool/src/lib.rs:289-304 | removing matches one by one and sorting them gives the specified reservation and stays valid |
| MempoolQueues.Queues.RestoreReserved | crates/arbor-mempool/src/lib.rs:311-323 | the loop restores as specified and stays valid |
| MempoolQueues.Queues.AdvanceNonce | crates/arbor-mempool/src/lib.rs:326-342 | exactly the entries of one sender below the nonce go, and their number is returned |
| MempoolQueues.Queues.DecrementSender | crates/arbor-mempool/src/lib.rs:366-373 | a count falls by the number removed and disappears at zero |
| Scheduler.FillWithin | crates/arbor-consensus/src/lib.rs:745-767 | one turn never exceeds its domain gas limit, the block gas or the transaction caps, nor its fair share once it has taken an entry |
| Scheduler.SelectionLimits | crates/arbor-consensus/src/lib.rs:714-771 | every selection respects each domain limit, 120M block gas, 1,024 per domain and 10,000 in all |
| Scheduler.FirstServed | crates/arbor-consensus/src/lib.rs:714-771 | the domain whose turn is first is served whenever its first entry fits its own limit |
| Scheduler.FirstSelected | crates/arbor-consensus/src/lib.rs:714-771 | the first ready entry of the domain whose turn is first is in the selection whenever it fits the gas limit of the domain |
| Scheduler.CursorWraps | crates/arbor-consensus/src/lib.rs:703-704 | after each commit the cursor moves on by one and wraps around the domains |
| Scheduler.EveryDomainServed | crates/arbor-consensus/src/lib.rs:703-771 | over any sequence of pools and nonces, one per commit, with the same ready domains, each domain whose first entry fits has that entry selected at the commit number computed from the cursor, which is below the number of domains |
| Scheduler.PrefixClosed | crates/arbor-consensus/src/lib.rs:714-771 | with a selected entry every lower ready nonce of its sender is selected |
| Scheduler.SelectionSound | crates/arbor-consensus/src/lib.rs:714-771 | the selection is an ordered list of at most 10,000 held, ready entries with a gap-free nonce run from the finalized nonce for each sender |
| Scheduler.SelectionWithin | crates/arbor-consensus/src/lib.rs:714-771 | the selection spends at most 120M gas, and its entries of each domain spend at most the domain limit, number at most 1,024, and stay within the fair share except for the entry that crosses it |
| Scheduler.SelectedOfDomain | crates/arbor-consensus/src/lib.rs:714-771 | the selected entries of a domain are exactly what its own turn took |
| Proposer.GatherDomain | crates/arbor-consensus/src/lib.rs:716-731 | the loop over senders gathers one domain's ready entries in selection order |
| Proposer.GatherReady | crates/arbor-consensus/src/lib.rs:715-735 | the loop over domains keeps exactly those with ready entries |
| Proposer.TakeTurn | crates/arbor-consensus/src/lib.rs:745-767 | the bounded loop takes the specified prefix of one domain's entries |
| Proposer.TakeTurns | crates/arbor-consensus/src/lib.rs:742-768 | the rotating loop with its running gas and count takes the specified turns |
| Proposer.SelectTransactions | crates/arbor-consensus/src/lib.rs:714-771 | the whole nested selection computes the specified one |
| Booking.BuildReserves | crates/arbor-consensus/src/lib.rs:482-532 | a build reserves exactly its selection, bounded by 10,000, and leaves the rest of the pool alone |
| Booking.FailedBuildRestores | crates/arbor-consensus/src/lib.rs:513-524 | a build that fails leaves the pool exactly as it found it |
| Booking.StepBalanced | crates/arbor-consensus/src/lib.rs:482-580 | every submission, registration, build, abandon and commit keeps counts exact and the held plus reserved entries within the limit plus 10,000 |
| Booking.RunBalanced | crates/arbor-consensus/src/lib.rs:482-580 | in every run sender counts equal held entries, chain IDs are unique and held plus reserved entries never exceed the limit plus 10,000 |
| Booking.WaitingKeeps | crates/arbor-consensus/src/lib.rs:456-473 | while a proposal waits the pool changes only by newcomers |
| Booking.AbandonLosesNothing | crates/arbor-consensus/src/lib.rs:548-557 | a proposal built, left waiting through any submissions and abandoned gives every entry back, except to a same-nonce newcomer |
| Booking.AbandonWithinLimit | crates/arbor-consensus/src/lib.rs:548-557 | an abandon leaves the pool within its limit if and only if the held entries and the distinct free keys that return fit it together |
| EngineLife.BuildCounts | crates/arbor-chain/src/lib.rs:1028-1050 | a grouping over more than 256 domains is never built, and is refused for its number of batches once the timestamp is right; whatever is built has at most 256 |
| EngineLife.CrowdedBuildFails | crates/arbor-consensus/src/lib.rs:482-532 | when the selection spans more than 256 domains a build fails at every timestamp and leaves the engine as it was |
| EngineLife.CrowdedStalls | crates/arbor-consensus/src/lib.rs:482-532 | so however often the engine tries it never has a proposal to commit |
| PoolLimit.LimitExceeded | crates/arbor-mempool/src/lib.rs:311-323 | with a limit of one a run that submits, builds, submits from another sender and abandons ends with two held entries |
| PoolLimit.SelectsOnly | crates/arbor-consensus/src/lib.rs:714-771 | the selection from a pool of one ready entry that fits is that entry |
| ChainAgreement.BuiltValidates | crates/arbor-chain/src/lib.rs:979-1026 | every built block validates against the same parent to the same block, state and executions |
| ChainAgreement.ExecutedValidates | crates/arbor-chain/src/lib.rs:996-1136 | what execution seals from ordered batches validates to the same proposal |
| ChainAgreement.ValidatedIsRebuilt | crates/arbor-chain/src/lib.rs:996-1026 | every validated block is the block rebuilt from its own batches, timestamp and proposer |
| ChainAgreement.BatchOrderIrrelevant | crates/arbor-chain/src/lib.rs:979-989 | the order batches are handed over in does not matter, and repeated domains are refused in every order |
| ChainAgreement.CandidateDecides | crates/arbor-chain/src/lib.rs:1237-1289 | the field-by-field comparison finds no difference only between equal blocks |
| ChainAgreement.BlockMoves | crates/arbor-chain/src/lib.rs:1028-1194 | a block leaves domains without a batch exactly as they were, advances each batched domain by one number on its finalized block, and starts created domains fresh |
| BlockMachine.InsertCreatedDomains | crates/arbor-chain/src/lib.rs:1091-1093 | the insertion loop stops at the first refused creation, as specified |
| BlockMachine.ExecuteBatches | crates/arbor-chain/src/lib.rs:1048-1096 | the batch loop with its running gas totals and growing state computes the specified progress or first error |
| BlockMachine.ExecuteProposal | crates/arbor-chain/src/lib.rs:1028-1136 | execution and sealing compute the specified proposal |
| BlockMachine.BuildProposal | crates/arbor-chain/src/lib.rs:979-989 | sorting and executing compute the specified build |
| BlockMachine.ValidateProposal | crates/arbor-chain/src/lib.rs:996-1026 | re-execution and comparison compute the specified validation |
| DomainTree.FindGenealogy | crates/arbor-chain/src/lib.rs:279-299 | the loop with its list and seen set computes the path to the root or the same error |
| DomainTree.GenealogySucceeds | crates/arbor-chain/src/lib.rs:279-299 | in a tree the genealogy of every domain is found: the repeat-free parent path from the root |
| DomainTree.InsertKeepsTree | crates/arbor-chain/src/lib.rs:447-516 | an accepted creation keeps the domains a tree with distinct chain IDs |
| DomainTree.BlockKeepsTree | crates/arbor-chain/src/lib.rs:996-1136 | every committed block keeps the tree |
| DomainTree.ReachableIsTree | crates/arbor-chain/src/lib.rs:189-236 | in every state committed blocks reach from genesis chain IDs are distinct, every other domain has a descriptor with a present parent, and parents form a tree |
| EngineRecovery.CheckpointIsTree | crates/arbor-chain/src/lib.rs:398-445 | a checkpoint that passes the import audit is such a tree |
| EngineRecovery.ImportedStaysTree | crates/arbor-chain/src/lib.rs:398-623 | an imported checkpoint extended by any committed blocks is always a tree |
| Deposits.PayoutCovered | crates/arbor-evm/src/execute.rs:492-501 | no outstanding deposit exceeds the registry balance, so the payout transfer cannot fall short |
| Deposits.CreateSolvent | crates/arbor-evm/src/execute.rs:329-425 | an accepted creation locks exactly its deposit and keeps the books solvent |
| Deposits.SettleSolvent | crates/arbor-evm/src/execute.rs:427-533 | a refund or burn pays one locked deposit once, to the owner who calls from the unlock height on or to nobody on the call of governance, and keeps the books solvent |
| Deposits.StepSolvent | crates/arbor-evm/src/execute.rs:302-533 | every call, credit and nested frame that commits or reverts keeps the books solvent |
| Deposits.DepositsConserved | crates/arbor-evm/src/execute.rs:329-533 | over every run of creations, refunds, burns and credits with any nesting of reverts, outstanding deposits never exceed the balance, are outstanding exactly while locked, are paid out at most once and in full, refunded only to the owner who asked in time and burned only by governance |
| RegistrySync.CreationInserted | crates/arbor-chain/src/lib.rs:447-516 | a creation derived from an accepted registry call passes every check of the projection and leaves both naming the same domains |
| RegistrySync.CreationsInserted | crates/arbor-chain/src/lib.rs:1091-1093 | so does every sequence of creations accepted in one batch |
| RegistrySync.RootBatchSynced | crates/arbor-executor/src/lib.rs:338-381 | whatever the registry accepted in the root batch is inserted, and storage and projection stay in step |
| RegistrySync.ExecuteSynced | crates/arbor-chain/src/lib.rs:1048-1096 | batches executed in order keep them in step, and whatever stops a block is never a refused creation |
| RegistrySync.BlockSynced | crates/arbor-chain/src/lib.rs:1028-1136 | the same for a whole executed and sealed block |
| RegistrySync.CreationsNeverRefused | crates/arbor-chain/src/lib.rs:447-516 | in every synced state a validation can fail for many reasons but never because an accepted creation was refused |
| RegistrySync.GenesisSynced | crates/arbor-system/src/lib.rs:450-467 | the genesis registry storage names exactly the root domain and its chain ID |
| RegistrySync.ReachableSynced | crates/arbor-evm/src/execute.rs:329-393 | over every run of committed blocks from genesis the registry storage and its projection name the same domains and chain IDs |
| Executor.ExecuteBatch | crates/arbor-executor/src/lib.rs:220-323 | the transaction loop with its growing state, receipts, gas and created domains computes the specified batch or its first error |
| Executor.BatchWithinGas | crates/arbor-executor/src/lib.rs:383-400 | after every transaction the cumulative gas is within the block limit, and there is one hash and one receipt for each |
| Executor.FundsOwner | crates/arbor-evm/src/state.rs:48-84 | the genesis state prepared for a creation gives its owner exactly the initial supply |
| Executor.PreparedDerives | crates/arbor-executor/src/lib.rs:338-381 | a creation is prepared only for a call of the root registry with a creation selector, from the finalized head of its parent and a genesis state funding its owner |
| Executor.BatchExplained | crates/arbor-executor/src/lib.rs:220-323 | what a root batch does to the registry account is a sequence of registry steps, and it reports exactly the creations that stand after them |
| Executor.ExecutorIsFaithful | crates/arbor-executor/src/lib.rs:194-400 | a machine that runs batches this way meets the hypothesis of the registry agreement, if a transaction run with the runtime made for it changes the registry account only by registry steps carrying what was prepared for it |
| Executor.ExecutedSynced | crates/arbor-executor/src/lib.rs:194-400 | so over every run of committed blocks from genesis registry storage and projection name the same domains, with only one transaction left opaque |
| Executor.HypothesesHold | crates/arbor-executor/src/lib.rs:194-400 | one machine, EVM and registry view meet all the hypotheses on the executor together |
| Executor.CreationCommits | crates/arbor-executor/src/lib.rs:220-381 | on that machine a block built on the genesis validates, commits and creates a domain that storage and projection both name |
| Alike.DomainAlike | crates/arbor-chain/src/lib.rs:1139-1194 | one batch executes alike on states with equal roots and leaves |
| Alike.ValidatedAlike | crates/arbor-chain/src/lib.rs:996-1026 | a block is accepted on a chain state exactly when it is on an alike one, and leads to alike states |
| Recovery.KeysApart | crates/arbor-consensus/src/lib.rs:926-945 | block keys differ by height and from every other index key |
| Recovery.LoadStable | crates/arbor-evm/src/state.rs:93-136 | a state that loads from some nodes and code loads alike from any more of them |
| Reload.RebuiltAgain | crates/arbor-state/src/mpt.rs:211-312 | a store that keeps the nodes of a rebuilt trie rebuilds the same trie |
| Reload.LoadedOnly | crates/arbor-evm/src/state.rs:93-136 | what a loaded state carries are encodings of the tries it was loaded from |
| Reload.ReloadIsIdentity | crates/arbor-evm/src/state.rs:93-136 | loading a state from a store and loading it again from what it carries gives the same state, nodes and code included |
| CommitEffects.CommitEffect | crates/arbor-storage/src/lib.rs:295-367 | what a commit leaves in the marker, index, code and head columns, and that no other head moves |
| CommitEffects.CommitStores | crates/arbor-storage/src/lib.rs:369-441 | every committed snapshot is stored node for node and walks to its leaves |
| EngineRecovery.AuditAlike | crates/arbor-chain/src/lib.rs:398-623 | alike checkpoints pass the same audit and are kept alike |
| EngineRecovery.BaseStable | crates/arbor-consensus/src/checkpoint.rs:153-176 | more nodes and code under the same record load an alike base |
| EngineRecovery.ReplayAlike | crates/arbor-consensus/src/lib.rs:379-386 | replaying the same bodies from alike states succeeds alike and ends alike |
| EngineCommit.ExecuteCovers | crates/arbor-consensus/src/lib.rs:842-917 | the states a block commits are exactly the changed heads of the state it leads to |
| EngineCommit.ValidatedShape | crates/arbor-consensus/src/lib.rs:842-917 | a validated proposal has one execution per batch and a marker that is the hash and heads root of its state |
| EngineCommit.BlockIndexes | crates/arbor-consensus/src/lib.rs:842-917 | after a block commit the index holds its body and write-ahead record, and every older body, the genesis and the checkpoint unchanged |
| EngineCommit.ReplayExtended | crates/arbor-consensus/src/lib.rs:379-386 | replay of the extended database ends alike to the new state |
| EngineCommit.BlockRecovers | crates/arbor-consensus/src/lib.rs:673-712 | after a block commit reopening succeeds, at a state alike to the one the engine holds |
| EngineCheckpoint.StoredCheckpointLoads | crates/arbor-consensus/src/checkpoint.rs:153-176 | the stored record, on columns the states can be read from, loads to an alike chain state |
| EngineCheckpoint.RestorableReadable | crates/arbor-consensus/src/checkpoint.rs:58-138 | after the import every state that can be rebuilt from what it carries can be read from the columns |
| EngineCheckpoint.ReopensIfLoads | crates/arbor-consensus/src/checkpoint.rs:58-138 | an accepted import comes back on reopening if and only if every one of its domain states loads from the committed columns |
| CheckpointComplete.NodesAfter | crates/arbor-consensus/src/checkpoint.rs:58-138 | after an accepted import a node is stored under its own hash if and only if it was before, or a domain state of the checkpoint carries it |
| CheckpointComplete.CodeAfter | crates/arbor-consensus/src/checkpoint.rs:58-138 | after an accepted import a code body is stored under its own hash if and only if it was before, or a domain state of the checkpoint carries it |
| CheckpointComplete.StateLoads | crates/arbor-evm/src/state.rs:93-136 | a domain state loads from the columns after the import if and only if, before it, every account decodes, its storage root is the root of some trie whose nodes are stored or carried, and so is its code body |
| CheckpointComplete.ImportReopens | crates/arbor-consensus/src/checkpoint.rs:58-138 | an accepted import comes back on reopening if and only if, before the call, every account names a storage root of some trie and the nodes of that trie and the code body are stored or carried by the checkpoint |
| CheckpointComplete.FitsWithCode | crates/arbor-chain/src/lib.rs:398-445 | a checkpoint that passes the import audit still passes it with any other code carried by a domain other than the root |
| CheckpointComplete.MissingCodeIsLost | crates/arbor-consensus/src/checkpoint.rs:58-138 | drop from an accepted checkpoint the only body of a code hash that an account of a domain other than the root names and the database lacks: it is still accepted, and the database does not reopen after it |
| EngineCheckpoint.CheckpointRecovers | crates/arbor-consensus/src/checkpoint.rs:58-138 | an import whose states are readable reopens at a state alike to it |
| EngineRuns.BlockDurable | crates/arbor-consensus/src/lib.rs:565-601 | committing or importing a block keeps the node durable |
| EngineRuns.ImportDurable | crates/arbor-consensus/src/checkpoint.rs:58-138 | importing a rebuildable checkpoint keeps the node durable |
| EngineRuns.CrashShowsOldOrNew | crates/arbor-consensus/src/lib.rs:344-405 | a crash around a commit shows the old head, or the new one exactly when the commit was accepted and durable, never a mix |
| EngineRuns.StepDurable | crates/arbor-consensus/src/lib.rs:344-405 | every event, with or without a crash, leaves a node that reopens alike to what it had finalized |
| EngineRuns.RunDurable | crates/arbor-consensus/src/lib.rs:344-405 | in every run of commits, imports, failed attempts, crashes and restarts the node comes up, and reopening gives back the height, hash, heads and authenticated states of the last durable commit |
| EngineRuns.InitDurable | crates/arbor-consensus/src/lib.rs:774-807 | an initialized database reopens at genesis |
| EngineRetention.RetainTrims | crates/arbor-storage/src/lib.rs:761-780 | retention under any policy removes nodes, roots and manifests only |
| EngineRetention.TrimmedIfLoads | crates/arbor-consensus/src/lib.rs:344-405 | a database that lost any nodes, roots and manifests comes back at the same state if and only if its base, the genesis or the stored checkpoint, still loads |
| EngineRetention.KeptRunDurable | crates/arbor-consensus/src/lib.rs:344-405 | in every run of blocks, crashes and restarts from genesis, under any retention and with each pruning pass complete or cut short, the node comes up at what it last finalized |
| EngineRetention.PrunedCheckpointIsLost | crates/arbor-consensus/src/checkpoint.rs:153-176 | a database whose stored checkpoint names a state root that is no longer stored does not open |
| EngineRetention.PruningLosesCheckpoint | crates/arbor-storage/src/lib.rs:690-714 | pruning the only retained root that lists the state root of a stored checkpoint makes the database unopenable |
| EngineRetention.TrieNeeds | crates/arbor-state/src/mpt.rs:294-312 | a trie that is rebuilt from some nodes is rebuilt from fewer exactly when every hash its walk asks for is left |
| EngineRetention.StateNeeds | crates/arbor-evm/src/state.rs:93-136 | a state that loads from some nodes loads from fewer exactly when every hash its account trie and its storage tries ask for is left |
| EngineRetention.TrimmedReopens | crates/arbor-consensus/src/lib.rs:344-405 | whatever was pruned, a database that reopened comes back at the same state, and reopens at all, if and only if every hash its stored checkpoint asked for before is left |
| EngineRetention.PruneSweeps | crates/arbor-storage/src/lib.rs:690-714 | pruning a root drops exactly the nodes its manifest lists and no other manifest does |
| EngineRetention.PruneReopens | crates/arbor-storage/src/lib.rs:690-714 | a database that reopens still does after pruning one root if and only if, before it, every hash its checkpoint asks for is not listed by that manifest or is listed by another |
| EngineRetention.DomainsPruned | crates/arbor-storage/src/lib.rs:761-780 | with no committed head below the cutoff the pass finishes and forgets exactly the roots of the committed domains below it |
| EngineRetention.RetainReopens | crates/arbor-storage/src/lib.rs:761-780 | under full retention, with no committed head older than the window, a database that reopens still does after the pass if and only if every hash its checkpoint asks for is listed by a manifest the pass leaves alone, or by none |
| EngineRetention.BlockPruningFinishes | crates/arbor-storage/src/lib.rs:761-780 | the pass after a block never stops with an error, whatever the window |
| EngineRetention.IdleDomainStopsPruning | crates/arbor-storage/src/lib.rs:295-367 | a committed checkpoint reports a pruning error if and only if one of its domains was last touched before the window |
| EngineRetention.SweptAdoption | crates/arbor-consensus/src/checkpoint.rs:58-138 | a node that adopts a checkpoint under full retention stays durable after the pruning pass |
| EngineRetention.WindowLosesCheckpoint | crates/arbor-storage/src/lib.rs:690-780 | adopt a checkpoint under full retention and commit one block of a domain that was idle for the whole window: the database reopens until the pass after that block takes the old state root, and does not any more |
| EngineLife.BlockRouted | crates/arbor-consensus/src/lib.rs:673-712 | a pool that routes exactly the finalized domains never refuses the domains created by a validated block, and then routes exactly those of the new state |
| EngineLife.FinalizedSane | crates/arbor-consensus/src/lib.rs:673-712 | a pending or imported block commits exactly when the durable commit does, and keeps columns, books, routes and pending proposal in agreement |
| EngineLife.AdoptedSane | crates/arbor-consensus/src/checkpoint.rs:58-138 | adopting a checkpoint that can be rebuilt from what it carries keeps them in agreement |
| EngineLife.NodeRises | crates/arbor-consensus/src/lib.rs:344-405 | over durable columns whose domains have distinct non-zero chain IDs a new process comes up alike to what was finalized, with an empty pool routing every domain |
| EngineLife.LiveSane | crates/arbor-consensus/src/lib.rs:344-712 | every submission, build, abandon, commit, import and restart, crashing or not, ends in such an engine |
| EngineLife.LifeSane | crates/arbor-consensus/src/lib.rs:344-712 | in every run of submissions, builds, abandons, commits, imports, adopted checkpoints, crashes and restarts the engine can go on, its columns recover what it finalized, its books balance, its pool routes exactly the finalized domains, and the pending proposal still validates on the finalized head |
| EngineLife.StartSane | crates/arbor-consensus/src/lib.rs:774-807 | an engine opened on an empty database starts so |
| Engine.SingleValidatorEngine.constructor | crates/arbor-consensus/src/lib.rs:390-404 | an engine over recovered columns starts valid with nothing pending |
| Engine.SingleValidatorEngine.BuildProposal | crates/arbor-consensus/src/lib.rs:482-532 | a success reserves exactly the selection; a failure leaves pool, database and head as they were |
| Engine.SingleValidatorEngine.AbandonProposal | crates/arbor-consensus/src/lib.rs:548-557 | only the pending proposal can be abandoned, and its entries are restored |
| Engine.SingleValidatorEngine.CommitValidated | crates/arbor-consensus/src/lib.rs:673-712 | database, head, pool and cursor move together or not at all, and the result recovers |
| Engine.SingleValidatorEngine.CommitProposal | crates/arbor-consensus/src/lib.rs:565-580 | only the pending proposal commits, to exactly the state it was built to; a failure keeps it pending and reports what refused it |
| Engine.SingleValidatorEngine.ImportBlock | crates/arbor-consensus/src/lib.rs:592-601 | an imported block becomes the head exactly when it validates on it and the pool and the database take it; a failure changes nothing and reports the first of these |
| Engine.SingleValidatorEngine.ImportCheckpoint | crates/arbor-consensus/src/checkpoint.rs:58-138 | a checkpoint is adopted in one step at height zero with nothing pending, with its domains registered in the pool, or nothing changes |
| Engine.ReserveSelection | crates/arbor-consensus/src/lib.rs:486-491 | exactly the selection is taken out, putting it back restores the pool, and every entry belongs to a finalized domain |
| Engine.ReplayBlocks | crates/arbor-consensus/src/lib.rs:379-386 | the replay loop computes the specified replay |
| Engine.ReopenedRecovers | crates/arbor-consensus/src/lib.rs:809-840 | whatever reopens is usable and recovers itself |
| Engine.Reload | crates/arbor-consensus/src/lib.rs:356-389 | checking the fingerprint, loading the base and replaying compute the specified reopening |
| Engine.Open | crates/arbor-consensus/src/lib.rs:344-405 | opening initializes an empty database at genesis or replays a stored one, with an empty pool routing every domain, and otherwise reports exactly what failed: initialization, the commit, reopening or a registration |
| Engine.RegisterRoutes | crates/arbor-consensus/src/lib.rs:390-404 | registering in order gives the specified pool or the first refusal |
| Snapshot.PackDecides | crates/arbor-network/src/snapshot.rs:584-644 | packing terminates and succeeds if and only if every record fits one chunk and at most 65,536 chunks are needed |
| Snapshot.PackedWithin | crates/arbor-network/src/snapshot.rs:584-644 | every packed chunk is non-empty and within 8 MiB |
| Snapshot.TightRecordRefused | crates/arbor-network/src/snapshot.rs:584-644 | a record alone in its chunk is refused although the chunk would be within 8 MiB if and only if it leaves exactly zero or one byte free |
| Snapshot.ChunkDecodes | crates/arbor-network/src/snapshot.rs:646-682 | decoding an encoded chunk adds exactly its records, or fails exactly as adding them does |
| Snapshot.PackDecodes | crates/arbor-network/src/snapshot.rs:584-682 | decoding a packing in index order adds exactly the packed records in order |
| Snapshot.RecordsRestore | crates/arbor-network/src/snapshot.rs:589-596 | listing two maps and adding the records back gives both maps if and only if each is keyed by content hash |
| Snapshot.ChunksLossless | crates/arbor-network/src/snapshot.rs:584-682 | packed chunks decode in index order to exactly both maps if and only if each is keyed by content hash |
| Snapshot.TakeRecords | crates/arbor-network/src/snapshot.rs:602-616 | the inner loop fills a chunk greedily |
| Snapshot.EncodeStateChunks | crates/arbor-network/src/snapshot.rs:584-644 | the nested packing loops compute the specified packing or its first error |
| Snapshot.NextRecord | crates/arbor-network/src/snapshot.rs:666-668 | one record is read off the moving cursor |
| Snapshot.DecodeStateChunk | crates/arbor-network/src/snapshot.rs:646-682 | the counted loop over the moving cursor computes the specified decoding |
| Staging.StageKeeps | crates/arbor-network/src/snapshot.rs:465-495 | staging keeps declared, verified chunks with their bytes counted and bounded, and changes none already staged |
| Staging.ReceivedWell | crates/arbor-network/src/snapshot.rs:465-495 | after any deliveries only declared, verified chunks are staged, within 512 MiB |
| Staging.StagingConverges | crates/arbor-network/src/snapshot.rs:465-501 | in every arrival order, with duplicates, corrupted and undeclared chunks in between, staging ends complete with exactly the served chunks if and only if they fit 512 MiB together |
| Staging.SnapshotStaging.constructor | crates/arbor-network/src/snapshot.rs:439-455 | a new area stages nothing and expects exactly the declared chunks |
| Staging.SnapshotStaging.StageChunk | crates/arbor-network/src/snapshot.rs:465-495 | an accepted chunk is staged, an identical duplicate changes nothing, and a refusal leaves the area as it was |
| Staging.SnapshotStaging.IsComplete | crates/arbor-network/src/snapshot.rs:499-501 | comparing counts decides whether exactly the declared chunks are staged |
| Staging.SnapshotStaging.Finish | crates/arbor-network/src/snapshot.rs:508-571 | the loops over domains and chunks compute the specified import or its first error |
| Staging.SnapshotStaging.RebuildDomain | crates/arbor-network/src/snapshot.rs:514-543 | one domain is decoded, rebuilt and checked for unreferenced code as specified |
| Staging.DecodeDomain | crates/arbor-network/src/snapshot.rs:514-528 | the chunks of one domain are decoded in index order into growing maps |
| Staging.OpenStaging | crates/arbor-network/src/snapshot.rs:426-456 | an area is opened exactly for the expected network and genesis with accepted finality |
| SnapshotTransfer.ProducedDeclares | crates/arbor-network/src/snapshot.rs:324-388 | the manifest declares exactly the served chunks by length and hash |
| SnapshotTransfer.DomainTransfers | crates/arbor-network/src/snapshot.rs:514-543 | with its chunks in place a domain finishes as loading it from its own nodes and code does, and is refused if and only if some code body is unreferenced |
| SnapshotTransfer.ReferencedLoads | crates/arbor-network/src/snapshot.rs:529-543 | the count of code bodies after reloading agrees with the count before if and only if some account names each of them |
| SnapshotTransfer.CompleteFinishes | crates/arbor-network/src/snapshot.rs:508-571 | with every served chunk staged finishing succeeds if and only if all code is referenced, and gives an alike chain state |
| SnapshotTransfer.SnapshotTransfers | crates/arbor-network/src/snapshot.rs:324-571 | a produced snapshot delivered in any order is imported if and only if it fits 512 MiB and all stored code is referenced, and then as the chain state it was taken from |
| SnapshotTransfer.ImportedReloads | crates/arbor-network/src/snapshot.rs:529-551 | an imported domain state reloads to itself from what it carries, so it can be committed, reopened and offered again |
| SnapshotTransfer.UnreferencedCodeRefused | crates/arbor-network/src/snapshot.rs:529-543 | a chain state with one code body that no account of its domain names is offered and delivered in full, and finishing the import refuses it |
| SnapshotTransfer.ReceivedIsGood | crates/arbor-network/src/snapshot.rs:508-571 | a snapshot of an offered chain state with all code referenced arrives as a checkpoint the engine can rebuild from what it carries |
| SnapshotTransfer.ReceivedIsDurable | crates/arbor-network/src/snapshot.rs:324-571 | a snapshot delivered in any order arrives alike to the chain state it was taken from, and a durable node that adopts it stays durable |
| Sync.VerifyResponse | crates/arbor-network/src/sync.rs:64-124 | the loop with its running height and parent computes the specified acceptance or first error |
| Sync.AcceptedChain | crates/arbor-network/src/sync.rs:64-124 | accepted headers are one hash-linked, final chain from the local head ending at the advertised tip when they reach its height; heights are consecutive if and only if the last fits in 64 bits |
| Sync.SaturatedHeights | crates/arbor-network/src/sync.rs:84-107 | at the top of the range, with any verifier that accepts empty proofs, two headers at one height are accepted |
| Sync.BodiesDecide | crates/arbor-network/src/sync.rs:132-158 | bodies combine if and only if there is one per verified header and each carries exactly that header; bytes and proofs pass unchanged |
| Sync.RequestInRange | crates/arbor-network/src/sync.rs:274-285 | a request starts right after the local head, is never empty and never reaches past the remote head |
| Sync.OneAtATime | crates/arbor-network/src/sync.rs:261-285 | since a response may carry one block, every accepted limit asks for exactly the next block, and for nothing once caught up |
| Sync.ClearBlock | crates/arbor-network/src/sync.rs:329-351 | a block is cleared if and only if transport limits, order, decoding, claimed height and finality all hold |
| Sync.ImportResponse | crates/arbor-network/src/sync.rs:295-376 | whatever the outcome the head has moved along exactly the first imported blocks, each cleared first; success imports all and ends at the advertised tip when it reaches its height |
| Sync.ValidatedHead | crates/arbor-chain/src/lib.rs:996-1026 | a validated block extends the head and becomes the head its header names |
| Sync.ImportFollows | crates/arbor-network/src/sync.rs:132-376 | importing any prefix of the bodies of a stretch of accepted headers moves the head along exactly those headers |
| Sync.SyncFollowsChain | crates/arbor-network/src/sync.rs:64-376 | in every run of body and import rounds, wherever one stops, the head only moves along the verified chain and has the advertised status once it reaches the advertised height |

## Left out

- Engine.SingleValidatorEngine.ImportCheckpoint: keeps the engine invariant only for checkpoints that can be rebuilt from what they carry; for others reopening fails, as CheckpointComplete.ImportReopens states.
- EngineRetention.KeptRunDurable: covers chains grown from genesis; after an imported checkpoint EngineRetention.TrimmedReopens gives the condition instead.
- EngineLife.LifeSane: pruning is not one of its moves; it is covered for the columns by EngineRetention.KeptRunDurable.
- EngineRetention.WindowLosesCheckpoint: the loss is shown for a domain idle for the whole window, where one block is enough; EngineRetention.RetainReopens gives the condition for every pass.
- SnapshotTransfer.SnapshotTransfers: production does not apply the 2 MiB limit on the encoded manifest, whose codec is not modelled.
- DomainTree.ReachableIsTree: does not cover `insert_genesis_domain`, which adds a domain without a descriptor.
- Sync.SyncFollowsChain: reaching the advertised status is stated for advertised heights below the 64-bit maximum.
- Execution of one EVM transaction, gas metering inside it, sender recovery and the ordered transaction and receipt roots: opaque functions of the machine.
- `execute_batch` without a registry: the same loop without creations.
- `next_base_fee` and `derived_prevrandao` enter the model as computed, with no property of their own.
- The `alloy_trie` verifier run at the end of `proof`; the repository's own walk is modelled instead.
- Byte prefixes of storage keys, the manifest, head and marker record codecs, `inspect` and the write counters of a commit: columns are maps keyed by structured keys.
- The database file format and parity-db transactions: one commit is one atomic step that is durable or not.
- File writes, syncs and renames of the vote store: faults at each point are a parameter of the step.
- The ABI codec of create-chain calls, name and symbol normalization and event logs of the registry: requests arrive decoded, normalization is an opaque function.
- `submit_raw` beyond the admission it calls: the state nonce and the envelope arrive as arguments.
- UTF-8 checking: an opaque predicate on byte strings.
- The domain genesis codec and the transaction envelope codec.
- The network snapshot manifest codec and the head proofs it carries: a manifest arrives decoded and shaped; head proofs are covered by DomainHeads.ProofBinds.
- `domain_history`, `receipt` and `finalized_block` queries of the engine, and commit notifications.
- The binary-search choice among equal validator identifiers in an unsorted list: one fixed search is modelled.
- `quorum_power` and `can_commit` of the consensus spike, whose four-validator check the weighted theorem replaces.
- libp2p services, peer scoring, mailboxes, node runtime, configuration and the state-commitment spike: input, output and assembly.
