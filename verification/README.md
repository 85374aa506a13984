# A verified model of multi-log

multi-log keeps per-tenant log entries in a hash chain, commits to windows of each chain with checkpoints,
hands the checkpoints to write-once storage and to independent notaries, and later recomputes everything
from rows that an insider may have rewritten. This project models that pipeline and the OpenTimestamps proof
codec, and proves what the system is for:

- **Tamper evidence.** If the last record of write-once storage was built from an original chain and the
  verifier reports nothing for a tenant, then every stored row up to the last anchored one is the original
  row, for any rows, any ledger and any notaries; otherwise `Hashing.FindCollision` reads two different
  strings with the same hash off the two histories (`Evidence.TamperEvidence`). `Runs.RunTamperEvidence` says
  it about every run of the system, with crashes between any two writes, and `Runs.ReportTamperEvidence`
  about the whole report. The hypotheses are not empty: by the next result honest runs meet them.
- **Honest completeness.** After any interleaving of batches, failed appends, sealer restarts and serialised
  anchoring runs, in which any call may fail except a working-copy write right after the write-once write,
  the report is silent and accounts for every row, checkpoint and held proof (`Runs.HonestReport`).
- **Localisation.** Rows that were edited, deleted or inserted and then renumbered and resealed into another
  perfect chain, a truncated tail and a naive edit are reported exactly where they are
  (`Localisation.DivergedReport`, `Localisation.TruncationLocalised`, `Evidence.NaiveEditCaught`).
- **Codec.** The proof tree printer and parser round-trip, the parser canonicalises, and a stamped token is
  accepted for its checkpoint id and for no other, keeps what every calendar answered, and leads from the id to
  what they attest (`OtsRoundTrip`, `OtsNotary`).

## How it is built

The hash is a parameter, any function from byte strings to 32 bytes. It is never assumed to be injective:
a binding theorem either calls the extractor `FindCollision`, or asks that a finite, explicitly listed set
of strings (a *trail*) is free of collisions, which `FindCollision` decides. Trails list what the two
computations being compared really hash; `Merkle.ComputeMerkleRoot` proves that of the Merkle trail.

A notary is a stamp and a check. Results that need notaries at all ask for a panel: distinct names, and each
notary accepts its own proofs of 32-byte checkpoint ids. The OpenTimestamps notary meets this
(`OtsPanel.OpenTimestampsJoins`). Chains, storage and tamper evidence do not depend on the notaries.

Code that updates state is a class or a method with the loops of the original, proved against a function of
the old state. The theorems are about those functions.

| module | what it holds |
|---|---|
| `Bytes`, `Hashing` | bytes, 64-bit integers, big-endian encoding; the hash, collisions, the extractor |
| `Canonical` | the encoder, entry leaves, checkpoint ids, injectivity |
| `Merkle`, `MerkleBinding` | the level-by-level root; the tree and the expanded list behind it |
| `Chain`, `ChainStore` | rows, chains and binding; the in-memory store and the one-at-a-time sealer |
| `Checkpoints`, `Witness` | building checkpoints; notaries, ledger, write-once storage |
| `Verify` | the verifier's loops and the value of its report |
| `Tiling`, `Evidence`, `Localisation` | windows over a chain; what a report proves; where it puts the blame |
| `Ingest` | the log table and the batch sealer |
| `Anchor`, `AnchorInvariant`, `AnyRun` | the anchorer, what its runs keep, and what even torn runs keep |
| `TornRuns`, `TornWrite` | the one crash that the anchorer does not survive, and when the verifier notices |
| `Honest`, `Runs`, `Independence` | untouched data; the whole system as a state machine; independence of tenants |
| `OtsWire`, `OtsRoundTrip`, `OtsCodec` | the proof format, its laws, the buffer and reader |
| `OtsNotary`, `OtsPanel` | the OpenTimestamps notary, and its place on the anchorer's panel |

## What the proofs brought to light

- The Merkle root of the empty list is also the root of the list of one empty hash, and of no other list
  (`MerkleBinding.EmptyRoot`). No checkpoint is built over an empty list.
- Repeating the last hash of an odd list keeps the Merkle root; only the count and the last sequence number
  in the checkpoint id tell the two windows apart (`Checkpoints.DuplicatedLastChangesID`).
- The comment at internal/anchor/anchor.go:89-90 takes an overwrite error for "already anchored". Under the
  anchoring invariant that branch is never taken (`AnchorInvariant.NextEndIsFresh`). A crash between the
  write-once write and the working-copy write, in whichever window of a run, is not noticed by itself
  (`TornWrite.LeftIsSilent`). The next run rebuilds that window, and after it the verifier stays silent on the
  honest log if and only if the window did not reach write-once storage again, or it was rebuilt with the
  same clock reading and the same last row, or it was rebuilt with the same last row and neither a proof of
  the rebuilt id nor a window built on it was stored (`TornWrite.TornWriteVerdict`). Otherwise it reports an
  honest log as tampered with; one row, a crash and a retry one clock tick later are enough
  (`TornWrite.TornHistoryIsReported`). Tamper evidence itself survives such crashes.
- A checkpoint whose notary fails has been written but is not in the number `AnchorTenant` returns, and its
  missing proofs are never made up for (`AnchorInvariant.Kept`, as kept by `AnchorInvariant.AnchorRunKeeps`).
- The OpenTimestamps notary's check for an empty list of attestations never fires
  (`OtsNotary.AcceptsExactly`). The comment at internal/witness/witness.go:39-41 says that a proof for another
  id cannot be forged; this check asks only that the token is a well-formed file for the id, so a file that
  merely names a calendar is accepted (`OtsNotary.AcceptedWithoutCalendar`). A pending proof therefore says
  something about an id only if it is known to be the stamped one, which is what `Localisation.NotaryEvidence`
  asks of the proof it uses; a Bitcoin attestation is tied to a block (`OtsNotary.BitcoinBinding`).

## Model

| member | source | states |
|---|---|---|
| `Canonical.Encoder.Bytes` | internal/crypto/canonical.go:49-57 | the buffer stays the encoding of the field list, which grows by exactly this field |
| `Canonical.Encoder.Int` | internal/crypto/canonical.go:59-66 | a signed number becomes the field of its two's complement |
| `Bytes.BE64Value` | internal/crypto/canonical.go:49-54 | eight bytes, most significant first, stand for the number |
| `Canonical.SumEntryLeaf` | internal/crypto/canonical.go:84-94 | the encoder calls hash exactly the eight fields of an entry, in order |
| `Canonical.SumCheckpointID` | internal/crypto/canonical.go:109-126 | the encoder calls hash exactly the ten fields of a checkpoint, in order |
| `Canonical.SumGenesis` | internal/crypto/canonical.go:76-78 | the encoder calls hash the genesis tag and the tenant id |
| `Canonical.EntryLayout` | internal/crypto/canonical.go:84-94 | the preimage byte for byte: tag, version, tenant, number, event time, ingest time, source and raw line, each behind its length |
| `Canonical.CheckpointLayout` | internal/crypto/canonical.go:109-126 | the preimage byte for byte: tag, version, tenant, first and last number, count, head, root, predecessor and time, each behind its length |
| `Canonical.EncodeInjective` | internal/crypto/canonical.go:36-57 | the raw bytes determine the whole field sequence, domain tag included, for lists of any length |
| `Canonical.DomainsDisjoint` | internal/crypto/canonical.go:22-28 | structures under different domain tags never share their bytes |
| `Canonical.GenesisInjective` | internal/crypto/canonical.go:76-78 | two tenants have the same genesis preimage if and only if they are the same tenant |
| `Canonical.GenesisBindsTenant` | internal/crypto/canonical.go:76-78 | two chains have the same seed if and only if they are the same tenant's, unless their two genesis preimages collide |
| `Canonical.EntryInjective` | internal/crypto/canonical.go:84-94 | two entry preimages coincide if and only if all arguments do, signed times included |
| `Canonical.CheckpointInjective` | internal/crypto/canonical.go:109-126 | two checkpoint preimages coincide if and only if all arguments do |
| `Merkle.ComputeMerkleRoot` | internal/checkpoint/merkle.go:15-40 | the two loops compute the recursive pair-up root, in `Rounds(n)` rounds with `NodeHashes(n)` inner nodes, and hash exactly the strings of the trail |
| `Merkle.RoundsIsCeilLog2` | internal/checkpoint/merkle.go:25-38 | the number of rounds is the base-two logarithm of the list length, rounded up |
| `Merkle.NodeHashBounds` | internal/checkpoint/merkle.go:25-38 | n leaves take between n - 1 and n - 1 + ceil(log2 n) node hashes |
| `Merkle.MerkleRootIsTreeRoot` | internal/checkpoint/merkle.go:15-40 | reducing level by level gives the root of one binary tree, defined independently |
| `MerkleBinding.TreeOfExpands` | internal/checkpoint/merkle.go:25-38 | that tree is perfect and its leaves are the list after all duplications |
| `MerkleBinding.RootInjective` | internal/checkpoint/merkle.go:5-10 | equal roots come from equal trees of whatever height, since the prefixes separate leaves from nodes |
| `MerkleBinding.MerkleBindsExpansion` | internal/checkpoint/merkle.go:12-40 | two non-empty lists have the same root if and only if their duplicate-last expansions agree |
| `MerkleBinding.MerkleBindsList` | internal/checkpoint/merkle.go:12-40 | equal length and equal root give equal lists |
| `MerkleBinding.EmptyRoot` | internal/checkpoint/merkle.go:14-18 | the empty list shares its root with the list of one empty hash and with no other list |
| `MerkleBinding.DuplicatedLastKeepsRoot` | internal/checkpoint/merkle.go:27-32 | repeating the last hash of an odd list of three or more keeps the root |
| `Checkpoints.BuildCheckpoint` | internal/checkpoint/checkpoint.go:31-60 | the loop and the calls commit to the window's first and last number, count, head hash, root, predecessor and time |
| `Checkpoints.BuildCommits` | internal/checkpoint/checkpoint.go:31-60 | the id is that of the document's own fields; its head is the last entry hash and its root that of the tree over all of them |
| `Checkpoints.IDBinds` | internal/crypto/canonical.go:105-126 | an id fixes tenant, count, first and last number, head hash, root, predecessor and time |
| `Checkpoints.IDBindsHashColumn` | internal/checkpoint/checkpoint.go:31-60 | an id fixes every entry hash of the window |
| `Checkpoints.DuplicatedLastChangesID` | internal/crypto/canonical.go:105-108 | repeating the last row of an odd window keeps the Merkle root and changes the id |
| `Chain.SealAllConcat` | internal/ingest/sealer.go:65-83 | sealing `a + b` is sealing `a` and then `b` from the new head |
| `Chain.LinkedIffSealed` | internal/chain/sealer.go:31-59 | rows are a gap-free chain from genesis if and only if they are what sealing their own payloads gives |
| `Chain.EntryHashBinds` | internal/crypto/canonical.go:96-103 | equal entry hashes mean equal rows and equal predecessor hashes |
| `Chain.ChainBinds` | internal/crypto/canonical.go:96-103 | two chains that agree on one entry hash agree on every row up to it |
| `ChainStore.Store.Append` | internal/chain/store.go:35-37 | the row goes to the end of its tenant's rows; nothing else changes |
| `ChainStore.Store.Tenant` | internal/chain/store.go:40-44 | the tenant's rows become a sorted permutation of themselves, in place, and are returned; other tenants' rows stay |
| `ChainStore.SortIsUnique` | internal/chain/store.go:40-44 | rows in strict order have no other sorted permutation, whatever the sort does with ties |
| `ChainStore.RangeOf` | internal/chain/store.go:46-63 | each row returned is the last one stored under its number; when incomplete, the next number is missing, so it is the least missing one |
| `ChainStore.RangeIsDetermined` | internal/chain/store.go:46-63 | those clauses determine the result |
| `ChainStore.LastAtIsLast` | internal/chain/store.go:50-53 | of several rows with a number the one stored last is found |
| `ChainStore.Store.Range` | internal/chain/store.go:49-63 | the map and the loop return exactly that, the empty range included |
| `ChainStore.Store.Delete` | internal/chain/store.go:68-77 | exactly the rows with that number go; the tenant's key stays even when no row is left |
| `ChainStore.WithoutSplits` | internal/chain/store.go:68-77 | every other row stays, in order and as often |
| `ChainStore.Store.Tenants` | internal/chain/store.go:80-87 | every tenant id, each once, in lexicographic order |
| `ChainStore.LexLeqIs` | internal/chain/store.go:85 | the first place where two ids differ decides, and a prefix comes first |
| `ChainStore.Sealer.Seal` | internal/chain/sealer.go:31-59 | appends one sealed row and advances the head; a store with one sealer holds the sealed chain of all its records |
| `Witness.MockNotary` | internal/witness/witness.go:119-149 | accepts its own proofs, and another id exactly if the keyed hashes agree; a proof answers genuinely about `y` exactly if the keyed hash tells `y` from the id |
| `Witness.LedgerKeyInjective` | internal/witness/witness.go:65-67 | the string key determines tenant and number, slashes in tenant ids included |
| `Witness.DecimalValue` | internal/witness/witness.go:65-67 | the digits in the key stand for the number |
| `Witness.ProofLedger.Add` | internal/witness/witness.go:69-72 | the proof is added for this tenant and number, and what is held for every other pair is unchanged |
| `Witness.MemStore.Put` | internal/witness/witness.go:91-102 | never overwrites; stores under tenant and last number otherwise; other tenants are unchanged |
| `Witness.MemStore.All` | internal/witness/witness.go:109-117 | exactly the tenant's records, in ascending order of their last number |
| `Witness.ListingIsUnique` | internal/witness/witness.go:109-117 | there is only one such list |
| `Verify.FaultAt` | internal/verify/verify.go:71-94 | none of the three checks fails if and only if the row has its number and links to its predecessor |
| `Verify.VerifyChain` | internal/verify/verify.go:65-99 | sorts the tenant's rows and adds exactly what replaying them reports, at most one issue |
| `Verify.CheckProofs` | internal/verify/verify.go:150-164 | adds one count per proof of a known notary and one issue per rejected one, in ledger order |
| `Verify.VerifyWindow` | internal/verify/verify.go:124-164 | adds exactly one window's issues: truncation alone, or a mismatch and the notaries' objections |
| `Verify.VerifyCheckpoints` | internal/verify/verify.go:106-168 | adds the reports of all windows, each rebuilt on the anchored id before it, or one storage issue if storage cannot be read |
| `Verify.VerifyTenant` | internal/verify/verify.go:55-58 | one tenant's part: its rows end up sorted and otherwise unchanged, and the report grows by its replay and its windows |
| `Verify.IndexNotaries` | internal/verify/verify.go:51-54 | a name is found if and only if some notary has it, and then its last notary is found |
| `Verify.VerifyAll` | internal/verify/verify.go:49-60 | visits every tenant once, in order; the report is the sum of the tenants' reports on their sorted rows, and no row is lost or changed |
| `Tiling.RangeNumbered` | internal/chain/store.go:49-63 | on a gap-free chain `Range` is a slice of the sorted rows, or stops at the first row that is not there |
| `Tiling.TilesAppend` | internal/anchor/anchor.go:82-87 | one more window built on the last id extends the tiling |
| `Tiling.TilesGrow` | internal/anchor/anchor.go:62-73 | sealing more rows keeps the tiling |
| `Tiling.TilesAscend` | internal/anchor/anchor.go:82-87 | later windows end later, so no two overlap |
| `Evidence.ReplayCleanIffLinked` | internal/verify/verify.go:62-99 | replay is silent if and only if the rows are a gap-free chain from genesis, and then it has checked all of them |
| `Evidence.ReplayPinpoints` | internal/verify/verify.go:62-99 | otherwise it adds exactly one issue, at the least row that fails, and stops counting there |
| `Evidence.NaiveEditCaught` | internal/verify/verify.go:86-94 | overwriting the payload of row k alone is reported as tampering with exactly row k |
| `Evidence.DeletionIsGap` | internal/verify/verify.go:71-77 | deleting rows from the body of a chain is reported as a sequence gap at exactly the first of them |
| `Evidence.RelinkIsBreak` | internal/verify/verify.go:78-84 | a row that links elsewhere is reported as a chain break at exactly that row |
| `Evidence.ForeignChainBreaks` | internal/verify/verify.go:66-84 | a chain filed under another tenant breaks at its first row, or the two genesis preimages collide |
| `Evidence.WindowOnChain` | internal/verify/verify.go:127-164 | a window over a chain is rebuilt from its slice, or its first missing number is reported |
| `Evidence.IDBindsChain` | internal/verify/verify.go:101-105 | two chains whose windows have the same id end the window at the same row and agree on every row up to it |
| `Evidence.CleanWindowRebuilds` | internal/verify/verify.go:140-164 | under a silent report every window is all there, rebuilds to the stored id, and no held proof objects |
| `Evidence.SilentWindowBinds` | internal/verify/verify.go:123-168 | one silent window on a chain, whose record was built from the original on any predecessor, proves all rows up to its end original |
| `Evidence.TamperEvidence` | internal/verify/verify.go:47-168 | a silent report when the last record was built from the original chain, on any predecessor: all rows up to its end are original, or the extractor returns a collision |
| `Evidence.TilesTamperEvidence` | internal/verify/verify.go:47-168 | in particular when storage holds the linked checkpoints of a tiling |
| `Localisation.AttestedTally` | internal/verify/verify.go:150-164 | proofs that answer genuinely about the rebuilt id are silent if it is the attested one, and all object otherwise |
| `Localisation.InsiderReseal` | cmd/demo/main.go:123-133 | relinks the sorted rows from genesis |
| `Localisation.ResealIsLinked` | cmd/demo/main.go:123-133 | the resealed rows are a perfect chain over the same payloads |
| `Localisation.EditThenReseal` | cmd/demo/main.go:123-133 | editing row k and resealing gives a perfect chain of as many rows that diverges at row k |
| `Localisation.FirstDivergence` | cmd/demo/main.go:123-133 | any other perfect chain, whatever was edited, deleted or inserted, diverges from the original at some row |
| `Localisation.ChainsDiverge` | internal/crypto/canonical.go:96-103 | from the first changed payload on every entry hash differs |
| `Localisation.DivergedRebuilds` | internal/verify/verify.go:140-148 | of the windows still there in full, exactly those that end before the divergence rebuild to their id |
| `Localisation.DivergedWindow` | internal/verify/verify.go:124-167 | against a perfect chain that diverges at row k, a window that ends before k is silent, one that ends among the later rows reports a mismatch and one objection per genuine proof, without cascading, and one that ends beyond the rows reports its least missing number alone |
| `Localisation.DivergedReport` | internal/verify/verify.go:101-168 | against such a chain, under any ledger and any notaries: replay accepts all the rows, and besides notary issues exactly those mismatches and truncations are reported |
| `Localisation.TruncationLocalised` | internal/verify/verify.go:127-138 | after losing the tail from row m on, windows that end before m are silent and the others report their least missing number and nothing else |
| `Localisation.NotaryEvidence` | internal/verify/verify.go:150-151 | even if write-once storage lies, a silent report and one proof for the original window, not also good for the id listed, prove the rows up to its end original |
| `Localisation.SilentWindowBindsColumn` | internal/verify/verify.go:140-148 | even when the chain does not replay, a window without truncation or mismatch has all its original entry hashes |
| `Ingest.LogStore.Head` | internal/logstore/clickhouse.go:108-140 | the number after the highest row and its hash, or zero and genesis |
| `Ingest.MaxRowIsHighest` | internal/logstore/clickhouse.go:111-140 | in whatever order the rows are, the head is taken from one with the highest number |
| `Ingest.LogStore.Append` | internal/logstore/clickhouse.go:83-106 | all or nothing; an empty batch always succeeds |
| `Ingest.SealRows` | internal/ingest/sealer.go:65-83 | the loop gives the sealed rows and the head after them |
| `Ingest.Sealer.SealBatch` | internal/ingest/sealer.go:51-91 | succeeds if and only if neither a head read that is needed nor the write of a non-empty batch fails; then it returns the sealed rows, adds exactly them to the table and advances the head, else it changes no row |
| `Ingest.StoredHeadOfChain` | internal/ingest/sealer.go:55-63 | after a restart the sealer resumes at the end of the chain |
| `Ingest.BatchKeepsSynced` | internal/ingest/sealer.go:48-91 | every batch keeps all tenants' rows chains and all cached heads right, and adds its records if and only if no database call it needs fails |
| `Anchor.AnchorStore.LastCheckpoint` | internal/anchorstore/anchorstore.go:68-89 | the record with the highest last number |
| `Anchor.AnchorStore.PutCheckpoint` | internal/anchorstore/anchorstore.go:91-105 | inserts unless the number is taken |
| `Anchor.AnchorStore.PutProof` | internal/anchorstore/anchorstore.go:107-115 | inserts unless the notary already has a proof there |
| `Anchor.Anchorer.StampAll` | internal/anchor/anchor.go:97-105 | stores the proofs of the notaries before the first that fails |
| `Anchor.Anchorer.WindowMax` | internal/anchor/anchor.go:37-42 | the configured size if it is positive, else 1000 |
| `Anchor.Anchorer.AnchorWindow` | internal/anchor/anchor.go:89-105 | write-once storage, then the working copy, then the proofs; stops at the first failure, except an overwrite error |
| `Anchor.Anchorer.AnchorTenant` | internal/anchor/anchor.go:63-111 | the whole new state of the tenant's anchors, the count and the error are those of the run function; other tenants are unchanged |
| `Anchor.Anchorer.AnchorAll` | internal/anchor/anchor.go:46-60 | each tenant in turn up to the first error; the total counts all runs, the failed one included |
| `AnchorInvariant.NextEndIsFresh` | internal/anchor/anchor.go:89-93 | the next window never meets a record: the overwrite branch is unreachable |
| `AnchorInvariant.StampsElsewhere` | internal/anchor/anchor.go:97-105 | stamping a window leaves the proofs of every other window alone, whatever the notaries are |
| `AnchorInvariant.ProvenWith` | internal/anchor/anchor.go:97-105 | a panel's first few stamps of a new window are held in order, attest its id, and all other proofs still attest theirs |
| `AnchorInvariant.FetchedRows` | internal/logstore/clickhouse.go:160-176 | the anchorer is given the next rows of the chain, at most 100000 |
| `AnchorInvariant.WindowKeeps` | internal/anchor/anchor.go:81-109 | one written window keeps storage tiled, linked and equal to the working copy, for any notaries, and its id has 32 bytes |
| `AnchorInvariant.AnchorFromKeeps` | internal/anchor/anchor.go:81-110 | the loop keeps storage in order from any window on, wherever it fails; with a panel, every held proof attests what is stored |
| `AnchorInvariant.RunResumes` | internal/anchor/anchor.go:64-73 | a run starts right after the last checkpoint and links to its id |
| `AnchorInvariant.AnchorRunKeeps` | internal/anchor/anchor.go:62-111 | every run without a torn write keeps storage in order, only adds checkpoints, leaves earlier proofs alone and, without faults, anchors every fetched row; with a panel every held proof attests what is stored and, without faults, every new window has all the notaries' proofs |
| `AnyRun.AnchorFromKeepsBuilt` | internal/anchor/anchor.go:81-110 | from any window, predecessor and state on, and wherever it fails, the loop only adds records built from the log |
| `AnyRun.AnchorRunKeepsBuilt` | internal/anchor/anchor.go:62-111 | every run, torn or not, leaves only records built from the log, in write-once storage and in the working copy |
| `AnyRun.WindowsIsCeil` | internal/anchor/anchor.go:82-86 | so many rows take their number divided by the window size, rounded up, windows |
| `AnyRun.WindowSucceedsIff` | internal/anchor/anchor.go:89-105 | a window fails if and only if one of its calls does |
| `AnyRun.AnchorFromCounts` | internal/anchor/anchor.go:81-110 | the loop counts window after window up to the first that fails, and reports an error if and only if one does; if none fails, all the rows are covered |
| `AnyRun.AnchorRunCounts` | internal/anchor/anchor.go:62-111 | from storage in order, a run tries as many windows as the fetched rows take, and counts those before the first that fails |
| `AnyRun.StepOnlyAdds` | internal/anchor/anchor.go:89-105 | whatever state a window finds, no record and no proof is replaced or lost, and no notary gets a second proof of it |
| `AnyRun.AnchorFromOnlyAdds` | internal/anchor/anchor.go:81-110 | so no run, from whatever state and however it fails, replaces or loses any |
| `AnyRun.CountedIsWritten` | internal/anchor/anchor.go:81-110 | both places hold every window a run counts: the j-th is that of the j-th group of rows, bears the j-th clock reading, and is built on the id stored for the window before it |
| `AnyRun.ProofsBeforeFailure` | internal/anchor/anchor.go:97-105 | a notary that fails does not cost the window its records or the proofs of the notaries before it |
| `Honest.HeldProofsGood` | internal/verify/verify.go:150-164 | every held proof is found by name and accepts the anchored id |
| `Honest.HonestTenant` | internal/verify/verify.go:62-168 | on untouched rows under the invariant: no issue, and every row, checkpoint and held proof counted |
| `Runs.BaseInvariant` | internal/ingest/sealer.go:48-91 | at every point of every run, torn writes included, all tenants' rows are chains of exactly the submitted records: those of the batches for which no needed database call failed, as the events alone say; heads are right and every record of storage was built from those rows |
| `Runs.NothingLost` | internal/ingest/sealer.go:48-91 | without faults of the database the submitted records are all records of all batches, in order |
| `Runs.RunInvariant` | internal/ingest/sealer.go:48-91 | at every point of every run without torn writes, for any notaries, all tenants' rows are chains of the submitted records, heads are right and storage is tiled and linked; with a panel every held proof attests what is stored |
| `Runs.SealerRefinement` | internal/ingest/sealer.go:48-91 | batches, failures, cached heads, restarts and whatever the anchorer does are invisible: the rows are the one-at-a-time sealing of the submitted records |
| `Runs.FaultFreeNotarises` | internal/anchor/anchor.go:97-105 | without anchoring faults every window ever anchored has all the notaries' proofs |
| `Runs.HonestRunVerifies` | internal/verify/verify.go:62-168 | at any point of any run without torn writes the report for a tenant is silent and complete |
| `Runs.HonestRunCounts` | internal/verify/verify.go:123-164 | after any run every record is seen once, and with a panel and without anchoring faults there are checkpoints times notaries proofs |
| `Runs.HandedIsLoaded` | internal/verify/verify.go:49-60 | what any run hands over, torn or not, is within the verifier's bounds |
| `Runs.HonestReport` | internal/verify/verify.go:49-60 | the whole report after any run without torn writes: no issue; rows, checkpoints and, without anchoring faults, proofs all counted |
| `Runs.RunTamperEvidence` | internal/verify/verify.go:47-168 | after any run, torn writes included, with rows, ledger and notaries then replaced by anything, a silent report proves the submitted records up to the last anchored one, or a collision |
| `Runs.ReportTamperEvidence` | internal/verify/verify.go:47-60 | a silent report over all tenants means that each listed tenant's storage was read, and proves the same for it |
| `Independence.ReportSplits` | internal/verify/verify.go:55-58 | the issues that name a tenant are exactly those of its own rows, checkpoints and proofs |
| `Independence.ReportCleanIffTenants` | internal/verify/verify.go:55-59 | the report is silent if and only if it is silent about every tenant |
| `Independence.UnreadableIsReported` | internal/verify/verify.go:114-121 | if write-once storage cannot be read, the tenant's issues are those of the replay and one storage error that names the tenant and no row |
| `Independence.StorageErrorIffUnreadable` | internal/verify/verify.go:114-121 | a storage error is reported if and only if storage could not be read, so a silent part means that it was |
| `Independence.SilentReportMeansRead` | internal/verify/verify.go:49-60 | a silent report means that every listed tenant's storage was read |
| `Independence.MoreProofsMoreIssues` | internal/verify/verify.go:150-164 | adding proofs, anywhere in the ledger and in any order, removes no issue and adds only notary issues |
| `Independence.RejectionsMonotone` | internal/verify/verify.go:152-163 | rejections only depend on, and grow with, the multiset of held proofs |
| `Independence.SameProofsSameReport` | internal/verify/verify.go:152 | a tenant's report looks at the ledger through that tenant's own proofs only |
| `Independence.OtherTenantsProofs` | internal/witness/witness.go:65-76 | any changes to the proofs of other tenants change nothing, slashes in ids included |
| `TornRuns.RunLeaves` | internal/anchor/anchor.go:62-111 | a run in which anything fails, in whichever window, leaves storage in order or exactly one torn window on top of it; with a panel all other proofs attest what is stored |
| `TornRuns.EveryRunLeaves` | internal/anchor/anchor.go:62-111 | so every run from the anchoring invariant keeps it or starts a torn history |
| `TornRuns.RestGoesOn` | internal/anchor/anchor.go:81-110 | the next window of the run is built on the rebuilt id |
| `TornRuns.CrashedRun` | internal/anchor/anchor.go:89-96 | a run whose first working-copy write fails stops, with a checkpoint that only write-once storage holds |
| `TornRuns.SecondRun` | internal/anchor/anchor.go:63-93 | the next run resumes from the working copy, builds that window again and goes on from the rebuilt id |
| `TornRuns.BothWindows` | internal/anchor/anchor.go:81-87 | both checkpoints follow the same predecessor, and the retried window ends no earlier |
| `TornRuns.AnchorFromAdds` | internal/anchor/anchor.go:81-110 | from any state and with any faults, a run keeps every record and the earlier windows' proofs, and adds only what lies beyond its current window |
| `TornWrite.SameRetryIsClean` | internal/anchor/anchor.go:87-105 | rebuilding the torn checkpoint is as if the window had been written now, with the faults of the retry |
| `TornWrite.TornIsSilent` | internal/verify/verify.go:123-167 | a torn window alone is not noticed |
| `TornWrite.LeftIsSilent` | internal/verify/verify.go:123-167 | no single run over an honest log is noticed, whatever fails in it |
| `TornWrite.OtherClockIsReported` | internal/anchor/anchor.go:87-105 | a held proof of another id than the listed one is reported |
| `TornWrite.OtherProofIsReported` | internal/anchor/anchor.go:87-105 | a retry with the same last row and another clock that stores at least one proof is reported |
| `TornWrite.SecondIsReported` | internal/anchor/anchor.go:82-107 | so is one that stores a window built on the rebuilt id |
| `TornWrite.LongerWindowIsReported` | internal/anchor/anchor.go:87-107 | a longer retry was built on the id before the torn one and no longer rebuilds |
| `TornWrite.TornWriteVerdict` | internal/anchor/anchor.go:63-111 | a window torn at any place of a run, then one more run with any faults on a log that may have grown: the report is silent if and only if the window was not written again, or was rebuilt with the same clock reading and last row, or with the same last row and neither a proof of the rebuilt id nor a window built on it stored |
| `TornWrite.TornHistoryIsReported` | internal/anchor/anchor.go:89-96 | for every tenant and record a crash and a retry one tick later are such a history, after which the one untouched row is reported, or the extractor finds a collision among the listed strings |
| `OtsRoundTrip.VaruintRoundTrip` | internal/witness/opentimestamps/wire.go:274-315 | a printed number is read back, whatever follows |
| `OtsRoundTrip.VaruintShortest` | internal/witness/opentimestamps/wire.go:274-315 | the printed form is no longer than any form that reads to the number |
| `OtsRoundTrip.VaruintIsLEB128` | internal/witness/opentimestamps/wire.go:274-280 | the printed form is little-endian groups of seven bits that sum to the number, without an empty group at the end |
| `OtsRoundTrip.LEB128IsRead` | internal/witness/opentimestamps/wire.go:301-315 | every LEB128 form, overlong ones included, is read for the number it stands for |
| `OtsRoundTrip.ReadIsLEB128` | internal/witness/opentimestamps/wire.go:301-315 | nothing else is read |
| `OtsRoundTrip.OpRoundTrip` | internal/witness/opentimestamps/wire.go:68-88 | every supported operation is read back and its tag is neither the fork marker nor the attestation tag |
| `OtsRoundTrip.AttestationRoundTrip` | internal/witness/opentimestamps/wire.go:101-143 | every attestation with an 8-byte tag and only that tag's fields is read back |
| `OtsRoundTrip.AttestationIsRead` | internal/witness/opentimestamps/wire.go:115-143 | an attestation is read if and only if its body is |
| `OtsRoundTrip.SurplusIsIgnored` | internal/witness/opentimestamps/wire.go:115-143 | bytes of the body beyond what the tag needs are ignored; an unknown tag keeps them all |
| `OtsRoundTrip.AppliedIs` | internal/witness/opentimestamps/wire.go:47-66 | append puts the argument after the message, prepend before it, and each hash operation gives that hash |
| `OtsRoundTrip.NodeRoundTrip` | internal/witness/opentimestamps/wire.go:158-224 | parsing a printed tree, whatever follows, consumes exactly the tree and returns it with its messages recomputed |
| `OtsRoundTrip.ItemsRoundTrip` | internal/witness/opentimestamps/wire.go:181-224 | attestations and operations are accepted in any order, every one but the last behind a fork marker; each kind keeps its own order |
| `OtsRoundTrip.WireExample` | internal/witness/opentimestamps/wire.go:158-224 | the bytes of a tree with a pending attestation and a Bitcoin one behind an append, in both directions |
| `OtsRoundTrip.CoherentRoundTrip` | internal/witness/opentimestamps/wire.go:158-224 | a coherent tree is read back unchanged, and no other coherent tree with its message prints the same |
| `OtsRoundTrip.ParsedNode` | internal/witness/opentimestamps/wire.go:181-224 | every accepted tree has an edge at every node, supported operations and coherent messages; it is read off the front of the input and prints no longer |
| `OtsRoundTrip.Canonicalisation` | internal/witness/opentimestamps/wire.go:158-224 | printing any accepted tree gives bytes that parse to the same tree and are no longer than those consumed |
| `OtsRoundTrip.FileRoundTrip` | internal/witness/opentimestamps/wire.go:232-270 | a printed proof file parses back to itself, whatever follows |
| `OtsRoundTrip.AnyVersion` | internal/witness/opentimestamps/wire.go:242-270 | any version in any LEB128 form is accepted, and any hash operation but SHA-256 refused |
| `OtsRoundTrip.FileCanonicalisation` | internal/witness/opentimestamps/wire.go:242-270 | any accepted file prints to a file, no longer, that parses to the same content |
| `OtsCodec.WriteVaruint` | internal/witness/opentimestamps/wire.go:274-280 | the loop appends the LEB128 form |
| `OtsCodec.SerializeOp` | internal/witness/opentimestamps/wire.go:68-73 | appends tag and, for append and prepend only, the argument |
| `OtsCodec.SerializeAttestation` | internal/witness/opentimestamps/wire.go:101-113 | appends tag and length-prefixed body, the body by tag |
| `OtsCodec.SerializeTimestamp` | internal/witness/opentimestamps/wire.go:158-179 | appends the printed tree: attestations, then operations, every edge but the last behind a fork marker |
| `OtsCodec.SerializeFile` | internal/witness/opentimestamps/wire.go:232-240 | header, version one, hash operation, digest and tree |
| `OtsCodec.OrShiftAdds` | internal/witness/opentimestamps/wire.go:309 | or-ing a shifted group into the 64-bit word is addition modulo 2^64, also when bits fall off the top |
| `OtsCodec.Reader.ReadN` | internal/witness/opentimestamps/wire.go:293-299 | exactly n bytes off the front, or failure |
| `OtsCodec.Reader.Varuint` | internal/witness/opentimestamps/wire.go:301-315 | the cursor loop reads the number modulo 2^64, overlong forms included |
| `OtsCodec.Reader.Varbytes` | internal/witness/opentimestamps/wire.go:317-323 | a length and as many bytes, or failure |
| `OtsCodec.DeserializeOp` | internal/witness/opentimestamps/wire.go:75-88 | reads what the operation needs and refuses other tags |
| `OtsCodec.DeserializeAttestation` | internal/witness/opentimestamps/wire.go:115-143 | reads tag and body, and ignores body bytes that the tag does not need |
| `OtsCodec.DeserializeOne` | internal/witness/opentimestamps/wire.go:183-202 | one edge: an attestation, or an operation and the subtree against its message |
| `OtsCodec.DeserializeTimestamp` | internal/witness/opentimestamps/wire.go:181-224 | recursion and loop compute the grammar's parse, leave the cursor after it, and terminate on the remaining bytes |
| `OtsCodec.ParseDetachedFile` | internal/witness/opentimestamps/wire.go:242-270 | header, any version, the hash operation, 32 digest bytes and a tree; bytes after it are ignored |
| `OtsNotary.FindAgreesWithCollect` | internal/witness/opentimestamps/notary.go:146-169 | the search succeeds if and only if the collected list has a Bitcoin attestation, and returns the first of them with a node that holds it |
| `OtsNotary.FirstBitcoinIsFirst` | internal/witness/opentimestamps/notary.go:155-162 | it is the first in collect order |
| `OtsNotary.HeldIsCollected` | internal/witness/opentimestamps/notary.go:146-153 | the collected list leaves out no attestation of any node |
| `OtsNotary.CollectedIsHeld` | internal/witness/opentimestamps/notary.go:146-153 | every collected attestation is held by some node |
| `OtsNotary.FoundByPath` | internal/witness/opentimestamps/notary.go:155-169 | the found node's message is the root message pushed through the operations on the way there |
| `OtsNotary.ParsedSteps` | internal/witness/opentimestamps/wire.go:181-224 | for every edge of every node of an accepted tree: the child's message is the parent's followed by the argument, the argument followed by it, or the named hash of it |
| `OtsNotary.WellFormedHasAttestation` | internal/witness/opentimestamps/notary.go:88-91 | every tree with an edge at each node has an attestation |
| `OtsNotary.Verify` | internal/witness/opentimestamps/notary.go:80-93 | accepts exactly parseable tokens for the id with an attestation |
| `OtsNotary.AcceptsExactly` | internal/witness/opentimestamps/notary.go:79-93 | a token is accepted if and only if it parses to the id: the attestation check never fails |
| `OtsNotary.AcceptedWithoutCalendar` | internal/witness/opentimestamps/notary.go:79-93 | a file that merely names a calendar is accepted for its 32-byte digest |
| `OtsNotary.PendingURIs` | internal/witness/opentimestamps/notary.go:96-108 | the URIs at exactly the positions of the pending attestations, in order |
| `OtsNotary.HasBitcoin` | internal/witness/opentimestamps/notary.go:111-122 | true if and only if the token parses and the search finds a Bitcoin attestation |
| `OtsNotary.VerifyBitcoin` | internal/witness/opentimestamps/notary.go:127-144 | the height, if proof, search and explorer agree |
| `OtsNotary.BitcoinVerdict` | internal/witness/opentimestamps/notary.go:124-144 | for every accepted proof: no height without a Bitcoin attestation, else that of the first one if and only if such a sequence of messages leads to a node that holds it and ends in the block's Merkle root |
| `OtsNotary.BitcoinBinding` | internal/witness/opentimestamps/notary.go:124-144 | a verified height means that a sequence of messages leads from the checkpoint id to that block's Merkle root, each the one before with an argument appended or prepended, or hashed with the named hash |
| `OtsNotary.Stamp` | internal/witness/opentimestamps/notary.go:43-77 | the token over all calendars that answered with a tree, or nothing if none did |
| `OtsNotary.MergeSplits` | internal/witness/opentimestamps/notary.go:54-66 | merging the answers of some calendars and then of others keeps the attestations and operations of both, in order |
| `OtsNotary.MergeOne` | internal/witness/opentimestamps/notary.go:54-66 | a calendar's answer is merged as it was parsed; one that is unreachable or does not parse adds nothing |
| `OtsNotary.AnswerIsKept` | internal/witness/opentimestamps/notary.go:54-77 | whatever an answering calendar attests, wherever in its tree, is among the attestations read back from the token |
| `OtsNotary.AnswersBelowNonce` | internal/witness/opentimestamps/notary.go:41-77 | in the token the answers hang below the nonce and a SHA-256 and nothing else, so what was submitted is the hash of the id with the nonce behind it |
| `OtsNotary.MergeIsGood` | internal/witness/opentimestamps/notary.go:54-69 | the merged node is coherent, and well-formed as soon as one calendar answered |
| `OtsNotary.StampVerifies` | internal/witness/opentimestamps/notary.go:43-93 | the assembled token parses back to exactly the merged tree, and is accepted for an id if and only if it is the stamped one |
| `OtsPanel.OpenTimestampsIsReliable` | internal/witness/opentimestamps/notary.go:43-93 | with 16 bytes of nonce and an answering calendar the notary accepts its own proof of every checkpoint id, and that proof is good for no other string |
| `OtsPanel.OpenTimestampsJoins` | internal/verify/verify.go:51-54 | it can join any panel on which its name is free, so the results about panels apply to it |
| `OtsPanel.OnlyDigests` | internal/witness/opentimestamps/wire.go:261-264 | it accepts no id that is not 32 bytes long |

## Left out

- ClickHouse, Postgres and S3: the log table, the working copy and the write-once store are abstract state; a call either has its whole effect or fails without any. A write that is reported as failed but was applied is not modelled.
- Runs.RunInvariant: runs with a working-copy write that fails right after a successful write-once write are excluded here and in honest completeness; `Runs.BaseInvariant` and tamper evidence cover them, and `TornWrite.TornWriteVerdict` decides one such crash followed by one run. More than one run after the crash, and concurrent anchoring runs, are not covered.
- Runs.HonestReport: the verifier's reload of at most 100000 rows (internal/verifylive/verifylive.go:64-87) and tenants without rows are outside the statement, which is about the store handed to the verifier.
- Evidence.TamperEvidence: nothing is promised about rows after the last anchored one.
- ChainStore.Store.Range: a last number more than one below the first, for which the original reserves room for a number of rows that has wrapped around, and a last number of 2^64 - 1, where its loop would not end, are excluded. `Countable` asks of every checkpoint read back that its range is not empty, because the original's rebuild fails on an empty one.
- Ingest.Sealer.SealBatch: sequence numbers reaching 2^64 are excluded; the original would wrap around.
- Anchor.Anchorer.AnchorTenant: the window size is unbounded, so `i + windowMax` does not overflow; the tenant's rows are kept in storage-key order, which stands for the ordered query.
- Anchor.Anchorer.AnchorAll: the list of tenants is an argument, in any order without repetition; failing to list them is not modelled.
- OtsCodec.Reader.Varbytes: a length beyond the remaining input fails; the original panics or runs out of memory first on huge lengths. The shift counter is unbounded.
- OtsCodec.DeserializeTimestamp: the node under construction is a value that each edge replaces, not a pointer.
- OtsNotary.Stamp: calendar answers, the nonce and unreachable calendars are arguments; the HTTP client, upgrading pending proofs and the explorer's byte order are not modelled.
- OtsPanel.OpenTimestamps: nonce and calendar answers are functions of the id, so stamping an id twice gives the same token; runs stamp each window once per notary. A call in which no calendar answers is a fault of the run.
- Verify.VerifyAll: rows are values, so the aliasing of row pointers between store and caller is not modelled; an in-place sort or filter is a new list in the table.
- Witness.MockNotary: the keyed hash is a parameter; that it tells the ids in question apart is not provable and not assumed. `Witness.Genuine` states it, for the ids in question only, where a result needs it.
- The loop bodies of the verifier's checkpoint loop, the anchorer's window loop, the Merkle level loop and the sealer's batch loop are methods of their own.
- The cached heads of both sealers are values in the map, not pointers to records in it.
- RFC 3161 tokens, SHA-1, RIPEMD-160 and HMAC: parameters.
- JSON and hex encodings, HTTP handlers, authentication, configuration, dashboards, search queries and printing: only easy properties.
- The wording of issues and errors.
