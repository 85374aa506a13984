/** Checkpoints: the commitment to a contiguous window of a tenant's chain. */
module Checkpoints {
  import opened Bytes
  import opened Hashing
  import opened Canonical
  import opened Chain
  import opened Merkle
  import opened MerkleBinding

  datatype Checkpoint = Checkpoint(tenantID: Blob, seqStart: uint64, seqEnd: uint64, entryCount: uint64,
                                   headHash: Blob, merkleRoot: Blob, prevCheckpointHash: Blob,
                                   anchoredAt: int64, canonVersion: uint64, checkpointID: Blob)

  function EntryHashes(entries: seq<Entry>): (hashes: seq<Blob>)
    ensures |hashes| == |entries|
    ensures forall i :: 0 <= i < |entries| ==> hashes[i] == entries[i].entryHash
  {
    seq(|entries|, i requires 0 <= i < |entries| => entries[i].entryHash)
  }

  /** The string whose hash is the id of a checkpoint over `entries`. */
  function IDString(h: Hasher, tenant: Blob, entries: seq<Entry>, prev: Blob, anchoredAt: int64): bytes
    requires 0 < |entries| < TWO_TO_THE_64
  {
    var last := entries[|entries| - 1];
    Encode(CheckpointFields(tenant, entries[0].seqNo, last.seqNo, |entries|, last.entryHash,
                            MerkleRoot(h, EntryHashes(entries)), prev, anchoredAt))
  }

  function Build(h: Hasher, tenant: Blob, entries: seq<Entry>, prev: Blob, anchoredAt: int64): (cp: Checkpoint)
    requires 0 < |entries| < TWO_TO_THE_64
    ensures cp.tenantID == tenant && cp.checkpointID == h(IDString(h, tenant, entries, prev, anchoredAt))
  {
    var last := entries[|entries| - 1];
    var root := MerkleRoot(h, EntryHashes(entries));
    Checkpoint(tenant, entries[0].seqNo, last.seqNo, |entries|, last.entryHash, root, prev, anchoredAt, CANON_VERSION,
               CheckpointID(h, tenant, entries[0].seqNo, last.seqNo, |entries|, last.entryHash, root, prev, anchoredAt))
  }

  /** `checkpoint.Build`: collects the entry hashes and commits to them. */
  method BuildCheckpoint(h: Hasher, tenantID: Blob, entries: seq<Entry>, prevCheckpointID: Blob, anchoredAt: int64)
    returns (cp: Checkpoint)
    requires 0 < |entries| < TWO_TO_THE_64
    ensures cp == Build(h, tenantID, entries, prevCheckpointID, anchoredAt)
  {
    hide Encode;
    var hashes := new Blob[|entries|];
    for i := 0 to |entries|
      invariant hashes[..i] == EntryHashes(entries)[..i]
    {
      hashes[i] := entries[i].entryHash;
    }
    assert hashes[..] == EntryHashes(entries);
    var seqStart := entries[0].seqNo;
    var seqEnd := entries[|entries| - 1].seqNo;
    var headHash := entries[|entries| - 1].entryHash;
    var merkleRoot, _, _, _ := ComputeMerkleRoot(h, hashes[..]);
    var count := |entries|;
    var id := SumCheckpointID(h, tenantID, seqStart, seqEnd, count, headHash, merkleRoot, prevCheckpointID, anchoredAt);
    cp := Checkpoint(tenantID, seqStart, seqEnd, count, headHash, merkleRoot, prevCheckpointID, anchoredAt,
                     CANON_VERSION, id);
  }

  /** The document commits to what it says: its id is that of its own fields, and its head and root are those of
      the window. */
  lemma BuildCommits(h: Hasher, tenant: Blob, entries: seq<Entry>, prev: Blob, at: int64)
    requires 0 < |entries| < TWO_TO_THE_64
    ensures var cp := Build(h, tenant, entries, prev, at);
            && cp.checkpointID == CheckpointID(h, cp.tenantID, cp.seqStart, cp.seqEnd, cp.entryCount, cp.headHash,
                                               cp.merkleRoot, cp.prevCheckpointHash, cp.anchoredAt)
            && cp.canonVersion == CANON_VERSION && cp.entryCount == |entries|
            && cp.seqStart == entries[0].seqNo && cp.seqEnd == entries[|entries| - 1].seqNo
            && cp.prevCheckpointHash == prev && cp.anchoredAt == at
            && cp.headHash == EntryHashes(entries)[|entries| - 1]
            && cp.merkleRoot == Root(h, TreeOf(EntryHashes(entries)))
  {
    hide Encode, MerkleRoot, Reduce;
    MerkleRootIsTreeRoot(h, EntryHashes(entries));
  }

  /** An id fixes the window: first and last number, count, head hash, root, predecessor and time. */
  lemma IDBinds(h: Hasher, tenant: Blob, a: seq<Entry>, p: Blob, at: int64,
                tenant': Blob, b: seq<Entry>, p': Blob, at': int64)
    requires 0 < |a| < TWO_TO_THE_64 && 0 < |b| < TWO_TO_THE_64
    requires CollisionFree(h, [IDString(h, tenant, a, p, at), IDString(h, tenant', b, p', at')])
    requires Build(h, tenant, a, p, at).checkpointID == Build(h, tenant', b, p', at').checkpointID
    ensures tenant == tenant' && |a| == |b| && p == p' && at == at'
    ensures a[0].seqNo == b[0].seqNo && a[|a| - 1].seqNo == b[|b| - 1].seqNo
    ensures a[|a| - 1].entryHash == b[|b| - 1].entryHash
    ensures MerkleRoot(h, EntryHashes(a)) == MerkleRoot(h, EntryHashes(b))
  {
    hide Encode, MerkleRoot;
    var x, y := IDString(h, tenant, a, p, at), IDString(h, tenant', b, p', at');
    assert x in [x, y] && y in [x, y] && h(x) == h(y);
    CheckpointInjective(
      tenant, a[0].seqNo, a[|a| - 1].seqNo, |a|, a[|a| - 1].entryHash, MerkleRoot(h, EntryHashes(a)), p, at,
      tenant', b[0].seqNo, b[|b| - 1].seqNo, |b|, b[|b| - 1].entryHash, MerkleRoot(h, EntryHashes(b)), p', at');
  }

  /** The whole hash column of the window, too, once the strings of both Merkle trees do not collide. */
  lemma IDBindsHashColumn(h: Hasher, tenant: Blob, a: seq<Entry>, p: Blob, at: int64, b: seq<Entry>, p': Blob,
                          at': int64)
    requires 0 < |a| < TWO_TO_THE_64 && 0 < |b| < TWO_TO_THE_64
    requires CollisionFree(h, [IDString(h, tenant, a, p, at), IDString(h, tenant, b, p', at')]
                              + (RootTrail(h, EntryHashes(a)) + RootTrail(h, EntryHashes(b))))
    requires Build(h, tenant, a, p, at).checkpointID == Build(h, tenant, b, p', at').checkpointID
    ensures EntryHashes(a) == EntryHashes(b)
  {
    hide Encode, MerkleRoot, RootTrail, IDString;
    var trail := [IDString(h, tenant, a, p, at), IDString(h, tenant, b, p', at')]
                 + (RootTrail(h, EntryHashes(a)) + RootTrail(h, EntryHashes(b)));
    CollisionFreeSubset(h, [IDString(h, tenant, a, p, at), IDString(h, tenant, b, p', at')], trail);
    CollisionFreeSubset(h, RootTrail(h, EntryHashes(a)) + RootTrail(h, EntryHashes(b)), trail);
    IDBinds(h, tenant, a, p, at, tenant, b, p', at');
    MerkleBindsList(h, EntryHashes(a), EntryHashes(b));
  }

  /** Repeating the last row of an odd window keeps the Merkle root but not the id. */
  lemma DuplicatedLastChangesID(h: Hasher, tenant: Blob, a: seq<Entry>, p: Blob, at: int64, b: seq<Entry>)
    requires 3 <= |a| < TWO_TO_THE_64 - 1 && |a| % 2 == 1
    requires |b| == |a| + 1 && b[..|a|] == a && b[|a|].entryHash == a[|a| - 1].entryHash
    requires CollisionFree(h, [IDString(h, tenant, a, p, at), IDString(h, tenant, b, p, at)])
    ensures Build(h, tenant, a, p, at).merkleRoot == Build(h, tenant, b, p, at).merkleRoot
    ensures Build(h, tenant, a, p, at).checkpointID != Build(h, tenant, b, p, at).checkpointID
  {
    hide Encode;
    DuplicatedLastKeepsRoot(h, EntryHashes(a));
    assert EntryHashes(b) == EntryHashes(a) + [EntryHashes(a)[|a| - 1]];
    if Build(h, tenant, a, p, at).checkpointID == Build(h, tenant, b, p, at).checkpointID {
      IDBinds(h, tenant, a, p, at, tenant, b, p, at);
      assert false;
    }
  }
}
