/** Checkpoints that tile a prefix of a chain, and how windows read back from stored rows. */
module Tiling {
  import opened Bytes
  import opened Hashing
  import opened Chain
  import opened ChainStore
  import opened Checkpoints
  import opened Verify

  /** Where window `n` has to start. */
  function NextStart(cps: seq<Checkpoint>, n: nat): nat
    requires n <= |cps|
  {
    if n == 0 then 0 else cps[n - 1].seqEnd + 1
  }

  /** Window `n` starts where the previous one ended, has between one and `max` rows, and its checkpoint
      is the one built from those rows on top of the previous id. */
  ghost predicate WindowAt(h: Hasher, tenant: Blob, log: seq<Entry>, max: nat, cps: seq<Checkpoint>, n: nat)
    requires n < |cps| && |log| < TWO_TO_THE_64
  {
    var start, end := NextStart(cps, n), cps[n].seqEnd;
    && start <= end < |log| && end + 1 - start <= max
    && cps[n] == Build(h, tenant, log[start..end + 1], PrevID(cps, n), cps[n].anchoredAt)
  }

  ghost predicate Tiles(h: Hasher, tenant: Blob, log: seq<Entry>, max: nat, cps: seq<Checkpoint>) {
    |log| < TWO_TO_THE_64 && forall n :: 0 <= n < |cps| ==> WindowAt(h, tenant, log, max, cps, n)
  }

  lemma LinkedIsNumbered(h: Hasher, tenant: Blob, es: seq<Entry>)
    requires Linked(h, tenant, es)
    ensures Numbered(es) && StrictBySeq(es)
  {
    hide Linked;
    LinkedNumbered(h, tenant, es);
  }

  lemma LastAtNumbered(es: seq<Entry>, n: uint64)
    requires Numbered(es)
    ensures LastAt(es, n) == if n < |es| then Some(es[n]) else None
  {
    hide LastAt;
    if n < |es| { assert es[n] in es; }
  }

  /** On a gap-free chain, `Range` is a slice of the sorted rows; past the end it reports the first
      missing number. */
  lemma RangeNumbered(es: seq<Entry>, start: nat, end: uint64)
    requires Numbered(es) && start <= end
    ensures RangeOf(es, start, end) ==
            if end < |es| then (es[start..end + 1], true)
            else if start <= |es| then (es[start..], false) else ([], false)
  {
    hide LastAt;
    forall n: uint64 ensures LastAt(es, n) == if n < |es| then Some(es[n]) else None { LastAtNumbered(es, n); }
    var out := if end < |es| then es[start..end + 1] else if start <= |es| then es[start..] else [];
    RangeIsDetermined(es, start, end, out, end < |es|);
  }

  lemma TilesCountable(h: Hasher, tenant: Blob, log: seq<Entry>, max: nat, cps: seq<Checkpoint>)
    requires Tiles(h, tenant, log, max, cps) && Numbered(log)
    ensures forall n :: 0 <= n < |cps| ==> cps[n].seqStart == NextStart(cps, n) && Countable(cps[n])
    ensures Readable(Fetched(cps))
  {
    hide Build;
    forall n | 0 <= n < |cps| ensures cps[n].seqStart == NextStart(cps, n) && Countable(cps[n]) {
      assert WindowAt(h, tenant, log, max, cps, n);
      BuildFields(h, tenant, log[NextStart(cps, n)..cps[n].seqEnd + 1], PrevID(cps, n), cps[n].anchoredAt);
    }
  }

  lemma BuildFields(h: Hasher, tenant: Blob, entries: seq<Entry>, prev: Blob, at: int64)
    requires 0 < |entries| < TWO_TO_THE_64
    ensures var cp := Build(h, tenant, entries, prev, at);
            && cp.tenantID == tenant && cp.seqStart == entries[0].seqNo && cp.seqEnd == entries[|entries| - 1].seqNo
            && cp.entryCount == |entries| && cp.prevCheckpointHash == prev && cp.anchoredAt == at
            && |cp.checkpointID| == 32
  {
  }

  /** The rows of a window hash to its id. */
  lemma WindowRebuilds(h: Hasher, tenant: Blob, log: seq<Entry>, max: nat, cps: seq<Checkpoint>, n: nat)
    requires Tiles(h, tenant, log, max, cps) && Numbered(log) && n < |cps|
    ensures NextStart(cps, n) == cps[n].seqStart <= cps[n].seqEnd < |log| && Countable(cps[n])
    ensures h(IDString(h, tenant, log[cps[n].seqStart..cps[n].seqEnd + 1], PrevID(cps, n), cps[n].anchoredAt))
         == cps[n].checkpointID
  {
    hide Build, IDString;
    assert WindowAt(h, tenant, log, max, cps, n);
    TilesCountable(h, tenant, log, max, cps);
  }

  /** The checkpoint was built from rows of the log, on top of whatever predecessor it names. */
  ghost predicate BuiltFrom(h: Hasher, tenant: Blob, log: seq<Entry>, cp: Checkpoint) {
    && cp.seqStart <= cp.seqEnd < |log| < TWO_TO_THE_64
    && cp == Build(h, tenant, log[cp.seqStart..cp.seqEnd + 1], cp.prevCheckpointHash, cp.anchoredAt)
  }

  lemma BuiltFromID(h: Hasher, tenant: Blob, log: seq<Entry>, cp: Checkpoint)
    requires BuiltFrom(h, tenant, log, cp)
    ensures cp.seqStart <= cp.seqEnd < |log| < TWO_TO_THE_64 && Countable(cp) && |cp.checkpointID| == 32
    ensures cp.checkpointID
         == h(IDString(h, tenant, log[cp.seqStart..cp.seqEnd + 1], cp.prevCheckpointHash, cp.anchoredAt))
  {
    hide Build, IDString;
    BuildFields(h, tenant, log[cp.seqStart..cp.seqEnd + 1], cp.prevCheckpointHash, cp.anchoredAt);
  }

  lemma BuiltFromGrows(h: Hasher, tenant: Blob, log: seq<Entry>, log': seq<Entry>, cp: Checkpoint)
    requires BuiltFrom(h, tenant, log, cp) && log <= log' && |log'| < TWO_TO_THE_64
    ensures BuiltFrom(h, tenant, log', cp)
  {
    hide Build;
    assert log' == log + log'[|log|..];
    SliceOfPrefix(log, log'[|log|..], cp.seqStart, cp.seqEnd + 1);
  }

  lemma BuildIsBuilt(h: Hasher, tenant: Blob, log: seq<Entry>, start: nat, end: nat, prev: Blob, at: int64,
                     cp: Checkpoint)
    requires Numbered(log) && start <= end < |log| < TWO_TO_THE_64
    requires cp == Build(h, tenant, log[start..end + 1], prev, at)
    ensures BuiltFrom(h, tenant, log, cp)
    ensures cp.seqStart == start && cp.seqEnd == end && cp.prevCheckpointHash == prev && cp.anchoredAt == at
  {
    hide Build;
    BuiltEnd(h, tenant, log, start, end, prev, at);
    BuildFields(h, tenant, log[start..end + 1], prev, at);
  }

  /** The checkpoints of a tiling are built from the log, each on the id before it. */
  lemma TileIsBuilt(h: Hasher, tenant: Blob, log: seq<Entry>, max: nat, cps: seq<Checkpoint>, n: nat)
    requires Tiles(h, tenant, log, max, cps) && Numbered(log) && n < |cps|
    ensures BuiltFrom(h, tenant, log, cps[n])
    ensures cps[n].prevCheckpointHash == PrevID(cps, n) && cps[n].seqStart == NextStart(cps, n)
  {
    hide Build;
    assert WindowAt(h, tenant, log, max, cps, n);
    BuildIsBuilt(h, tenant, log, NextStart(cps, n), cps[n].seqEnd, PrevID(cps, n), cps[n].anchoredAt, cps[n]);
  }

  lemma TileIsDigest(h: Hasher, tenant: Blob, log: seq<Entry>, max: nat, cps: seq<Checkpoint>, n: nat)
    requires Tiles(h, tenant, log, max, cps) && n < |cps|
    ensures |cps[n].checkpointID| == 32
  {
    hide Build;
    assert WindowAt(h, tenant, log, max, cps, n);
    BuildFields(h, tenant, log[NextStart(cps, n)..cps[n].seqEnd + 1], PrevID(cps, n), cps[n].anchoredAt);
  }

  lemma SliceOfPrefix(a: seq<Entry>, b: seq<Entry>, start: nat, end: nat)
    requires start <= end <= |a|
    ensures (a + b)[start..end] == a[start..end]
  {
  }

  /** Growing the log keeps the tiling. */
  lemma TilesGrow(h: Hasher, tenant: Blob, log: seq<Entry>, more: seq<Entry>, max: nat, cps: seq<Checkpoint>)
    requires Tiles(h, tenant, log, max, cps) && |log + more| < TWO_TO_THE_64
    ensures Tiles(h, tenant, log + more, max, cps)
  {
    hide Build;
    forall n | 0 <= n < |cps| ensures WindowAt(h, tenant, log + more, max, cps, n) {
      assert WindowAt(h, tenant, log, max, cps, n);
      var start, end := NextStart(cps, n), cps[n].seqEnd;
      SliceOfPrefix(log, more, start, end + 1);
    }
  }

  lemma BuiltEnd(h: Hasher, tenant: Blob, log: seq<Entry>, start: nat, end: nat, prev: Blob, at: int64)
    requires Numbered(log) && start <= end < |log| < TWO_TO_THE_64
    ensures Build(h, tenant, log[start..end + 1], prev, at).seqStart == start
    ensures Build(h, tenant, log[start..end + 1], prev, at).seqEnd == end
  {
    hide Build;
    BuildFields(h, tenant, log[start..end + 1], prev, at);
  }

  lemma AppendKeepsPrefix(cps: seq<Checkpoint>, cp: Checkpoint, n: nat)
    requires n <= |cps|
    ensures PrevID(cps + [cp], n) == PrevID(cps, n) && NextStart(cps + [cp], n) == NextStart(cps, n)
  {
  }

  /** One more window. */
  lemma TilesAppend(h: Hasher, tenant: Blob, log: seq<Entry>, max: nat, cps: seq<Checkpoint>, cp: Checkpoint)
    requires Tiles(h, tenant, log, max, cps)
    requires NextStart(cps, |cps|) <= cp.seqEnd < |log| && cp.seqEnd + 1 - NextStart(cps, |cps|) <= max
    requires cp == Build(h, tenant, log[NextStart(cps, |cps|)..cp.seqEnd + 1], PrevID(cps, |cps|), cp.anchoredAt)
    ensures Tiles(h, tenant, log, max, cps + [cp])
    ensures NextStart(cps + [cp], |cps| + 1) == cp.seqEnd + 1 && PrevID(cps + [cp], |cps| + 1) == cp.checkpointID
  {
    hide Build, PrevID, NextStart;
    var cps' := cps + [cp];
    AppendKeepsPrefix(cps, cp, |cps|);
    forall n | 0 <= n < |cps'| ensures WindowAt(h, tenant, log, max, cps', n) {
      if n < |cps| {
        AppendKeepsPrefix(cps, cp, n);
        assert WindowAt(h, tenant, log, max, cps, n) && cps'[n] == cps[n];
      }
    }
    AppendLast(cps, cp);
  }

  lemma AppendLast(cps: seq<Checkpoint>, cp: Checkpoint)
    ensures NextStart(cps + [cp], |cps| + 1) == cp.seqEnd + 1 && PrevID(cps + [cp], |cps| + 1) == cp.checkpointID
  {
  }

  /** Later windows end later. */
  lemma {:induction false} TilesAscend(h: Hasher, tenant: Blob, log: seq<Entry>, max: nat, cps: seq<Checkpoint>, i: nat,
                                       j: nat)
    requires Tiles(h, tenant, log, max, cps) && i < j < |cps|
    ensures cps[i].seqEnd < cps[j].seqEnd
    decreases j
  {
    hide Build;
    assert WindowAt(h, tenant, log, max, cps, j);
    if i < j - 1 { TilesAscend(h, tenant, log, max, cps, i, j - 1); }
  }
}
