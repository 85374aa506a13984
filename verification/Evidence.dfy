/** What a report proves about the rows it was computed from. */
module Evidence {
  import opened Bytes
  import opened Hashing
  import opened Canonical
  import opened Chain
  import opened ChainStore
  import opened Merkle
  import opened Checkpoints
  import opened Witness
  import opened Verify
  import opened Tiling

  // ---- Chain replay ----

  /** Replay is silent exactly on gap-free chains from genesis, and then it has checked every row. */
  lemma {:induction false} ReplayCleanIffLinked(h: Hasher, tenant: Blob, es: seq<Entry>, i: nat)
    requires i <= |es| < TWO_TO_THE_64
    ensures ReplayFrom(h, tenant, es, i).Silent() <==> forall k :: i <= k < |es| ==> LinkedAt(h, tenant, es, k)
    ensures ReplayFrom(h, tenant, es, i).Silent() ==> ReplayFrom(h, tenant, es, i) == Tally([], |es| - i, 0, 0)
    decreases |es| - i
  {
    hide LinkedAt, FaultAt, Tally.Silent;
    SilentIsEmpty(ReplayFrom(h, tenant, es, i));
    if i < |es| {
      ReplayCleanIffLinked(h, tenant, es, i + 1);
      SilentIsEmpty(ReplayFrom(h, tenant, es, i + 1));
    }
  }

  /** Otherwise it reports exactly one issue, at the least row where the chain fails. */
  lemma {:induction false} ReplayPinpoints(h: Hasher, tenant: Blob, es: seq<Entry>, i: nat, k: nat)
    requires i <= k < |es| < TWO_TO_THE_64
    requires forall j :: i <= j < k ==> LinkedAt(h, tenant, es, j)
    requires !LinkedAt(h, tenant, es, k)
    ensures ReplayFrom(h, tenant, es, i)
         == Tally([Issue(tenant, k, true, FaultAt(h, tenant, es, k).value)], k + 1 - i, 0, 0)
    decreases k - i
  {
    hide LinkedAt;
    if i < k { ReplayPinpoints(h, tenant, es, i + 1, k); }
  }

  lemma LinkedReplays(h: Hasher, tenant: Blob, log: seq<Entry>)
    requires Linked(h, tenant, log) && |log| < TWO_TO_THE_64
    ensures ReplayFrom(h, tenant, log, 0) == Tally([], |log|, 0, 0)
  {
    hide LinkedAt, ReplayFrom;
    ReplayCleanIffLinked(h, tenant, log, 0);
  }

  /** The strings hashed for row `k` before and after an edit of its committed fields. */
  function EditTrail(h: Hasher, tenant: Blob, prev: Blob, before: Entry, after: Entry): seq<bytes> {
    [LeafString(tenant, before), LeafString(tenant, after),
     prev + LeafOf(h, tenant, before), prev + LeafOf(h, tenant, after)]
  }

  /** A row whose committed payload was overwritten. */
  function Edited(e: Entry, r: Record): (e': Entry)
    ensures e'.Payload() == r && e'.seqNo == e.seqNo && e'.tenantID == e.tenantID
    ensures e'.prevHash == e.prevHash && e'.entryHash == e.entryHash
  {
    e.(source := r.source, raw := r.raw, eventTime := r.eventTime, ingestTime := r.ingestTime)
  }

  /** An edit that leaves the chain columns alone is reported as tampering with exactly that row. */
  lemma NaiveEditCaught(h: Hasher, tenant: Blob, es: seq<Entry>, k: nat, r: Record)
    requires k < |es| < TWO_TO_THE_64 && Linked(h, tenant, es) && r != es[k].Payload()
    requires CollisionFree(h, EditTrail(h, tenant, PrevAt(h, tenant, es, k), es[k], Edited(es[k], r)))
    ensures ReplayFrom(h, tenant, es[k := Edited(es[k], r)], 0)
         == Tally([Issue(tenant, k, true, EntryTamper)], k + 1, 0, 0)
  {
    hide Encode;
    var before, after, prev := es[k], Edited(es[k], r), PrevAt(h, tenant, es, k);
    var es' := es[k := after];
    forall j | 0 <= j < k ensures LinkedAt(h, tenant, es', j) { assert LinkedAt(h, tenant, es, j); }
    assert LinkedAt(h, tenant, es, k);
    var trail := EditTrail(h, tenant, prev, before, after);
    assert trail[0] in trail && trail[1] in trail && trail[2] in trail && trail[3] in trail;
    if before.entryHash == ChainHash(h, prev, LeafOf(h, tenant, after)) {
      assert LeafOf(h, tenant, before) == trail[2][|prev|..] == trail[3][|prev|..] == LeafOf(h, tenant, after);
      EntryInjective(tenant, before.seqNo, before.eventTime, before.ingestTime, before.source, before.raw,
                     tenant, after.seqNo, after.eventTime, after.ingestTime, after.source, after.raw);
      assert false;
    }
    assert FaultAt(h, tenant, es', k) == Some(EntryTamper);
    ReplayPinpoints(h, tenant, es', 0, k);
  }

  /** Deleting rows `k..m` from the body of a chain is reported as a gap at exactly `k`. */
  lemma DeletionIsGap(h: Hasher, tenant: Blob, es: seq<Entry>, k: nat, m: nat)
    requires k < m < |es| < TWO_TO_THE_64 && Linked(h, tenant, es)
    ensures ReplayFrom(h, tenant, es[..k] + es[m..], 0) == Tally([Issue(tenant, k, true, SequenceGap)], k + 1, 0, 0)
  {
    hide Encode;
    var es' := es[..k] + es[m..];
    forall j | 0 <= j < k ensures LinkedAt(h, tenant, es', j) { assert LinkedAt(h, tenant, es, j); }
    assert LinkedAt(h, tenant, es, m) && es'[k] == es[m];
    assert FaultAt(h, tenant, es', k) == Some(SequenceGap);
    ReplayPinpoints(h, tenant, es', 0, k);
  }

  /** A row that links elsewhere is reported as a break at exactly that row. */
  lemma RelinkIsBreak(h: Hasher, tenant: Blob, es: seq<Entry>, k: nat, prev: Blob)
    requires k < |es| < TWO_TO_THE_64 && Linked(h, tenant, es) && prev != es[k].prevHash
    ensures ReplayFrom(h, tenant, es[k := es[k].(prevHash := prev)], 0)
         == Tally([Issue(tenant, k, true, ChainBreak)], k + 1, 0, 0)
  {
    hide Encode;
    var es' := es[k := es[k].(prevHash := prev)];
    forall j | 0 <= j < k ensures LinkedAt(h, tenant, es', j) { assert LinkedAt(h, tenant, es, j); }
    assert LinkedAt(h, tenant, es, k) && PrevAt(h, tenant, es', k) == PrevAt(h, tenant, es, k);
    assert FaultAt(h, tenant, es', k) == Some(ChainBreak);
    ReplayPinpoints(h, tenant, es', 0, k);
  }

  /** A whole chain filed under another tenant is a break at its first row, or the two tenants' genesis strings
      collide. */
  lemma ForeignChainBreaks(h: Hasher, tenant: Blob, other: Blob, es: seq<Entry>)
    requires Linked(h, tenant, es) && 0 < |es| < TWO_TO_THE_64 && other != tenant
    requires CollisionFree(h, [Encode(GenesisFields(tenant)), Encode(GenesisFields(other))])
    ensures ReplayFrom(h, other, es, 0) == Tally([Issue(other, 0, true, ChainBreak)], 1, 0, 0)
  {
    hide Encode;
    GenesisBindsTenant(h, tenant, other);
    assert LinkedAt(h, tenant, es, 0);
    assert FaultAt(h, other, es, 0) == Some(ChainBreak);
    ReplayPinpoints(h, other, es, 0, 0);
  }

  // ---- Windows ----

  /** A report over windows is silent only if each window's report is. */
  lemma {:induction false} WindowsCleanEach(h: Hasher, tenant: Blob, es: seq<Entry>, cps: seq<Checkpoint>, n: nat,
                                            k: nat, ledger: Ledger, notaries: Notaries)
    requires k < n <= |cps| && forall cp :: cp in cps ==> Countable(cp)
    requires WindowsTally(h, tenant, es, cps, n, ledger, notaries).Silent()
    ensures WindowTally(h, tenant, es, cps[k], PrevID(cps, k), ledger, notaries).Silent()
    decreases n
  {
    hide WindowTally, Tally.Silent, Tally.Plus;
    SilentPlus(WindowsTally(h, tenant, es, cps, n - 1, ledger, notaries),
               WindowTally(h, tenant, es, cps[n - 1], PrevID(cps, n - 1), ledger, notaries));
    if k < n - 1 { WindowsCleanEach(h, tenant, es, cps, n - 1, k, ledger, notaries); }
  }

  /** A window over a gap-free chain is either present in full, and then rebuilt from the slice of the
      rows, or truncated, and then the first missing number is reported. */
  lemma WindowOnChain(h: Hasher, tenant: Blob, es: seq<Entry>, cp: Checkpoint, prev: Blob, ledger: Ledger,
                      notaries: Notaries)
    requires Numbered(es) && Countable(cp)
    ensures var w := WindowTally(h, tenant, es, cp, prev, ledger, notaries);
            if cp.seqEnd < |es| then
              var id := h(IDString(h, tenant, es[cp.seqStart..cp.seqEnd + 1], prev, cp.anchoredAt));
              var proofs := ProofTally(tenant, cp.seqEnd, id, Held(ledger, tenant, cp.seqEnd), notaries);
              w == Tally(if id == cp.checkpointID then [] else [Issue(tenant, cp.seqEnd, true, CheckpointMismatch)],
                         0, 1, 0)
                   .Plus(proofs)
            else
              w == Tally([Issue(tenant, if cp.seqStart <= |es| then |es| else cp.seqStart, true, Truncation)], 0, 1, 0)
  {
    hide RangeOf, IDString, ProofTally, Held;
    RangeNumbered(es, cp.seqStart, cp.seqEnd);
  }

  /** The strings that tie rows `0..end` of a chain to a checkpoint over `start..end`. */
  function WindowTrail(h: Hasher, tenant: Blob, es: seq<Entry>, start: nat, end: nat, prev: Blob, at: int64): seq<bytes>
    requires start <= end < |es| < TWO_TO_THE_64
  {
    ChainTrail(h, tenant, es, end + 1) + [IDString(h, tenant, es[start..end + 1], prev, at)]
  }

  /** Two chains, each with a checkpoint; if the ids agree, the windows end at the same row and the
      chains agree on every row up to it. */
  lemma IDBindsChain(h: Hasher, tenant: Blob, a: seq<Entry>, s: nat, e: nat, p: Blob, at: int64,
                     b: seq<Entry>, s': nat, e': nat, p': Blob, at': int64)
    requires s <= e < |a| < TWO_TO_THE_64 && s' <= e' < |b| < TWO_TO_THE_64
    requires Linked(h, tenant, a) && Linked(h, tenant, b)
    requires CollisionFree(h, WindowTrail(h, tenant, a, s, e, p, at) + WindowTrail(h, tenant, b, s', e', p', at'))
    requires h(IDString(h, tenant, a[s..e + 1], p, at)) == h(IDString(h, tenant, b[s'..e' + 1], p', at'))
    ensures s == s' && e == e' && p == p' && at == at'
    ensures forall i :: 0 <= i <= e ==> SameRow(a[i], b[i])
  {
    hide Encode, IDString, ChainTrail, Build, MerkleRoot;
    var trail := WindowTrail(h, tenant, a, s, e, p, at) + WindowTrail(h, tenant, b, s', e', p', at');
    var u, v := IDString(h, tenant, a[s..e + 1], p, at), IDString(h, tenant, b[s'..e' + 1], p', at');
    CollisionFreeSubset(h, [u, v], trail);
    IDBinds(h, tenant, a[s..e + 1], p, at, tenant, b[s'..e' + 1], p', at');
    LinkedIsNumbered(h, tenant, a);
    LinkedIsNumbered(h, tenant, b);
    assert e == a[s..e + 1][e - s].seqNo && e' == b[s'..e' + 1][e' - s'].seqNo;
    assert s == a[s..e + 1][0].seqNo && s' == b[s'..e' + 1][0].seqNo;
    CollisionFreeSubset(h, ChainTrail(h, tenant, a, e + 1) + ChainTrail(h, tenant, b, e + 1), trail);
    ChainBinds(h, tenant, a, b, e);
  }

  // ---- Tamper evidence ----

  /** Rows `0..end` are all there, and equal to the original ones in every committed field and both hash
      columns. */
  ghost predicate OriginalUpTo(es: seq<Entry>, log: seq<Entry>, end: nat) {
    end < |es| && end < |log| && forall i :: 0 <= i <= end ==> SameRow(es[i], log[i])
  }

  lemma CleanTenant(h: Hasher, tenant: Blob, es: seq<Entry>, cps: seq<Checkpoint>, ledger: Ledger, notaries: Notaries)
    requires |es| < TWO_TO_THE_64 && Readable(Fetched(cps))
    requires TenantTally(h, tenant, es, Fetched(cps), ledger, notaries).Silent()
    ensures Linked(h, tenant, es)
    ensures forall n :: 0 <= n < |cps| ==> WindowTally(h, tenant, es, cps[n], PrevID(cps, n), ledger, notaries).Silent()
  {
    hide WindowTally, ReplayFrom, LinkedAt, Tally.Silent, Tally.Plus, WindowsTally;
    SilentPlus(ReplayFrom(h, tenant, es, 0), WindowsTally(h, tenant, es, cps, |cps|, ledger, notaries));
    ReplayCleanIffLinked(h, tenant, es, 0);
    forall n | 0 <= n < |cps| ensures WindowTally(h, tenant, es, cps[n], PrevID(cps, n), ledger, notaries).Silent() {
      WindowsCleanEach(h, tenant, es, cps, |cps|, n, ledger, notaries);
    }
  }

  /** A silent window over a chain is all there, rebuilds to the stored id, and no held proof objects. */
  lemma SilentWindowRebuilds(h: Hasher, tenant: Blob, es: seq<Entry>, cp: Checkpoint, prev: Blob, ledger: Ledger,
                             notaries: Notaries)
    requires Numbered(es) && Countable(cp) && WindowTally(h, tenant, es, cp, prev, ledger, notaries).Silent()
    ensures cp.seqEnd < |es|
    ensures h(IDString(h, tenant, es[cp.seqStart..cp.seqEnd + 1], prev, cp.anchoredAt)) == cp.checkpointID
    ensures ProofTally(tenant, cp.seqEnd, cp.checkpointID, Held(ledger, tenant, cp.seqEnd), notaries).Silent()
  {
    hide WindowTally, IDString, Held, ProofTally, Tally.Silent, Tally.Plus, Numbered;
    WindowOnChain(h, tenant, es, cp, prev, ledger, notaries);
    SilentIsEmpty(WindowTally(h, tenant, es, cp, prev, ledger, notaries));
    if cp.seqEnd < |es| {
      var id := h(IDString(h, tenant, es[cp.seqStart..cp.seqEnd + 1], prev, cp.anchoredAt));
      var first := Tally(if id == cp.checkpointID then [] else [Issue(tenant, cp.seqEnd, true, CheckpointMismatch)],
                         0, 1, 0);
      SilentPlus(first, ProofTally(tenant, cp.seqEnd, id, Held(ledger, tenant, cp.seqEnd), notaries));
      SilentIsEmpty(first);
    }
  }

  /** A silent report: the window is all there, rebuilds to the stored id, and no held proof objects. */
  lemma CleanWindowRebuilds(h: Hasher, tenant: Blob, es: seq<Entry>, cps: seq<Checkpoint>, n: nat,
                            ledger: Ledger, notaries: Notaries)
    requires |es| < TWO_TO_THE_64 && Readable(Fetched(cps)) && n < |cps| && Countable(cps[n])
    requires TenantTally(h, tenant, es, Fetched(cps), ledger, notaries).Silent()
    ensures Linked(h, tenant, es) && cps[n].seqEnd < |es|
    ensures h(IDString(h, tenant, es[cps[n].seqStart..cps[n].seqEnd + 1], PrevID(cps, n), cps[n].anchoredAt))
         == cps[n].checkpointID
    ensures ProofTally(tenant, cps[n].seqEnd, cps[n].checkpointID, Held(ledger, tenant, cps[n].seqEnd),
                       notaries).Silent()
  {
    hide TenantTally, WindowTally, IDString, Linked, Held, ProofTally, PrevID, Numbered, StrictBySeq, Readable,
         Tally.Silent;
    CleanTenant(h, tenant, es, cps, ledger, notaries);
    LinkedIsNumbered(h, tenant, es);
    SilentWindowRebuilds(h, tenant, es, cps[n], PrevID(cps, n), ledger, notaries);
  }

  /** The strings hashed on both sides of window `n`: by the honest past when it anchored the window, on the
      predecessor it then had, and by the verifier on the stored rows, on the predecessor listed now. */
  function AuditTrail(h: Hasher, tenant: Blob, log: seq<Entry>, cps: seq<Checkpoint>, n: nat, es: seq<Entry>)
    : seq<bytes>
    requires n < |cps| && |log| < TWO_TO_THE_64 && |es| < TWO_TO_THE_64
  {
    var cp := cps[n];
    var start, end, at := cp.seqStart, cp.seqEnd, cp.anchoredAt;
    (if start <= end < |log| then WindowTrail(h, tenant, log, start, end, cp.prevCheckpointHash, at) else [])
    + (if start <= end < |es| then WindowTrail(h, tenant, es, start, end, PrevID(cps, n), at) else [])
  }

  /** One silent window on a gap-free chain fixes every row up to its end. */
  lemma SilentWindowBinds(h: Hasher, tenant: Blob, log: seq<Entry>, cps: seq<Checkpoint>, n: nat,
                          es: seq<Entry>, ledger: Ledger, notaries: Notaries)
    requires Linked(h, tenant, log) && n < |cps| && BuiltFrom(h, tenant, log, cps[n])
    requires |es| < TWO_TO_THE_64 && Linked(h, tenant, es)
    requires Countable(cps[n]) && WindowTally(h, tenant, es, cps[n], PrevID(cps, n), ledger, notaries).Silent()
    requires CollisionFree(h, AuditTrail(h, tenant, log, cps, n, es))
    ensures OriginalUpTo(es, log, cps[n].seqEnd)
  {
    hide Encode, WindowTally, IDString, WindowTrail, Build, ProofTally, Linked, Tally.Silent, Held, Numbered,
         StrictBySeq;
    var cp, prev := cps[n], PrevID(cps, n);
    BuiltFromID(h, tenant, log, cp);
    LinkedIsNumbered(h, tenant, es);
    SilentWindowRebuilds(h, tenant, es, cp, prev, ledger, notaries);
    CollisionFreeSwap(h, WindowTrail(h, tenant, log, cp.seqStart, cp.seqEnd, cp.prevCheckpointHash, cp.anchoredAt),
                      WindowTrail(h, tenant, es, cp.seqStart, cp.seqEnd, prev, cp.anchoredAt));
    IDBindsChain(h, tenant, es, cp.seqStart, cp.seqEnd, prev, cp.anchoredAt,
                 log, cp.seqStart, cp.seqEnd, cp.prevCheckpointHash, cp.anchoredAt);
  }

  lemma CollisionFreeSwap(h: Hasher, a: seq<bytes>, b: seq<bytes>)
    requires CollisionFree(h, a + b)
    ensures CollisionFree(h, b + a)
  {
    CollisionFreeSubset(h, b + a, a + b);
  }

  /** The central claim. The last record of write-once storage was built from the original chain `log`, on any
      predecessor; the other records, the stored rows `es`, the ledger and the notaries are arbitrary. If the
      verifier reports nothing for the tenant, then every row up to the last anchored one is the original
      row, or the extractor reads two different strings with the same hash off the two histories. */
  lemma TamperEvidence(h: Hasher, tenant: Blob, log: seq<Entry>, cps: seq<Checkpoint>,
                       es: seq<Entry>, ledger: Ledger, notaries: Notaries)
    requires Linked(h, tenant, log) && cps != [] && BuiltFrom(h, tenant, log, cps[|cps| - 1])
    requires |es| < TWO_TO_THE_64 && Readable(Fetched(cps))
    requires TenantTally(h, tenant, es, Fetched(cps), ledger, notaries).Silent()
    ensures var c := FindCollision(h, AuditTrail(h, tenant, log, cps, |cps| - 1, es));
            if c.Some? then Collision(h, c.value.0, c.value.1) else OriginalUpTo(es, log, cps[|cps| - 1].seqEnd)
  {
    hide WindowTally, AuditTrail, TenantTally, Linked, SameRow, Build, Tally.Silent;
    if FindCollision(h, AuditTrail(h, tenant, log, cps, |cps| - 1, es)).None? {
      CleanTenant(h, tenant, es, cps, ledger, notaries);
      BuiltFromID(h, tenant, log, cps[|cps| - 1]);
      SilentWindowBinds(h, tenant, log, cps, |cps| - 1, es, ledger, notaries);
    }
  }

  /** In particular when storage holds the linked checkpoints of a tiling. */
  lemma TilesTamperEvidence(h: Hasher, tenant: Blob, log: seq<Entry>, max: nat, cps: seq<Checkpoint>,
                            es: seq<Entry>, ledger: Ledger, notaries: Notaries)
    requires Linked(h, tenant, log) && Tiles(h, tenant, log, max, cps) && cps != []
    requires |es| < TWO_TO_THE_64 && Readable(Fetched(cps))
    requires TenantTally(h, tenant, es, Fetched(cps), ledger, notaries).Silent()
    ensures var c := FindCollision(h, AuditTrail(h, tenant, log, cps, |cps| - 1, es));
            if c.Some? then Collision(h, c.value.0, c.value.1) else OriginalUpTo(es, log, cps[|cps| - 1].seqEnd)
  {
    hide AuditTrail, TenantTally, Linked, SameRow, Tally.Silent, Tiles, Readable, FindCollision, BuiltFrom;
    LinkedIsNumbered(h, tenant, log);
    TileIsBuilt(h, tenant, log, max, cps, |cps| - 1);
    TamperEvidence(h, tenant, log, cps, es, ledger, notaries);
  }
}
