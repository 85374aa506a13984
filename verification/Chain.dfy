/** Log entries and the per-tenant hash chain. */
module Chain {
  import opened Bytes
  import opened Hashing
  import opened Canonical

  /** One raw log line handed to a sealer. */
  datatype Record = Record(source: Blob, raw: Blob, eventTime: int64, ingestTime: int64)

  /** A stored row: the committed fields and the two chain columns. */
  datatype Entry = Entry(tenantID: Blob, seqNo: uint64, eventTime: int64, ingestTime: int64,
                         source: Blob, raw: Blob, prevHash: Blob, entryHash: Blob)
  {
    function Payload(): Record {
      Record(source, raw, eventTime, ingestTime)
    }
  }

  /** Equal in everything but the tenant column, which is the key the row is stored under. */
  predicate SameRow(a: Entry, b: Entry) {
    a.(tenantID := b.tenantID) == b
  }

  function LeafString(tenant: Blob, e: Entry): bytes {
    Encode(EntryFields(tenant, e.seqNo, e.eventTime, e.ingestTime, e.source, e.raw))
  }

  function LeafOf(h: Hasher, tenant: Blob, e: Entry): Digest {
    EntryLeaf(h, tenant, e.seqNo, e.eventTime, e.ingestTime, e.source, e.raw)
  }

  /** What `insiderReseal` writes into one row, and what sealing a fresh row computes. */
  function Reseal(h: Hasher, tenant: Blob, e: Entry, prev: Blob): Entry {
    e.(prevHash := prev, entryHash := ChainHash(h, prev, LeafOf(h, tenant, e)))
  }

  function SealOne(h: Hasher, tenant: Blob, n: uint64, prev: Blob, r: Record): Entry {
    Reseal(h, tenant, Entry(tenant, n, r.eventTime, r.ingestTime, r.source, r.raw, [], []), prev)
  }

  /** The rows for a batch of records, numbered from `n` and linked to `prev`. */
  function SealAll(h: Hasher, tenant: Blob, n: nat, prev: Blob, recs: seq<Record>): (es: seq<Entry>)
    requires n + |recs| < TWO_TO_THE_64
    ensures |es| == |recs|
    decreases |recs|
  {
    if recs == [] then []
    else
      var e := SealOne(h, tenant, n, prev, recs[0]);
      [e] + SealAll(h, tenant, n + 1, e.entryHash, recs[1..])
  }

  /** The whole chain for a list of records. */
  function Sealed(h: Hasher, tenant: Blob, recs: seq<Record>): (es: seq<Entry>)
    requires |recs| < TWO_TO_THE_64
    ensures |es| == |recs|
  {
    SealAll(h, tenant, 0, Genesis(h, tenant), recs)
  }

  /** The hash that entry `i` links to. */
  function PrevAt(h: Hasher, tenant: Blob, es: seq<Entry>, i: nat): Blob
    requires i <= |es|
  {
    if i == 0 then Genesis(h, tenant) else es[i - 1].entryHash
  }

  function HeadHash(h: Hasher, tenant: Blob, es: seq<Entry>): Blob {
    PrevAt(h, tenant, es, |es|)
  }

  predicate LinkedAt(h: Hasher, tenant: Blob, es: seq<Entry>, i: nat)
    requires i < |es|
  {
    es[i].seqNo == i && es[i] == Reseal(h, tenant, es[i], PrevAt(h, tenant, es, i))
  }

  /** The rows are a gap-free hash chain from the tenant's genesis. */
  ghost predicate Linked(h: Hasher, tenant: Blob, es: seq<Entry>) {
    forall i :: 0 <= i < |es| ==> LinkedAt(h, tenant, es, i)
  }

  ghost predicate Numbered(es: seq<Entry>) {
    forall i :: 0 <= i < |es| ==> es[i].seqNo == i
  }

  ghost predicate Owned(tenant: Blob, es: seq<Entry>) {
    forall e :: e in es ==> e.tenantID == tenant
  }

  function Payloads(es: seq<Entry>): (recs: seq<Record>)
    ensures |recs| == |es|
    ensures forall i :: 0 <= i < |es| ==> recs[i] == es[i].Payload()
  {
    seq(|es|, i requires 0 <= i < |es| => es[i].Payload())
  }

  // ---- Sealing makes chains, and only chains ----

  lemma SealAllFirst(h: Hasher, tenant: Blob, n: nat, prev: Blob, r: Record, recs: seq<Record>)
    requires n + 1 + |recs| < TWO_TO_THE_64
    ensures var e := SealOne(h, tenant, n, prev, r);
            SealAll(h, tenant, n, prev, [r] + recs) == [e] + SealAll(h, tenant, n + 1, e.entryHash, recs)
  {
    assert ([r] + recs)[1..] == recs;
  }

  /** Sealing `a + b` is sealing `a` and then sealing `b` from the new head. */
  lemma {:induction false} SealAllConcat(h: Hasher, tenant: Blob, n: nat, prev: Blob, a: seq<Record>, b: seq<Record>)
    requires n + |a| + |b| < TWO_TO_THE_64
    ensures var es := SealAll(h, tenant, n, prev, a);
            var head := if es == [] then prev else es[|es| - 1].entryHash;
            SealAll(h, tenant, n, prev, a + b) == es + SealAll(h, tenant, n + |a|, head, b)
    decreases |a|
  {
    hide SealOne, SealAll;
    SealAllNone(h, tenant, n, prev);
    if a == [] {
      assert a + b == b;
    } else {
      var e := SealOne(h, tenant, n, prev, a[0]);
      assert a == [a[0]] + a[1..] && a + b == [a[0]] + (a[1..] + b);
      SealAllConcat(h, tenant, n + 1, e.entryHash, a[1..], b);
      SealAllFirst(h, tenant, n, prev, a[0], a[1..]);
      SealAllFirst(h, tenant, n, prev, a[0], a[1..] + b);
      var es, rest := SealAll(h, tenant, n, prev, a), SealAll(h, tenant, n + 1, e.entryHash, a[1..]);
      assert rest != [] ==> rest[|rest| - 1] == es[|es| - 1];
      assert rest == [] ==> a[1..] == [] && es[|es| - 1] == e;
    }
  }

  lemma SealAllNone(h: Hasher, tenant: Blob, n: nat, prev: Blob)
    requires n < TWO_TO_THE_64
    ensures SealAll(h, tenant, n, prev, []) == []
  {
  }

  /** One more record: the one-at-a-time sealer's step. */
  lemma SealedAppend(h: Hasher, tenant: Blob, recs: seq<Record>, batch: seq<Record>)
    requires |recs| + |batch| < TWO_TO_THE_64
    ensures var es := Sealed(h, tenant, recs);
            Sealed(h, tenant, recs + batch) == es + SealAll(h, tenant, |es|, HeadHash(h, tenant, es), batch)
  {
    hide SealAll, HeadHash, Genesis;
    var es := Sealed(h, tenant, recs);
    SealAllConcat(h, tenant, 0, Genesis(h, tenant), recs, batch);
    HeadHashIs(h, tenant, es);
  }

  lemma HeadHashIs(h: Hasher, tenant: Blob, es: seq<Entry>)
    ensures HeadHash(h, tenant, es) == if es == [] then Genesis(h, tenant) else es[|es| - 1].entryHash
  {
  }

  /** A chain is a shorter chain and one row that is sealed on top of it. */
  lemma LinkedLast(h: Hasher, tenant: Blob, init: seq<Entry>, e: Entry)
    requires e.tenantID == tenant && |init| < TWO_TO_THE_64
    ensures Linked(h, tenant, init + [e])
       <==> Linked(h, tenant, init) && e == SealOne(h, tenant, |init|, HeadHash(h, tenant, init), e.Payload())
  {
    hide LeafOf, ChainHash, Genesis;
    var es := init + [e];
    assert forall i :: 0 <= i < |init| ==> (LinkedAt(h, tenant, es, i) <==> LinkedAt(h, tenant, init, i));
    assert PrevAt(h, tenant, es, |init|) == HeadHash(h, tenant, init);
    assert LinkedAt(h, tenant, es, |init|)
      <==> e == SealOne(h, tenant, |init|, HeadHash(h, tenant, init), e.Payload()) by {
      SealedLeaf(h, tenant, e);
    }
  }

  lemma SealedLeaf(h: Hasher, tenant: Blob, e: Entry)
    requires e.tenantID == tenant
    ensures LeafOf(h, tenant, Entry(tenant, e.seqNo, e.eventTime, e.ingestTime, e.source, e.raw, [], []))
         == LeafOf(h, tenant, e)
  {
    hide EntryLeaf;
  }

  /** A list of rows is a chain exactly when it is what sealing its own payloads produces. */
  lemma {:induction false} LinkedIffSealed(h: Hasher, tenant: Blob, es: seq<Entry>)
    requires |es| < TWO_TO_THE_64 && Owned(tenant, es)
    ensures Linked(h, tenant, es) <==> es == Sealed(h, tenant, Payloads(es))
    decreases |es|
  {
    hide Sealed, SealOne, HeadHash, Linked;
    if es == [] {
      assert Linked(h, tenant, es) && Sealed(h, tenant, Payloads(es)) == [] by { LinkedNone(h, tenant); }
    } else {
      var init, last := es[..|es| - 1], es[|es| - 1];
      assert es == init + [last] && last in es && Payloads(es) == Payloads(init) + [last.Payload()];
      LinkedIffSealed(h, tenant, init);
      LinkedLast(h, tenant, init, last);
      var rows := Sealed(h, tenant, Payloads(init));
      SealedNext(h, tenant, Payloads(init), last.Payload());
      assert es == rows + [SealOne(h, tenant, |rows|, HeadHash(h, tenant, rows), last.Payload())]
        <==> init == rows && last == SealOne(h, tenant, |rows|, HeadHash(h, tenant, rows), last.Payload());
    }
  }

  lemma LinkedNone(h: Hasher, tenant: Blob)
    ensures Linked(h, tenant, [])
  {
  }

  lemma SealedNext(h: Hasher, tenant: Blob, recs: seq<Record>, r: Record)
    requires |recs| + 1 < TWO_TO_THE_64
    ensures var es := Sealed(h, tenant, recs);
            Sealed(h, tenant, recs + [r]) == es + [SealOne(h, tenant, |es|, HeadHash(h, tenant, es), r)]
  {
    hide SealOne, HeadHash, Sealed;
    var es := Sealed(h, tenant, recs);
    SealedAppend(h, tenant, recs, [r]);
    SealAllFirst(h, tenant, |es|, HeadHash(h, tenant, es), r, []);
    assert [r] + [] == [r];
  }

  lemma SealedIsLinked(h: Hasher, tenant: Blob, recs: seq<Record>)
    requires |recs| < TWO_TO_THE_64
    ensures Linked(h, tenant, Sealed(h, tenant, recs))
    ensures Owned(tenant, Sealed(h, tenant, recs))
    ensures Payloads(Sealed(h, tenant, recs)) == recs
  {
    SealAllOwned(h, tenant, 0, Genesis(h, tenant), recs);
    LinkedIffSealed(h, tenant, Sealed(h, tenant, recs));
  }

  lemma {:induction false} SealAllOwned(h: Hasher, tenant: Blob, n: nat, prev: Blob, recs: seq<Record>)
    requires n + |recs| < TWO_TO_THE_64
    ensures Owned(tenant, SealAll(h, tenant, n, prev, recs))
    ensures Payloads(SealAll(h, tenant, n, prev, recs)) == recs
    decreases |recs|
  {
    hide Encode, ChainHash, LeafOf;
    if recs != [] {
      var e := SealOne(h, tenant, n, prev, recs[0]);
      SealAllOwned(h, tenant, n + 1, e.entryHash, recs[1..]);
      var rest := SealAll(h, tenant, n + 1, e.entryHash, recs[1..]);
      assert Payloads([e] + rest) == [e.Payload()] + Payloads(rest);
    }
  }

  lemma LinkedNumbered(h: Hasher, tenant: Blob, es: seq<Entry>)
    requires Linked(h, tenant, es)
    ensures Numbered(es)
  {
    hide Reseal, PrevAt;
    forall i | 0 <= i < |es| ensures es[i].seqNo == i { assert LinkedAt(h, tenant, es, i); }
  }

  /** A prefix of a chain is a chain. */
  lemma LinkedPrefix(h: Hasher, tenant: Blob, es: seq<Entry>, k: nat)
    requires k <= |es| && Linked(h, tenant, es)
    ensures Linked(h, tenant, es[..k])
  {
    forall i | 0 <= i < k ensures LinkedAt(h, tenant, es[..k], i) {
      assert LinkedAt(h, tenant, es, i);
    }
  }

  // ---- Binding ----

  /** The strings hashed to recompute the first `n` rows of a chain. */
  function ChainTrail(h: Hasher, tenant: Blob, es: seq<Entry>, n: nat): seq<bytes>
    requires n <= |es|
  {
    seq(n, i requires 0 <= i < n => LeafString(tenant, es[i]))
    + seq(n, i requires 0 <= i < n => PrevAt(h, tenant, es, i) + LeafOf(h, tenant, es[i]))
  }

  lemma InChainTrail(h: Hasher, tenant: Blob, es: seq<Entry>, n: nat, i: nat)
    requires i < n <= |es|
    ensures LeafString(tenant, es[i]) in ChainTrail(h, tenant, es, n)
    ensures PrevAt(h, tenant, es, i) + LeafOf(h, tenant, es[i]) in ChainTrail(h, tenant, es, n)
  {
    hide Encode;
    var trail := ChainTrail(h, tenant, es, n);
    assert trail[i] == LeafString(tenant, es[i]);
    assert trail[n + i] == PrevAt(h, tenant, es, i) + LeafOf(h, tenant, es[i]);
  }

  lemma ChainTrailGrows(h: Hasher, tenant: Blob, es: seq<Entry>, m: nat, n: nat)
    requires m <= n <= |es|
    ensures forall s :: s in ChainTrail(h, tenant, es, m) ==> s in ChainTrail(h, tenant, es, n)
  {
    hide Encode;
    var small := ChainTrail(h, tenant, es, m);
    forall s | s in small ensures s in ChainTrail(h, tenant, es, n) {
      var k :| 0 <= k < |small| && s == small[k];
      InChainTrail(h, tenant, es, n, if k < m then k else k - m);
    }
  }

  /** One step back: equal entry hashes mean equal rows and equal predecessors. */
  lemma EntryHashBinds(h: Hasher, tenant: Blob, a: seq<Entry>, b: seq<Entry>, i: nat)
    requires i < |a| && i < |b| && LinkedAt(h, tenant, a, i) && LinkedAt(h, tenant, b, i)
    requires CollisionFree(h, ChainTrail(h, tenant, a, i + 1) + ChainTrail(h, tenant, b, i + 1))
    requires a[i].entryHash == b[i].entryHash
    ensures SameRow(a[i], b[i])
  {
    hide Encode;
    var x, y := a[i], b[i];
    InChainTrail(h, tenant, a, i + 1, i);
    InChainTrail(h, tenant, b, i + 1, i);
    var p, q := PrevAt(h, tenant, a, i) + LeafOf(h, tenant, x), PrevAt(h, tenant, b, i) + LeafOf(h, tenant, y);
    assert h(p) == h(q);
    assert p == q;
    assert |PrevAt(h, tenant, a, i)| == |PrevAt(h, tenant, b, i)|;
    assert PrevAt(h, tenant, a, i) == p[..|p| - 32] && PrevAt(h, tenant, b, i) == q[..|q| - 32];
    assert LeafOf(h, tenant, x) == p[|p| - 32..] == LeafOf(h, tenant, y);
    assert LeafString(tenant, x) == LeafString(tenant, y);
    EntryInjective(tenant, x.seqNo, x.eventTime, x.ingestTime, x.source, x.raw,
                   tenant, y.seqNo, y.eventTime, y.ingestTime, y.source, y.raw);
  }

  /** Backwards along the chain: if two chains agree on one entry hash, they agree on every row up to it. */
  lemma {:induction false} ChainBinds(h: Hasher, tenant: Blob, a: seq<Entry>, b: seq<Entry>, k: nat)
    requires k < |a| && k < |b| && Linked(h, tenant, a) && Linked(h, tenant, b)
    requires CollisionFree(h, ChainTrail(h, tenant, a, k + 1) + ChainTrail(h, tenant, b, k + 1))
    requires a[k].entryHash == b[k].entryHash
    ensures forall i :: 0 <= i <= k ==> SameRow(a[i], b[i])
    decreases k
  {
    hide Encode;
    assert LinkedAt(h, tenant, a, k) && LinkedAt(h, tenant, b, k);
    EntryHashBinds(h, tenant, a, b, k);
    if k > 0 {
      assert a[k].prevHash == a[k - 1].entryHash && b[k].prevHash == b[k - 1].entryHash;
      ChainTrailGrows(h, tenant, a, k, k + 1);
      ChainTrailGrows(h, tenant, b, k, k + 1);
      CollisionFreeSubset(h, ChainTrail(h, tenant, a, k) + ChainTrail(h, tenant, b, k),
                          ChainTrail(h, tenant, a, k + 1) + ChainTrail(h, tenant, b, k + 1));
      ChainBinds(h, tenant, a, b, k - 1);
    }
  }
}
