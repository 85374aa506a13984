/** The report on rows that nobody touched, under the anchoring invariant. */
module Honest {
  import opened Bytes
  import opened Hashing
  import opened Chain
  import opened ChainStore
  import opened Checkpoints
  import opened Witness
  import opened Verify
  import opened Tiling
  import opened Evidence
  import opened Anchor
  import opened AnchorInvariant

  // ---- The report on untouched data ----

  lemma ByNameFinds(notaries: seq<Notary>, i: nat)
    requires Panel(notaries) && i < |notaries|
    ensures notaries[i].name in ByName(notaries) && ByName(notaries)[notaries[i].name] == notaries[i]
  {
    LastOfNameWins(notaries, i);
  }

  /** The ledger handed to the verifier holds the stored proofs, in any order. */
  ghost predicate LedgerOf(ledger: Ledger, tenant: Blob, a: Anchors) {
    forall e: uint64 :: multiset(Held(ledger, tenant, e)) == multiset(ProofsAt(a.proofs, e))
  }

  lemma {:induction false} GoodProofsSilent(tenant: Blob, e: uint64, id: bytes, held: seq<Proof>, notaries: Notaries)
    requires forall p :: p in held ==> p.notary in notaries && notaries[p.notary].check(p, id)
    ensures ProofTally(tenant, e, id, held, notaries) == Tally([], 0, 0, |held|)
  {
    if held != [] {
      assert held[|held| - 1] in held;
      GoodProofsSilent(tenant, e, id, held[..|held| - 1], notaries);
    }
  }

  function ProofCount(a: Anchors, cps: seq<Checkpoint>, n: nat): nat
    requires n <= |cps|
  {
    if n == 0 then 0 else ProofCount(a, cps, n - 1) + |ProofsAt(a.proofs, cps[n - 1].seqEnd)|
  }

  lemma HeldProofsGood(h: Hasher, tenant: Blob, log: seq<Entry>, max: nat, cps: seq<Checkpoint>, a: Anchors,
                       notaries: seq<Notary>, ledger: Ledger, n: nat)
    requires Panel(notaries) && Anchored(h, tenant, log, max, cps, a, notaries) && LedgerOf(ledger, tenant, a)
    requires n < |cps|
    ensures var held := Held(ledger, tenant, cps[n].seqEnd);
            && |held| == |ProofsAt(a.proofs, cps[n].seqEnd)|
            && forall p :: p in held ==>
                 p.notary in ByName(notaries) && ByName(notaries)[p.notary].check(p, cps[n].checkpointID)
  {
    TileIsDigest(h, tenant, log, max, cps, n);
    hide Tiles, Held, ByName;
    var e, id := cps[n].seqEnd, cps[n].checkpointID;
    var held, stored := Held(ledger, tenant, e), ProofsAt(a.proofs, e);
    assert multiset(held) == multiset(stored);
    assert |held| == |multiset(held)| == |multiset(stored)| == |stored|;
    assert cps[n] in cps && a.worm[e] == cps[n];
    forall p | p in held
      ensures p.notary in ByName(notaries) && ByName(notaries)[p.notary].check(p, id)
    {
      assert p in multiset(held) && p in stored;
      var i :| 0 <= i < |stored| && stored[i] == p;
      assert p == notaries[i].stamp(id) && Reliable(notaries[i]);
      ByNameFinds(notaries, i);
    }
  }

  /** A window that rebuilds to its own id, with good proofs. */
  lemma GoodWindow(h: Hasher, tenant: Blob, log: seq<Entry>, cp: Checkpoint, prev: Blob, ledger: Ledger,
                   notaries: Notaries)
    requires Numbered(log) && Countable(cp) && cp.seqEnd < |log| < TWO_TO_THE_64
    requires h(IDString(h, tenant, log[cp.seqStart..cp.seqEnd + 1], prev, cp.anchoredAt)) == cp.checkpointID
    requires forall p :: p in Held(ledger, tenant, cp.seqEnd) ==>
                           p.notary in notaries && notaries[p.notary].check(p, cp.checkpointID)
    ensures WindowTally(h, tenant, log, cp, prev, ledger, notaries)
         == Tally([], 0, 1, |Held(ledger, tenant, cp.seqEnd)|)
  {
    hide WindowTally, IDString, ProofTally, Held;
    WindowOnChain(h, tenant, log, cp, prev, ledger, notaries);
    GoodProofsSilent(tenant, cp.seqEnd, cp.checkpointID, Held(ledger, tenant, cp.seqEnd), notaries);
  }

  lemma HonestWindow(h: Hasher, tenant: Blob, log: seq<Entry>, max: nat, cps: seq<Checkpoint>, a: Anchors,
                     notaries: seq<Notary>, ledger: Ledger, n: nat)
    requires Linked(h, tenant, log) && Panel(notaries) && Anchored(h, tenant, log, max, cps, a, notaries)
    requires LedgerOf(ledger, tenant, a) && n < |cps| && Countable(cps[n])
    ensures WindowTally(h, tenant, log, cps[n], PrevID(cps, n), ledger, ByName(notaries))
         == Tally([], 0, 1, |ProofsAt(a.proofs, cps[n].seqEnd)|)
  {
    assert Tiles(h, tenant, log, max, cps) && |log| < TWO_TO_THE_64;
    hide WindowTally, IDString, Linked, Held, ByName, Anchored, Tiles, LedgerOf, Panel, PrevID, NextStart, Numbered,
         StrictBySeq;
    LinkedIsNumbered(h, tenant, log);
    WindowRebuilds(h, tenant, log, max, cps, n);
    HeldProofsGood(h, tenant, log, max, cps, a, notaries, ledger, n);
    GoodWindow(h, tenant, log, cps[n], PrevID(cps, n), ledger, ByName(notaries));
  }

  lemma {:induction false} HonestWindows(h: Hasher, tenant: Blob, log: seq<Entry>, max: nat, cps: seq<Checkpoint>,
                                         a: Anchors, notaries: seq<Notary>, ledger: Ledger, n: nat)
    requires Linked(h, tenant, log) && Panel(notaries) && Anchored(h, tenant, log, max, cps, a, notaries)
    requires LedgerOf(ledger, tenant, a) && n <= |cps| && Readable(Fetched(cps))
    ensures WindowsTally(h, tenant, log, cps, n, ledger, ByName(notaries)) == Tally([], 0, n, ProofCount(a, cps, n))
  {
    hide Linked, Anchored, WindowTally, LedgerOf, Panel, ByName, Tally.Plus, PrevID;
    if n > 0 {
      HonestWindows(h, tenant, log, max, cps, a, notaries, ledger, n - 1);
      assert cps[n - 1] in cps;
      HonestWindow(h, tenant, log, max, cps, a, notaries, ledger, n - 1);
      PlusIs(Tally([], 0, n - 1, ProofCount(a, cps, n - 1)), Tally([], 0, 1, |ProofsAt(a.proofs, cps[n - 1].seqEnd)|));
    }
  }

  lemma AnchoredReadable(h: Hasher, tenant: Blob, log: seq<Entry>, max: nat, cps: seq<Checkpoint>, a: Anchors,
                         notaries: seq<Notary>)
    requires Linked(h, tenant, log) && Anchored(h, tenant, log, max, cps, a, notaries)
    ensures Readable(Fetched(cps)) && |log| < TWO_TO_THE_64
  {
    hide LinkedAt, WindowAt;
    LinkedIsNumbered(h, tenant, log);
    TilesCountable(h, tenant, log, max, cps);
  }

  /** Untouched rows under the anchoring invariant: no issue, and every row, checkpoint and held proof
      has been checked. */
  lemma HonestTenant(h: Hasher, tenant: Blob, log: seq<Entry>, max: nat, cps: seq<Checkpoint>, a: Anchors,
                     notaries: seq<Notary>, ledger: Ledger)
    requires Linked(h, tenant, log) && Panel(notaries) && Anchored(h, tenant, log, max, cps, a, notaries)
    requires LedgerOf(ledger, tenant, a) && |log| < TWO_TO_THE_64
    ensures Readable(Fetched(cps))
    ensures TenantTally(h, tenant, log, Fetched(cps), ledger, ByName(notaries))
         == Tally([], |log|, |cps|, ProofCount(a, cps, |cps|))
  {
    hide Linked, Anchored, WindowsTally, LedgerOf, Panel, ByName, ReplayFrom, Readable, ProofCount;
    AnchoredReadable(h, tenant, log, max, cps, a, notaries);
    LinkedReplays(h, tenant, log);
    HonestWindows(h, tenant, log, max, cps, a, notaries, ledger, |cps|);
  }
}
