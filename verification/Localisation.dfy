/** Where the verifier puts the blame: resealed edits, truncated tails, forged checkpoint storage. */
module Localisation {
  import opened Bytes
  import opened Hashing
  import opened Canonical
  import opened Chain
  import opened ChainStore
  import opened Merkle
  import opened Checkpoints
  import opened Witness
  import opened Verify
  import opened Tiling
  import opened Evidence
  import opened Independence

  // ---- Proofs ----

  /** Asked about `y`, the held proofs of known notaries answer as proofs for `id` should. */
  predicate Attested(held: seq<Proof>, notaries: Notaries, id: bytes, y: bytes) {
    forall p :: p in held && p.notary in notaries ==> Genuine(notaries[p.notary], p, id, y)
  }

  function Known(held: seq<Proof>, notaries: Notaries): nat {
    if held == [] then 0
    else Known(held[..|held| - 1], notaries) + if held[|held| - 1].notary in notaries then 1 else 0
  }

  /** `n` complaints of notaries about one checkpoint. */
  function Objections(tenant: Blob, e: uint64, n: nat): (issues: seq<Issue>)
    ensures |issues| == n && forall i :: i in issues ==> i == Issue(tenant, e, true, NotaryMismatch)
  {
    if n == 0 then [] else Objections(tenant, e, n - 1) + [Issue(tenant, e, true, NotaryMismatch)]
  }

  /** Genuine proofs are silent about the attested id and all object to any other. */
  lemma {:induction false} AttestedTally(tenant: Blob, e: uint64, id: bytes, y: bytes, held: seq<Proof>,
                                         notaries: Notaries)
    requires Attested(held, notaries, id, y)
    ensures ProofTally(tenant, e, y, held, notaries)
         == Tally(if y == id then [] else Objections(tenant, e, Known(held, notaries)), 0, 0, Known(held, notaries))
  {
    if held != [] {
      var init, last := held[..|held| - 1], held[|held| - 1];
      assert held == init + [last];
      AttestedTally(tenant, e, id, y, init, notaries);
    }
  }

  lemma {:induction false} SilentProofsAccept(tenant: Blob, e: uint64, id: bytes, held: seq<Proof>, notaries: Notaries,
                                              p: Proof)
    requires ProofTally(tenant, e, id, held, notaries).Silent()
    requires p in held && p.notary in notaries
    ensures notaries[p.notary].check(p, id)
  {
    SilentIsEmpty(ProofTally(tenant, e, id, held, notaries));
    var init, last := held[..|held| - 1], held[|held| - 1];
    assert held == init + [last];
    SilentIsEmpty(ProofTally(tenant, e, id, init, notaries));
    if p != last { SilentProofsAccept(tenant, e, id, init, notaries, p); }
  }

  // ---- Resealed edits ----

  /** `insiderReseal`: every row is linked anew to the row before it. */
  function ResealRows(h: Hasher, tenant: Blob, es: seq<Entry>): (r: seq<Entry>)
    ensures |r| == |es|
  {
    if es == [] then []
    else
      var init := ResealRows(h, tenant, es[..|es| - 1]);
      init + [Reseal(h, tenant, es[|es| - 1], HeadHash(h, tenant, init))]
  }

  /** The insider's loop over the stored rows, which it visits in the order `es`. */
  method InsiderReseal(h: Hasher, store: Store, tenant: Blob) returns (ghost es: seq<Entry>)
    requires tenant in store.entries
    modifies store
    ensures SortedBySeq(es) && multiset(es) == multiset(old(store.Rows(tenant)))
    ensures store.entries == old(store.entries)[tenant := ResealRows(h, tenant, es)]
  {
    hide SortedBySeq, ChainHash, EntryLeaf, Genesis, ResealRows, HeadHash;
    var rows := store.Tenant(tenant);
    es := rows;
    var prev: Blob := Genesis(h, tenant);
    var out: seq<Entry> := [];
    ResealNone(h, tenant);
    for i := 0 to |rows|
      modifies {}
      invariant out == ResealRows(h, tenant, es[..i]) && prev == HeadHash(h, tenant, out)
    {
      var e := rows[i].(prevHash := prev);
      e := e.(entryHash := ChainHash(h, prev, LeafOf(h, tenant, e)));
      assert e == Reseal(h, tenant, rows[i], prev);
      ResealNext(h, tenant, es, i, out, e);
      out := out + [e];
      prev := e.entryHash;
    }
    assert es[..|es|] == es;
    store.entries := store.entries[tenant := out];
  }

  lemma ResealNone(h: Hasher, tenant: Blob)
    ensures ResealRows(h, tenant, []) == [] && HeadHash(h, tenant, []) == Genesis(h, tenant)
  {
  }

  lemma ResealNext(h: Hasher, tenant: Blob, es: seq<Entry>, i: nat, out: seq<Entry>, e: Entry)
    requires i < |es| && out == ResealRows(h, tenant, es[..i])
    requires e == Reseal(h, tenant, es[i], HeadHash(h, tenant, out))
    ensures ResealRows(h, tenant, es[..i + 1]) == out + [e] && HeadHash(h, tenant, out + [e]) == e.entryHash
  {
    hide Reseal;
    assert es[..i + 1][..i] == es[..i];
  }

  /** A resealed table is a perfect chain over the same payloads. */
  lemma {:induction false} ResealIsLinked(h: Hasher, tenant: Blob, es: seq<Entry>)
    requires Numbered(es)
    ensures Linked(h, tenant, ResealRows(h, tenant, es))
    ensures Payloads(ResealRows(h, tenant, es)) == Payloads(es)
  {
    hide Encode, ChainHash, LeafOf;
    if es != [] {
      var k := |es| - 1;
      ResealIsLinked(h, tenant, es[..k]);
      var init, all := ResealRows(h, tenant, es[..k]), ResealRows(h, tenant, es);
      forall i | 0 <= i < |all| ensures LinkedAt(h, tenant, all, i) {
        if i < k {
          assert LinkedAt(h, tenant, init, i);
        } else {
          ResealAgain(h, tenant, es[k], HeadHash(h, tenant, init));
        }
      }
      forall i | 0 <= i < |all| ensures all[i].Payload() == es[i].Payload() {
        if i < k { assert Payloads(init)[i] == Payloads(es[..k])[i]; }
      }
    }
  }

  lemma ResealAgain(h: Hasher, tenant: Blob, e: Entry, prev: Blob)
    ensures Reseal(h, tenant, Reseal(h, tenant, e, prev), prev) == Reseal(h, tenant, e, prev)
  {
    hide Encode;
  }

  /** From the first changed payload on, every entry hash differs. */
  lemma ChainsDiverge(h: Hasher, tenant: Blob, a: seq<Entry>, b: seq<Entry>, k: nat, j: nat)
    requires k <= j < |a| && j < |b| && Linked(h, tenant, a) && Linked(h, tenant, b)
    requires a[k].Payload() != b[k].Payload()
    requires CollisionFree(h, ChainTrail(h, tenant, a, j + 1) + ChainTrail(h, tenant, b, j + 1))
    ensures a[j].entryHash != b[j].entryHash
  {
    if a[j].entryHash == b[j].entryHash {
      ChainBinds(h, tenant, a, b, j);
    }
  }

  /** Up to the first changed payload, nothing differs. */
  lemma {:induction false} ChainsAgree(h: Hasher, tenant: Blob, a: seq<Entry>, b: seq<Entry>, k: nat)
    requires k <= |a| && k <= |b| && Linked(h, tenant, a) && Linked(h, tenant, b)
    requires Owned(tenant, a) && Owned(tenant, b)
    requires forall i :: 0 <= i < k ==> a[i].Payload() == b[i].Payload()
    ensures a[..k] == b[..k]
  {
    hide LinkedAt, PrevAt;
    if k > 0 {
      ChainsAgree(h, tenant, a, b, k - 1);
      SamePrev(h, tenant, a, b, k - 1);
      assert a[k - 1] in a && b[k - 1] in b;
      SameSealed(h, tenant, a, b, k - 1);
      assert a[..k] == a[..k - 1] + [a[k - 1]] && b[..k] == b[..k - 1] + [b[k - 1]];
    }
  }

  lemma SamePrev(h: Hasher, tenant: Blob, a: seq<Entry>, b: seq<Entry>, i: nat)
    requires i <= |a| && i <= |b| && a[..i] == b[..i]
    ensures PrevAt(h, tenant, a, i) == PrevAt(h, tenant, b, i)
  {
    hide Genesis;
    assert i > 0 ==> a[i - 1] == a[..i][i - 1] == b[..i][i - 1] == b[i - 1];
  }

  lemma SameSealed(h: Hasher, tenant: Blob, a: seq<Entry>, b: seq<Entry>, i: nat)
    requires i < |a| && i < |b| && LinkedAt(h, tenant, a, i) && LinkedAt(h, tenant, b, i)
    requires PrevAt(h, tenant, a, i) == PrevAt(h, tenant, b, i)
    requires a[i].Payload() == b[i].Payload() && a[i].tenantID == b[i].tenantID
    ensures a[i] == b[i]
  {
    hide PrevAt, EntryLeaf, ChainHash;
  }

  /** A silent window with `proofs` proofs, or one that WORM and all the proofs object to. */
  function WindowVerdict(tenant: Blob, end: uint64, silent: bool, proofs: nat): Tally {
    if silent then Tally([], 0, 1, proofs)
    else Tally([Issue(tenant, end, true, CheckpointMismatch)]
               + Objections(tenant, end, proofs), 0, 1, proofs)
  }

  /** `es` is another perfect chain, of whatever length: it carries the payloads of `log` up to row `k`, where
      either a payload differs or one of the two ends. */
  ghost predicate Diverged(h: Hasher, tenant: Blob, log: seq<Entry>, es: seq<Entry>, k: nat) {
    && Linked(h, tenant, log) && Owned(tenant, log) && Linked(h, tenant, es) && Owned(tenant, es)
    && k <= |log| < TWO_TO_THE_64 && k <= |es| < TWO_TO_THE_64
    && (forall i :: 0 <= i < k ==> es[i].Payload() == log[i].Payload())
    && (k < |es| && k < |log| ==> es[k].Payload() != log[k].Payload())
  }

  /** Whatever rows were edited, deleted or inserted before renumbering and resealing, there is such a row. */
  lemma FirstDivergence(h: Hasher, tenant: Blob, log: seq<Entry>, es: seq<Entry>) returns (k: nat)
    requires Linked(h, tenant, log) && Owned(tenant, log) && Linked(h, tenant, es) && Owned(tenant, es)
    requires |log| < TWO_TO_THE_64 && |es| < TWO_TO_THE_64
    ensures Diverged(h, tenant, log, es, k)
  {
    hide Linked, Owned;
    k := 0;
    while k < |log| && k < |es| && es[k].Payload() == log[k].Payload()
      invariant k <= |log| && k <= |es|
      invariant forall i :: 0 <= i < k ==> es[i].Payload() == log[i].Payload()
    {
      k := k + 1;
    }
  }

  lemma {:induction false} ResealOwned(h: Hasher, tenant: Blob, es: seq<Entry>)
    requires Owned(tenant, es)
    ensures Owned(tenant, ResealRows(h, tenant, es))
  {
    hide Encode, ChainHash, LeafOf, HeadHash;
    if es != [] {
      var init, last := es[..|es| - 1], es[|es| - 1];
      assert last in es && forall e :: e in init ==> e in es;
      ResealOwned(h, tenant, init);
    }
  }

  /** The insider's attack: overwrite the payload of row `k`, then reseal everything. */
  lemma EditThenReseal(h: Hasher, tenant: Blob, log: seq<Entry>, k: nat, r: Record)
    requires Linked(h, tenant, log) && Owned(tenant, log) && k < |log| < TWO_TO_THE_64 && r != log[k].Payload()
    ensures Diverged(h, tenant, log, ResealRows(h, tenant, log[k := Edited(log[k], r)]), k)
    ensures |ResealRows(h, tenant, log[k := Edited(log[k], r)])| == |log|
  {
    hide Linked, ResealRows, Edited;
    LinkedIsNumbered(h, tenant, log);
    var edited := log[k := Edited(log[k], r)];
    var es := ResealRows(h, tenant, edited);
    assert Numbered(edited);
    ResealIsLinked(h, tenant, edited);
    assert Owned(tenant, edited) by { assert log[k] in log; }
    ResealOwned(h, tenant, edited);
    forall i | 0 <= i < |log| ensures es[i].Payload() == edited[i].Payload() {
      assert Payloads(es)[i] == Payloads(edited)[i];
    }
  }

  /** The id that the verifier rebuilds for a checkpoint over a chain. */
  function RebuiltID(h: Hasher, tenant: Blob, es: seq<Entry>, cp: Checkpoint, prev: Blob): Digest {
    if cp.seqStart <= cp.seqEnd < |es| < TWO_TO_THE_64
    then h(IDString(h, tenant, es[cp.seqStart..cp.seqEnd + 1], prev, cp.anchoredAt)) else h([])
  }

  /** Of the windows still there in full, exactly those that end before the divergence rebuild. */
  lemma DivergedRebuilds(h: Hasher, tenant: Blob, log: seq<Entry>, max: nat, cps: seq<Checkpoint>,
                         es: seq<Entry>, k: nat, n: nat)
    requires Diverged(h, tenant, log, es, k) && Tiles(h, tenant, log, max, cps) && n < |cps| && Countable(cps[n])
    requires cps[n].seqEnd < |es|
    requires cps[n].seqEnd >= k ==> CollisionFree(h, AuditTrail(h, tenant, log, cps, n, es))
    ensures RebuiltID(h, tenant, es, cps[n], PrevID(cps, n)) == cps[n].checkpointID <==> cps[n].seqEnd < k
  {
    hide Linked, Tiles, AuditTrail, Numbered, StrictBySeq, Owned, IDString;
    LinkedIsNumbered(h, tenant, log);
    WindowRebuilds(h, tenant, log, max, cps, n);
    if cps[n].seqEnd < k {
      ChainsAgree(h, tenant, es, log, k);
      AgreeingWindow(es, log, k, cps[n].seqStart, cps[n].seqEnd + 1);
    } else {
      EditedWindowDiffers(h, tenant, log, max, cps, es, k, n);
    }
  }

  /** What a window reports about a perfect chain of `len` rows that diverges at row `k`, when `proofs` genuine
      proofs are held for it. */
  function DivergedVerdict(tenant: Blob, cp: Checkpoint, len: nat, k: nat, proofs: nat): Tally
    requires len < TWO_TO_THE_64
  {
    if cp.seqEnd >= len then Tally([FirstMissing(tenant, cp, len)], 0, 1, 0)
    else WindowVerdict(tenant, cp.seqEnd, cp.seqEnd < k, proofs)
  }

  /** The least missing number of a window, when `len` rows are there. */
  function FirstMissing(tenant: Blob, cp: Checkpoint, len: nat): Issue
    requires len < TWO_TO_THE_64
  {
    Issue(tenant, if cp.seqStart <= len then len else cp.seqStart, true, Truncation)
  }

  /** The stored rows are a perfect chain that diverges from the original at row `k`. A window that ends before
      `k` stays silent; one that ends from there on reports a checkpoint mismatch, and every genuine proof
      held for it objects; one that ends beyond the stored rows reports its least missing number alone. */
  lemma DivergedWindow(h: Hasher, tenant: Blob, log: seq<Entry>, max: nat, cps: seq<Checkpoint>,
                       es: seq<Entry>, k: nat, n: nat, ledger: Ledger, notaries: Notaries)
    requires Diverged(h, tenant, log, es, k) && Tiles(h, tenant, log, max, cps) && n < |cps| && Countable(cps[n])
    requires k <= cps[n].seqEnd < |es| ==> CollisionFree(h, AuditTrail(h, tenant, log, cps, n, es))
    requires cps[n].seqEnd < |es| ==>
               Attested(Held(ledger, tenant, cps[n].seqEnd), notaries, cps[n].checkpointID,
                        RebuiltID(h, tenant, es, cps[n], PrevID(cps, n)))
    ensures WindowTally(h, tenant, es, cps[n], PrevID(cps, n), ledger, notaries)
         == DivergedVerdict(tenant, cps[n], |es|, k, Known(Held(ledger, tenant, cps[n].seqEnd), notaries))
  {
    LinkedIsNumbered(h, tenant, es);
    assert |es| < TWO_TO_THE_64;
    hide WindowTally, Diverged, Tiles, AuditTrail, Attested, Held, Numbered, StrictBySeq, WindowVerdict, RebuiltID,
         Linked, Owned, CollisionFree, Known, PrevID;
    if cps[n].seqEnd < |es| {
      DivergedRebuilds(h, tenant, log, max, cps, es, k, n);
      JudgedWindow(h, tenant, es, cps[n], PrevID(cps, n), ledger, notaries, cps[n].seqEnd < k);
    } else {
      WindowOnChain(h, tenant, es, cps[n], PrevID(cps, n), ledger, notaries);
    }
  }

  lemma AgreeingWindow(es: seq<Entry>, log: seq<Entry>, k: nat, start: nat, end: nat)
    requires start <= end <= k <= |es| && k <= |log| && es[..k] == log[..k]
    ensures es[start..end] == log[start..end]
  {
    assert es[start..end] == es[..k][start..end] && log[start..end] == log[..k][start..end];
  }

  /** Resealed rows from the divergence on rebuild another id. */
  lemma EditedWindowDiffers(h: Hasher, tenant: Blob, log: seq<Entry>, max: nat, cps: seq<Checkpoint>,
                            es: seq<Entry>, k: nat, n: nat)
    requires Linked(h, tenant, log) && Tiles(h, tenant, log, max, cps) && n < |cps| && Countable(cps[n])
    requires Linked(h, tenant, es) && |es| < TWO_TO_THE_64 && |log| < TWO_TO_THE_64
    requires k <= cps[n].seqEnd < |log| && cps[n].seqEnd < |es|
    requires cps[n].seqStart <= cps[n].seqEnd && es[k].Payload() != log[k].Payload()
    requires CollisionFree(h, AuditTrail(h, tenant, log, cps, n, es))
    ensures h(IDString(h, tenant, es[cps[n].seqStart..cps[n].seqEnd + 1], PrevID(cps, n), cps[n].anchoredAt))
         != cps[n].checkpointID
  {
    hide Linked, WindowTrail, IDString, Tiles, Numbered, StrictBySeq, CollisionFree, BuiltFrom, Build, PrevID,
         NextStart;
    LinkedIsNumbered(h, tenant, log);
    WindowRebuilds(h, tenant, log, max, cps, n);
    TileIsBuilt(h, tenant, log, max, cps, n);
    var start, end, prev, at := cps[n].seqStart, cps[n].seqEnd, PrevID(cps, n), cps[n].anchoredAt;
    CollisionFreeSwap(h, WindowTrail(h, tenant, log, start, end, prev, at),
                      WindowTrail(h, tenant, es, start, end, prev, at));
    if h(IDString(h, tenant, es[start..end + 1], prev, at)) == cps[n].checkpointID {
      IDBindsChain(h, tenant, es, start, end, prev, at, log, start, end, prev, at);
    }
  }

  /** With genuine proofs, a window present in full gets a verdict by its rebuilt id alone. */
  lemma JudgedWindow(h: Hasher, tenant: Blob, es: seq<Entry>, cp: Checkpoint, prev: Blob, ledger: Ledger,
                     notaries: Notaries, silent: bool)
    requires Numbered(es) && Countable(cp) && cp.seqEnd < |es| < TWO_TO_THE_64
    requires Attested(Held(ledger, tenant, cp.seqEnd), notaries, cp.checkpointID, RebuiltID(h, tenant, es, cp, prev))
    requires silent <==> RebuiltID(h, tenant, es, cp, prev) == cp.checkpointID
    ensures WindowTally(h, tenant, es, cp, prev, ledger, notaries)
         == WindowVerdict(tenant, cp.seqEnd, silent, Known(Held(ledger, tenant, cp.seqEnd), notaries))
  {
    hide WindowTally, IDString, ProofTally, Held, Known, Objections, Attested, Numbered;
    WindowOnChain(h, tenant, es, cp, prev, ledger, notaries);
    AttestedTally(tenant, cp.seqEnd, cp.checkpointID, RebuiltID(h, tenant, es, cp, prev),
                  Held(ledger, tenant, cp.seqEnd), notaries);
  }

  /** Whatever proofs are held, a window present in full reports a mismatch or nothing besides notary issues. */
  lemma MismatchOnly(h: Hasher, tenant: Blob, es: seq<Entry>, cp: Checkpoint, prev: Blob, ledger: Ledger,
                     notaries: Notaries, silent: bool, i: Issue)
    requires Numbered(es) && Countable(cp) && cp.seqEnd < |es| < TWO_TO_THE_64 && i.kind != NotaryMismatch
    requires silent <==> RebuiltID(h, tenant, es, cp, prev) == cp.checkpointID
    ensures i in WindowTally(h, tenant, es, cp, prev, ledger, notaries).issues
       <==> !silent && i == Issue(tenant, cp.seqEnd, true, CheckpointMismatch)
  {
    hide WindowTally, IDString, ProofTally, Held, Numbered;
    WindowOnChain(h, tenant, es, cp, prev, ledger, notaries);
    ComplaintPerRejection(tenant, cp.seqEnd, RebuiltID(h, tenant, es, cp, prev), Held(ledger, tenant, cp.seqEnd),
                          notaries);
  }

  /** An issue of the report over windows is an issue of one of them. */
  lemma {:induction false} WindowOfIssue(h: Hasher, tenant: Blob, es: seq<Entry>, cps: seq<Checkpoint>, n: nat,
                                         ledger: Ledger, notaries: Notaries, i: Issue) returns (j: nat)
    requires n <= |cps| && forall cp :: cp in cps ==> Countable(cp)
    requires i in WindowsTally(h, tenant, es, cps, n, ledger, notaries).issues
    ensures j < n && i in WindowTally(h, tenant, es, cps[j], PrevID(cps, j), ledger, notaries).issues
  {
    hide WindowTally, Tally.Plus;
    j := n - 1;
    var before := WindowsTally(h, tenant, es, cps, n - 1, ledger, notaries);
    PlusIs(before, WindowTally(h, tenant, es, cps[j], PrevID(cps, j), ledger, notaries));
    if i in before.issues { j := WindowOfIssue(h, tenant, es, cps, n - 1, ledger, notaries, i); }
  }

  /** And the other way round. */
  lemma {:induction false} IssueOfWindow(h: Hasher, tenant: Blob, es: seq<Entry>, cps: seq<Checkpoint>, n: nat,
                                         ledger: Ledger, notaries: Notaries, i: Issue, j: nat)
    requires j < n <= |cps| && forall cp :: cp in cps ==> Countable(cp)
    requires i in WindowTally(h, tenant, es, cps[j], PrevID(cps, j), ledger, notaries).issues
    ensures i in WindowsTally(h, tenant, es, cps, n, ledger, notaries).issues
    decreases n
  {
    hide WindowTally, Tally.Plus;
    PlusIs(WindowsTally(h, tenant, es, cps, n - 1, ledger, notaries),
           WindowTally(h, tenant, es, cps[n - 1], PrevID(cps, n - 1), ledger, notaries));
    if j < n - 1 { IssueOfWindow(h, tenant, es, cps, n - 1, ledger, notaries, i, j); }
  }

  /** How a window over a perfect chain of `len` rows that diverges at `k` is reported, notary issues aside. */
  predicate ReportedAs(tenant: Blob, cp: Checkpoint, len: nat, k: nat, i: Issue)
    requires len < TWO_TO_THE_64
  {
    if cp.seqEnd >= len then i == FirstMissing(tenant, cp, len)
    else cp.seqEnd >= k && i == Issue(tenant, cp.seqEnd, true, CheckpointMismatch)
  }

  /** A perfect chain that diverges at row `k`, under any ledger and any notaries: replay accepts every row, and
      besides notary issues the report has exactly the mismatches of the windows that end in `k..|es| - 1`
      and the truncations of those that end beyond. */
  lemma DivergedReport(h: Hasher, tenant: Blob, log: seq<Entry>, max: nat, cps: seq<Checkpoint>,
                       es: seq<Entry>, k: nat, ledger: Ledger, notaries: Notaries, i: Issue)
    requires Diverged(h, tenant, log, es, k) && Tiles(h, tenant, log, max, cps) && Readable(Fetched(cps))
    requires forall n :: 0 <= n < |cps| && k <= cps[n].seqEnd < |es| ==>
               CollisionFree(h, AuditTrail(h, tenant, log, cps, n, es))
    requires i.kind != NotaryMismatch
    ensures ReplayFrom(h, tenant, es, 0) == Tally([], |es|, 0, 0)
    ensures i in TenantTally(h, tenant, es, Fetched(cps), ledger, notaries).issues
       <==> exists n :: 0 <= n < |cps| && ReportedAs(tenant, cps[n], |es|, k, i)
  {
    LinkedReplays(h, tenant, es);
    LinkedIsNumbered(h, tenant, es);
    assert |es| < TWO_TO_THE_64;
    hide WindowTally, WindowsTally, ReplayFrom, Diverged, AuditTrail, Tiles, CollisionFree, ReportedAs, Linked, Owned,
         Numbered, StrictBySeq, PrevID;
    forall n | 0 <= n < |cps|
      ensures i in WindowTally(h, tenant, es, cps[n], PrevID(cps, n), ledger, notaries).issues
         <==> ReportedAs(tenant, cps[n], |es|, k, i)
    {
      assert cps[n] in cps;
      DivergedWindowReport(h, tenant, log, max, cps, es, k, n, ledger, notaries, i);
    }
    if i in WindowsTally(h, tenant, es, cps, |cps|, ledger, notaries).issues {
      var n := WindowOfIssue(h, tenant, es, cps, |cps|, ledger, notaries, i);
    }
    if exists n :: 0 <= n < |cps| && ReportedAs(tenant, cps[n], |es|, k, i) {
      var n :| 0 <= n < |cps| && ReportedAs(tenant, cps[n], |es|, k, i);
      IssueOfWindow(h, tenant, es, cps, |cps|, ledger, notaries, i, n);
    }
  }

  lemma DivergedWindowReport(h: Hasher, tenant: Blob, log: seq<Entry>, max: nat, cps: seq<Checkpoint>,
                             es: seq<Entry>, k: nat, n: nat, ledger: Ledger, notaries: Notaries, i: Issue)
    requires Diverged(h, tenant, log, es, k) && Tiles(h, tenant, log, max, cps) && n < |cps| && Countable(cps[n])
    requires Numbered(es) && |es| < TWO_TO_THE_64 && i.kind != NotaryMismatch
    requires k <= cps[n].seqEnd < |es| ==> CollisionFree(h, AuditTrail(h, tenant, log, cps, n, es))
    ensures i in WindowTally(h, tenant, es, cps[n], PrevID(cps, n), ledger, notaries).issues
       <==> ReportedAs(tenant, cps[n], |es|, k, i)
  {
    hide WindowTally, Diverged, AuditTrail, Tiles, CollisionFree, RebuiltID, PrevID, Numbered;
    if cps[n].seqEnd < |es| {
      DivergedRebuilds(h, tenant, log, max, cps, es, k, n);
      MismatchOnly(h, tenant, es, cps[n], PrevID(cps, n), ledger, notaries, cps[n].seqEnd < k, i);
    } else {
      WindowOnChain(h, tenant, es, cps[n], PrevID(cps, n), ledger, notaries);
    }
  }

  /** The tail is gone and the rest resealed: a window that lost rows reports the least missing number,
      and the others stay silent. */
  lemma TruncationLocalised(h: Hasher, tenant: Blob, log: seq<Entry>, max: nat, cps: seq<Checkpoint>,
                            m: nat, n: nat, ledger: Ledger, notaries: Notaries)
    requires Linked(h, tenant, log) && Tiles(h, tenant, log, max, cps) && n < |cps| && m <= |log| && Countable(cps[n])
    requires cps[n].seqEnd < m ==> Attested(Held(ledger, tenant, cps[n].seqEnd), notaries, cps[n].checkpointID,
                                            cps[n].checkpointID)
    ensures Linked(h, tenant, log[..m])
    ensures WindowTally(h, tenant, log[..m], cps[n], PrevID(cps, n), ledger, notaries)
         == if cps[n].seqEnd < m
            then WindowVerdict(tenant, cps[n].seqEnd, true, Known(Held(ledger, tenant, cps[n].seqEnd), notaries))
            else Tally([FirstMissing(tenant, cps[n], m)], 0, 1, 0)
  {
    assert |log| < TWO_TO_THE_64;
    hide WindowTally, Linked, Tiles, Attested, Held, Known, WindowVerdict, FirstMissing, PrevID;
    LinkedPrefix(h, tenant, log, m);
    TruncatedWindow(h, tenant, log, log[..m], m, max, cps, n, cps[n], PrevID(cps, n), ledger, notaries);
  }

  lemma TruncatedWindow(h: Hasher, tenant: Blob, log: seq<Entry>, cut: seq<Entry>, m: nat, max: nat,
                        cps: seq<Checkpoint>, n: nat, cp: Checkpoint, prev: Blob, ledger: Ledger, notaries: Notaries)
    requires Linked(h, tenant, log) && Linked(h, tenant, cut) && m <= |log| < TWO_TO_THE_64 && cut == log[..m]
    requires Tiles(h, tenant, log, max, cps) && n < |cps| && cp == cps[n] && prev == PrevID(cps, n) && Countable(cp)
    requires cp.seqEnd < m ==> Attested(Held(ledger, tenant, cp.seqEnd), notaries, cp.checkpointID, cp.checkpointID)
    ensures WindowTally(h, tenant, cut, cp, prev, ledger, notaries)
         == if cp.seqEnd < m
            then WindowVerdict(tenant, cp.seqEnd, true, Known(Held(ledger, tenant, cp.seqEnd), notaries))
            else Tally([FirstMissing(tenant, cp, m)], 0, 1, 0)
  {
    hide WindowTally, Linked, Tiles, Attested, Held, Known, StrictBySeq, WindowVerdict, IDString, Numbered, PrevID,
         NextStart, RangeOf, Build;
    LinkedIsNumbered(h, tenant, log);
    LinkedIsNumbered(h, tenant, cut);
    WindowRebuilds(h, tenant, log, max, cps, n);
    if cp.seqEnd < m {
      AgreeingWindow(cut, log, m, cp.seqStart, cp.seqEnd + 1);
      JudgedWindow(h, tenant, cut, cp, prev, ledger, notaries, true);
    } else {
      WindowOnChain(h, tenant, cut, cp, prev, ledger, notaries);
    }
  }

  // ---- Other trust assumptions ----

  /** The notaries alone. The checkpoint store answers whatever it likes; the ledger holds a proof for an
      honestly built checkpoint over rows `s..e`, which is not also good for the id listed. If the store
      lists a checkpoint ending at `e` and nothing is reported, the rows up to `e` are the original ones. */
  lemma NotaryEvidence(h: Hasher, tenant: Blob, log: seq<Entry>, s: nat, e: nat, prev: Blob, at: int64,
                       wcps: seq<Checkpoint>, k: nat, es: seq<Entry>, ledger: Ledger, notaries: Notaries, p: Proof)
    requires Linked(h, tenant, log) && s <= e < |log| < TWO_TO_THE_64
    requires k < |wcps| && Readable(Fetched(wcps)) && wcps[k].seqEnd == e && |es| < TWO_TO_THE_64
    requires p in Held(ledger, tenant, e) && p.notary in notaries
    requires Genuine(notaries[p.notary], p, h(IDString(h, tenant, log[s..e + 1], prev, at)), wcps[k].checkpointID)
    requires TenantTally(h, tenant, es, Fetched(wcps), ledger, notaries).Silent()
    requires wcps[k].seqStart <= e < |es| ==>
      CollisionFree(h, WindowTrail(h, tenant, es, wcps[k].seqStart, e, PrevID(wcps, k), wcps[k].anchoredAt)
                       + WindowTrail(h, tenant, log, s, e, prev, at))
    ensures OriginalUpTo(es, log, e)
  {
    var cp := wcps[k];
    assert cp in wcps && Countable(cp);
    hide IDString, WindowTrail, Linked, ProofTally, Held, TenantTally, Readable, SameRow, CollisionFree, Genuine,
         PrevID;
    SilentProofPinsID(h, tenant, es, wcps, k, ledger, notaries, p, h(IDString(h, tenant, log[s..e + 1], prev, at)));
    IDBindsChain(h, tenant, es, cp.seqStart, e, PrevID(wcps, k), cp.anchoredAt, log, s, e, prev, at);
  }

  /** A silent report rebuilds, for each checkpoint, the very id that any held genuine proof attests. */
  lemma SilentProofPinsID(h: Hasher, tenant: Blob, es: seq<Entry>, cps: seq<Checkpoint>, n: nat, ledger: Ledger,
                          notaries: Notaries, p: Proof, id: bytes)
    requires |es| < TWO_TO_THE_64 && Readable(Fetched(cps)) && n < |cps| && Countable(cps[n])
    requires TenantTally(h, tenant, es, Fetched(cps), ledger, notaries).Silent()
    requires p in Held(ledger, tenant, cps[n].seqEnd) && p.notary in notaries
    requires Genuine(notaries[p.notary], p, id, cps[n].checkpointID)
    ensures Linked(h, tenant, es) && cps[n].seqEnd < |es|
    ensures h(IDString(h, tenant, es[cps[n].seqStart..cps[n].seqEnd + 1], PrevID(cps, n), cps[n].anchoredAt)) == id
  {
    hide IDString, Linked, ProofTally, Held, TenantTally, Readable, PrevID;
    CleanWindowRebuilds(h, tenant, es, cps, n, ledger, notaries);
    SilentProofsAccept(tenant, cps[n].seqEnd, cps[n].checkpointID, Held(ledger, tenant, cps[n].seqEnd), notaries, p);
  }

  /** The original rows of window `n`. */
  function WindowOf(log: seq<Entry>, cps: seq<Checkpoint>, n: nat): seq<Entry>
    requires n < |cps|
  {
    if NextStart(cps, n) <= cps[n].seqEnd < |log| then log[NextStart(cps, n)..cps[n].seqEnd + 1] else []
  }

  /** Even when the chain columns do not replay, a window that is neither truncated nor mismatched has the
      original entry hashes, all of them: here the Merkle root carries the proof. */
  lemma SilentWindowBindsColumn(h: Hasher, tenant: Blob, log: seq<Entry>, max: nat, cps: seq<Checkpoint>, n: nat,
                                es: seq<Entry>, ledger: Ledger, notaries: Notaries)
    requires Linked(h, tenant, log) && Tiles(h, tenant, log, max, cps) && n < |cps| && Countable(cps[n])
    requires forall i :: i in WindowTally(h, tenant, es, cps[n], PrevID(cps, n), ledger, notaries).issues
                         ==> i.kind == NotaryMismatch
    requires var rows := RangeOf(es, cps[n].seqStart, cps[n].seqEnd).0;
             var window := WindowOf(log, cps, n);
             |rows| > 0 && |window| > 0 ==>
               CollisionFree(h, [IDString(h, tenant, rows, PrevID(cps, n), cps[n].anchoredAt),
                                 IDString(h, tenant, window, PrevID(cps, n), cps[n].anchoredAt)]
                                + (RootTrail(h, EntryHashes(rows)) + RootTrail(h, EntryHashes(window))))
    ensures RangeOf(es, cps[n].seqStart, cps[n].seqEnd).1
    ensures EntryHashes(RangeOf(es, cps[n].seqStart, cps[n].seqEnd).0)
         == EntryHashes(WindowOf(log, cps, n))
  {
    hide Encode, IDString, Build, Linked, ProofTally, Held, RangeOf, RootTrail;
    assert WindowAt(h, tenant, log, max, cps, n);
    var (rows, complete) := RangeOf(es, cps[n].seqStart, cps[n].seqEnd);
    var prev, at := PrevID(cps, n), cps[n].anchoredAt;
    var w := WindowTally(h, tenant, es, cps[n], prev, ledger, notaries);
    assert |w.issues| > 0 ==> w.issues[0] in w.issues;
    assert h(IDString(h, tenant, rows, prev, at)) != cps[n].checkpointID ==> w.issues[0].kind == CheckpointMismatch;
    IDBindsHashColumn(h, tenant, rows, prev, at, WindowOf(log, cps, n), prev, at);
  }
}
