/** The verifier: replays every chain and rebuilds every anchored checkpoint from the stored rows. */
module Verify {
  import opened Bytes
  import opened Hashing
  import opened Canonical
  import opened Chain
  import opened ChainStore
  import opened Checkpoints
  import opened Witness

  datatype Kind =
    | SequenceGap | ChainBreak | EntryTamper
    | WormError | Truncation | CheckpointMismatch | NotaryMismatch

  datatype Issue = Issue(tenant: Blob, seqNo: uint64, hasSeq: bool, kind: Kind)

  /** What the checkpoint store answers for one tenant. */
  datatype Fetch = Fetched(cps: seq<Checkpoint>) | Unreadable

  type Notaries = map<Blob, Notary>

  /** The value of a report. */
  datatype Tally = Tally(issues: seq<Issue>, entries: nat, checkpoints: nat, proofs: nat) {
    /** Nothing is reported: no issue is in the list, which is to say that it is empty (`SilentIsEmpty`). */
    ghost predicate Silent() {
      forall i :: i !in issues
    }

    function Plus(t: Tally): Tally {
      Tally(issues + t.issues, entries + t.entries, checkpoints + t.checkpoints, proofs + t.proofs)
    }
  }

  lemma SilentIsEmpty(t: Tally)
    ensures t.Silent() <==> t.issues == []
  {
    if t.issues != [] { assert t.issues[0] in t.issues; }
  }

  lemma SilentPlus(a: Tally, b: Tally)
    ensures a.Plus(b).Silent() <==> a.Silent() && b.Silent()
  {
    SilentIsEmpty(a);
    SilentIsEmpty(b);
    SilentIsEmpty(a.Plus(b));
  }

  lemma PlusIs(a: Tally, b: Tally)
    ensures a.Plus(b)
         == Tally(a.issues + b.issues, a.entries + b.entries, a.checkpoints + b.checkpoints, a.proofs + b.proofs)
  {
  }

  lemma PlusAssoc(a: Tally, b: Tally, c: Tally)
    ensures a.Plus(b).Plus(c) == a.Plus(b.Plus(c))
  {
    assert a.issues + b.issues + c.issues == a.issues + (b.issues + c.issues);
  }

  const ZERO: Tally := Tally([], 0, 0, 0)

  // ---- The chain ----

  /** The first of the three checks that row `i` fails. */
  function FaultAt(h: Hasher, tenant: Blob, es: seq<Entry>, i: nat): (k: Option<Kind>)
    requires i < |es|
    ensures k.None? <==> LinkedAt(h, tenant, es, i)
  {
    var prev := PrevAt(h, tenant, es, i);
    if es[i].seqNo != i then Some(SequenceGap)
    else if es[i].prevHash != prev then Some(ChainBreak)
    else if es[i].entryHash != ChainHash(h, prev, LeafOf(h, tenant, es[i])) then Some(EntryTamper)
    else None
  }

  /** What replaying the rows from index `i` reports. */
  function ReplayFrom(h: Hasher, tenant: Blob, es: seq<Entry>, i: nat): Tally
    requires i <= |es| < TWO_TO_THE_64
    decreases |es| - i
  {
    if i == |es| then ZERO
    else
      match FaultAt(h, tenant, es, i)
      case Some(kind) => Tally([Issue(tenant, i, true, kind)], 1, 0, 0)
      case None =>
        var rest := ReplayFrom(h, tenant, es, i + 1);
        rest.(entries := rest.entries + 1)
  }

  // ---- The checkpoints ----

  /** Sequence numbers a loop over the window can count through. */
  predicate Countable(cp: Checkpoint) {
    cp.seqStart <= cp.seqEnd < TWO_TO_THE_64 - 1
  }

  /** What the held proofs report about the rebuilt id; proofs of unknown notaries are skipped. */
  function ProofTally(tenant: Blob, seqEnd: uint64, id: bytes, held: seq<Proof>, notaries: Notaries): (r: Tally)
    ensures r.entries == 0 && r.checkpoints == 0
  {
    if held == [] then ZERO
    else
      var p := held[|held| - 1];
      var rest := ProofTally(tenant, seqEnd, id, held[..|held| - 1], notaries);
      if p.notary !in notaries then rest
      else if notaries[p.notary].check(p, id) then rest.(proofs := rest.proofs + 1)
      else rest.(issues := rest.issues + [Issue(tenant, seqEnd, true, NotaryMismatch)], proofs := rest.proofs + 1)
  }

  /** What one anchored checkpoint reports, given the id anchored before it. */
  function WindowTally(h: Hasher, tenant: Blob, es: seq<Entry>, cp: Checkpoint, prevID: Blob,
                       ledger: Ledger, notaries: Notaries): Tally
    requires Countable(cp)
  {
    var (entries, complete) := RangeOf(es, cp.seqStart, cp.seqEnd);
    if !complete then Tally([Issue(tenant, cp.seqStart + |entries|, true, Truncation)], 0, 1, 0)
    else
      var id := h(IDString(h, tenant, entries, prevID, cp.anchoredAt));
      Tally(if id == cp.checkpointID then [] else [Issue(tenant, cp.seqEnd, true, CheckpointMismatch)], 0, 1, 0)
      .Plus(ProofTally(tenant, cp.seqEnd, id, Held(ledger, tenant, cp.seqEnd), notaries))
  }

  /** The id anchored before checkpoint `n`; nothing before the first. */
  function PrevID(cps: seq<Checkpoint>, n: nat): Blob
    requires n <= |cps|
  {
    if n == 0 then [] else cps[n - 1].checkpointID
  }

  function WindowsTally(h: Hasher, tenant: Blob, es: seq<Entry>, cps: seq<Checkpoint>, n: nat,
                        ledger: Ledger, notaries: Notaries): Tally
    requires n <= |cps| && forall cp :: cp in cps ==> Countable(cp)
  {
    if n == 0 then ZERO
    else
      WindowsTally(h, tenant, es, cps, n - 1, ledger, notaries)
      .Plus(WindowTally(h, tenant, es, cps[n - 1], PrevID(cps, n - 1), ledger, notaries))
  }

  predicate Readable(fetch: Fetch) {
    fetch.Fetched? ==> forall cp :: cp in fetch.cps ==> Countable(cp)
  }

  function CheckpointsTally(h: Hasher, tenant: Blob, es: seq<Entry>, fetch: Fetch, ledger: Ledger,
                            notaries: Notaries): Tally
    requires Readable(fetch)
  {
    match fetch
    case Unreadable => Tally([Issue(tenant, 0, false, WormError)], 0, 0, 0)
    case Fetched(cps) => WindowsTally(h, tenant, es, cps, |cps|, ledger, notaries)
  }

  /** Everything the verifier reports for one tenant whose rows, in order, are `es`. */
  function TenantTally(h: Hasher, tenant: Blob, es: seq<Entry>, fetch: Fetch, ledger: Ledger, notaries: Notaries): Tally
    requires |es| < TWO_TO_THE_64 && Readable(fetch)
  {
    ReplayFrom(h, tenant, es, 0).Plus(CheckpointsTally(h, tenant, es, fetch, ledger, notaries))
  }

  ghost predicate Loaded(table: Table, worm: Blob -> Fetch) {
    forall t :: t in table ==> |table[t]| < TWO_TO_THE_64 && Readable(worm(t))
  }

  function AllTally(h: Hasher, ids: seq<Blob>, table: Table, worm: Blob -> Fetch, ledger: Ledger,
                    notaries: Notaries): Tally
    requires Loaded(table, worm) && forall t :: t in ids ==> t in table
  {
    if ids == [] then ZERO
    else
      var t := ids[|ids| - 1];
      AllTally(h, ids[..|ids| - 1], table, worm, ledger, notaries)
      .Plus(TenantTally(h, t, table[t], worm(t), ledger, notaries))
  }

  // ---- The methods ----

  class Report {
    var issues: seq<Issue>
    var entriesChecked: nat
    var checkpointsSeen: nat
    var proofsChecked: nat

    constructor ()
      ensures Value() == ZERO
    {
      issues, entriesChecked, checkpointsSeen, proofsChecked := [], 0, 0, 0;
    }

    ghost function Value(): Tally reads this {
      Tally(issues, entriesChecked, checkpointsSeen, proofsChecked)
    }

    method OK() returns (ok: bool)
      ensures ok <==> issues == []
    {
      ok := |issues| == 0;
    }
  }

  method VerifyChain(h: Hasher, store: Store, tenant: Blob, r: Report)
    requires |store.Rows(tenant)| < TWO_TO_THE_64
    modifies store, r
    ensures SortedBySeq(store.Rows(tenant)) && multiset(store.Rows(tenant)) == multiset(old(store.Rows(tenant)))
    ensures |store.Rows(tenant)| == |old(store.Rows(tenant))|
    ensures store.entries == if tenant in old(store.entries) then old(store.entries)[tenant := store.Rows(tenant)]
                             else old(store.entries)
    ensures r.Value() == old(r.Value()).Plus(ReplayFrom(h, tenant, store.Rows(tenant), 0))
  {
    hide Encode, LinkedAt, LeafOf, ChainHash, Genesis, SortedBySeq;
    var es := store.Tenant(tenant);
    var prev: Blob := Genesis(h, tenant);
    var want := 0;
    for i := 0 to |es|
      modifies r
      invariant want == i && prev == PrevAt(h, tenant, es, i)
      invariant r.Value() == old(r.Value()).(entries := old(r.entriesChecked) + i)
      invariant var rest := ReplayFrom(h, tenant, es, i);
                ReplayFrom(h, tenant, es, 0) == rest.(entries := i + rest.entries)
    {
      var e := es[i];
      r.entriesChecked := r.entriesChecked + 1;
      if e.seqNo != want {
        r.issues := r.issues + [Issue(tenant, want, true, SequenceGap)];
        return;
      }
      if e.prevHash != prev {
        r.issues := r.issues + [Issue(tenant, e.seqNo, true, ChainBreak)];
        return;
      }
      var leaf := LeafOf(h, tenant, e);
      var recomputed := ChainHash(h, prev, leaf);
      if e.entryHash != recomputed {
        r.issues := r.issues + [Issue(tenant, e.seqNo, true, EntryTamper)];
        return;
      }
      prev := e.entryHash;
      want := want + 1;
    }
  }

  method VerifyCheckpoints(h: Hasher, store: Store, worm: Blob -> Fetch, ledger: ProofLedger, notaries: Notaries,
                           tenant: Blob, r: Report)
    requires Readable(worm(tenant))
    modifies r
    ensures r.Value() == old(r.Value()).Plus(
                           CheckpointsTally(h, tenant, store.Rows(tenant), worm(tenant), ledger.m, notaries))
  {
    hide WindowTally, Tally.Plus;
    match worm(tenant) {
      case Unreadable =>
        r.issues := r.issues + [Issue(tenant, 0, false, WormError)];
        assert r.Value() == old(r.Value()).Plus(Tally([Issue(tenant, 0, false, WormError)], 0, 0, 0)) by {
          PlusIs(old(r.Value()), Tally([Issue(tenant, 0, false, WormError)], 0, 0, 0));
        }
      case Fetched(anchored) =>
        ghost var es, before := store.Rows(tenant), r.Value();
        PlusIs(before, ZERO);
        assert before.issues + [] == before.issues;
        var prevID: Blob := [];
        for n := 0 to |anchored|
          invariant prevID == PrevID(anchored, n)
          invariant r.Value() == before.Plus(WindowsTally(h, tenant, es, anchored, n, ledger.m, notaries))
        {
          VerifyWindow(h, store, ledger, notaries, tenant, anchored[n], prevID, r);
          PlusAssoc(before, WindowsTally(h, tenant, es, anchored, n, ledger.m, notaries),
                    WindowTally(h, tenant, es, anchored[n], prevID, ledger.m, notaries));
          prevID := anchored[n].checkpointID;
        }
    }
  }

  /** The body of the checkpoint loop. */
  method VerifyWindow(h: Hasher, store: Store, ledger: ProofLedger, notaries: Notaries,
                      tenant: Blob, cp: Checkpoint, prevID: Blob, r: Report)
    requires Countable(cp)
    modifies r
    ensures r.Value() == old(r.Value()).Plus(
                           WindowTally(h, tenant, store.Rows(tenant), cp, prevID, ledger.m, notaries))
  {
    hide Encode, RangeOf, Build, IDString, ProofTally;
    r.checkpointsSeen := r.checkpointsSeen + 1;
    var entries, complete := store.Range(tenant, cp.seqStart, cp.seqEnd);
    if !complete {
      r.issues := r.issues + [Issue(tenant, cp.seqStart + |entries|, true, Truncation)];
      return;
    }
    var rebuilt := BuildCheckpoint(h, tenant, entries, prevID, cp.anchoredAt);
    if rebuilt.checkpointID != cp.checkpointID {
      r.issues := r.issues + [Issue(tenant, cp.seqEnd, true, CheckpointMismatch)];
    }
    ghost var first, before := r.Value(), old(r.Value());
    CheckProofs(ledger, notaries, tenant, cp.seqEnd, rebuilt.checkpointID, r);
    ghost var proofs := ProofTally(tenant, cp.seqEnd, rebuilt.checkpointID, Held(ledger.m, tenant, cp.seqEnd),
                                   notaries);
    ghost var window := Tally(if rebuilt.checkpointID == cp.checkpointID then []
                              else [Issue(tenant, cp.seqEnd, true, CheckpointMismatch)], 0, 1, 0);
    assert first == before.Plus(window);
    PlusAssoc(before, window, proofs);
  }

  /** The notary loop: proofs of unknown notaries are skipped. */
  method CheckProofs(ledger: ProofLedger, notaries: Notaries, tenant: Blob, seqEnd: uint64, id: bytes, r: Report)
    modifies r
    ensures r.Value() == old(r.Value()).Plus(ProofTally(tenant, seqEnd, id, Held(ledger.m, tenant, seqEnd), notaries))
  {
    var held := ledger.Get(tenant, seqEnd);
    for i := 0 to |held|
      invariant var t := ProofTally(tenant, seqEnd, id, held[..i], notaries);
                && r.issues == old(r.issues) + t.issues && r.proofsChecked == old(r.proofsChecked) + t.proofs
                && r.entriesChecked == old(r.entriesChecked) && r.checkpointsSeen == old(r.checkpointsSeen)
    {
      var p := held[i];
      assert held[..i + 1][..i] == held[..i];
      if p.notary in notaries {
        r.proofsChecked := r.proofsChecked + 1;
        if !notaries[p.notary].check(p, id) {
          r.issues := r.issues + [Issue(tenant, seqEnd, true, NotaryMismatch)];
        }
      }
    }
    assert held[..|held|] == held;
  }

  /** The last notary of a name wins. */
  function ByName(notaries: seq<Notary>): Notaries {
    if notaries == [] then map[]
    else ByName(notaries[..|notaries| - 1])[notaries[|notaries| - 1].name := notaries[|notaries| - 1]]
  }

  /** A name is found if and only if some notary has it, and then its last notary is. */
  lemma {:induction false} LastOfNameWins(notaries: seq<Notary>, i: nat)
    requires i < |notaries| && forall j :: i < j < |notaries| ==> notaries[j].name != notaries[i].name
    ensures notaries[i].name in ByName(notaries) && ByName(notaries)[notaries[i].name] == notaries[i]
  {
    if i < |notaries| - 1 { LastOfNameWins(notaries[..|notaries| - 1], i); }
  }

  lemma {:induction false} NamesFound(notaries: seq<Notary>)
    ensures forall name :: name in ByName(notaries) <==> exists i :: 0 <= i < |notaries| && notaries[i].name == name
  {
    if notaries != [] {
      var init, last := notaries[..|notaries| - 1], notaries[|notaries| - 1];
      NamesFound(init);
      forall name ensures name in ByName(notaries) <==> exists i :: 0 <= i < |notaries| && notaries[i].name == name {
        assert name == last.name ==> notaries[|notaries| - 1].name == name;
        assert forall i :: 0 <= i < |init| ==> init[i] == notaries[i];
      }
    }
  }

  method IndexNotaries(notaries: seq<Notary>) returns (byName: Notaries)
    ensures byName == ByName(notaries)
    ensures forall name :: name in byName <==> exists i :: 0 <= i < |notaries| && notaries[i].name == name
    ensures forall i :: 0 <= i < |notaries|
                        && (forall j :: i < j < |notaries| ==> notaries[j].name != notaries[i].name) ==>
                          notaries[i].name in byName && byName[notaries[i].name] == notaries[i]
  {
    NamesFound(notaries);
    forall i | 0 <= i < |notaries| && forall j :: i < j < |notaries| ==> notaries[j].name != notaries[i].name
      ensures notaries[i].name in ByName(notaries) && ByName(notaries)[notaries[i].name] == notaries[i]
    {
      LastOfNameWins(notaries, i);
    }
    byName := map[];
    for i := 0 to |notaries|
      invariant byName == ByName(notaries[..i])
    {
      assert notaries[..i + 1][..i] == notaries[..i];
      byName := byName[notaries[i].name := notaries[i]];
    }
    assert notaries[..|notaries|] == notaries;
  }

  lemma ReorderedRefl(table: Table)
    ensures Reordered(table, table)
  {
  }

  lemma SortedOne(table0: Table, table: Table, tenant: Blob, es: seq<Entry>, worm: Blob -> Fetch)
    requires Reordered(table0, table) && tenant in table && Loaded(table, worm)
    requires multiset(es) == multiset(table[tenant]) && |es| == |table[tenant]|
    ensures Reordered(table0, table[tenant := es]) && Loaded(table[tenant := es], worm)
  {
    hide Readable;
    var table' := table[tenant := es];
    forall t | t in table0
      ensures multiset(table0[t]) == multiset(table'[t]) && |table0[t]| == |table'[t]|
    {
      assert t in table;
    }
  }

  /** The body of the tenant loop. */
  method VerifyTenant(h: Hasher, store: Store, worm: Blob -> Fetch, ledger: ProofLedger, notaries: Notaries,
                      tenant: Blob, r: Report)
    requires tenant in store.entries && |store.entries[tenant]| < TWO_TO_THE_64 && Readable(worm(tenant))
    modifies store, r
    ensures tenant in store.entries && store.entries == old(store.entries)[tenant := store.entries[tenant]]
    ensures SortedBySeq(store.entries[tenant]) && |store.entries[tenant]| == |old(store.entries[tenant])|
    ensures multiset(store.entries[tenant]) == multiset(old(store.entries[tenant]))
    ensures r.Value() == old(r.Value()).Plus(ReplayFrom(h, tenant, store.entries[tenant], 0))
                         .Plus(CheckpointsTally(h, tenant, store.entries[tenant], worm(tenant), ledger.m, notaries))
  {
    hide ReplayFrom, CheckpointsTally, Tally.Plus, Readable, SortedBySeq;
    VerifyChain(h, store, tenant, r);
    VerifyCheckpoints(h, store, worm, ledger, notaries, tenant, r);
  }

  /** Also returns, as a ghost, the order in which the tenants were visited. */
  method VerifyAll(h: Hasher, store: Store, worm: Blob -> Fetch, ledger: ProofLedger, notaries: seq<Notary>)
    returns (r: Report, ghost ids: seq<Blob>)
    requires Loaded(store.entries, worm)
    modifies store
    ensures fresh(r)
    ensures Reordered(old(store.entries), store.entries) && Loaded(store.entries, worm)
    ensures LexSorted(ids) && Distinct(ids) && forall t :: t in ids <==> t in store.entries
    ensures forall t :: t in ids ==> SortedBySeq(store.entries[t])
    ensures r.Value() == AllTally(h, ids, store.entries, worm, ledger.m, ByName(notaries))
  {
    hide ReplayFrom, CheckpointsTally, Tally.Plus, Tally.Silent, AllTally, Reordered, Readable, SortedBySeq, LexSorted;
    ReorderedRefl(store.entries);
    r := new Report();
    var byName := IndexNotaries(notaries);
    var tenants := store.Tenants();
    AllTallyNone(h, tenants, store.entries, worm, ledger.m, byName);
    for i := 0 to |tenants|
      invariant fresh(r)
      invariant Reordered(old(store.entries), store.entries) && Loaded(store.entries, worm)
      invariant store.entries.Keys == old(store.entries).Keys
      invariant forall t :: t in tenants[..i] ==> t in store.entries && SortedBySeq(store.entries[t])
      invariant r.Value() == AllTally(h, tenants[..i], store.entries, worm, ledger.m, byName)
    {
      var tenant := tenants[i];
      assert tenant in tenants && tenant in store.entries;
      ghost var table, before := store.entries, r.Value();
      VerifyTenant(h, store, worm, ledger, byName, tenant, r);
      assert tenant !in tenants[..i];
      SortedOne(old(store.entries), table, tenant, store.entries[tenant], worm);
      AllTallyNext(h, tenants, i, table, store.entries, worm, ledger.m, byName);
    }
    assert tenants[..|tenants|] == tenants;
    ids := tenants;
  }

  lemma AllTallyNone(h: Hasher, ids: seq<Blob>, table: Table, worm: Blob -> Fetch, ledger: Ledger, notaries: Notaries)
    requires Loaded(table, worm)
    ensures AllTally(h, ids[..0], table, worm, ledger, notaries) == ZERO
  {
  }

  /** A tenant's part of the report does not look at other tenants' rows. */
  lemma {:induction false} AllTallyFrame(h: Hasher, ids: seq<Blob>, table: Table, table': Table,
                                         worm: Blob -> Fetch, ledger: Ledger, notaries: Notaries)
    requires Loaded(table, worm) && Loaded(table', worm)
    requires forall t :: t in ids ==> t in table && t in table' && table[t] == table'[t]
    ensures AllTally(h, ids, table, worm, ledger, notaries) == AllTally(h, ids, table', worm, ledger, notaries)
  {
    hide TenantTally;
    if ids != [] {
      AllTallyFrame(h, ids[..|ids| - 1], table, table', worm, ledger, notaries);
    }
  }

  lemma AllTallyNext(h: Hasher, ids: seq<Blob>, i: nat, table: Table, table': Table,
                     worm: Blob -> Fetch, ledger: Ledger, notaries: Notaries)
    requires i < |ids| && Loaded(table, worm) && Loaded(table', worm)
    requires forall t :: t in ids[..i] ==> t in table && t in table' && table[t] == table'[t]
    requires ids[i] in table'
    ensures AllTally(h, ids[..i + 1], table', worm, ledger, notaries)
         == AllTally(h, ids[..i], table, worm, ledger, notaries)
            .Plus(ReplayFrom(h, ids[i], table'[ids[i]], 0))
            .Plus(CheckpointsTally(h, ids[i], table'[ids[i]], worm(ids[i]), ledger, notaries))
  {
    hide ReplayFrom, CheckpointsTally, Tally.Plus;
    assert ids[..i + 1][..i] == ids[..i] && ids[..i + 1] == ids[..i] + [ids[i]];
    AllTallyFrame(h, ids[..i], table, table', worm, ledger, notaries);
    PlusAssoc(AllTally(h, ids[..i], table, worm, ledger, notaries), ReplayFrom(h, ids[i], table'[ids[i]], 0),
              CheckpointsTally(h, ids[i], table'[ids[i]], worm(ids[i]), ledger, notaries));
  }
}
