/** The system as a state machine: batches that may fail, restarts of the sealer, and anchoring runs that
    may fail, in any order and for any tenants. */
module Runs {
  import opened Bytes
  import opened Hashing
  import opened Chain
  import opened ChainStore
  import opened Checkpoints
  import opened Witness
  import opened Verify
  import opened Tiling
  import opened Evidence
  import opened Ingest
  import opened Anchor
  import opened AnchorInvariant
  import AnyRun
  import opened Honest
  import opened Independence

  datatype World = World(sealer: SealerState, anchors: map<Blob, Anchors>)

  const START: World := World(SealerState(map[], map[]), map[])

  datatype Event =
    | Batch(tenant: Blob, recs: seq<Record>, fault: BatchFault)
    | Restart
    | Run(tenant: Blob, env: Env)

  function Rows(w: World, t: Blob): seq<Entry> {
    RowsIn(w.sealer.rows, t)
  }

  function AnchorsIn(w: World, t: Blob): Anchors {
    if t in w.anchors then w.anchors[t] else NO_ANCHORS
  }

  /** What is ruled out: a 64-bit sequence number overflowing. */
  ghost predicate Admissible(h: Hasher, w: World, e: Event) {
    match e
    case Batch(t, recs, _) =>
      |Rows(w, t)| + |recs| < TWO_TO_THE_64 && HeadFor(h, w.sealer, t).nextSeq + |recs| < TWO_TO_THE_64
    case Restart => true
    case Run(t, _) => |Rows(w, t)| < TWO_TO_THE_64
  }

  ghost function Step(h: Hasher, notaries: seq<Notary>, max: nat, w: World, e: Event): World
    requires max > 0 && Admissible(h, w, e)
  {
    match e
    case Batch(t, recs, fault) => w.(sealer := BatchStep(h, w.sealer, t, recs, fault))
    case Restart => w.(sealer := w.sealer.(heads := map[]))
    case Run(t, env) =>
      w.(anchors := w.anchors[t := AnchorRun(h, t, AnchorsIn(w, t), Rows(w, t), env, notaries, max).anchors])
  }

  ghost predicate IsRun(h: Hasher, notaries: seq<Notary>, max: nat, ws: seq<World>, es: seq<Event>) {
    && max > 0 && |ws| == |es| + 1 && ws[0] == START
    && forall i :: 0 <= i < |es| ==> Admissible(h, ws[i], es[i]) && ws[i + 1] == Step(h, notaries, max, ws[i], es[i])
  }

  /** Whether the sealer has the tenant's head in its cache after the first `n` events: some batch since the last
      restart has read it. */
  function Cached(es: seq<Event>, n: nat, t: Blob): bool
    requires n <= |es|
  {
    if n == 0 then false
    else
      match es[n - 1]
      case Batch(t', _, fault) => Cached(es, n - 1, t) || (t' == t && !fault.HeadFails?)
      case Restart => false
      case Run(_, _) => Cached(es, n - 1, t)
  }

  /** The records of the tenant's batches for which no needed database call failed, in order. Only the events
      decide. */
  function Submitted(es: seq<Event>, n: nat, t: Blob): seq<Record>
    requires n <= |es|
  {
    if n == 0 then []
    else
      Submitted(es, n - 1, t)
      + match es[n - 1]
        case Batch(t', recs, fault) => if t' == t && GoesThrough(Cached(es, n - 1, t), recs, fault) then recs else []
        case _ => []
  }

  /** The records of all the tenant's batches. */
  function Sent(es: seq<Event>, n: nat, t: Blob): seq<Record>
    requires n <= |es|
  {
    if n == 0 then []
    else Sent(es, n - 1, t) + if es[n - 1].Batch? && es[n - 1].tenant == t then es[n - 1].recs else []
  }

  /** Without faults of the database no record is lost. */
  lemma {:induction false} NothingLost(es: seq<Event>, n: nat, t: Blob)
    requires n <= |es| && forall i :: 0 <= i < n && es[i].Batch? ==> es[i].fault.NoFault?
    ensures Submitted(es, n, t) == Sent(es, n, t)
  {
    if n > 0 { NothingLost(es, n - 1, t); }
  }

  // ---- Invariants of every run ----

  /** Chains and heads are in order, and every record of storage was built from the tenant's rows. */
  ghost predicate BaseInv(h: Hasher, w: World) {
    Ingest.Synced(h, w.sealer) && forall t: Blob :: AnyRun.RecordsBuilt(h, t, Rows(w, t), AnchorsIn(w, t))
  }

  lemma StepKeepsBase(h: Hasher, notaries: seq<Notary>, max: nat, w: World, e: Event)
    requires BaseInv(h, w) && max > 0 && Admissible(h, w, e)
    ensures BaseInv(h, Step(h, notaries, max, w, e))
  {
    hide AnyRun.RecordsBuilt, AnchorRun, BatchStep, HeadSynced, HeadFor;
    var w' := Step(h, notaries, max, w, e);
    match e {
      case Batch(t, recs, fault) =>
        BatchKeepsSynced(h, w.sealer, t, recs, fault);
        BatchExtends(h, w.sealer, t, recs, fault);
        forall u: Blob ensures AnyRun.RecordsBuilt(h, u, Rows(w', u), AnchorsIn(w', u)) {
          assert AnyRun.RecordsBuilt(h, u, Rows(w, u), AnchorsIn(w, u));
          if u == t { AnyRun.RecordsBuiltGrow(h, t, Rows(w, t), Rows(w', t), AnchorsIn(w, t)); }
        }
      case Restart =>
        RestartKeepsSynced(h, w.sealer);
        forall u: Blob ensures AnyRun.RecordsBuilt(h, u, Rows(w', u), AnchorsIn(w', u)) {
          assert AnyRun.RecordsBuilt(h, u, Rows(w, u), AnchorsIn(w, u));
        }
      case Run(t, env) =>
        SyncedIsNumbered(h, w.sealer, t);
        forall u: Blob ensures AnyRun.RecordsBuilt(h, u, Rows(w', u), AnchorsIn(w', u)) {
          assert AnyRun.RecordsBuilt(h, u, Rows(w, u), AnchorsIn(w, u));
          if u == t { AnyRun.AnchorRunKeepsBuilt(h, t, Rows(w, t), max, AnchorsIn(w, t), notaries, env); }
        }
    }
  }

  lemma RestartKeepsSynced(h: Hasher, s: SealerState)
    requires Ingest.Synced(h, s)
    ensures Ingest.Synced(h, s.(heads := map[]))
  {
    hide Linked, Owned;
    forall t: Blob ensures HeadSynced(h, s.(heads := map[]), t) { assert HeadSynced(h, s, t); }
  }

  lemma SyncedIsNumbered(h: Hasher, s: SealerState, t: Blob)
    requires Ingest.Synced(h, s)
    ensures Numbered(RowsIn(s.rows, t)) && StrictBySeq(RowsIn(s.rows, t))
    ensures Linked(h, t, RowsIn(s.rows, t)) && Owned(t, RowsIn(s.rows, t)) && |RowsIn(s.rows, t)| < TWO_TO_THE_64
  {
    assert HeadSynced(h, s, t);
    hide Linked;
    LinkedIsNumbered(h, t, RowsIn(s.rows, t));
  }

  /** At every point of every run, torn writes included: each tenant's rows are a chain of exactly the submitted
      records, every cached head is the head of its chain, and every record was built from those rows. */
  lemma {:induction false} BaseInvariant(h: Hasher, notaries: seq<Notary>, max: nat, ws: seq<World>, es: seq<Event>,
                                         n: nat)
    requires IsRun(h, notaries, max, ws, es) && n <= |es|
    ensures BaseInv(h, ws[n])
    ensures forall t: Blob :: Payloads(Rows(ws[n], t)) == Submitted(es, n, t)
    ensures forall t: Blob :: t in ws[n].sealer.heads <==> Cached(es, n, t)
  {
    if n == 0 {
      BaseAtStart(h);
    } else {
      hide BaseInv, Step, Admissible, GoesThrough;
      BaseInvariant(h, notaries, max, ws, es, n - 1);
      var w, e := ws[n - 1], es[n - 1];
      assert Admissible(h, w, e) && ws[n] == Step(h, notaries, max, w, e);
      StepKeepsBase(h, notaries, max, w, e);
      if e.Batch? { BatchAddsRecords(h, notaries, max, w, e); } else { RowsKept(h, notaries, max, w, e); }
    }
  }

  lemma BaseAtStart(h: Hasher)
    ensures BaseInv(h, START)
  {
    forall t: Blob ensures HeadSynced(h, START.sealer, t) {
    }
  }

  lemma BatchAddsRecords(h: Hasher, notaries: seq<Notary>, max: nat, w: World, e: Event)
    requires BaseInv(h, w) && max > 0 && Admissible(h, w, e) && e.Batch?
    ensures var w' := Step(h, notaries, max, w, e);
            && (forall u: Blob :: u != e.tenant ==> Rows(w', u) == Rows(w, u))
            && (forall u: Blob :: u in w'.sealer.heads <==>
                  u in w.sealer.heads || (u == e.tenant && !e.fault.HeadFails?))
            && Payloads(Rows(w', e.tenant)) == Payloads(Rows(w, e.tenant))
               + if GoesThrough(e.tenant in w.sealer.heads, e.recs, e.fault) then e.recs else []
  {
    hide AnyRun.RecordsBuilt, BatchStep, BatchResult, HeadFor, HeadSynced, GoesThrough;
    BatchKeepsSynced(h, w.sealer, e.tenant, e.recs, e.fault);
  }

  lemma RowsKept(h: Hasher, notaries: seq<Notary>, max: nat, w: World, e: Event)
    requires max > 0 && Admissible(h, w, e) && !e.Batch?
    ensures forall t: Blob :: Rows(Step(h, notaries, max, w, e), t) == Rows(w, t)
    ensures forall t: Blob :: t in Step(h, notaries, max, w, e).sealer.heads <==> e.Run? && t in w.sealer.heads
  {
  }

  // ---- Invariants of runs without torn writes ----

  /** None of the first `n` events crashes between the two checkpoint writes of one window. */
  ghost predicate Untorn(es: seq<Event>, n: nat)
    requires n <= |es|
  {
    forall i :: 0 <= i < n && es[i].Run? ==> NoTornWrite(es[i].env)
  }

  ghost predicate TenantStored(h: Hasher, max: nat, w: World, t: Blob) {
    exists cps :: Stored(h, t, Rows(w, t), max, cps, AnchorsIn(w, t))
  }

  /** Chains, heads and storage are in order; the notaries may be anything. */
  ghost predicate Inv(h: Hasher, max: nat, w: World) {
    Ingest.Synced(h, w.sealer) && forall t: Blob :: TenantStored(h, max, w, t)
  }

  /** Every held proof attests what is stored. */
  ghost predicate AllProven(notaries: seq<Notary>, w: World) {
    forall t: Blob :: Proven(AnchorsIn(w, t), notaries)
  }

  lemma InvAtStart(h: Hasher, notaries: seq<Notary>, max: nat)
    ensures Inv(h, max, START) && AllProven(notaries, START)
  {
    forall t: Blob ensures HeadSynced(h, START.sealer, t) && TenantStored(h, max, START, t) {
      NothingAnchored(h, t, [], max, notaries);
      assert Stored(h, t, Rows(START, t), max, [], AnchorsIn(START, t));
    }
  }

  lemma BatchKeepsInv(h: Hasher, notaries: seq<Notary>, max: nat, w: World, t: Blob, recs: seq<Record>,
                      fault: BatchFault)
    requires Inv(h, max, w) && max > 0 && Admissible(h, w, Batch(t, recs, fault))
    ensures var w' := Step(h, notaries, max, w, Batch(t, recs, fault));
            Inv(h, max, w') && w'.anchors == w.anchors
  {
    hide Stored, HeadSynced, BatchStep, BatchResult, HeadFor;
    BatchKeepsSynced(h, w.sealer, t, recs, fault);
    BatchExtends(h, w.sealer, t, recs, fault);
    var w' := Step(h, notaries, max, w, Batch(t, recs, fault));
    forall u: Blob ensures TenantStored(h, max, w', u) {
      assert TenantStored(h, max, w, u);
      var cps :| Stored(h, u, Rows(w, u), max, cps, AnchorsIn(w, u));
      if u == t {
        StoredGrows(h, t, Rows(w, t), Rows(w', t), max, cps, AnchorsIn(w, t));
      }
      assert Stored(h, u, Rows(w', u), max, cps, AnchorsIn(w', u));
    }
  }

  /** A batch only appends. */
  lemma BatchExtends(h: Hasher, s: SealerState, t: Blob, recs: seq<Record>, fault: BatchFault)
    requires Ingest.Synced(h, s) && |RowsIn(s.rows, t)| + |recs| < TWO_TO_THE_64
    requires HeadFor(h, s, t).nextSeq + |recs| < TWO_TO_THE_64
    ensures RowsIn(s.rows, t) <= RowsIn(BatchStep(h, s, t, recs, fault).rows, t)
    ensures |RowsIn(BatchStep(h, s, t, recs, fault).rows, t)| < TWO_TO_THE_64
  {
    hide AppendAll, SealAll, StoredHead, Linked;
    BatchKeepsSynced(h, s, t, recs, fault);
    assert HeadSynced(h, BatchStep(h, s, t, recs, fault), t);
    var result := BatchResult(h, s, t, recs, fault);
    if result.Some? {
      SealAllOwned(h, t, HeadFor(h, s, t).nextSeq, HeadFor(h, s, t).prevHash, recs);
      AppendAllUniform(s.rows, t, result.value);
    }
  }

  lemma RunKeepsInv(h: Hasher, notaries: seq<Notary>, max: nat, w: World, t: Blob, env: Env)
    requires Inv(h, max, w) && max > 0 && Admissible(h, w, Run(t, env)) && NoTornWrite(env)
    ensures Inv(h, max, Step(h, notaries, max, w, Run(t, env)))
    ensures Panel(notaries) && AllProven(notaries, w) ==> AllProven(notaries, Step(h, notaries, max, w, Run(t, env)))
  {
    hide Linked, AnchorRun, Stored, Panel, Proven;
    var w' := Step(h, notaries, max, w, Run(t, env));
    assert HeadSynced(h, w.sealer, t);
    LinkedIsNumbered(h, t, Rows(w, t));
    assert TenantStored(h, max, w, t);
    var cps :| Stored(h, t, Rows(w, t), max, cps, AnchorsIn(w, t));
    var cps' := AnchorRunKeeps(h, t, Rows(w, t), max, cps, AnchorsIn(w, t), notaries, env);
    forall u: Blob ensures TenantStored(h, max, w', u) {
      assert TenantStored(h, max, w, u);
      if u == t {
        assert Stored(h, t, Rows(w', t), max, cps', AnchorsIn(w', t));
      } else {
        assert AnchorsIn(w', u) == AnchorsIn(w, u) && Rows(w', u) == Rows(w, u);
      }
    }
    if Panel(notaries) && AllProven(notaries, w) {
      assert Proven(AnchorsIn(w, t), notaries);
      forall u: Blob ensures Proven(AnchorsIn(w', u), notaries) {
        assert Proven(AnchorsIn(w, u), notaries);
      }
    }
  }

  lemma RestartKeepsInv(h: Hasher, notaries: seq<Notary>, max: nat, w: World)
    requires Inv(h, max, w) && max > 0
    ensures var w' := Step(h, notaries, max, w, Restart);
            Inv(h, max, w') && w'.anchors == w.anchors
  {
    hide Stored, Linked;
    var w' := Step(h, notaries, max, w, Restart);
    forall t: Blob ensures HeadSynced(h, w'.sealer, t) && TenantStored(h, max, w', t) {
      assert HeadSynced(h, w.sealer, t) && TenantStored(h, max, w, t);
      var cps :| Stored(h, t, Rows(w, t), max, cps, AnchorsIn(w, t));
      assert Stored(h, t, Rows(w', t), max, cps, AnchorsIn(w', t));
    }
  }

  /** At every point of every run without torn writes: each tenant's rows are a chain, every cached head is the
      head of its chain, storage is in order, and the rows carry the submitted records. If the notaries are a
      panel, every held proof attests what is stored, so that the whole anchoring invariant holds. */
  lemma {:induction false} RunInvariant(h: Hasher, notaries: seq<Notary>, max: nat, ws: seq<World>, es: seq<Event>,
                                        n: nat)
    requires IsRun(h, notaries, max, ws, es) && n <= |es| && Untorn(es, n)
    ensures Inv(h, max, ws[n])
    ensures Panel(notaries) ==> AllProven(notaries, ws[n])
    ensures forall t: Blob :: Payloads(Rows(ws[n], t)) == Submitted(es, n, t)
  {
    hide Inv, BaseInv, Step, BatchResult, Panel, Admissible, Proven, NoTornWrite, Submitted;
    BaseInvariant(h, notaries, max, ws, es, n);
    if n == 0 {
      InvAtStart(h, notaries, max);
    } else {
      RunInvariant(h, notaries, max, ws, es, n - 1);
      var w, e := ws[n - 1], es[n - 1];
      assert Admissible(h, w, e) && ws[n] == Step(h, notaries, max, w, e);
      match e {
        case Batch(t, recs, fault) =>
          BatchKeepsInv(h, notaries, max, w, t, recs, fault);
          ProvenFrame(notaries, w, ws[n]);
        case Restart =>
          RestartKeepsInv(h, notaries, max, w);
          ProvenFrame(notaries, w, ws[n]);
        case Run(t, env) =>
          RunKeepsInv(h, notaries, max, w, t, env);
      }
    }
  }

  lemma ProvenFrame(notaries: seq<Notary>, w: World, w': World)
    requires w'.anchors == w.anchors
    ensures AllProven(notaries, w) ==> AllProven(notaries, w')
  {
    hide Proven;
    forall t: Blob | AllProven(notaries, w) ensures Proven(AnchorsIn(w', t), notaries) {
      assert Proven(AnchorsIn(w, t), notaries) && AnchorsIn(w', t) == AnchorsIn(w, t);
    }
  }

  // ---- What follows for whole runs ----

  /** Batching, failed calls, cached heads and restarts are invisible: the tenant's rows are what sealing
      its submitted records one after the other produces. */
  lemma SealerRefinement(h: Hasher, notaries: seq<Notary>, max: nat, ws: seq<World>, es: seq<Event>, n: nat, t: Blob)
    requires IsRun(h, notaries, max, ws, es) && n <= |es|
    ensures |Submitted(es, n, t)| < TWO_TO_THE_64
    ensures Rows(ws[n], t) == Sealed(h, t, Submitted(es, n, t))
    ensures t in ws[n].sealer.heads ==>
              ws[n].sealer.heads[t] == Head(|Rows(ws[n], t)|, HeadHash(h, t, Rows(ws[n], t)))
  {
    assert |ws| == |es| + 1;
    hide IsRun, Linked, Sealed, AnyRun.RecordsBuilt;
    BaseInvariant(h, notaries, max, ws, es, n);
    assert HeadSynced(h, ws[n].sealer, t);
    LinkedIffSealed(h, t, Rows(ws[n], t));
  }

  /** Every window ever anchored came with all the notaries' proofs. */
  ghost predicate FullyNotarised(notaries: seq<Notary>, w: World, t: Blob) {
    forall e :: e in AnchorsIn(w, t).worm ==> |ProofsAt(AnchorsIn(w, t).proofs, e)| == |notaries|
  }

  ghost predicate NoFaults(es: seq<Event>) {
    forall i :: 0 <= i < |es| && es[i].Run? ==> FaultFree(es[i].env)
  }

  lemma NoFaultsUntorn(es: seq<Event>, n: nat)
    requires NoFaults(es) && n <= |es|
    ensures Untorn(es, n)
  {
  }

  lemma NotarisedAfter(a: Anchors, cps: seq<Checkpoint>, a': Anchors, cps': seq<Checkpoint>, k: nat)
    requires IsListing(a.worm, cps) && IsListing(a'.worm, cps') && Keyed(a'.worm) && cps <= cps'
    requires forall e :: e in a.worm ==> |ProofsAt(a.proofs, e)| == k && ProofsAt(a'.proofs, e) == ProofsAt(a.proofs, e)
    requires FullFrom(a', cps', |cps|, k)
    ensures forall e :: e in a'.worm ==> |ProofsAt(a'.proofs, e)| == k
  {
    forall e | e in a'.worm ensures |ProofsAt(a'.proofs, e)| == k {
      assert a'.worm[e] in cps' && a'.worm[e].seqEnd == e;
      var j :| 0 <= j < |cps'| && cps'[j] == a'.worm[e];
      if j < |cps| {
        assert cps[j] == cps'[j] && cps[j] in cps && e in a.worm;
      }
    }
  }

  lemma RunKeepsNotarised(h: Hasher, notaries: seq<Notary>, max: nat, w: World, t: Blob, env: Env)
    requires Inv(h, max, w) && max > 0 && Admissible(h, w, Run(t, env)) && FaultFree(env) && NoTornWrite(env)
    requires Panel(notaries) && Proven(AnchorsIn(w, t), notaries) && FullyNotarised(notaries, w, t)
    ensures FullyNotarised(notaries, Step(h, notaries, max, w, Run(t, env)), t)
  {
    hide Linked, AnchorRun, Tiles, NoTornWrite, FaultFree, Panel, Proven, IsListing, Keyed, FullFrom, NextStart;
    var w' := Step(h, notaries, max, w, Run(t, env));
    assert HeadSynced(h, w.sealer, t) && TenantStored(h, max, w, t);
    LinkedIsNumbered(h, t, Rows(w, t));
    var cps :| Stored(h, t, Rows(w, t), max, cps, AnchorsIn(w, t));
    var cps' := AnchorRunKeeps(h, t, Rows(w, t), max, cps, AnchorsIn(w, t), notaries, env);
    NotarisedAfter(AnchorsIn(w, t), cps, AnchorsIn(w', t), cps', |notaries|);
  }

  lemma {:induction false} FaultFreeNotarises(h: Hasher, notaries: seq<Notary>, max: nat, ws: seq<World>,
                                              es: seq<Event>, n: nat, t: Blob)
    requires IsRun(h, notaries, max, ws, es) && Panel(notaries) && NoFaults(es) && n <= |es|
    ensures FullyNotarised(notaries, ws[n], t)
  {
    hide Inv, AnchorRun, BatchStep, Panel, Admissible, FaultFree, Proven, NoTornWrite;
    if n > 0 {
      FaultFreeNotarises(h, notaries, max, ws, es, n - 1, t);
      NoFaultsUntorn(es, n - 1);
      RunInvariant(h, notaries, max, ws, es, n - 1);
      var w, e := ws[n - 1], es[n - 1];
      assert Admissible(h, w, e) && ws[n] == Step(h, notaries, max, w, e);
      if e.Run? && e.tenant == t {
        assert NoTornWrite(e.env) by { NoFaultsUntorn(es, n); }
        RunKeepsNotarised(h, notaries, max, w, t, e.env);
      } else {
        OtherEventsKeepAnchors(h, notaries, max, w, e, t);
      }
    }
  }

  lemma OtherEventsKeepAnchors(h: Hasher, notaries: seq<Notary>, max: nat, w: World, e: Event, t: Blob)
    requires max > 0 && Admissible(h, w, e) && !(e.Run? && e.tenant == t)
    ensures AnchorsIn(Step(h, notaries, max, w, e), t) == AnchorsIn(w, t)
  {
    hide BatchStep, AnchorRun;
  }

  lemma {:induction false} FullProofCount(a: Anchors, cps: seq<Checkpoint>, n: nat, k: nat)
    requires n <= |cps| && forall j :: 0 <= j < n ==> |ProofsAt(a.proofs, cps[j].seqEnd)| == k
    ensures ProofCount(a, cps, n) == n * k
  {
    if n > 0 {
      FullProofCount(a, cps, n - 1, k);
      assert n * k == (n - 1) * k + k;
    }
  }

  /** What the verifier is handed after a run: the write-once records of the tenant, in order, and the
      proofs held for it. */
  ghost predicate Delivered(w: World, t: Blob, cps: seq<Checkpoint>, ledger: Ledger) {
    IsListing(AnchorsIn(w, t).worm, cps) && LedgerOf(ledger, t, AnchorsIn(w, t))
  }

  lemma DeliveredIsStored(h: Hasher, max: nat, w: World, t: Blob, cps: seq<Checkpoint>)
    requires Inv(h, max, w) && IsListing(AnchorsIn(w, t).worm, cps)
    ensures Stored(h, t, Rows(w, t), max, cps, AnchorsIn(w, t))
    ensures Linked(h, t, Rows(w, t)) && Owned(t, Rows(w, t)) && |Rows(w, t)| < TWO_TO_THE_64
  {
    assert HeadSynced(h, w.sealer, t) && TenantStored(h, max, w, t);
    var cps0 :| Stored(h, t, Rows(w, t), max, cps0, AnchorsIn(w, t));
    ListingIsUnique(AnchorsIn(w, t).worm, cps0, cps);
  }

  /** Torn or not, what is listed was built from the rows. */
  lemma ListedIsBuilt(h: Hasher, w: World, t: Blob, cps: seq<Checkpoint>)
    requires BaseInv(h, w) && IsListing(AnchorsIn(w, t).worm, cps)
    ensures Keyed(AnchorsIn(w, t).worm) && Readable(Fetched(cps))
    ensures forall n :: 0 <= n < |cps| ==> BuiltFrom(h, t, Rows(w, t), cps[n])
  {
    hide BuiltFrom, HeadSynced, Countable;
    assert AnyRun.RecordsBuilt(h, t, Rows(w, t), AnchorsIn(w, t));
    forall cp | cp in cps ensures BuiltFrom(h, t, Rows(w, t), cp) && Countable(cp) {
      BuiltFromID(h, t, Rows(w, t), cp);
    }
  }

  /** Honest completeness. At any point of any run, whatever failed on the way, the verifier reports no
      issue for any tenant and has checked all its rows, checkpoints and held proofs. */
  lemma HonestRunVerifies(h: Hasher, notaries: seq<Notary>, max: nat, ws: seq<World>, es: seq<Event>, n: nat,
                          t: Blob, cps: seq<Checkpoint>, ledger: Ledger)
    requires IsRun(h, notaries, max, ws, es) && Panel(notaries) && n <= |es| && Untorn(es, n)
    requires Delivered(ws[n], t, cps, ledger)
    ensures |Rows(ws[n], t)| < TWO_TO_THE_64 && Readable(Fetched(cps))
    ensures TenantTally(h, t, Rows(ws[n], t), Fetched(cps), ledger, ByName(notaries))
         == Tally([], |Rows(ws[n], t)|, |cps|, ProofCount(AnchorsIn(ws[n], t), cps, |cps|))
  {
    assert |ws| == |es| + 1;
    assert LedgerOf(ledger, t, AnchorsIn(ws[n], t)) && IsListing(AnchorsIn(ws[n], t).worm, cps);
    hide IsRun, Inv, Panel, Stored, Proven, Linked, TenantTally, ProofCount, Readable, Delivered, LedgerOf, IsListing,
         Untorn;
    RunInvariant(h, notaries, max, ws, es, n);
    DeliveredIsStored(h, max, ws[n], t, cps);
    assert Proven(AnchorsIn(ws[n], t), notaries);
    HonestTenant(h, t, Rows(ws[n], t), max, cps, AnchorsIn(ws[n], t), notaries, ledger);
  }

  /** The counts: every record is listed, and without anchoring faults there are as many proofs as
      checkpoints times notaries. */
  lemma HonestRunCounts(h: Hasher, notaries: seq<Notary>, max: nat, ws: seq<World>, es: seq<Event>, n: nat,
                        t: Blob, cps: seq<Checkpoint>)
    requires IsRun(h, notaries, max, ws, es) && n <= |es|
    requires IsListing(AnchorsIn(ws[n], t).worm, cps)
    ensures |cps| == |AnchorsIn(ws[n], t).worm|
    ensures Panel(notaries) && NoFaults(es) ==> ProofCount(AnchorsIn(ws[n], t), cps, |cps|) == |cps| * |notaries|
  {
    assert |ws| == |es| + 1;
    hide IsRun, BaseInv, Panel, ProofCount, NoFaults, BuiltFrom, FullyNotarised, IsListing, Keyed, Readable;
    BaseInvariant(h, notaries, max, ws, es, n);
    ListedIsBuilt(h, ws[n], t, cps);
    ListingSize(AnchorsIn(ws[n], t).worm, cps);
    if Panel(notaries) && NoFaults(es) {
      FaultFreeNotarises(h, notaries, max, ws, es, n, t);
      FullListing(notaries, ws[n], t, cps);
    }
  }

  lemma FullListing(notaries: seq<Notary>, w: World, t: Blob, cps: seq<Checkpoint>)
    requires IsListing(AnchorsIn(w, t).worm, cps) && FullyNotarised(notaries, w, t)
    ensures ProofCount(AnchorsIn(w, t), cps, |cps|) == |cps| * |notaries|
  {
    hide ProofCount;
    forall j | 0 <= j < |cps| ensures |ProofsAt(AnchorsIn(w, t).proofs, cps[j].seqEnd)| == |notaries| {
      assert cps[j] in cps;
    }
    FullProofCount(AnchorsIn(w, t), cps, |cps|, |notaries|);
  }

  lemma {:induction false} ListingSize(m: Records, cps: seq<Checkpoint>)
    requires IsListing(m, cps) && Keyed(m)
    ensures |cps| == |m|
    decreases |cps|
  {
    assert forall k :: k in m ==> m[k] in cps;
    if cps == [] {
      assert m.Keys == {};
    } else {
      var last := cps[|cps| - 1];
      assert last in cps && last.seqEnd in m.Keys;
      ListingInit(m, cps);
      ListingSize(m - {last.seqEnd}, cps[..|cps| - 1]);
      assert (m - {last.seqEnd}).Keys == m.Keys - {last.seqEnd};
      assert |m.Keys - {last.seqEnd}| == |m.Keys| - 1;
    }
  }

  // ---- The whole report ----

  ghost function TotalRows(ids: seq<Blob>, w: World): nat {
    if ids == [] then 0 else TotalRows(ids[..|ids| - 1], w) + |Rows(w, ids[|ids| - 1])|
  }

  ghost function TotalCheckpoints(ids: seq<Blob>, w: World): nat {
    if ids == [] then 0 else TotalCheckpoints(ids[..|ids| - 1], w) + |AnchorsIn(w, ids[|ids| - 1]).worm|
  }

  /** The verifier's inputs after a run: the rows in whatever order, sorted per tenant, the write-once
      records, and the proofs. */
  ghost predicate Handed(w: World, table: Table, worm: Blob -> Fetch, ledger: Ledger) {
    && Reordered(w.sealer.rows, table)
    && forall t :: t in table ==> SortedBySeq(table[t]) && worm(t).Fetched? && Delivered(w, t, worm(t).cps, ledger)
  }

  lemma HandedRows(h: Hasher, notaries: seq<Notary>, max: nat, ws: seq<World>, es: seq<Event>, n: nat,
                   table: Table, worm: Blob -> Fetch, ledger: Ledger, t: Blob)
    requires IsRun(h, notaries, max, ws, es) && n <= |es|
    requires Handed(ws[n], table, worm, ledger) && t in table
    ensures table[t] == Rows(ws[n], t) && |table[t]| < TWO_TO_THE_64 && Readable(worm(t))
  {
    assert |ws| == |es| + 1;
    assert IsListing(AnchorsIn(ws[n], t).worm, worm(t).cps);
    hide IsRun, Delivered, IsListing, Linked, Readable, AnyRun.RecordsBuilt;
    BaseInvariant(h, notaries, max, ws, es, n);
    ListedIsBuilt(h, ws[n], t, worm(t).cps);
    SyncedIsNumbered(h, ws[n].sealer, t);
    SortIsUnique(Rows(ws[n], t), table[t]);
  }

  lemma HandedTenant(h: Hasher, notaries: seq<Notary>, max: nat, ws: seq<World>, es: seq<Event>, n: nat,
                     table: Table, worm: Blob -> Fetch, ledger: Ledger, t: Blob)
    requires IsRun(h, notaries, max, ws, es) && Panel(notaries) && n <= |es| && Untorn(es, n)
    requires Handed(ws[n], table, worm, ledger) && t in table
    ensures table[t] == Rows(ws[n], t) && |table[t]| < TWO_TO_THE_64 && Readable(worm(t))
    ensures TenantTally(h, t, table[t], worm(t), ledger, ByName(notaries)).Silent()
    ensures TenantTally(h, t, table[t], worm(t), ledger, ByName(notaries)).entries == |Rows(ws[n], t)|
    ensures TenantTally(h, t, table[t], worm(t), ledger, ByName(notaries)).checkpoints == |AnchorsIn(ws[n], t).worm|
    ensures NoFaults(es) ==> TenantTally(h, t, table[t], worm(t), ledger, ByName(notaries)).proofs
                             == |AnchorsIn(ws[n], t).worm| * |notaries|
  {
    assert |ws| == |es| + 1;
    assert Delivered(ws[n], t, worm(t).cps, ledger) && IsListing(AnchorsIn(ws[n], t).worm, worm(t).cps);
    HandedRows(h, notaries, max, ws, es, n, table, worm, ledger, t);
    hide IsRun, Panel, TenantTally, Delivered, IsListing, Readable, NoFaults, Untorn;
    HonestRunVerifies(h, notaries, max, ws, es, n, t, worm(t).cps, ledger);
    HonestRunCounts(h, notaries, max, ws, es, n, t, worm(t).cps);
  }

  lemma HandedIsLoaded(h: Hasher, notaries: seq<Notary>, max: nat, ws: seq<World>, es: seq<Event>, n: nat,
                       table: Table, worm: Blob -> Fetch, ledger: Ledger)
    requires IsRun(h, notaries, max, ws, es) && n <= |es|
    requires Handed(ws[n], table, worm, ledger)
    ensures Loaded(table, worm)
  {
    hide IsRun, Handed, Readable;
    forall t | t in table ensures |table[t]| < TWO_TO_THE_64 && Readable(worm(t)) {
      HandedRows(h, notaries, max, ws, es, n, table, worm, ledger, t);
    }
  }

  /** No issue, and every row and checkpoint counted; without anchoring faults, as many proofs as
      checkpoints times notaries. */
  ghost predicate AllAccounted(r: Tally, ids: seq<Blob>, w: World, notaries: seq<Notary>, es: seq<Event>) {
    && r.Silent() && r.entries == TotalRows(ids, w) && r.checkpoints == TotalCheckpoints(ids, w)
    && (NoFaults(es) ==> r.proofs == TotalCheckpoints(ids, w) * |notaries|)
  }

  lemma OneMoreAccounted(r: Tally, own: Tally, ids: seq<Blob>, w: World, notaries: seq<Notary>, es: seq<Event>)
    requires ids != [] && AllAccounted(r, ids[..|ids| - 1], w, notaries, es)
    requires var t := ids[|ids| - 1];
             && own.Silent() && own.entries == |Rows(w, t)| && own.checkpoints == |AnchorsIn(w, t).worm|
             && (NoFaults(es) ==> own.proofs == |AnchorsIn(w, t).worm| * |notaries|)
    ensures AllAccounted(r.Plus(own), ids, w, notaries, es)
  {
    hide NoFaults, Rows, AnchorsIn;
    Distribute(TotalCheckpoints(ids[..|ids| - 1], w), |AnchorsIn(w, ids[|ids| - 1]).worm|, |notaries|);
  }

  lemma Distribute(a: nat, b: nat, k: nat)
    ensures (a + b) * k == a * k + b * k
  {
  }

  /** After any run, whatever failed on the way, the whole report accounts for everything. */
  lemma {:induction false} HonestReport(h: Hasher, notaries: seq<Notary>, max: nat, ws: seq<World>, es: seq<Event>,
                                        n: nat, ids: seq<Blob>, table: Table, worm: Blob -> Fetch, ledger: Ledger)
    requires IsRun(h, notaries, max, ws, es) && Panel(notaries) && n <= |es| && Untorn(es, n)
    requires Handed(ws[n], table, worm, ledger) && Loaded(table, worm) && forall t :: t in ids ==> t in table
    ensures AllAccounted(AllTally(h, ids, table, worm, ledger, ByName(notaries)), ids, ws[n], notaries, es)
    decreases |ids|
  {
    assert |ws| == |es| + 1;
    hide IsRun, Panel, Untorn, Handed, Readable, NoFaults, TenantTally, AnchorsIn, Rows, ByName;
    if ids != [] {
      var init, t := ids[..|ids| - 1], ids[|ids| - 1];
      assert t in ids && forall u :: u in init ==> u in ids;
      HonestReport(h, notaries, max, ws, es, n, init, table, worm, ledger);
      HandedTenant(h, notaries, max, ws, es, n, table, worm, ledger, t);
      hide AllAccounted, Loaded;
      OneMoreAccounted(AllTally(h, init, table, worm, ledger, ByName(notaries)),
                       TenantTally(h, t, table[t], worm(t), ledger, ByName(notaries)), ids, ws[n], notaries, es);
    }
  }

  /** Tamper evidence for whole runs. A run with any notaries, torn writes included, led to state `n`; afterwards
      the stored rows, the ledger and the notaries are replaced by anything at all, and only write-once storage
      is kept. A silent report still proves that the rows up to the last anchored one are those sealed from
      the submitted records, unless two colliding strings can be read off the two histories. */
  lemma RunTamperEvidence(h: Hasher, notaries: seq<Notary>, max: nat, ws: seq<World>, es: seq<Event>, n: nat, t: Blob,
                          cps: seq<Checkpoint>, rows: seq<Entry>, ledger: Ledger, panel: Notaries)
    requires IsRun(h, notaries, max, ws, es) && n <= |es|
    requires IsListing(AnchorsIn(ws[n], t).worm, cps) && cps != [] && Readable(Fetched(cps))
    requires |rows| < TWO_TO_THE_64 && TenantTally(h, t, rows, Fetched(cps), ledger, panel).Silent()
    ensures |Rows(ws[n], t)| < TWO_TO_THE_64 && |Submitted(es, n, t)| < TWO_TO_THE_64
    ensures var c := FindCollision(h, AuditTrail(h, t, Rows(ws[n], t), cps, |cps| - 1, rows));
            if c.Some? then Collision(h, c.value.0, c.value.1)
            else OriginalUpTo(rows, Sealed(h, t, Submitted(es, n, t)), cps[|cps| - 1].seqEnd)
  {
    assert |ws| == |es| + 1;
    hide IsRun, Linked, TenantTally, AuditTrail, Sealed, OriginalUpTo, Readable, IsListing, Tally.Silent, BuiltFrom,
         FindCollision, HeadSynced, AnyRun.RecordsBuilt;
    BaseInvariant(h, notaries, max, ws, es, n);
    SyncedIsNumbered(h, ws[n].sealer, t);
    SealerRefinement(h, notaries, max, ws, es, n, t);
    ListedIsBuilt(h, ws[n], t, cps);
    TamperEvidence(h, t, Rows(ws[n], t), cps, rows, ledger, panel);
  }

  /** The same for the whole report: if it is silent, then the storage of every tenant that the store lists was
      read, and what it holds proves the tenant's rows. */
  lemma ReportTamperEvidence(h: Hasher, notaries: seq<Notary>, max: nat, ws: seq<World>, es: seq<Event>, n: nat,
                             ids: seq<Blob>, table: Table, worm: Blob -> Fetch, ledger: Ledger, panel: Notaries,
                             t: Blob)
    requires IsRun(h, notaries, max, ws, es) && n <= |es|
    requires Loaded(table, worm) && (forall u :: u in ids ==> u in table) && t in ids
    requires worm(t).Fetched? ==> worm(t).cps != [] && IsListing(AnchorsIn(ws[n], t).worm, worm(t).cps)
    requires AllTally(h, ids, table, worm, ledger, panel).Silent()
    ensures worm(t).Fetched?
    ensures |Rows(ws[n], t)| < TWO_TO_THE_64 && |Submitted(es, n, t)| < TWO_TO_THE_64
    ensures var cps := worm(t).cps;
            var c := FindCollision(h, AuditTrail(h, t, Rows(ws[n], t), cps, |cps| - 1, table[t]));
            if c.Some? then Collision(h, c.value.0, c.value.1)
            else OriginalUpTo(table[t], Sealed(h, t, Submitted(es, n, t)), cps[|cps| - 1].seqEnd)
  {
    hide IsRun, TenantTally, AuditTrail, Sealed, OriginalUpTo, AllTally, IsListing, Readable, Submitted, Tally.Silent;
    SilentReportMeansRead(h, ids, table, worm, ledger, panel);
    ReportCleanIffTenants(h, ids, table, worm, ledger, panel);
    RunTamperEvidence(h, notaries, max, ws, es, n, t, worm(t).cps, table[t], ledger, panel);
  }
}
