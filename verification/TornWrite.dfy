/** The one crash that the anchorer does not survive, and exactly when the verifier notices. */
module TornWrite {
  import opened Bytes
  import opened Hashing
  import opened Chain
  import opened ChainStore
  import opened Checkpoints
  import opened Witness
  import opened Verify
  import opened Tiling
  import opened Evidence
  import opened Localisation
  import opened Anchor
  import opened AnchorInvariant
  import opened Honest
  import opened TornRuns

  /** The id string of the rows of `cp`, on top of `prev`. */
  function Text(h: Hasher, tenant: Blob, log: seq<Entry>, start: nat, cp: Checkpoint, prev: Blob): bytes
  {
    if start <= cp.seqEnd < |log| < TWO_TO_THE_64
    then IDString(h, tenant, log[start..cp.seqEnd + 1], prev, cp.anchoredAt) else []
  }

  /** The id strings that decide the outcome: the torn window, the retried one on top of either predecessor,
      the second one on top of either, and the last window before them. */
  function TornTrail(h: Hasher, tenant: Blob, log: seq<Entry>, cps: seq<Checkpoint>, cp: Checkpoint, again: Checkpoint,
                     second: Checkpoint): seq<bytes>
  {
    var n := |cps|;
    var start, prev := NextStart(cps, n), PrevID(cps, n);
    [Text(h, tenant, log, start, cp, prev), Text(h, tenant, log, start, again, prev),
     Text(h, tenant, log, start, again, cp.checkpointID),
     Text(h, tenant, log, second.seqStart, second, again.checkpointID),
     Text(h, tenant, log, second.seqStart, second, cp.checkpointID)]
    + if n > 0 then [Text(h, tenant, log, cps[n - 1].seqStart, cps[n - 1], PrevID(cps, n - 1))] else []
  }

  lemma TornPairs(h: Hasher, tenant: Blob, log: seq<Entry>, cps: seq<Checkpoint>, cp: Checkpoint, again: Checkpoint,
                  second: Checkpoint)
    requires CollisionFree(h, TornTrail(h, tenant, log, cps, cp, again, second))
    ensures var start, prev := NextStart(cps, |cps|), PrevID(cps, |cps|);
            && CollisionFree(h, [Text(h, tenant, log, start, cp, prev), Text(h, tenant, log, start, again, prev)])
            && CollisionFree(h, [Text(h, tenant, log, start, again, prev),
                                 Text(h, tenant, log, start, again, cp.checkpointID)])
            && CollisionFree(h, [Text(h, tenant, log, second.seqStart, second, again.checkpointID),
                                 Text(h, tenant, log, second.seqStart, second, cp.checkpointID)])
    ensures cps != [] ==>
              var n := |cps| - 1;
              CollisionFree(h, [Text(h, tenant, log, NextStart(cps, |cps|), cp, PrevID(cps, |cps|)),
                                Text(h, tenant, log, cps[n].seqStart, cps[n], PrevID(cps, n))])
  {
    hide Text, CollisionFree;
    var trail := TornTrail(h, tenant, log, cps, cp, again, second);
    assert forall i :: 0 <= i < |trail| ==> trail[i] in trail;
    CollisionFreeSubset(h, [trail[0], trail[1]], trail);
    CollisionFreeSubset(h, [trail[1], trail[2]], trail);
    CollisionFreeSubset(h, [trail[3], trail[4]], trail);
    if cps != [] { CollisionFreeSubset(h, [trail[0], trail[5]], trail); }
  }

  lemma NextWindowFields(h: Hasher, tenant: Blob, log: seq<Entry>, cps: seq<Checkpoint>, cp: Checkpoint)
    requires NextWindow(h, tenant, log, cps, cp) && Numbered(log)
    ensures cp.seqStart == NextStart(cps, |cps|) && Countable(cp)
    ensures cp.checkpointID == h(Text(h, tenant, log, cp.seqStart, cp, PrevID(cps, |cps|)))
  {
    hide Build, IDString;
    BuiltEnd(h, tenant, log, NextStart(cps, |cps|), cp.seqEnd, PrevID(cps, |cps|), cp.anchoredAt);
  }

  /** Equal ids of two windows mean the same end, predecessor and clock reading. */
  lemma TextBinds(h: Hasher, tenant: Blob, log: seq<Entry>, s: nat, a: Checkpoint, p: Blob, s': nat, b: Checkpoint,
                  p': Blob)
    requires Numbered(log) && s <= a.seqEnd < |log| < TWO_TO_THE_64 && s' <= b.seqEnd < |log|
    requires CollisionFree(h, [Text(h, tenant, log, s, a, p), Text(h, tenant, log, s', b, p')])
    requires h(Text(h, tenant, log, s, a, p)) == h(Text(h, tenant, log, s', b, p'))
    ensures a.seqEnd == b.seqEnd && p == p' && a.anchoredAt == b.anchoredAt
  {
    hide IDString, Build;
    var x, y := log[s..a.seqEnd + 1], log[s'..b.seqEnd + 1];
    assert x[|x| - 1].seqNo == a.seqEnd && y[|y| - 1].seqNo == b.seqEnd;
    IDBinds(h, tenant, x, p, a.anchoredAt, tenant, y, p', b.anchoredAt);
  }

  // ---- What the verifier does not notice ----

  lemma ListedIs(h: Hasher, tenant: Blob, log: seq<Entry>, max: nat, cps: seq<Checkpoint>, a: Anchors,
                 listed: seq<Checkpoint>)
    requires Stored(h, tenant, log, max, cps, a) && IsListing(a.worm, listed)
    ensures listed == cps
  {
    hide Tiles, IsListing;
    ListingIsUnique(a.worm, cps, listed);
  }

  /** A torn write alone is not noticed: the checkpoint that only write-once storage has rebuilds, and no proof
      is held for it. Any anchors with the same records and proofs will do. */
  lemma TornIsSilent(h: Hasher, tenant: Blob, log: seq<Entry>, max: nat, cps: seq<Checkpoint>, a: Anchors,
                     notaries: seq<Notary>, cp: Checkpoint, after: Anchors, listed: seq<Checkpoint>, ledger: Ledger)
    requires Linked(h, tenant, log) && |log| < TWO_TO_THE_64 && Panel(notaries) && Proven(a, notaries)
    requires TornOn(h, tenant, log, max, cps, a, cp)
    requires after.worm == TornState(a, cp, notaries).worm && after.proofs == a.proofs
    requires IsListing(after.worm, listed) && LedgerOf(ledger, tenant, after)
    ensures Readable(Fetched(listed))
    ensures TenantTally(h, tenant, log, Fetched(listed), ledger, ByName(notaries)).Silent()
  {
    var b := WithWindow(a, cp, notaries, 0);
    hide Linked, Panel, Proven, Stored, NextWindow, IsListing, TenantTally, Readable, NextStart, ByName, Tally.Silent;
    WindowKeeps(h, tenant, log, max, cps, a, notaries, cp, NotaryFails(0));
    ProvenWith(a, cp, notaries, 0);
    assert b.worm == after.worm && b.proofs == after.proofs;
    assert WindowStep(a, cp, NotaryFails(0), notaries) == b;
    ListedIs(h, tenant, log, max, cps + [cp], b, listed);
    HonestTenant(h, tenant, log, max, listed, b, notaries, ledger);
    SilentIsEmpty(TenantTally(h, tenant, log, Fetched(listed), ledger, ByName(notaries)));
  }

  /** So no single run over an honest log is ever noticed, whatever fails in it. */
  lemma LeftIsSilent(h: Hasher, tenant: Blob, log: seq<Entry>, max: nat, notaries: seq<Notary>, o: Outcome,
                     after: Anchors, listed: seq<Checkpoint>, ledger: Ledger)
    requires Linked(h, tenant, log) && |log| < TWO_TO_THE_64 && Panel(notaries)
    requires Left(h, tenant, log, max, notaries, o, after) && LeftProven(notaries, o, after)
    requires IsListing(after.worm, listed) && LedgerOf(ledger, tenant, after)
    ensures Readable(Fetched(listed))
    ensures TenantTally(h, tenant, log, Fetched(listed), ledger, ByName(notaries)).Silent()
  {
    hide Linked, Panel, Proven, Stored, TornOn, IsListing, TenantTally, Readable, ByName, Tally.Silent, LedgerOf;
    match o {
      case InOrder(cps) =>
        ListedIs(h, tenant, log, max, cps, after, listed);
        HonestTenant(h, tenant, log, max, listed, after, notaries, ledger);
        SilentIsEmpty(TenantTally(h, tenant, log, Fetched(listed), ledger, ByName(notaries)));
      case Torn(cps, a, cp) =>
        assert after.proofs == a.proofs;
        TornIsSilent(h, tenant, log, max, cps, a, notaries, cp, after, listed, ledger);
    }
  }

  /** Retrying with the same rows and the same clock reading is as if the window had been written now, with the
      faults of the retry. */
  lemma SameRetryIsClean(h: Hasher, tenant: Blob, log: seq<Entry>, max: nat, cps: seq<Checkpoint>, a: Anchors,
                         notaries: seq<Notary>, cp: Checkpoint, fault: WindowFault, retried: Anchors)
    requires TornOn(h, tenant, log, max, cps, a, cp) && !fault.WormFails?
    requires retried == WindowStep(TornState(a, cp, notaries), cp, fault, notaries)
    ensures fault.CopyFails? ==> retried == TornState(a, cp, notaries)
    ensures !fault.CopyFails? ==>
              && retried == WithWindow(a, cp, notaries, Stamped(fault, notaries))
              && Stored(h, tenant, log, max, cps + [cp], retried)
              && NextStart(cps + [cp], |cps| + 1) == cp.seqEnd + 1 && PrevID(cps + [cp], |cps| + 1) == cp.checkpointID
              && (Panel(notaries) && Proven(a, notaries) ==> Proven(retried, notaries))
  {
    hide Build, Panel, PutStamps, Tiles, IsListing, Keyed, Proven, NextStart, PrevID, NextWindow;
    if !fault.CopyFails? {
      WindowKeeps(h, tenant, log, max, cps, a, notaries, cp, fault);
      assert retried == WithWindow(a, cp, notaries, Stamped(fault, notaries));
      if Panel(notaries) && Proven(a, notaries) { ProvenWith(a, cp, notaries, Stamped(fault, notaries)); }
    }
  }

  /** What the rest of the run does with it. */
  lemma SameRestLeaves(h: Hasher, tenant: Blob, log: seq<Entry>, max: nat, cps: seq<Checkpoint>, cp: Checkpoint,
                       next: Anchors, notaries: seq<Notary>, env: Env, after: Anchors) returns (o: Outcome)
    requires Stored(h, tenant, log, max, cps + [cp], next) && Numbered(log) && max > 0
    requires NextStart(cps, |cps|) < |log| < TWO_TO_THE_64
    requires NextStart(cps + [cp], |cps| + 1) == cp.seqEnd + 1 == FirstEnd(log, NextStart(cps, |cps|), max)
    requires PrevID(cps + [cp], |cps| + 1) == cp.checkpointID
    requires after == RestOfRun(h, tenant, log, max, cps, next, cp, notaries, env).anchors
    ensures Left(h, tenant, log, max, notaries, o, after)
    ensures Panel(notaries) && Proven(next, notaries) ==> LeftProven(notaries, o, after)
  {
    hide Stored, Panel, Numbered, AnchorFrom, NextStart, Proven, PrevID, Left, LeftProven;
    var start, more := NextStart(cps, |cps|), cps + [cp];
    var stop := FetchEnd(log, start);
    assert |more| == |cps| + 1 && start + (stop - start) == stop;
    o := AnchorFromLeaves(h, tenant, log, max, more, next, notaries, stop - start, start, max, 1, env);
  }

  lemma SameWindow(h: Hasher, tenant: Blob, log: seq<Entry>, cps: seq<Checkpoint>, cp: Checkpoint, again: Checkpoint)
    requires NextWindow(h, tenant, log, cps, cp) && NextWindow(h, tenant, log, cps, again)
    requires cp.anchoredAt == again.anchoredAt && cp.seqEnd == again.seqEnd
    ensures cp == again
  {
    hide Build;
  }

  /** A retry that rebuilds the torn checkpoint leaves a silent report, whatever else fails, however far the run
      then gets. */
  lemma SameWindowIsSilent(h: Hasher, w: History, listed: seq<Checkpoint>, ledger: Ledger)
    requires w.Happened(h) && w.Writes() && w.SameWindow()
    requires IsListing(w.After(h).worm, listed) && LedgerOf(ledger, w.tenant, w.After(h))
    ensures Readable(Fetched(listed))
    ensures TenantTally(h, w.tenant, w.log', Fetched(listed), ledger, ByName(w.notaries)).Silent()
  {
    hide Linked, Panel, Proven, Stored, TornOn, NextWindow, IsListing, TenantTally, Readable, ByName, Tally.Silent,
         LedgerOf, FirstWindow, FirstEnd, RestOfRun, History.After, Numbered, NextStart, PrevID, WindowStep, Left,
         LeftProven, WithWindow, WindowSucceeds;
    BothWindows(h, w);
    SecondRun(h, w);
    SameWindow(h, w.tenant, w.log', w.cps, w.cp, w.Again(h));
    SameRetryIsClean(h, w.tenant, w.log', w.max, w.cps, w.a, w.notaries, w.cp, w.env.fault(0), w.Retried(h));
    var o := Torn(w.cps, w.a, w.cp);
    if w.env.fault(0).CopyFails? {
      CopyFailsStops(w.env.fault(0), w.notaries);
      TornIsLeft(h, w.tenant, w.log', w.max, w.notaries, w.cps, w.a, w.cp);
    } else if WindowSucceeds(w.env.fault(0), w.notaries) {
      o := SameRestLeaves(h, w.tenant, w.log', w.max, w.cps, w.cp, w.Retried(h), w.notaries, w.env, w.After(h));
    } else {
      o := InOrder(w.cps + [w.cp]);
      StoredIsLeft(h, w.tenant, w.log', w.max, w.notaries, w.cps + [w.cp], w.Retried(h));
    }
    LeftIsSilent(h, w.tenant, w.log', w.max, w.notaries, o, w.After(h), listed, ledger);
  }

  lemma CopyFailsStops(fault: WindowFault, notaries: seq<Notary>)
    requires fault.CopyFails?
    ensures !WindowSucceeds(fault, notaries)
  {
  }

  lemma TornIsLeft(h: Hasher, tenant: Blob, log: seq<Entry>, max: nat, notaries: seq<Notary>, cps: seq<Checkpoint>,
                   a: Anchors, cp: Checkpoint)
    requires TornOn(h, tenant, log, max, cps, a, cp) && Proven(a, notaries)
    ensures Left(h, tenant, log, max, notaries, Torn(cps, a, cp), TornState(a, cp, notaries))
    ensures LeftProven(notaries, Torn(cps, a, cp), TornState(a, cp, notaries))
  {
    hide TornOn, Proven;
  }

  lemma StoredIsLeft(h: Hasher, tenant: Blob, log: seq<Entry>, max: nat, notaries: seq<Notary>, cps: seq<Checkpoint>,
                     after: Anchors)
    requires Stored(h, tenant, log, max, cps, after) && Proven(after, notaries)
    ensures Left(h, tenant, log, max, notaries, InOrder(cps), after)
    ensures LeftProven(notaries, InOrder(cps), after)
  {
    hide Stored, Proven;
  }

  // ---- What it does notice ----

  /** Same window, other clock: the stored checkpoint rebuilds, but the proofs attest the other one. */
  lemma OtherClockIsReported(h: Hasher, tenant: Blob, log: seq<Entry>, listed: seq<Checkpoint>, n: nat, ledger: Ledger,
                             notaries: seq<Notary>, other: Blob)
    requires Linked(h, tenant, log) && Panel(notaries) && Readable(Fetched(listed)) && |log| < TWO_TO_THE_64
    requires n < |listed| && Countable(listed[n]) && listed[n].seqEnd < |log| && listed[n].checkpointID != other
    requires notaries != [] && |other| == 32
    requires Genuine(notaries[0], notaries[0].stamp(other), other, listed[n].checkpointID)
    requires notaries[0].stamp(other) in Held(ledger, tenant, listed[n].seqEnd)
    ensures !TenantTally(h, tenant, log, Fetched(listed), ledger, ByName(notaries)).Silent()
  {
    hide TenantTally, Text, Linked, ByName, Held, ProofTally, Readable, IDString;
    if TenantTally(h, tenant, log, Fetched(listed), ledger, ByName(notaries)).Silent() {
      assert Reliable(notaries[0]);
      ByNameFinds(notaries, 0);
      SilentProofPinsID(h, tenant, log, listed, n, ledger, ByName(notaries), notaries[0].stamp(other), other);
      CleanWindowRebuilds(h, tenant, log, listed, n, ledger, ByName(notaries));
    }
  }

  /** Longer window: it was built on the id before the torn one, but is checked against the torn one's. */
  lemma LongerWindowIsReported(h: Hasher, tenant: Blob, log: seq<Entry>, listed: seq<Checkpoint>, n: nat,
                               ledger: Ledger, notaries: Notaries, prev: Blob)
    requires Linked(h, tenant, log) && Readable(Fetched(listed)) && |log| < TWO_TO_THE_64
    requires n < |listed| && Countable(listed[n]) && listed[n].seqEnd < |log| && PrevID(listed, n) != prev
    requires var cp := listed[n];
             && cp.checkpointID == h(Text(h, tenant, log, cp.seqStart, cp, prev))
             && CollisionFree(h, [Text(h, tenant, log, cp.seqStart, cp, prev),
                                  Text(h, tenant, log, cp.seqStart, cp, PrevID(listed, n))])
    ensures !TenantTally(h, tenant, log, Fetched(listed), ledger, notaries).Silent()
  {
    hide TenantTally, IDString, Linked, Readable, PrevID, ProofTally, Held;
    if TenantTally(h, tenant, log, Fetched(listed), ledger, notaries).Silent() {
      CleanWindowRebuilds(h, tenant, log, listed, n, ledger, notaries);
      LinkedIsNumbered(h, tenant, log);
      TextBinds(h, tenant, log, listed[n].seqStart, listed[n], prev, listed[n].seqStart, listed[n], PrevID(listed, n));
    }
  }

  lemma LastText(h: Hasher, tenant: Blob, log: seq<Entry>, max: nat, cps: seq<Checkpoint>)
    requires Numbered(log) && |log| < TWO_TO_THE_64 && Tiles(h, tenant, log, max, cps) && cps != []
    ensures var n := |cps| - 1;
            && cps[n].seqStart <= cps[n].seqEnd < |log|
            && PrevID(cps, |cps|) == h(Text(h, tenant, log, cps[n].seqStart, cps[n], PrevID(cps, n)))
  {
    hide IDString, Tiles, Numbered;
    WindowRebuilds(h, tenant, log, max, cps, |cps| - 1);
  }

  lemma EndsBelow(cps: seq<Checkpoint>, cp: Checkpoint)
    requires NextStart(cps, |cps|) <= cp.seqEnd
    ensures cps != [] ==> cps[|cps| - 1].seqEnd < cp.seqEnd
  {
  }

  /** The torn checkpoint's id is not the id before it. */
  lemma TornIDIsNew(h: Hasher, tenant: Blob, log: seq<Entry>, max: nat, cps: seq<Checkpoint>, a: Anchors,
                    cp: Checkpoint, again: Checkpoint, second: Checkpoint)
    requires Numbered(log) && Stored(h, tenant, log, max, cps, a) && NextWindow(h, tenant, log, cps, cp)
    requires CollisionFree(h, TornTrail(h, tenant, log, cps, cp, again, second))
    ensures cp.checkpointID != PrevID(cps, |cps|)
  {
    hide IDString, Build, Tiles, Numbered, Text, CollisionFree, TornTrail;
    var n := |cps|;
    NextWindowFields(h, tenant, log, cps, cp);
    TornPairs(h, tenant, log, cps, cp, again, second);
    if n > 0 {
      LastText(h, tenant, log, max, cps);
      if cp.checkpointID == PrevID(cps, n) {
        TextBinds(h, tenant, log, cp.seqStart, cp, PrevID(cps, n), cps[n - 1].seqStart, cps[n - 1], PrevID(cps, n - 1));
      }
    }
  }

  /** What write-once storage and the proof table hold after the retried window. */
  lemma RetriedState(h: Hasher, tenant: Blob, log: seq<Entry>, max: nat, cps: seq<Checkpoint>, a: Anchors,
                     notaries: seq<Notary>, cp: Checkpoint, again: Checkpoint, fault: WindowFault, retried: Anchors)
    requires Panel(notaries) && Stored(h, tenant, log, max, cps, a) && Proven(a, notaries)
    requires NextStart(cps, |cps|) <= cp.seqEnd <= again.seqEnd && |again.checkpointID| == 32 && !fault.WormFails?
    requires retried == WindowStep(TornState(a, cp, notaries), again, fault, notaries)
    ensures Keyed(retried.worm)
    ensures IsListing(retried.worm, if cp.seqEnd == again.seqEnd then cps + [cp] else cps + [cp] + [again])
    ensures cp.seqEnd == again.seqEnd ==> retried.worm == TornState(a, cp, notaries).worm
    ensures fault.CopyFails? || Stamped(fault, notaries) == 0 ==> retried.proofs == a.proofs
    ensures !fault.CopyFails? ==>
              ProofsAt(retried.proofs, again.seqEnd) == Stamps(notaries, again.checkpointID, Stamped(fault, notaries))
  {
    hide Tiles, IsListing, Keyed, ProofsFor, Panel, Stamps, PutStamps, NextStart;
    NextEndIsFresh(h, tenant, log, max, cps, a, cp.seqEnd);
    NextEndIsFresh(h, tenant, log, max, cps, a, again.seqEnd);
    EndsBelow(cps, cp);
    ListingAppend(a.worm, cps, cp);
    if cp.seqEnd < again.seqEnd { ListingAppend(a.worm[cp.seqEnd := cp], cps + [cp], again); }
    StampsOfFreshEnd(a.proofs, again.seqEnd, again.checkpointID, notaries, Stamped(fault, notaries));
    assert Stamps(notaries, again.checkpointID, 0) == [];
  }

  /** An honest log whose last window was torn and then retried with the outcome `retried`; later windows may
      have followed. `listed` and `ledger` are what the verifier then reads. */
  ghost predicate TornRetry(h: Hasher, tenant: Blob, log: seq<Entry>, max: nat, cps: seq<Checkpoint>, a: Anchors,
                            notaries: seq<Notary>, cp: Checkpoint, again: Checkpoint, fault: WindowFault,
                            retried: Anchors, after: Anchors, listed: seq<Checkpoint>, ledger: Ledger)
  {
    && NextStart(cps, |cps|) <= cp.seqEnd <= again.seqEnd < |log| < TWO_TO_THE_64
    && Linked(h, tenant, log) && Panel(notaries) && Stored(h, tenant, log, max, cps, a) && Proven(a, notaries)
    && NextWindow(h, tenant, log, cps, cp) && NextWindow(h, tenant, log, cps, again)
    && |again.checkpointID| == 32 && !fault.WormFails?
    && retried == WindowStep(TornState(a, cp, notaries), again, fault, notaries)
    && LaterOnly(retried, after, again.seqEnd + 1)
    && IsListing(after.worm, listed) && LedgerOf(ledger, tenant, after)
  }

  /** Right after the retry, the torn checkpoint is listed, and after it the retried one, if that ends later. */
  lemma FirstListed(h: Hasher, tenant: Blob, log: seq<Entry>, max: nat, cps: seq<Checkpoint>, a: Anchors,
                    notaries: seq<Notary>, cp: Checkpoint, again: Checkpoint, fault: WindowFault, retried: Anchors)
    returns (first: seq<Checkpoint>)
    requires Numbered(log) && Panel(notaries) && Stored(h, tenant, log, max, cps, a) && Proven(a, notaries)
    requires NextWindow(h, tenant, log, cps, cp) && NextWindow(h, tenant, log, cps, again)
    requires NextStart(cps, |cps|) <= cp.seqEnd <= again.seqEnd && |again.checkpointID| == 32 && !fault.WormFails?
    requires retried == WindowStep(TornState(a, cp, notaries), again, fault, notaries)
    ensures first == if cp.seqEnd == again.seqEnd then cps + [cp] else cps + [cp] + [again]
    ensures IsListing(retried.worm, first) && Keyed(retried.worm) && Readable(Fetched(first))
  {
    assert Tiles(h, tenant, log, max, cps);
    hide NextWindow, Numbered, Panel, IsListing, Keyed, Tiles, WindowStep, TornState, Proven, Readable, NextStart,
         Stored;
    first := if cp.seqEnd == again.seqEnd then cps + [cp] else cps + [cp] + [again];
    NextWindowFields(h, tenant, log, cps, cp);
    NextWindowFields(h, tenant, log, cps, again);
    TilesCountable(h, tenant, log, max, cps);
    RetriedState(h, tenant, log, max, cps, a, notaries, cp, again, fault, retried);
    Positions(cps, cp, again);
  }

  lemma Positions(cps: seq<Checkpoint>, cp: Checkpoint, again: Checkpoint)
    requires Readable(Fetched(cps)) && Countable(cp) && Countable(again)
    ensures Readable(Fetched(cps + [cp])) && Readable(Fetched(cps + [cp] + [again]))
  {
    assert forall c :: c in cps + [cp] + [again] ==> c in cps || c == cp || c == again;
  }

  /** And it stays so, whatever the rest of the run adds. */
  lemma RetriedListing(h: Hasher, tenant: Blob, log: seq<Entry>, max: nat, cps: seq<Checkpoint>, a: Anchors,
                       notaries: seq<Notary>, cp: Checkpoint, again: Checkpoint, fault: WindowFault, retried: Anchors,
                       after: Anchors, listed: seq<Checkpoint>, ledger: Ledger)
    requires TornRetry(h, tenant, log, max, cps, a, notaries, cp, again, fault, retried, after, listed, ledger)
    ensures Readable(Fetched(listed)) && |cps| < |listed|
    ensures listed[|cps|] == cp && PrevID(listed, |cps|) == PrevID(cps, |cps|)
    ensures cp.seqEnd < again.seqEnd ==> |listed| >= |cps| + 2
    ensures cp.seqEnd < again.seqEnd ==> listed[|cps| + 1] == again && PrevID(listed, |cps| + 1) == cp.checkpointID
  {
    hide NextWindow, Numbered, StrictBySeq, Panel, IsListing, Keyed, Tiles, WindowStep, TornState, Stored, Proven,
         Linked, Readable, LaterOnly, LedgerOf, NextStart;
    LinkedIsNumbered(h, tenant, log);
    var first := FirstListed(h, tenant, log, max, cps, a, notaries, cp, again, fault, retried);
    FollowedBy(retried, first, after, listed, again.seqEnd + 1);
    AtTheEnd(cps, cp, again, first, listed);
  }

  lemma AtTheEnd(cps: seq<Checkpoint>, cp: Checkpoint, again: Checkpoint, first: seq<Checkpoint>,
                 listed: seq<Checkpoint>)
    requires first == if cp.seqEnd == again.seqEnd then cps + [cp] else cps + [cp] + [again]
    requires first <= listed
    ensures |cps| < |listed| && listed[|cps|] == cp && PrevID(listed, |cps|) == PrevID(cps, |cps|)
    ensures cp.seqEnd != again.seqEnd ==> |listed| >= |cps| + 2
    ensures cp.seqEnd != again.seqEnd ==> listed[|cps| + 1] == again && PrevID(listed, |cps| + 1) == cp.checkpointID
  {
    assert forall i :: 0 <= i < |first| ==> listed[i] == first[i];
  }

  /** Later windows come after the ones already listed. */
  lemma FollowedBy(a: Anchors, first: seq<Checkpoint>, after: Anchors, listed: seq<Checkpoint>, from: nat)
    requires IsListing(a.worm, first) && Keyed(a.worm) && LaterOnly(a, after, from) && IsListing(after.worm, listed)
    requires first != [] && first[|first| - 1].seqEnd < from && Readable(Fetched(first))
    ensures first <= listed && Readable(Fetched(listed))
  {
    hide Countable;
    assert forall c :: c in first ==> c.seqEnd <= first[|first| - 1].seqEnd;
    ListingPrefix(a.worm, first, after.worm, listed);
    forall c | c in listed ensures Countable(c) {
      if c.seqEnd in a.worm { assert c in first; }
    }
  }

  /** First, a longer window. */
  lemma OtherEndIsReported(h: Hasher, tenant: Blob, log: seq<Entry>, max: nat, cps: seq<Checkpoint>, a: Anchors,
                           notaries: seq<Notary>, cp: Checkpoint, again: Checkpoint, second: Checkpoint,
                           fault: WindowFault, retried: Anchors, after: Anchors, listed: seq<Checkpoint>,
                           ledger: Ledger)
    requires TornRetry(h, tenant, log, max, cps, a, notaries, cp, again, fault, retried, after, listed, ledger)
    requires CollisionFree(h, TornTrail(h, tenant, log, cps, cp, again, second))
    requires cp.seqEnd < again.seqEnd && Readable(Fetched(listed))
    ensures !TenantTally(h, tenant, log, Fetched(listed), ledger, ByName(notaries)).Silent()
  {
    hide TornTrail, NextWindow, Linked, Text, WindowStep, TornState, TenantTally, Stored, Proven, Panel, Held, Numbered,
         StrictBySeq, LedgerOf, IsListing, Readable, CollisionFree, PrevID, LaterOnly, NextStart, ByName, Tally.Silent;
    TornPairs(h, tenant, log, cps, cp, again, second);
    LinkedIsNumbered(h, tenant, log);
    NextWindowFields(h, tenant, log, cps, again);
    RetriedListing(h, tenant, log, max, cps, a, notaries, cp, again, fault, retried, after, listed, ledger);
    TornIDIsNew(h, tenant, log, max, cps, a, cp, again, second);
    LongerWindowIsReported(h, tenant, log, listed, |cps| + 1, ledger, ByName(notaries), PrevID(cps, |cps|));
  }

  /** With another clock reading the rebuilt id is another one. */
  lemma OtherClockOtherID(h: Hasher, tenant: Blob, log: seq<Entry>, cps: seq<Checkpoint>, cp: Checkpoint,
                          again: Checkpoint, second: Checkpoint)
    requires Numbered(log) && NextWindow(h, tenant, log, cps, cp) && NextWindow(h, tenant, log, cps, again)
    requires CollisionFree(h, TornTrail(h, tenant, log, cps, cp, again, second)) && cp.anchoredAt != again.anchoredAt
    ensures cp.checkpointID != again.checkpointID
  {
    assert cp.seqEnd < |log| < TWO_TO_THE_64 && again.seqEnd < |log|;
    assert NextStart(cps, |cps|) <= cp.seqEnd && NextStart(cps, |cps|) <= again.seqEnd;
    hide TornTrail, Text, CollisionFree, NextWindow, Numbered, PrevID, NextStart;
    TornPairs(h, tenant, log, cps, cp, again, second);
    NextWindowFields(h, tenant, log, cps, cp);
    NextWindowFields(h, tenant, log, cps, again);
    if cp.checkpointID == again.checkpointID {
      TextBinds(h, tenant, log, cp.seqStart, cp, PrevID(cps, |cps|), again.seqStart, again, PrevID(cps, |cps|));
    }
  }

  /** Second, a proof of the rebuilt id. */
  lemma OtherProofIsReported(h: Hasher, tenant: Blob, log: seq<Entry>, max: nat, cps: seq<Checkpoint>, a: Anchors,
                             notaries: seq<Notary>, cp: Checkpoint, again: Checkpoint, fault: WindowFault,
                             retried: Anchors, after: Anchors, listed: seq<Checkpoint>, ledger: Ledger)
    requires TornRetry(h, tenant, log, max, cps, a, notaries, cp, again, fault, retried, after, listed, ledger)
    requires cp.seqEnd == again.seqEnd && cp.checkpointID != again.checkpointID && Readable(Fetched(listed))
    requires !fault.CopyFails? && 0 < Stamped(fault, notaries) <= |notaries|
    requires Genuine(notaries[0], notaries[0].stamp(again.checkpointID), again.checkpointID, cp.checkpointID)
    ensures !TenantTally(h, tenant, log, Fetched(listed), ledger, ByName(notaries)).Silent()
  {
    hide NextWindow, Linked, WindowStep, TornState, TenantTally, Stored, Proven, Panel, Held, Numbered, StrictBySeq,
         IsListing, Readable, Genuine, PrevID, NextStart, ByName, Tally.Silent, Stamped, LedgerOf, LaterOnly, Text,
         Stamps;
    LinkedIsNumbered(h, tenant, log);
    NextWindowFields(h, tenant, log, cps, cp);
    RetriedListing(h, tenant, log, max, cps, a, notaries, cp, again, fault, retried, after, listed, ledger);
    RetriedState(h, tenant, log, max, cps, a, notaries, cp, again, fault, retried);
    FirstHeld(tenant, retried, after, ledger, again.seqEnd, notaries, again.checkpointID, Stamped(fault, notaries));
    OtherClockIsReported(h, tenant, log, listed, |cps|, ledger, notaries, again.checkpointID);
  }

  lemma FirstHeld(tenant: Blob, retried: Anchors, after: Anchors, ledger: Ledger, e: uint64, notaries: seq<Notary>,
                  id: bytes, n: nat)
    requires LaterOnly(retried, after, e + 1) && LedgerOf(ledger, tenant, after) && 0 < n <= |notaries|
    requires ProofsAt(retried.proofs, e) == Stamps(notaries, id, n)
    ensures notaries[0].stamp(id) in Held(ledger, tenant, e)
  {
    hide Held, Countable;
    var held := ProofsAt(after.proofs, e);
    assert multiset(Held(ledger, tenant, e)) == multiset(held);
    assert held[0] == notaries[0].stamp(id) && held[0] in multiset(held);
  }

  /** Third, a window built on the rebuilt id. */
  lemma SecondIsReported(h: Hasher, tenant: Blob, log: seq<Entry>, max: nat, cps: seq<Checkpoint>, a: Anchors,
                         notaries: seq<Notary>, cp: Checkpoint, again: Checkpoint, second: Checkpoint,
                         fault: WindowFault, retried: Anchors, fault': WindowFault, after: Anchors,
                         listed: seq<Checkpoint>, ledger: Ledger)
    requires TornRetry(h, tenant, log, max, cps, a, notaries, cp, again, fault, retried, after, listed, ledger)
    requires CollisionFree(h, TornTrail(h, tenant, log, cps, cp, again, second))
    requires cp.seqEnd == again.seqEnd && cp.checkpointID != again.checkpointID && Readable(Fetched(listed))
    requires again.seqEnd < second.seqStart <= second.seqEnd && BuiltFrom(h, tenant, log, second)
    requires second.prevCheckpointHash == again.checkpointID && !fault'.WormFails?
    requires LaterOnly(WindowStep(retried, second, fault', notaries), after, second.seqEnd + 1)
    ensures !TenantTally(h, tenant, log, Fetched(listed), ledger, ByName(notaries)).Silent()
  {
    hide TornTrail, NextWindow, Linked, TornState, TenantTally, Stored, Proven, Panel, Held, Numbered,
         StrictBySeq, LedgerOf, IsListing, Keyed, Readable, CollisionFree, LaterOnly, NextStart, ByName, Tally.Silent,
         BuiltFrom, IDString, WindowStep;
    TornPairs(h, tenant, log, cps, cp, again, second);
    LinkedIsNumbered(h, tenant, log);
    BuiltFromID(h, tenant, log, second);
    var first := FirstListed(h, tenant, log, max, cps, a, notaries, cp, again, fault, retried);
    SecondListed(retried, cps, cp, second, fault', notaries, after, listed);
    hide Text, PrevID;
    LongerWindowIsReported(h, tenant, log, listed, |cps| + 1, ledger, ByName(notaries), again.checkpointID);
  }

  lemma SecondListed(retried: Anchors, cps: seq<Checkpoint>, cp: Checkpoint, second: Checkpoint, fault: WindowFault,
                     notaries: seq<Notary>, after: Anchors, listed: seq<Checkpoint>)
    requires IsListing(retried.worm, cps + [cp]) && Keyed(retried.worm) && Readable(Fetched(cps + [cp]))
    requires cp.seqEnd < second.seqEnd && Countable(second) && !fault.WormFails?
    requires LaterOnly(WindowStep(retried, second, fault, notaries), after, second.seqEnd + 1)
    requires IsListing(after.worm, listed)
    ensures |listed| >= |cps| + 2 && listed[|cps| + 1] == second && PrevID(listed, |cps| + 1) == cp.checkpointID
  {
    hide IsListing, Keyed, Countable, LaterOnly, PutStamps;
    var first := cps + [cp] + [second];
    ListingAppend(retried.worm, cps + [cp], second);
    assert forall c :: c in first ==> c in cps + [cp] || c == second;
    FollowedBy(WindowStep(retried, second, fault, notaries), first, after, listed, second.seqEnd + 1);
    assert listed[|cps|] == first[|cps|] && listed[|cps| + 1] == first[|cps| + 1];
  }

  // ---- The verdict ----

  /** After a crash between the two writes of a window, in whichever window of its run, and one more run, in which
      anything may fail, the report on the untouched log is silent if and only if
      - the window did not reach write-once storage again, or
      - it was rebuilt with the same clock reading and the same last row, or
      - it was rebuilt with the same last row, and neither a proof of the rebuilt id nor a window built on it
        was stored. */
  lemma TornWriteVerdict(h: Hasher, w: History, listed: seq<Checkpoint>, ledger: Ledger)
    requires w.Happened(h)
    requires var id := w.Again(h).checkpointID;
             w.notaries != [] ==> Genuine(w.notaries[0], w.notaries[0].stamp(id), id, w.cp.checkpointID)
    requires CollisionFree(h, TornTrail(h, w.tenant, w.log', w.cps, w.cp, w.Again(h), w.Second(h)))
    requires IsListing(w.After(h).worm, listed) && LedgerOf(ledger, w.tenant, w.After(h))
    ensures Readable(Fetched(listed))
    ensures TenantTally(h, w.tenant, w.log', Fetched(listed), ledger, ByName(w.notaries)).Silent()
       <==> !w.Writes() || w.SameWindow() || (w.SameEnd() && !w.Shows())
  {
    hide Linked, Panel, Proven, Stored, TornOn, NextWindow, IsListing, TenantTally, Readable, ByName, Tally.Silent,
         LedgerOf, FirstWindow, FirstEnd, RestOfRun, History.After, Numbered, NextStart, PrevID, LaterOnly, TornTrail,
         CollisionFree, Genuine, SecondWindow, History.Retried, History.Shows;
    BothWindows(h, w);
    if !w.Writes() {
      NotWrittenIsSilent(h, w, listed, ledger);
    } else if w.SameWindow() {
      SameWindowIsSilent(h, w, listed, ledger);
    } else {
      SecondRunAdds(h, w);
      assert TornRetry(h, w.tenant, w.log', w.max, w.cps, w.a, w.notaries, w.cp, w.Again(h), w.env.fault(0),
                       w.Retried(h), w.After(h), listed, ledger) by { RetriedIs(h, w); }
      RetriedListing(h, w.tenant, w.log', w.max, w.cps, w.a, w.notaries, w.cp, w.Again(h), w.env.fault(0),
                     w.Retried(h), w.After(h), listed, ledger);
      if w.SameEnd() {
        OtherClockVerdict(h, w, listed, ledger);
      } else {
        OtherEndIsReported(h, w.tenant, w.log', w.max, w.cps, w.a, w.notaries, w.cp, w.Again(h), w.Second(h),
                           w.env.fault(0), w.Retried(h), w.After(h), listed, ledger);
      }
    }
  }

  lemma RetriedIs(h: Hasher, w: History)
    requires w.Sized()
    ensures w.Retried(h) == WindowStep(TornState(w.a, w.cp, w.notaries), w.Again(h), w.env.fault(0), w.notaries)
  {
  }

  lemma NotWrittenIsSilent(h: Hasher, w: History, listed: seq<Checkpoint>, ledger: Ledger)
    requires w.Happened(h) && !w.Writes()
    requires IsListing(w.After(h).worm, listed) && LedgerOf(ledger, w.tenant, w.After(h))
    ensures Readable(Fetched(listed))
    ensures TenantTally(h, w.tenant, w.log', Fetched(listed), ledger, ByName(w.notaries)).Silent()
  {
    hide Linked, Panel, Proven, Stored, TornOn, NextWindow, IsListing, TenantTally, Readable, ByName, Tally.Silent,
         LedgerOf, FirstWindow, FirstEnd, RestOfRun, History.After, Numbered, NextStart;
    BothWindows(h, w);
    SecondRun(h, w);
    TornIsSilent(h, w.tenant, w.log', w.max, w.cps, w.a, w.notaries, w.cp, w.After(h), listed, ledger);
  }

  /** The same last row under another clock reading. */
  lemma OtherClockVerdict(h: Hasher, w: History, listed: seq<Checkpoint>, ledger: Ledger)
    requires w.Happened(h) && w.Writes() && w.SameEnd() && !w.SameWindow()
    requires TornRetry(h, w.tenant, w.log', w.max, w.cps, w.a, w.notaries, w.cp, w.Again(h), w.env.fault(0),
                       w.Retried(h), w.After(h), listed, ledger)
    requires var id := w.Again(h).checkpointID;
             w.notaries != [] ==> Genuine(w.notaries[0], w.notaries[0].stamp(id), id, w.cp.checkpointID)
    requires CollisionFree(h, TornTrail(h, w.tenant, w.log', w.cps, w.cp, w.Again(h), w.Second(h)))
    requires Readable(Fetched(listed))
    ensures TenantTally(h, w.tenant, w.log', Fetched(listed), ledger, ByName(w.notaries)).Silent() <==> !w.Shows()
  {
    hide Linked, Panel, Proven, Stored, TornOn, NextWindow, IsListing, TenantTally, Readable, ByName, Tally.Silent,
         LedgerOf, FirstWindow, FirstEnd, RestOfRun, History.After, Numbered, NextStart, PrevID, LaterOnly, TornTrail,
         CollisionFree, Genuine, SecondWindow, WindowStep, TornState, FetchEnd, History.Retried;
    BothWindows(h, w);
    var fault := w.env.fault(0);
    OtherClockOtherID(h, w.tenant, w.log', w.cps, w.cp, w.Again(h), w.Second(h));
    RetriedState(h, w.tenant, w.log', w.max, w.cps, w.a, w.notaries, w.cp, w.Again(h), fault, w.Retried(h));
    if !fault.CopyFails? && Stamped(fault, w.notaries) > 0 {
      OtherProofIsReported(h, w.tenant, w.log', w.max, w.cps, w.a, w.notaries, w.cp, w.Again(h), fault, w.Retried(h),
                           w.After(h), listed, ledger);
    } else {
      NoProofVerdict(h, w, listed, ledger);
    }
  }

  /** And no proof of the rebuilt id. */
  lemma NoProofVerdict(h: Hasher, w: History, listed: seq<Checkpoint>, ledger: Ledger)
    requires w.Happened(h) && w.Writes() && w.SameEnd()
    requires TornRetry(h, w.tenant, w.log', w.max, w.cps, w.a, w.notaries, w.cp, w.Again(h), w.env.fault(0),
                       w.Retried(h), w.After(h), listed, ledger)
    requires CollisionFree(h, TornTrail(h, w.tenant, w.log', w.cps, w.cp, w.Again(h), w.Second(h)))
    requires Readable(Fetched(listed)) && w.cp.checkpointID != w.Again(h).checkpointID
    requires w.env.fault(0).CopyFails? || Stamped(w.env.fault(0), w.notaries) == 0
    requires w.Retried(h).worm == w.Before().worm && w.Retried(h).proofs == w.a.proofs
    ensures TenantTally(h, w.tenant, w.log', Fetched(listed), ledger, ByName(w.notaries)).Silent()
       <==> !(WindowSucceeds(w.env.fault(0), w.notaries) && w.More() && !w.env.fault(1).WormFails?)
  {
    hide Linked, Panel, Proven, Stored, TornOn, NextWindow, IsListing, TenantTally, Readable, ByName, Tally.Silent,
         LedgerOf, FirstWindow, FirstEnd, RestOfRun, History.After, Numbered, NextStart, PrevID, LaterOnly, TornTrail,
         CollisionFree, SecondWindow, WindowStep, TornState, FetchEnd, History.Retried, BuiltFrom;
    BothWindows(h, w);
    SecondRun(h, w);
    if WindowSucceeds(w.env.fault(0), w.notaries) && w.More() {
      SecondWindowOf(h, w, w.Second(h), WindowStep(w.Retried(h), w.Second(h), w.env.fault(1), w.notaries));
      if !w.env.fault(1).WormFails? {
        SecondIsReported(h, w.tenant, w.log', w.max, w.cps, w.a, w.notaries, w.cp, w.Again(h), w.Second(h),
                         w.env.fault(0), w.Retried(h), w.env.fault(1), w.After(h), listed, ledger);
      }
    } else if WindowSucceeds(w.env.fault(0), w.notaries) {
      NoMoreRows(w);
      RestEnds(h, w.tenant, w.log', w.max, w.cps, w.Retried(h), w.Again(h), w.notaries, w.env);
    }
    if !(WindowSucceeds(w.env.fault(0), w.notaries) && w.More() && !w.env.fault(1).WormFails?) {
      assert w.After(h) == w.Retried(h);
      TornIsSilent(h, w.tenant, w.log', w.max, w.cps, w.a, w.notaries, w.cp, w.After(h), listed, ledger);
    }
  }

  lemma NoMoreRows(w: History)
    requires w.Sized() && !w.More()
    ensures FirstEnd(w.log', w.Start(), w.max) == FetchEnd(w.log', w.Start())
  {
  }

  /** The second window of the run, and what follows it. */
  lemma SecondWindowOf(h: Hasher, w: History, second: Checkpoint, next: Anchors)
    requires w.Sized() && w.More() && Numbered(w.log') && second == w.Second(h)
    requires next == WindowStep(w.Retried(h), second, w.env.fault(1), w.notaries)
    requires w.Again(h).seqEnd + 1 == FirstEnd(w.log', w.Start(), w.max)
    requires w.After(h)
         == RestOfRun(h, w.tenant, w.log', w.max, w.cps, w.Retried(h), w.Again(h), w.notaries, w.env).anchors
    ensures w.Again(h).seqEnd < second.seqStart <= second.seqEnd
    ensures BuiltFrom(h, w.tenant, w.log', second) && second.prevCheckpointHash == w.Again(h).checkpointID
    ensures LaterOnly(next, w.After(h), second.seqEnd + 1)
    ensures w.env.fault(1).WormFails? ==> w.After(h) == w.Retried(h)
  {
    hide Numbered, FirstWindow, RestOfRun, History.After, WindowStep, LaterOnly, BuiltFrom, History.Retried,
         RoundWindow;
    RestGoesOn(h, w.tenant, w.log', w.max, w.cps, w.Retried(h), w.Again(h), w.notaries, w.env, w.Start(),
               FetchEnd(w.log', w.Start()), second, next, w.After(h));
  }

  // ---- It does happen ----

  /** A notary whose proofs are the ids themselves: each is good for one id only. */
  function Ideal(name: Blob): (n: Notary)
    ensures Reliable(n)
    ensures forall id: bytes, y: bytes :: Genuine(n, n.stamp(id), id, y)
  {
    Notary(name, (id: bytes) => Proof(name, Ascii("ideal"), id), (p: Proof, id: bytes) => p.token == id)
  }

  /** One sealed row, a crash at time 0, and a retry at time 1. */
  function OneRowTorn(h: Hasher, tenant: Blob, r: Record): History {
    var log := Sealed(h, tenant, [r]);
    History(tenant, log, log, 1, [], NO_ANCHORS, FirstWindow(h, tenant, log, 1, [], 0), [Ideal(tenant)],
            Env(false, _ => 1, _ => WindowFault.NoFault))
  }

  /** The first run leaves exactly this torn window behind. */
  lemma OneRowHappened(h: Hasher, tenant: Blob, r: Record, env: Env)
    requires !env.readFails && env.fault(0).CopyFails? && env.clock(0) == 0
    ensures var w := OneRowTorn(h, tenant, r);
            && w.Happened(h) && |w.log'| == 1
            && AnchorRun(h, tenant, NO_ANCHORS, w.log, env, w.notaries, w.max).anchors == w.Before()
  {
    var w := OneRowTorn(h, tenant, r);
    assert |w.log| == 1;
    hide Linked, Sealed, FirstWindow, Numbered, StrictBySeq, AnchorRun, NextWindow, WindowStep;
    SealedIsLinked(h, tenant, [r]);
    LinkedIsNumbered(h, tenant, w.log);
    NothingAnchored(h, tenant, w.log, 1, w.notaries);
    assert Reliable(w.notaries[0]);
    FirstIsNext(h, tenant, w.log, 1, [], 0);
    CrashedRun(h, tenant, w.log, 1, [], NO_ANCHORS, w.notaries, env, w.cp);
  }

  /** A ledger with the proofs of one window. */
  lemma OneWindowLedger(tenant: Blob, a: Anchors, e: uint64) returns (ledger: Ledger)
    requires forall x :: x in a.proofs ==> x == e
    ensures LedgerOf(ledger, tenant, a)
  {
    ledger := map[LedgerKey(tenant, e) := ProofsAt(a.proofs, e)];
    forall x: uint64 ensures Held(ledger, tenant, x) == ProofsAt(a.proofs, x) {
      if LedgerKey(tenant, x) == LedgerKey(tenant, e) { LedgerKeyInjective(tenant, x, tenant, e); }
    }
  }

  /** Every tenant and every record has a torn history after which the untouched row is reported as tampered
      with, unless two of the listed strings have the same hash. */
  lemma TornHistoryIsReported(h: Hasher, tenant: Blob, r: Record, env: Env)
    returns (listed: seq<Checkpoint>, ledger: Ledger)
    requires !env.readFails && env.fault(0).CopyFails? && env.clock(0) == 0
    ensures var w := OneRowTorn(h, tenant, r);
            && w.Happened(h)
            && AnchorRun(h, tenant, NO_ANCHORS, w.log, env, w.notaries, w.max).anchors == w.Before()
            && IsListing(w.After(h).worm, listed) && LedgerOf(ledger, tenant, w.After(h)) && Readable(Fetched(listed))
            && (!TenantTally(h, tenant, w.log', Fetched(listed), ledger, ByName(w.notaries)).Silent()
                || FindCollision(h, TornTrail(h, tenant, w.log', w.cps, w.cp, w.Again(h), w.Second(h))).Some?)
  {
    var w := OneRowTorn(h, tenant, r);
    OneRowHappened(h, tenant, r, env);
    OneRowEnds(w);
    hide Sealed, Linked, Readable, IsListing, LedgerOf, TenantTally, TornTrail, FindCollision, CollisionFree,
         Genuine, History.After, FirstWindow, History.Happened, Tally.Silent, ByName, WindowStep, TornState, RestOfRun,
         Numbered, Stored, Panel, Proven, AnchorRun, FirstEnd, FetchEnd, History.Retried, History.Second;
    BothWindows(h, w);
    SecondRun(h, w);
    RestEnds(h, tenant, w.log', 1, [], w.Retried(h), w.Again(h), w.notaries, w.env);
    assert w.After(h) == w.Retried(h);
    RetriedIs(h, w);
    listed := FirstListed(h, tenant, w.log', 1, [], NO_ANCHORS, w.notaries, w.cp, w.Again(h), w.env.fault(0),
                          w.Retried(h));
    OneWindowProofs(w.a, w.cp, w.Again(h), w.notaries, w.Retried(h));
    ledger := OneWindowLedger(tenant, w.After(h), w.Again(h).seqEnd);
    var id := w.Again(h).checkpointID;
    assert Genuine(w.notaries[0], w.notaries[0].stamp(id), id, w.cp.checkpointID);
    if FindCollision(h, TornTrail(h, tenant, w.log', w.cps, w.cp, w.Again(h), w.Second(h))).None? {
      TornWriteVerdict(h, w, listed, ledger);
      OneRowShows(w);
    }
  }

  lemma OneRowEnds(w: History)
    requires w.Sized() && |w.log'| == 1 && w.cps == []
    ensures FirstEnd(w.log', w.Start(), w.max) == FetchEnd(w.log', w.Start()) == 1
  {
  }

  lemma OneRowShows(w: History)
    requires w.Sized() && |w.log'| == 1 && w.cps == [] && |w.notaries| == 1
    requires !w.env.readFails && w.env.fault(0).NoFault? && w.cp.anchoredAt != w.env.clock(0)
    ensures w.Writes() && !w.SameWindow() && w.Shows()
  {
  }

  lemma OneWindowProofs(a: Anchors, cp: Checkpoint, again: Checkpoint, notaries: seq<Notary>, retried: Anchors)
    requires a.proofs == map[]
    requires retried == WindowStep(TornState(a, cp, notaries), again, WindowFault.NoFault, notaries)
    ensures forall x :: x in retried.proofs ==> x == again.seqEnd
  {
    forall x: uint64 | x != again.seqEnd ensures x !in retried.proofs {
      StampsElsewhere(a.proofs, again.seqEnd, again.checkpointID, notaries, |notaries|, x);
    }
  }
}
