/** What every anchoring run keeps, whatever calls fail on the way, and what that means for a later report. */
module AnchorInvariant {
  import opened Bytes
  import opened Hashing
  import opened Chain
  import opened Checkpoints
  import opened Witness
  import opened Verify
  import opened Tiling
  import opened Ingest
  import opened Anchor

  /** Distinct names, and each notary accepts its own proofs. */
  ghost predicate Panel(notaries: seq<Notary>) {
    && (forall i :: 0 <= i < |notaries| ==> Reliable(notaries[i]))
    && (forall i, j :: 0 <= i < j < |notaries| ==> notaries[i].name != notaries[j].name)
  }

  function Stamps(notaries: seq<Notary>, id: bytes, n: nat): (ps: seq<Proof>)
    requires n <= |notaries|
    ensures |ps| == n && forall i :: 0 <= i < n ==> ps[i] == notaries[i].stamp(id)
  {
    seq(n, i requires 0 <= i < n => notaries[i].stamp(id))
  }

  /** The proofs of the first few notaries for `id`, in order. */
  ghost predicate ProofsFor(ps: seq<Proof>, id: bytes, notaries: seq<Notary>) {
    |ps| <= |notaries| && ps == Stamps(notaries, id, |ps|)
  }

  /** Storage: `cps` tiles a prefix of the log with linked windows of at most `max` rows, write-once storage
      holds exactly `cps`, and the working copy is the same. Notaries play no part. */
  ghost predicate Stored(h: Hasher, tenant: Blob, log: seq<Entry>, max: nat, cps: seq<Checkpoint>, a: Anchors) {
    && Tiles(h, tenant, log, max, cps)
    && IsListing(a.worm, cps) && Keyed(a.worm)
    && a.copy == a.worm
  }

  /** Proofs: every held proof attests the id stored at its sequence number. */
  ghost predicate Proven(a: Anchors, notaries: seq<Notary>) {
    forall e :: e in a.proofs ==> e in a.worm && ProofsFor(a.proofs[e], a.worm[e].checkpointID, notaries)
  }

  /** The anchoring invariant. */
  ghost predicate Anchored(h: Hasher, tenant: Blob, log: seq<Entry>, max: nat, cps: seq<Checkpoint>,
                           a: Anchors, notaries: seq<Notary>)
  {
    Stored(h, tenant, log, max, cps, a) && Proven(a, notaries)
  }

  lemma NothingAnchored(h: Hasher, tenant: Blob, log: seq<Entry>, max: nat, notaries: seq<Notary>)
    requires |log| < TWO_TO_THE_64
    ensures Anchored(h, tenant, log, max, [], NO_ANCHORS, notaries)
  {
  }

  // ---- The proofs of one window ----

  lemma StampsNext(notaries: seq<Notary>, id: bytes, n: nat)
    requires n < |notaries|
    ensures Stamps(notaries, id, n) + [notaries[n].stamp(id)] == Stamps(notaries, id, n + 1)
  {
  }

  lemma FreshProof(proofs: map<uint64, seq<Proof>>, e: uint64, p: Proof)
    requires forall q :: q in ProofsAt(proofs, e) ==> q.notary != p.notary
    ensures AddProof(proofs, e, p) == proofs[e := ProofsAt(proofs, e) + [p]]
  {
  }

  lemma {:induction false} StampsOfFreshEnd(proofs: map<uint64, seq<Proof>>, e: uint64, id: bytes,
                                            notaries: seq<Notary>, n: nat)
    requires Panel(notaries) && n <= |notaries| && e !in proofs && |id| == 32
    ensures PutStamps(proofs, e, id, notaries, n) == if n == 0 then proofs else proofs[e := Stamps(notaries, id, n)]
  {
    hide Stamps, AddProof;
    if n > 0 {
      StampsOfFreshEnd(proofs, e, id, notaries, n - 1);
      StampsNext(notaries, id, n - 1);
      var before, ps := PutStamps(proofs, e, id, notaries, n - 1), Stamps(notaries, id, n - 1);
      assert ProofsAt(before, e) == ps;
      assert Reliable(notaries[n - 1]);
      forall i | 0 <= i < n - 1 ensures ps[i].notary != notaries[n - 1].name { assert Reliable(notaries[i]); }
      FreshProof(before, e, notaries[n - 1].stamp(id));
      assert before[e := Stamps(notaries, id, n)] == proofs[e := Stamps(notaries, id, n)];
    }
  }

  /** Stamping a window touches the proofs of no other window, whatever the notaries are. */
  lemma {:induction false} StampsElsewhere(proofs: map<uint64, seq<Proof>>, e: uint64, id: bytes,
                                           notaries: seq<Notary>, n: nat, x: uint64)
    requires n <= |notaries| && x != e
    ensures ProofsAt(PutStamps(proofs, e, id, notaries, n), x) == ProofsAt(proofs, x)
    ensures x in PutStamps(proofs, e, id, notaries, n) <==> x in proofs
  {
    if n > 0 { StampsElsewhere(proofs, e, id, notaries, n - 1, x); }
  }

  /** A new record with what the first `n` notaries stamp for it. */
  function WithWindow(a: Anchors, cp: Checkpoint, notaries: seq<Notary>, n: nat): Anchors
    requires n <= |notaries|
  {
    Anchors(a.worm[cp.seqEnd := cp], a.copy[cp.seqEnd := cp],
            PutStamps(a.proofs, cp.seqEnd, cp.checkpointID, notaries, n))
  }

  lemma FreshWindowStep(a: Anchors, cp: Checkpoint, fault: WindowFault, notaries: seq<Notary>)
    requires cp.seqEnd !in a.worm && cp.seqEnd !in a.copy
    requires !fault.CopyFails? && !fault.WormFails?
    ensures WindowStep(a, cp, fault, notaries) == WithWindow(a, cp, notaries, Stamped(fault, notaries))
  {
  }

  /** A new window adds the proofs of a panel's first few notaries, and they attest its id. */
  lemma ProvenWith(a: Anchors, cp: Checkpoint, notaries: seq<Notary>, n: nat)
    requires Panel(notaries) && Proven(a, notaries) && n <= |notaries|
    requires cp.seqEnd !in a.worm && |cp.checkpointID| == 32
    ensures Proven(WithWindow(a, cp, notaries, n), notaries)
    ensures ProofsAt(WithWindow(a, cp, notaries, n).proofs, cp.seqEnd) == Stamps(notaries, cp.checkpointID, n)
  {
    hide Stamps, Panel;
    assert cp.seqEnd !in a.proofs;
    StampsOfFreshEnd(a.proofs, cp.seqEnd, cp.checkpointID, notaries, n);
    if n == 0 { assert Stamps(notaries, cp.checkpointID, 0) == []; }
  }

  // ---- One window ----

  /** The next window never meets an existing record: the overwrite branch is unreachable. */
  lemma NextEndIsFresh(h: Hasher, tenant: Blob, log: seq<Entry>, max: nat, cps: seq<Checkpoint>, a: Anchors, e: uint64)
    requires Stored(h, tenant, log, max, cps, a) && e >= NextStart(cps, |cps|)
    ensures e !in a.worm && e !in a.copy
  {
    hide Tiles;
    assert forall c :: c in cps ==> c.seqEnd < NextStart(cps, |cps|);
    assert forall k :: k in a.worm ==> a.worm[k] in cps && a.worm[k].seqEnd == k;
  }

  lemma StoredAppend(h: Hasher, tenant: Blob, log: seq<Entry>, max: nat, cps: seq<Checkpoint>, a: Anchors,
                     notaries: seq<Notary>, cp: Checkpoint, n: nat)
    requires Stored(h, tenant, log, max, cps, a) && n <= |notaries|
    requires Tiles(h, tenant, log, max, cps + [cp]) && (cps != [] ==> cps[|cps| - 1].seqEnd < cp.seqEnd)
    ensures Stored(h, tenant, log, max, cps + [cp], WithWindow(a, cp, notaries, n))
  {
    hide Tiles, IsListing, Keyed, PutStamps;
    ListingAppend(a.worm, cps, cp);
  }

  /** A checkpoint that may come after `cps`: built from the next rows of the log, on the last id. */
  ghost predicate NextWindow(h: Hasher, tenant: Blob, log: seq<Entry>, cps: seq<Checkpoint>, cp: Checkpoint) {
    && NextStart(cps, |cps|) <= cp.seqEnd < |log| < TWO_TO_THE_64
    && cp == Build(h, tenant, log[NextStart(cps, |cps|)..cp.seqEnd + 1], PrevID(cps, |cps|), cp.anchoredAt)
  }

  /** One successful write keeps storage in order, with one more checkpoint. */
  lemma WindowKeeps(h: Hasher, tenant: Blob, log: seq<Entry>, max: nat, cps: seq<Checkpoint>, a: Anchors,
                    notaries: seq<Notary>, cp: Checkpoint, fault: WindowFault)
    requires Stored(h, tenant, log, max, cps, a)
    requires NextWindow(h, tenant, log, cps, cp) && cp.seqEnd + 1 - NextStart(cps, |cps|) <= max
    requires !fault.CopyFails? && !fault.WormFails?
    ensures NextStart(cps + [cp], |cps| + 1) == cp.seqEnd + 1 && PrevID(cps + [cp], |cps| + 1) == cp.checkpointID
    ensures WindowStep(a, cp, fault, notaries) == WithWindow(a, cp, notaries, Stamped(fault, notaries))
    ensures Stored(h, tenant, log, max, cps + [cp], WindowStep(a, cp, fault, notaries))
    ensures cp.seqEnd !in a.worm && |cp.checkpointID| == 32
  {
    assert Tiles(h, tenant, log, max, cps);
    hide Build, Tiles, Stored, WindowStep, WithWindow;
    NextEndIsFresh(h, tenant, log, max, cps, a, cp.seqEnd);
    FreshWindowStep(a, cp, fault, notaries);
    TilesAppend(h, tenant, log, max, cps, cp);
    StoredAppend(h, tenant, log, max, cps, a, notaries, cp, Stamped(fault, notaries));
    BuildFields(h, tenant, log[NextStart(cps, |cps|)..cp.seqEnd + 1], PrevID(cps, |cps|), cp.anchoredAt);
  }

  /** Sealing more rows keeps storage in order. */
  lemma StoredGrows(h: Hasher, t: Blob, log: seq<Entry>, log': seq<Entry>, max: nat, cps: seq<Checkpoint>, a: Anchors)
    requires Stored(h, t, log, max, cps, a) && log <= log' && |log'| < TWO_TO_THE_64
    ensures Stored(h, t, log', max, cps, a)
  {
    hide Tiles, IsListing;
    assert log' == log + log'[|log|..];
    TilesGrow(h, t, log, log'[|log|..], max, cps);
  }

  // ---- One run ----

  ghost predicate NoTornWrite(env: Env) {
    forall i :: !env.fault(i).CopyFails?
  }

  ghost predicate FaultFree(env: Env) {
    !env.readFails && forall i :: env.fault(i).NoFault?
  }

  lemma SliceOfSlice(log: seq<Entry>, base: nat, len: nat, i: nat, end: nat)
    requires i <= end <= len && base + len <= |log|
    ensures log[base..base + len][i..end] == log[base + i..base + end]
  {
    var part := log[base..base + len];
    forall k | 0 <= k < end - i ensures part[i..end][k] == log[base + i..base + end][k] {
      assert part[i + k] == log[base + i + k];
    }
  }

  /** What a run that starts with `cps` and `count` windows done may leave behind: storage again in order,
      for checkpoints `cps'` that continue `cps`; the proofs held before, untouched; if nothing failed,
      every row up to `stop` anchored; and if the notaries are a panel, proofs that attest what is stored,
      of all the notaries if nothing failed. A checkpoint whose notary fails is written but not counted. */
  ghost predicate Kept(h: Hasher, tenant: Blob, log: seq<Entry>, max: nat, notaries: seq<Notary>, env: Env, stop: nat,
                       a: Anchors, cps: seq<Checkpoint>, count: nat, r: RunResult, cps': seq<Checkpoint>)
  {
    && Stored(h, tenant, log, max, cps', r.anchors)
    && cps <= cps'
    && (if r.ok then r.anchored == count + |cps'| - |cps| && NextStart(cps', |cps'|) == stop
        else 0 <= count + |cps'| - |cps| - r.anchored <= 1)
    && (forall e :: e in a.worm ==> ProofsAt(r.anchors.proofs, e) == ProofsAt(a.proofs, e))
    && (FaultFree(env) ==> r.ok)
    && (Panel(notaries) && Proven(a, notaries) ==>
          && Proven(r.anchors, notaries)
          && (FaultFree(env) ==> FullFrom(r.anchors, cps', |cps|, |notaries|)))
  }

  /** The windows from `n` on have `k` proofs each. */
  ghost predicate FullFrom(a: Anchors, cps: seq<Checkpoint>, n: nat, k: nat) {
    forall j :: n <= j < |cps| ==> |ProofsAt(a.proofs, cps[j].seqEnd)| == k
  }

  /** Where window `i` of the fetched rows ends. */
  function WindowEnd(len: nat, i: nat, max: nat): nat {
    if i + max > len then len else i + max
  }

  /** The window that the loop builds at `i`, in terms of the whole log. */
  function RoundWindow(h: Hasher, tenant: Blob, log: seq<Entry>, max: nat, prev: Blob, len: nat, base: nat, i: nat,
                       at: int64): Checkpoint
    requires base + len <= |log| < TWO_TO_THE_64 && i < len && max > 0
  {
    Build(h, tenant, log[base + i..base + WindowEnd(len, i, max)], prev, at)
  }

  /** One round of the loop over the fetched rows `log[base..base + len]`. */
  lemma RoundRuns(h: Hasher, tenant: Blob, log: seq<Entry>, max: nat, prev: Blob, a: Anchors, notaries: seq<Notary>,
                  len: nat, base: nat, i: nat, count: nat, env: Env, cp: Checkpoint)
    requires base + len <= |log| < TWO_TO_THE_64 && i < len && max > 0
    requires cp == RoundWindow(h, tenant, log, max, prev, len, base, i, env.clock(count))
    ensures var rows, next := log[base..base + len], WindowStep(a, cp, env.fault(count), notaries);
            AnchorFrom(h, tenant, a, rows, i, prev, count, env, notaries, max)
            == if !WindowSucceeds(env.fault(count), notaries) then RunResult(next, count, false)
               else AnchorFrom(h, tenant, next, rows, i + max, cp.checkpointID, count + 1, env, notaries, max)
  {
    hide Build, AnchorFrom, WindowStep, WindowSucceeds;
    SliceOfSlice(log, base, len, i, WindowEnd(len, i, max));
    AnchorFromNext(h, tenant, a, log[base..base + len], i, WindowEnd(len, i, max), prev, count, env, notaries, max, cp);
  }

  lemma RoundKeeps(h: Hasher, tenant: Blob, log: seq<Entry>, max: nat, cps: seq<Checkpoint>, a: Anchors,
                   notaries: seq<Notary>, len: nat, base: nat, i: nat, at: int64, fault: WindowFault, cp: Checkpoint)
    requires Stored(h, tenant, log, max, cps, a) && Numbered(log) && max > 0
    requires base + len <= |log| < TWO_TO_THE_64 && i < len && NextStart(cps, |cps|) == base + i
    requires cp == RoundWindow(h, tenant, log, max, PrevID(cps, |cps|), len, base, i, at) && !fault.WormFails?
    requires !fault.CopyFails?
    ensures var more, next := cps + [cp], WindowStep(a, cp, fault, notaries);
            && Stored(h, tenant, log, max, more, next)
            && NextStart(more, |more|) == (if i + max < len then base + (i + max) else base + len)
            && PrevID(more, |more|) == cp.checkpointID
            && next == WithWindow(a, cp, notaries, Stamped(fault, notaries))
            && cp.seqEnd !in a.worm && |cp.checkpointID| == 32
  {
    hide Build, Stored, Numbered, WithWindow, NextStart, PrevID, WindowStep, Stamped;
    assert |cps + [cp]| == |cps| + 1;
    RoundIsNextWindow(h, tenant, log, max, cps, len, base, i, at, cp);
    WindowKeeps(h, tenant, log, max, cps, a, notaries, cp, fault);
  }

  lemma RoundIsNextWindow(h: Hasher, tenant: Blob, log: seq<Entry>, max: nat, cps: seq<Checkpoint>,
                          len: nat, base: nat, i: nat, at: int64, cp: Checkpoint)
    requires base + len <= |log| < TWO_TO_THE_64 && i < len && max > 0
    requires Numbered(log) && NextStart(cps, |cps|) == base + i
    requires cp == RoundWindow(h, tenant, log, max, PrevID(cps, |cps|), len, base, i, at)
    ensures NextWindow(h, tenant, log, cps, cp)
    ensures cp.seqEnd + 1 == base + WindowEnd(len, i, max) && cp.anchoredAt == at && |cp.checkpointID| == 32
  {
    hide Build, Numbered, NextStart, PrevID;
    RoundFields(h, tenant, log, max, PrevID(cps, |cps|), len, base, i, at);
  }

  lemma RoundFields(h: Hasher, tenant: Blob, log: seq<Entry>, max: nat, prev: Blob, len: nat, base: nat, i: nat,
                    at: int64)
    requires base + len <= |log| < TWO_TO_THE_64 && i < len && max > 0 && Numbered(log)
    ensures var cp := RoundWindow(h, tenant, log, max, prev, len, base, i, at);
            && cp.seqStart == base + i && cp.seqEnd + 1 == base + WindowEnd(len, i, max)
            && cp.anchoredAt == at && |cp.checkpointID| == 32
  {
    hide Build, Numbered;
    var end := base + WindowEnd(len, i, max);
    BuiltEnd(h, tenant, log, base + i, end - 1, prev, at);
    BuildFields(h, tenant, log[base + i..end], prev, at);
  }

  /** The loop from window `i` of the fetched rows on. */
  lemma {:induction false} AnchorFromKeeps(h: Hasher, tenant: Blob, log: seq<Entry>, max: nat, cps: seq<Checkpoint>,
                                           a: Anchors, notaries: seq<Notary>, len: nat, base: nat, i: nat, count: nat,
                                           env: Env)
    returns (cps': seq<Checkpoint>)
    requires Stored(h, tenant, log, max, cps, a) && Numbered(log) && max > 0
    requires base + len <= |log| < TWO_TO_THE_64 && NoTornWrite(env)
    requires NextStart(cps, |cps|) == if i < len then base + i else base + len
    ensures Kept(h, tenant, log, max, notaries, env, base + len, a, cps, count,
                 AnchorFrom(h, tenant, a, log[base..base + len], i, PrevID(cps, |cps|), count, env, notaries, max),
                 cps')
    decreases len - i
  {
    hide Build, Stored, Numbered, Panel, Kept, WithWindow, NextStart, PrevID, AnchorFrom, WindowStep, Stamped,
         WindowSucceeds, FaultFree, RoundWindow;
    cps' := cps;
    var rows, stop := log[base..base + len], base + len;
    if i >= len {
      AnchorFromDone(h, tenant, a, rows, i, PrevID(cps, |cps|), count, env, notaries, max);
      KeptAtOnce(h, tenant, log, max, notaries, env, stop, a, cps, count, true);
    } else {
      var prev, fault, at := PrevID(cps, |cps|), env.fault(count), env.clock(count);
      var cp := RoundWindow(h, tenant, log, max, prev, len, base, i, at);
      var next, more := WindowStep(a, cp, fault, notaries), cps + [cp];
      RoundRuns(h, tenant, log, max, prev, a, notaries, len, base, i, count, env, cp);
      WindowOutcome(a, cp, fault, notaries, env, count);
      if !fault.WormFails? {
        RoundKeeps(h, tenant, log, max, cps, a, notaries, len, base, i, at, fault, cp);
      }
      if WindowSucceeds(fault, notaries) {
        cps' := AnchorFromKeeps(h, tenant, log, max, more, next, notaries, len, base, i + max, count + 1, env);
        var r := AnchorFrom(h, tenant, next, rows, i + max, cp.checkpointID, count + 1, env, notaries, max);
        KeptAfter(h, tenant, log, max, notaries, env, stop, a, cps, cp, count, next, r, cps');
      } else if fault.WormFails? {
        KeptAtOnce(h, tenant, log, max, notaries, env, stop, a, cps, count, false);
      } else {
        cps' := more;
        KeptWhenStopped(h, tenant, log, max, notaries, env, stop, a, cps, cp, count, Stamped(fault, notaries));
      }
    }
  }

  /** A window that cannot be written changes nothing; one that succeeds has every notary's proof. */
  lemma WindowOutcome(a: Anchors, cp: Checkpoint, fault: WindowFault, notaries: seq<Notary>, env: Env, count: nat)
    requires fault == env.fault(count)
    ensures fault.WormFails? ==> WindowStep(a, cp, fault, notaries) == a && !WindowSucceeds(fault, notaries)
    ensures WindowSucceeds(fault, notaries) ==> Stamped(fault, notaries) == |notaries|
    ensures !WindowSucceeds(fault, notaries) ==> !FaultFree(env) && Stamped(fault, notaries) <= |notaries|
  {
  }

  lemma KeptAtOnce(h: Hasher, tenant: Blob, log: seq<Entry>, max: nat, notaries: seq<Notary>, env: Env, stop: nat,
                   a: Anchors, cps: seq<Checkpoint>, count: nat, ok: bool)
    requires Stored(h, tenant, log, max, cps, a)
    requires if ok then NextStart(cps, |cps|) == stop else !FaultFree(env)
    ensures Kept(h, tenant, log, max, notaries, env, stop, a, cps, count, RunResult(a, count, ok), cps)
  {
    hide Stored, Proven, Panel, FaultFree;
  }

  lemma KeptAfter(h: Hasher, tenant: Blob, log: seq<Entry>, max: nat, notaries: seq<Notary>, env: Env, stop: nat,
                  a: Anchors, cps: seq<Checkpoint>, cp: Checkpoint, count: nat, a1: Anchors, r: RunResult,
                  cps': seq<Checkpoint>)
    requires cp.seqEnd !in a.worm && |cp.checkpointID| == 32 && a1 == WithWindow(a, cp, notaries, |notaries|)
    requires Kept(h, tenant, log, max, notaries, env, stop, a1, cps + [cp], count + 1, r, cps')
    ensures Kept(h, tenant, log, max, notaries, env, stop, a, cps, count, r, cps')
  {
    hide FaultFree, Stamps, Stored, Proven, Panel, PutStamps;
    assert cp.seqEnd in a1.worm;
    assert cps'[|cps|] == (cps + [cp])[|cps|] == cp;
    forall e | e in a.worm ensures ProofsAt(r.anchors.proofs, e) == ProofsAt(a.proofs, e) {
      assert e in a1.worm;
      StampsElsewhere(a.proofs, cp.seqEnd, cp.checkpointID, notaries, |notaries|, e);
    }
    if Panel(notaries) && Proven(a, notaries) {
      ProvenWith(a, cp, notaries, |notaries|);
      assert |ProofsAt(a1.proofs, cp.seqEnd)| == |notaries|;
    }
  }

  lemma KeptWhenStopped(h: Hasher, tenant: Blob, log: seq<Entry>, max: nat, notaries: seq<Notary>, env: Env, stop: nat,
                        a: Anchors, cps: seq<Checkpoint>, cp: Checkpoint, count: nat, n: nat)
    requires n <= |notaries| && cp.seqEnd !in a.worm && |cp.checkpointID| == 32 && !FaultFree(env)
    requires Stored(h, tenant, log, max, cps + [cp], WithWindow(a, cp, notaries, n))
    ensures Kept(h, tenant, log, max, notaries, env, stop, a, cps, count,
                 RunResult(WithWindow(a, cp, notaries, n), count, false), cps + [cp])
  {
    hide Stored, Proven, Panel, FaultFree, PutStamps, Stamps;
    forall e | e in a.worm ensures ProofsAt(WithWindow(a, cp, notaries, n).proofs, e) == ProofsAt(a.proofs, e) {
      StampsElsewhere(a.proofs, cp.seqEnd, cp.checkpointID, notaries, n, e);
    }
    if Panel(notaries) && Proven(a, notaries) { ProvenWith(a, cp, notaries, n); }
  }

  // ---- A run from the stored state ----

  lemma {:induction false} FromNumbered(es: seq<Entry>, start: nat)
    requires Numbered(es)
    ensures From(es, start) == if start <= |es| then es[start..] else []
  {
    if es != [] {
      var init := es[..|es| - 1];
      FromNumbered(init, start);
      assert start < |es| ==> es[start..] == init[start..] + [es[|es| - 1]];
    }
  }

  /** What the anchorer fetches: the next rows of the log, up to the limit. */
  lemma FetchedRows(es: seq<Entry>, start: nat)
    requires Numbered(es) && start <= |es|
    ensures var len := if |es| - start <= ROW_LIMIT then |es| - start else ROW_LIMIT;
            EntriesAsc(es, start, ROW_LIMIT) == es[start..start + len]
  {
    FromNumbered(es, start);
  }

  lemma LastOfListing(m: Records, cps: seq<Checkpoint>)
    requires IsListing(m, cps) && Keyed(m)
    ensures LastOf(m) == if cps == [] then None else Some(cps[|cps| - 1])
  {
    assert forall k :: k in m ==> m[k] in cps && m[k].seqEnd == k;
    if cps != [] {
      var last := cps[|cps| - 1];
      assert last in cps && last.seqEnd in m.Keys;
      assert forall c :: c in cps ==> c.seqEnd <= last.seqEnd;
      assert MaxKey(m.Keys) == last.seqEnd;
    } else {
      assert m.Keys == {};
    }
  }

  lemma CopyStart(h: Hasher, tenant: Blob, log: seq<Entry>, max: nat, cps: seq<Checkpoint>, copy: Records)
    requires Tiles(h, tenant, log, max, cps) && IsListing(copy, cps) && Keyed(copy)
    ensures NextStart(cps, |cps|) <= |log| < TWO_TO_THE_64
    ensures LastOf(copy) == if cps == [] then None else Some(cps[|cps| - 1])
  {
    hide Build, IsListing, Keyed;
    LastOfListing(copy, cps);
    if cps != [] { assert WindowAt(h, tenant, log, max, cps, |cps| - 1); }
  }

  /** Where a run stops fetching. */
  function FetchEnd(log: seq<Entry>, start: nat): (stop: nat)
    requires start <= |log|
    ensures start <= stop <= |log|
  {
    if |log| - start <= ROW_LIMIT then |log| else start + ROW_LIMIT
  }

  /** A run resumes where the checkpoints of the working copy end, from the id of the last one. */
  lemma RunResumes(h: Hasher, tenant: Blob, log: seq<Entry>, max: nat, cps: seq<Checkpoint>, a: Anchors,
                   notaries: seq<Notary>, env: Env)
    requires Tiles(h, tenant, log, max, cps) && IsListing(a.copy, cps) && Keyed(a.copy)
    requires Numbered(log) && max > 0 && !env.readFails
    ensures NextStart(cps, |cps|) <= |log| < TWO_TO_THE_64
    ensures AnchorRun(h, tenant, a, log, env, notaries, max)
         == AnchorFrom(h, tenant, a, log[NextStart(cps, |cps|)..FetchEnd(log, NextStart(cps, |cps|))], 0,
                       PrevID(cps, |cps|), 0, env, notaries, max)
  {
    hide Tiles, IsListing, Keyed, AnchorFrom, LastOf, EntriesAsc, Numbered;
    CopyStart(h, tenant, log, max, cps, a.copy);
    FetchedRows(log, NextStart(cps, |cps|));
  }

  /** Every run without a torn write keeps the anchoring invariant, whichever other calls fail; it only
      adds checkpoints, and a fault-free run anchors every fetched row with every notary. */
  lemma AnchorRunKeeps(h: Hasher, tenant: Blob, log: seq<Entry>, max: nat, cps: seq<Checkpoint>, a: Anchors,
                       notaries: seq<Notary>, env: Env)
    returns (cps': seq<Checkpoint>)
    requires Stored(h, tenant, log, max, cps, a) && Numbered(log) && max > 0
    requires NoTornWrite(env)
    ensures NextStart(cps, |cps|) <= |log| < TWO_TO_THE_64
    ensures Kept(h, tenant, log, max, notaries, env, FetchEnd(log, NextStart(cps, |cps|)), a, cps, 0,
                 AnchorRun(h, tenant, a, log, env, notaries, max), cps')
  {
    hide Kept, Tiles, IsListing, Keyed, AnchorFrom, LastOf, EntriesAsc, Numbered;
    CopyStart(h, tenant, log, max, cps, a.copy);
    var start := NextStart(cps, |cps|);
    var stop := FetchEnd(log, start);
    if env.readFails {
      cps' := cps;
      KeptAtOnce(h, tenant, log, max, notaries, env, stop, a, cps, 0, false);
    } else {
      RunResumes(h, tenant, log, max, cps, a, notaries, env);
      cps' := AnchorFromKeeps(h, tenant, log, max, cps, a, notaries, stop - start, start, 0, 0, env);
    }
  }
}
