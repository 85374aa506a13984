/** What every anchoring run keeps, torn or not: each record, in write-once storage and in the working copy, was
    built from rows of the log, and none is ever replaced. How many windows a run counts, and what it writes for
    each of them. */
module AnyRun {
  import opened Bytes
  import opened Hashing
  import opened Chain
  import opened Checkpoints
  import opened Witness
  import opened Verify
  import opened Tiling
  import opened Ingest
  import opened Anchor
  import opened AnchorInvariant

  ghost predicate AllBuilt(h: Hasher, tenant: Blob, log: seq<Entry>, m: Records) {
    Keyed(m) && forall e :: e in m ==> BuiltFrom(h, tenant, log, m[e])
  }

  ghost predicate RecordsBuilt(h: Hasher, tenant: Blob, log: seq<Entry>, a: Anchors) {
    AllBuilt(h, tenant, log, a.worm) && AllBuilt(h, tenant, log, a.copy)
  }

  lemma RecordsBuiltGrow(h: Hasher, tenant: Blob, log: seq<Entry>, log': seq<Entry>, a: Anchors)
    requires RecordsBuilt(h, tenant, log, a) && log <= log' && |log'| < TWO_TO_THE_64
    ensures RecordsBuilt(h, tenant, log', a)
  {
    hide BuiltFrom;
    forall e | e in a.worm ensures BuiltFrom(h, tenant, log', a.worm[e]) {
      BuiltFromGrows(h, tenant, log, log', a.worm[e]);
    }
    forall e | e in a.copy ensures BuiltFrom(h, tenant, log', a.copy[e]) {
      BuiltFromGrows(h, tenant, log, log', a.copy[e]);
    }
  }

  lemma StepKeepsBuilt(h: Hasher, tenant: Blob, log: seq<Entry>, a: Anchors, cp: Checkpoint, fault: WindowFault,
                        notaries: seq<Notary>)
    requires RecordsBuilt(h, tenant, log, a) && BuiltFrom(h, tenant, log, cp)
    ensures RecordsBuilt(h, tenant, log, WindowStep(a, cp, fault, notaries))
  {
    hide BuiltFrom, PutStamps;
  }

  /** The loop, from whatever window, predecessor and state on, and wherever it fails. */
  lemma {:induction false} AnchorFromKeepsBuilt(h: Hasher, tenant: Blob, log: seq<Entry>, max: nat, prev: Blob,
                                                 a: Anchors, notaries: seq<Notary>, len: nat, base: nat, i: nat,
                                                 count: nat, env: Env)
    requires RecordsBuilt(h, tenant, log, a) && Numbered(log) && max > 0 && base + len <= |log| < TWO_TO_THE_64
    ensures RecordsBuilt(h, tenant, log,
                   AnchorFrom(h, tenant, a, log[base..base + len], i, prev, count, env, notaries, max).anchors)
    decreases len - i
  {
    hide RecordsBuilt, Build, Numbered, AnchorFrom, WindowStep, WindowSucceeds, RoundWindow, BuiltFrom;
    var rows := log[base..base + len];
    if i >= len {
      AnchorFromDone(h, tenant, a, rows, i, prev, count, env, notaries, max);
    } else {
      var cp := RoundWindow(h, tenant, log, max, prev, len, base, i, env.clock(count));
      var next := WindowStep(a, cp, env.fault(count), notaries);
      RoundRuns(h, tenant, log, max, prev, a, notaries, len, base, i, count, env, cp);
      RoundIsBuilt(h, tenant, log, max, prev, len, base, i, env.clock(count), cp);
      StepKeepsBuilt(h, tenant, log, a, cp, env.fault(count), notaries);
      if WindowSucceeds(env.fault(count), notaries) {
        AnchorFromKeepsBuilt(h, tenant, log, max, cp.checkpointID, next, notaries, len, base, i + max, count + 1, env);
      }
    }
  }

  lemma RoundIsBuilt(h: Hasher, tenant: Blob, log: seq<Entry>, max: nat, prev: Blob, len: nat, base: nat, i: nat,
                   at: int64, cp: Checkpoint)
    requires base + len <= |log| < TWO_TO_THE_64 && i < len && max > 0 && Numbered(log)
    requires cp == RoundWindow(h, tenant, log, max, prev, len, base, i, at)
    ensures BuiltFrom(h, tenant, log, cp) && cp.prevCheckpointHash == prev && |cp.checkpointID| == 32
    ensures base + i == cp.seqStart <= cp.seqEnd < |log| && cp.seqEnd + 1 == base + WindowEnd(len, i, max)
  {
    hide Build, BuiltFrom, Numbered;
    BuildIsBuilt(h, tenant, log, base + i, base + WindowEnd(len, i, max) - 1, prev, at, cp);
    BuiltFromID(h, tenant, log, cp);
  }

  /** A run, whatever fails in it: the working copy decides where it starts, and a record built from the log
      ends inside the log. */
  lemma AnchorRunKeepsBuilt(h: Hasher, tenant: Blob, log: seq<Entry>, max: nat, a: Anchors, notaries: seq<Notary>,
                             env: Env)
    requires RecordsBuilt(h, tenant, log, a) && Numbered(log) && max > 0 && |log| < TWO_TO_THE_64
    ensures RecordsBuilt(h, tenant, log, AnchorRun(h, tenant, a, log, env, notaries, max).anchors)
  {
    hide EntriesAsc, AnchorFrom, Numbered, LastOf, RecordsBuilt;
    if !env.readFails {
      var last := LastOf(a.copy);
      var start := if last.Some? then last.value.seqEnd + 1 else 0;
      var prev := if last.Some? then last.value.checkpointID else [];
      LastEndsInside(h, tenant, log, a);
      FetchedRows(log, start);
      var len := if |log| - start <= ROW_LIMIT then |log| - start else ROW_LIMIT;
      AnchorFromKeepsBuilt(h, tenant, log, max, prev, a, notaries, len, start, 0, 0, env);
    }
  }

  lemma LastEndsInside(h: Hasher, tenant: Blob, log: seq<Entry>, a: Anchors)
    requires RecordsBuilt(h, tenant, log, a)
    ensures LastOf(a.copy).Some? ==> LastOf(a.copy).value.seqEnd < |log|
  {
    hide Build;
    if LastOf(a.copy).Some? { assert BuiltFrom(h, tenant, log, a.copy[MaxKey(a.copy.Keys)]); }
  }

  // ---- How far a run gets ----

  /** How many windows of at most `max` rows it takes to cover `n` rows. */
  function Windows(n: int, max: nat): nat
    requires max > 0
    decreases if n > 0 then n else 0
  {
    if n <= 0 then 0 else 1 + Windows(n - max, max)
  }

  /** `n / max`, rounded up. */
  lemma {:induction false} WindowsIsCeil(n: int, max: nat)
    requires max > 0 && n >= 0
    ensures n <= Windows(n, max) * max < n + max
    decreases n
  {
    if n > 0 {
      assert Windows(n, max) * max == Windows(n - max, max) * max + max;
      if n >= max { WindowsIsCeil(n - max, max); }
    }
  }

  /** A window fails if one of its calls does. */
  lemma WindowSucceedsIff(fault: WindowFault, notaries: seq<Notary>)
    ensures WindowSucceeds(fault, notaries)
       <==> fault.NoFault? || (fault.NotaryFails? && fault.at >= |notaries|)
  {
  }

  /** The windows `count..all` were tried one after the other; those before the first that failed are counted, and
      the run says whether there was one. */
  ghost predicate Counted(r: RunResult, count: nat, all: nat, env: Env, notaries: seq<Notary>) {
    && count <= r.anchored <= all && (r.ok <==> r.anchored == all)
    && (forall j :: count <= j < r.anchored ==> WindowSucceeds(env.fault(j), notaries))
    && (!r.ok ==> !WindowSucceeds(env.fault(r.anchored), notaries))
  }

  lemma CountedOneMore(r: RunResult, count: nat, all: nat, env: Env, notaries: seq<Notary>)
    requires WindowSucceeds(env.fault(count), notaries) && Counted(r, count + 1, all, env, notaries)
    ensures Counted(r, count, all, env, notaries)
  {
    hide WindowSucceeds;
  }

  /** The loop writes and counts window after window up to the first that fails; if none fails, it covers all the
      rows. */
  lemma {:induction false} AnchorFromCounts(h: Hasher, tenant: Blob, a: Anchors, entries: seq<Entry>, i: nat,
                                            prev: Blob, count: nat, env: Env, notaries: seq<Notary>, max: nat)
    requires max > 0 && |entries| < TWO_TO_THE_64
    ensures Counted(AnchorFrom(h, tenant, a, entries, i, prev, count, env, notaries, max), count,
                    count + Windows(|entries| - i, max), env, notaries)
    decreases |entries| - i
  {
    hide Build, WindowStep, WindowSucceeds, AnchorFrom;
    if i < |entries| {
      var end := if i + max > |entries| then |entries| else i + max;
      var cp := Build(h, tenant, entries[i..end], prev, env.clock(count));
      var next, all := WindowStep(a, cp, env.fault(count), notaries), count + Windows(|entries| - i, max);
      AnchorFromNext(h, tenant, a, entries, i, end, prev, count, env, notaries, max, cp);
      if WindowSucceeds(env.fault(count), notaries) {
        hide Counted;
        AnchorFromCounts(h, tenant, next, entries, i + max, cp.checkpointID, count + 1, env, notaries, max);
        CountedOneMore(AnchorFrom(h, tenant, next, entries, i + max, cp.checkpointID, count + 1, env, notaries, max),
                       count, all, env, notaries);
      }
    } else {
      AnchorFromDone(h, tenant, a, entries, i, prev, count, env, notaries, max);
    }
  }

  /** A run that finds storage in order anchors as many windows as it takes for the rows it fetches, up to the
      first window that fails. */
  lemma AnchorRunCounts(h: Hasher, tenant: Blob, log: seq<Entry>, max: nat, cps: seq<Checkpoint>, a: Anchors,
                        notaries: seq<Notary>, env: Env)
    requires Stored(h, tenant, log, max, cps, a) && Numbered(log) && max > 0
    ensures NextStart(cps, |cps|) <= |log| < TWO_TO_THE_64
    ensures var start, r := NextStart(cps, |cps|), AnchorRun(h, tenant, a, log, env, notaries, max);
            if env.readFails then r == RunResult(a, 0, false)
            else Counted(r, 0, Windows(FetchEnd(log, start) - start, max), env, notaries)
  {
    hide Tiles, IsListing, Keyed, AnchorFrom, LastOf, EntriesAsc, Numbered, Counted;
    CopyStart(h, tenant, log, max, cps, a.copy);
    if !env.readFails {
      var start := NextStart(cps, |cps|);
      var rows := log[start..FetchEnd(log, start)];
      RunResumes(h, tenant, log, max, cps, a, notaries, env);
      AnchorFromCounts(h, tenant, a, rows, 0, PrevID(cps, |cps|), 0, env, notaries, max);
    }
  }

  // ---- Nothing is ever replaced ----

  /** Proofs are kept, in order, and no notary has two at the same end. */
  ghost predicate OnePerNotary(ps: seq<Proof>) {
    forall i, j :: 0 <= i < j < |ps| ==> ps[i].notary != ps[j].notary
  }

  lemma {:induction false} StampsOnlyAdd(proofs: map<uint64, seq<Proof>>, e: uint64, id: bytes,
                                         notaries: seq<Notary>, n: nat, x: uint64)
    requires n <= |notaries|
    ensures var proofs' := PutStamps(proofs, e, id, notaries, n);
            && ProofsAt(proofs, x) <= ProofsAt(proofs', x)
            && (OnePerNotary(ProofsAt(proofs, x)) ==> OnePerNotary(ProofsAt(proofs', x)))
  {
    if n > 0 {
      StampsOnlyAdd(proofs, e, id, notaries, n - 1, x);
      AddsOne(PutStamps(proofs, e, id, notaries, n - 1), e, notaries[n - 1].stamp(id), x);
    }
  }

  lemma AddsOne(proofs: map<uint64, seq<Proof>>, e: uint64, p: Proof, x: uint64)
    ensures var proofs' := AddProof(proofs, e, p);
            && ProofsAt(proofs, x) <= ProofsAt(proofs', x)
            && (OnePerNotary(ProofsAt(proofs, x)) ==> OnePerNotary(ProofsAt(proofs', x)))
            && HasNotary(ProofsAt(proofs', e), p.notary)
  {
    var ps := ProofsAt(proofs, e);
    if !HasNotary(ps, p.notary) {
      assert (ps + [p])[|ps|].notary == p.notary;
    }
  }

  ghost predicate OnlyAdds(a: Anchors, a': Anchors) {
    && (forall e :: e in a.worm ==> e in a'.worm && a'.worm[e] == a.worm[e])
    && (forall e :: e in a.copy ==> e in a'.copy && a'.copy[e] == a.copy[e])
    && (forall x: uint64 :: ProofsAt(a.proofs, x) <= ProofsAt(a'.proofs, x))
    && (forall x: uint64 :: OnePerNotary(ProofsAt(a.proofs, x)) ==> OnePerNotary(ProofsAt(a'.proofs, x)))
  }

  lemma OnlyAddsTrans(a: Anchors, b: Anchors, c: Anchors)
    requires OnlyAdds(a, b) && OnlyAdds(b, c)
    ensures OnlyAdds(a, c)
  {
    hide OnePerNotary, ProofsAt;
    forall x: uint64 ensures ProofsAt(a.proofs, x) <= ProofsAt(c.proofs, x) {
      assert ProofsAt(a.proofs, x) <= ProofsAt(b.proofs, x) <= ProofsAt(c.proofs, x);
    }
  }

  /** Whatever state a window finds, torn or shared with another writer: no record is replaced in write-once
      storage or in the working copy, no proof is lost, and no notary gets a second proof of the same window. */
  lemma StepOnlyAdds(a: Anchors, cp: Checkpoint, fault: WindowFault, notaries: seq<Notary>)
    ensures OnlyAdds(a, WindowStep(a, cp, fault, notaries))
  {
    hide PutStamps, OnePerNotary;
    if !fault.WormFails? && !fault.CopyFails? {
      forall x: uint64
        ensures ProofsAt(a.proofs, x) <= ProofsAt(WindowStep(a, cp, fault, notaries).proofs, x)
        ensures OnePerNotary(ProofsAt(a.proofs, x)) ==>
                  OnePerNotary(ProofsAt(WindowStep(a, cp, fault, notaries).proofs, x))
      {
        StampsOnlyAdd(a.proofs, cp.seqEnd, cp.checkpointID, notaries, Stamped(fault, notaries), x);
      }
    }
  }

  /** So no run does either, from whatever state and however it fails. */
  lemma {:induction false} AnchorFromOnlyAdds(h: Hasher, tenant: Blob, a: Anchors, entries: seq<Entry>, i: nat,
                                              prev: Blob, count: nat, env: Env, notaries: seq<Notary>, max: nat)
    requires max > 0 && |entries| < TWO_TO_THE_64
    ensures OnlyAdds(a, AnchorFrom(h, tenant, a, entries, i, prev, count, env, notaries, max).anchors)
    decreases |entries| - i
  {
    hide Build, WindowStep, WindowSucceeds, AnchorFrom;
    if i < |entries| {
      var end := if i + max > |entries| then |entries| else i + max;
      var cp := Build(h, tenant, entries[i..end], prev, env.clock(count));
      var next := WindowStep(a, cp, env.fault(count), notaries);
      AnchorFromNext(h, tenant, a, entries, i, end, prev, count, env, notaries, max, cp);
      StepOnlyAdds(a, cp, env.fault(count), notaries);
      if WindowSucceeds(env.fault(count), notaries) {
        hide OnlyAdds;
        AnchorFromOnlyAdds(h, tenant, next, entries, i + max, cp.checkpointID, count + 1, env, notaries, max);
        OnlyAddsTrans(a, next, AnchorFrom(h, tenant, next, entries, i + max, cp.checkpointID, count + 1, env, notaries,
                                          max).anchors);
      }
    } else {
      AnchorFromDone(h, tenant, a, entries, i, prev, count, env, notaries, max);
    }
  }

  // ---- What exactly a run writes ----

  /** Write-once storage and the working copy both hold the window of the fetched rows from `start` on, built on
      `prev` at the clock reading `at`. */
  ghost predicate Written(h: Hasher, tenant: Blob, log: seq<Entry>, max: nat, len: nat, base: nat, start: nat,
                          prev: Blob, at: int64, a: Anchors)
    requires max > 0 && base + len <= |log| < TWO_TO_THE_64 && start < len
  {
    var e := base + WindowEnd(len, start, max) - 1;
    && e in a.worm && e in a.copy
    && a.worm[e] == a.copy[e] == RoundWindow(h, tenant, log, max, prev, len, base, start, at)
  }

  /** No record ends among the rows that the run has fetched from `start` on. */
  ghost predicate Fresh(a: Anchors, from: nat, stop: nat) {
    forall e :: from <= e < stop ==> e !in a.worm && e !in a.copy
  }

  lemma StepWrites(h: Hasher, tenant: Blob, log: seq<Entry>, max: nat, len: nat, base: nat, start: nat, prev: Blob,
                   at: int64, a: Anchors, fault: WindowFault, notaries: seq<Notary>, cp: Checkpoint)
    requires Numbered(log) && max > 0 && base + len <= |log| < TWO_TO_THE_64 && start < len
    requires cp == RoundWindow(h, tenant, log, max, prev, len, base, start, at) && WindowSucceeds(fault, notaries)
    requires Fresh(a, base + start, base + len)
    ensures var a' := WindowStep(a, cp, fault, notaries);
            && Written(h, tenant, log, max, len, base, start, prev, at, a')
            && Fresh(a', base + (start + max), base + len)
  {
    hide RoundWindow, Numbered, PutStamps;
    RoundFields(h, tenant, log, max, prev, len, base, start, at);
  }

  lemma WrittenStays(h: Hasher, tenant: Blob, log: seq<Entry>, max: nat, len: nat, base: nat, start: nat, prev: Blob,
                     at: int64, a: Anchors, a': Anchors)
    requires max > 0 && base + len <= |log| < TWO_TO_THE_64 && start < len
    requires Written(h, tenant, log, max, len, base, start, prev, at, a) && OnlyAdds(a, a')
    ensures Written(h, tenant, log, max, len, base, start, prev, at, a')
  {
    hide RoundWindow;
  }

  /** Every window that a run counts is in both places: the `j`-th one is that of the `j`-th `max` rows, is stamped
      with the `j`-th clock reading, and is built on the id stored for the window before it. */
  lemma {:induction false} CountedIsWritten(h: Hasher, tenant: Blob, log: seq<Entry>, max: nat, prev: Blob, a: Anchors,
                                            notaries: seq<Notary>, len: nat, base: nat, i: nat, count: nat, env: Env,
                                            j: nat)
    returns (start: nat, prevID: Blob)
    requires Numbered(log) && max > 0 && base + len <= |log| < TWO_TO_THE_64 && Fresh(a, base + i, base + len)
    requires count <= j
          < AnchorFrom(h, tenant, a, log[base..base + len], i, prev, count, env, notaries, max).anchored
    ensures start == i + (j - count) * max && start < len
    ensures var a' := AnchorFrom(h, tenant, a, log[base..base + len], i, prev, count, env, notaries, max).anchors;
            && Written(h, tenant, log, max, len, base, start, prevID, env.clock(j), a')
            && if j == count then prevID == prev
               else base + start - 1 in a'.worm && prevID == a'.worm[base + start - 1].checkpointID
    decreases j - count
  {
    hide Build, Numbered, AnchorFrom, WindowStep, WindowSucceeds, RoundWindow, Written, OnlyAdds, Fresh, WindowEnd;
    var rows := log[base..base + len];
    if i >= len {
      AnchorFromDone(h, tenant, a, rows, i, prev, count, env, notaries, max);
      assert false;
    } else {
      var cp := RoundWindow(h, tenant, log, max, prev, len, base, i, env.clock(count));
      var next := WindowStep(a, cp, env.fault(count), notaries);
      RoundRuns(h, tenant, log, max, prev, a, notaries, len, base, i, count, env, cp);
      StepWrites(h, tenant, log, max, len, base, i, prev, env.clock(count), a, env.fault(count), notaries, cp);
      AnchorFromOnlyAdds(h, tenant, next, rows, i + max, cp.checkpointID, count + 1, env, notaries, max);
      var r := AnchorFrom(h, tenant, next, rows, i + max, cp.checkpointID, count + 1, env, notaries, max);
      WrittenStays(h, tenant, log, max, len, base, i, prev, env.clock(count), next, r.anchors);
      if j == count {
        start, prevID := i, prev;
      } else {
        start, prevID := CountedIsWritten(h, tenant, log, max, cp.checkpointID, next, notaries, len, base, i + max,
                                          count + 1, env, j);
        OneTurnMore(i, j - count, max);
        if j == count + 1 {
          WrittenRecord(h, tenant, log, max, len, base, i, prev, env.clock(count), r.anchors, cp);
        }
      }
    }
  }

  lemma OneTurnMore(i: nat, n: nat, max: nat)
    requires n > 0
    ensures i + max + (n - 1) * max == i + n * max
  {
  }

  lemma WrittenRecord(h: Hasher, tenant: Blob, log: seq<Entry>, max: nat, len: nat, base: nat, start: nat, prev: Blob,
                      at: int64, a: Anchors, cp: Checkpoint)
    requires max > 0 && base + len <= |log| < TWO_TO_THE_64 && start + max < len
    requires Written(h, tenant, log, max, len, base, start, prev, at, a)
    requires cp == RoundWindow(h, tenant, log, max, prev, len, base, start, at)
    ensures var e := base + (start + max) - 1; e in a.worm && a.worm[e] == cp
  {
    hide RoundWindow;
  }

  /** A notary that fails does not cost the proofs of those before it. */
  lemma ProofsBeforeFailure(a: Anchors, cp: Checkpoint, notaries: seq<Notary>, at: nat)
    requires Panel(notaries) && Proven(a, notaries) && at < |notaries|
    requires cp.seqEnd !in a.worm && cp.seqEnd !in a.copy && |cp.checkpointID| == 32
    ensures var a' := WindowStep(a, cp, NotaryFails(at), notaries);
            && !WindowSucceeds(NotaryFails(at), notaries)
            && a'.worm == a.worm[cp.seqEnd := cp] && a'.copy == a.copy[cp.seqEnd := cp]
            && ProofsAt(a'.proofs, cp.seqEnd) == Stamps(notaries, cp.checkpointID, at)
  {
    hide Panel, Proven, PutStamps, Stamps;
    ProvenWith(a, cp, notaries, at);
  }
}
