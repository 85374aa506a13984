/** Torn runs: a run may crash between the two checkpoint writes of one of its windows. Write-once storage then
    holds a checkpoint that the working copy does not know. The next run builds the window again, from a log
    that may have grown and with a new clock reading, takes an overwrite error for success, and goes on from
    the rebuilt id. */
module TornRuns {
  import opened Bytes
  import opened Hashing
  import opened Chain
  import opened ChainStore
  import opened Checkpoints
  import opened Witness
  import opened Verify
  import opened Tiling
  import opened Ingest
  import opened Anchor
  import opened AnchorInvariant
  import opened AnyRun

  // ---- The first window of a run ----

  /** Where the first window of a run over the rows from `start` on ends. */
  function FirstEnd(log: seq<Entry>, start: nat, max: nat): nat
    requires start <= |log|
  {
    start + WindowEnd(FetchEnd(log, start) - start, 0, max)
  }

  /** The window that a run builds first, at clock reading `at`. */
  function FirstWindow(h: Hasher, tenant: Blob, log: seq<Entry>, max: nat, cps: seq<Checkpoint>, at: int64): Checkpoint
    requires NextStart(cps, |cps|) < |log| < TWO_TO_THE_64 && max > 0
  {
    var start := NextStart(cps, |cps|);
    RoundWindow(h, tenant, log, max, PrevID(cps, |cps|), FetchEnd(log, start) - start, start, 0, at)
  }

  lemma FirstIsNext(h: Hasher, tenant: Blob, log: seq<Entry>, max: nat, cps: seq<Checkpoint>, at: int64)
    requires NextStart(cps, |cps|) < |log| < TWO_TO_THE_64 && max > 0 && Numbered(log)
    ensures var cp := FirstWindow(h, tenant, log, max, cps, at);
            && NextWindow(h, tenant, log, cps, cp) && cp.seqEnd + 1 == FirstEnd(log, NextStart(cps, |cps|), max)
            && NextStart(cps, |cps|) <= cp.seqEnd < |log| && cp.anchoredAt == at && |cp.checkpointID| == 32
  {
    hide RoundWindow, Numbered, NextStart, PrevID, NextWindow;
    var start := NextStart(cps, |cps|);
    RoundIsNextWindow(h, tenant, log, max, cps, FetchEnd(log, start) - start, start, 0, at,
                      FirstWindow(h, tenant, log, max, cps, at));
  }

  lemma NextWindowGrows(h: Hasher, tenant: Blob, log: seq<Entry>, log': seq<Entry>, cps: seq<Checkpoint>,
                        cp: Checkpoint)
    requires NextWindow(h, tenant, log, cps, cp) && log <= log' && |log'| < TWO_TO_THE_64
    ensures NextWindow(h, tenant, log', cps, cp)
  {
    hide Build, PrevID;
    assert log' == log + log'[|log|..];
    SliceOfPrefix(log, log'[|log|..], NextStart(cps, |cps|), cp.seqEnd + 1);
  }

  // ---- What a run leaves behind ----

  /** Storage is in order for `cps`, and `cp` is a checkpoint that may come next. */
  ghost predicate TornOn(h: Hasher, tenant: Blob, log: seq<Entry>, max: nat, cps: seq<Checkpoint>, a: Anchors,
                         cp: Checkpoint)
  {
    && Stored(h, tenant, log, max, cps, a) && NextWindow(h, tenant, log, cps, cp)
    && cp.seqEnd + 1 - NextStart(cps, |cps|) <= max && cp.seqEnd + 1 - NextStart(cps, |cps|) <= ROW_LIMIT
  }

  /** The checkpoint has reached write-once storage and nothing else. */
  function TornState(a: Anchors, cp: Checkpoint, notaries: seq<Notary>): Anchors {
    WindowStep(a, cp, CopyFails, notaries)
  }

  /** Either storage is in order, or it was when the window of `cp` was torn. */
  datatype Outcome = InOrder(cps: seq<Checkpoint>) | Torn(cps: seq<Checkpoint>, a: Anchors, cp: Checkpoint)

  ghost predicate Left(h: Hasher, tenant: Blob, log: seq<Entry>, max: nat, notaries: seq<Notary>, o: Outcome,
                       after: Anchors)
  {
    match o
    case InOrder(cps) => Stored(h, tenant, log, max, cps, after)
    case Torn(cps, a, cp) => TornOn(h, tenant, log, max, cps, a, cp) && after == TornState(a, cp, notaries)
  }

  /** Every held proof attests what is stored, or did before the window was torn. */
  ghost predicate LeftProven(notaries: seq<Notary>, o: Outcome, after: Anchors) {
    Proven(if o.Torn? then o.a else after, notaries)
  }

  /** The loop, with any faults, from any window on: it keeps storage in order or tears one window. */
  lemma {:induction false} AnchorFromLeaves(h: Hasher, tenant: Blob, log: seq<Entry>, max: nat, cps: seq<Checkpoint>,
                                            a: Anchors, notaries: seq<Notary>, len: nat, base: nat, i: nat,
                                            count: nat, env: Env)
    returns (o: Outcome)
    requires Stored(h, tenant, log, max, cps, a) && Numbered(log) && max > 0
    requires base + len <= |log| < TWO_TO_THE_64 && len <= ROW_LIMIT
    requires NextStart(cps, |cps|) == if i < len then base + i else base + len
    ensures var after := AnchorFrom(h, tenant, a, log[base..base + len], i, PrevID(cps, |cps|), count, env, notaries,
                                    max).anchors;
            && Left(h, tenant, log, max, notaries, o, after)
            && (Panel(notaries) && Proven(a, notaries) ==> LeftProven(notaries, o, after))
    ensures cps <= o.cps
    decreases len - i
  {
    hide Build, Stored, Numbered, Panel, Proven, WithWindow, NextStart, PrevID, AnchorFrom, WindowStep, Stamped,
         WindowSucceeds, RoundWindow, NextWindow;
    o := InOrder(cps);
    var rows := log[base..base + len];
    if i >= len {
      AnchorFromDone(h, tenant, a, rows, i, PrevID(cps, |cps|), count, env, notaries, max);
    } else {
      var prev, fault, at := PrevID(cps, |cps|), env.fault(count), env.clock(count);
      var cp := RoundWindow(h, tenant, log, max, prev, len, base, i, at);
      var next, more := WindowStep(a, cp, fault, notaries), cps + [cp];
      RoundRuns(h, tenant, log, max, prev, a, notaries, len, base, i, count, env, cp);
      RoundLeaves(h, tenant, log, max, cps, a, notaries, len, base, i, at, fault, cp);
      if WindowSucceeds(fault, notaries) {
        o := AnchorFromLeaves(h, tenant, log, max, more, next, notaries, len, base, i + max, count + 1, env);
      } else if fault.CopyFails? {
        o := Torn(cps, a, cp);
      } else if !fault.WormFails? {
        o := InOrder(more);
      }
    }
  }

  /** One round of it. */
  lemma RoundLeaves(h: Hasher, tenant: Blob, log: seq<Entry>, max: nat, cps: seq<Checkpoint>, a: Anchors,
                    notaries: seq<Notary>, len: nat, base: nat, i: nat, at: int64, fault: WindowFault, cp: Checkpoint)
    requires Stored(h, tenant, log, max, cps, a) && Numbered(log) && max > 0
    requires base + len <= |log| < TWO_TO_THE_64 && len <= ROW_LIMIT && i < len && NextStart(cps, |cps|) == base + i
    requires cp == RoundWindow(h, tenant, log, max, PrevID(cps, |cps|), len, base, i, at)
    ensures fault.WormFails? ==> WindowStep(a, cp, fault, notaries) == a && !WindowSucceeds(fault, notaries)
    ensures fault.CopyFails? ==> !WindowSucceeds(fault, notaries) && TornOn(h, tenant, log, max, cps, a, cp)
    ensures !fault.WormFails? && !fault.CopyFails? ==>
              var more, next := cps + [cp], WindowStep(a, cp, fault, notaries);
              && Stored(h, tenant, log, max, more, next)
              && NextStart(more, |more|) == (if i + max < len then base + (i + max) else base + len)
              && PrevID(more, |more|) == cp.checkpointID
              && (Panel(notaries) && Proven(a, notaries) ==> Proven(next, notaries))
  {
    hide Build, Stored, Numbered, Panel, Proven, WithWindow, NextStart, PrevID, RoundWindow, NextWindow;
    RoundIsNextWindow(h, tenant, log, max, cps, len, base, i, at, cp);
    if !fault.WormFails? && !fault.CopyFails? {
      RoundKeeps(h, tenant, log, max, cps, a, notaries, len, base, i, at, fault, cp);
      if Panel(notaries) && Proven(a, notaries) { ProvenWith(a, cp, notaries, Stamped(fault, notaries)); }
    }
  }

  /** Whatever fails in a run that finds storage in order, and in whichever window: it leaves storage in order
      or exactly one torn window on top. */
  lemma RunLeaves(h: Hasher, tenant: Blob, log: seq<Entry>, max: nat, cps: seq<Checkpoint>, a: Anchors,
                  notaries: seq<Notary>, env: Env)
    returns (o: Outcome)
    requires Stored(h, tenant, log, max, cps, a) && Numbered(log) && max > 0
    ensures |log| < TWO_TO_THE_64
    ensures var after := AnchorRun(h, tenant, a, log, env, notaries, max).anchors;
            && Left(h, tenant, log, max, notaries, o, after)
            && (Panel(notaries) && Proven(a, notaries) ==> LeftProven(notaries, o, after))
    ensures cps <= o.cps
  {
    hide Left, LeftProven, Tiles, IsListing, Keyed, AnchorFrom, LastOf, EntriesAsc, Numbered, Panel, Proven;
    CopyStart(h, tenant, log, max, cps, a.copy);
    var start := NextStart(cps, |cps|);
    var stop := FetchEnd(log, start);
    if env.readFails {
      o := InOrder(cps);
      NothingRun(h, tenant, log, max, cps, a, notaries);
    } else {
      RunResumes(h, tenant, log, max, cps, a, notaries, env);
      assert start + (stop - start) == stop;
      o := AnchorFromLeaves(h, tenant, log, max, cps, a, notaries, stop - start, start, 0, 0, env);
    }
  }

  lemma NothingRun(h: Hasher, tenant: Blob, log: seq<Entry>, max: nat, cps: seq<Checkpoint>, a: Anchors,
                   notaries: seq<Notary>)
    requires Stored(h, tenant, log, max, cps, a)
    ensures Left(h, tenant, log, max, notaries, InOrder(cps), a)
    ensures Proven(a, notaries) ==> LeftProven(notaries, InOrder(cps), a)
  {
    hide Stored, Proven;
  }

  // ---- The next run ----

  /** What the rest of the second run makes of the anchors `a`, once its first window `again` is done. */
  function RestOfRun(h: Hasher, tenant: Blob, log: seq<Entry>, max: nat, cps: seq<Checkpoint>, a: Anchors,
                     again: Checkpoint, notaries: seq<Notary>, env: Env): RunResult
    requires NextStart(cps, |cps|) <= |log| < TWO_TO_THE_64 && max > 0
  {
    var start := NextStart(cps, |cps|);
    AnchorFrom(h, tenant, a, log[start..FetchEnd(log, start)], max, again.checkpointID, 1, env, notaries, max)
  }

  /** A window `cp` was torn on top of `a`, from `log`; then one more run, over `log'`. */
  datatype History = History(tenant: Blob, log: seq<Entry>, log': seq<Entry>, max: nat, cps: seq<Checkpoint>,
                             a: Anchors, cp: Checkpoint, notaries: seq<Notary>, env: Env)
  {
    function Start(): nat {
      NextStart(cps, |cps|)
    }

    /** The log is honest and only grows. Anything may fail in the second run, torn writes included. */
    ghost predicate Happened(h: Hasher) {
      && Linked(h, tenant, log') && log <= log' && |log'| < TWO_TO_THE_64 && max > 0
      && Panel(notaries) && Proven(a, notaries) && TornOn(h, tenant, log, max, cps, a, cp) && Sized()
    }

    ghost predicate Sized() {
      Start() < |log'| < TWO_TO_THE_64 && max > 0
    }

    function Before(): Anchors {
      TornState(a, cp, notaries)
    }

    /** The checkpoint that the run builds for the window. */
    function Again(h: Hasher): Checkpoint
      requires Sized()
    {
      FirstWindow(h, tenant, log', max, cps, env.clock(0))
    }

    /** Whether there are rows for another window, and the checkpoint built for it on the rebuilt id. */
    predicate More()
      requires Sized()
    {
      FirstEnd(log', Start(), max) < FetchEnd(log', Start())
    }

    function Second(h: Hasher): Checkpoint
      requires Sized()
    {
      if More() then SecondWindow(h, tenant, log', max, cps, Again(h).checkpointID, env.clock(1)) else Again(h)
    }

    /** The anchors after the window, and after the run. */
    function Retried(h: Hasher): Anchors
      requires Sized()
    {
      WindowStep(Before(), Again(h), env.fault(0), notaries)
    }

    ghost function After(h: Hasher): Anchors
      requires Sized()
    {
      AnchorRun(h, tenant, Before(), log', env, notaries, max).anchors
    }

    // -- What decides the report --

    /** The window reaches write-once storage a second time. */
    predicate Writes() {
      !env.readFails && !env.fault(0).WormFails?
    }

    predicate SameEnd()
      requires Sized()
    {
      cp.seqEnd + 1 == FirstEnd(log', Start(), max)
    }

    predicate SameWindow()
      requires Sized()
    {
      SameEnd() && cp.anchoredAt == env.clock(0)
    }

    /** A proof of the rebuilt id is stored, or a window built on it. */
    predicate Shows()
      requires Sized()
    {
      || (!env.fault(0).CopyFails? && Stamped(env.fault(0), notaries) > 0)
      || (WindowSucceeds(env.fault(0), notaries) && More() && !env.fault(1).WormFails?)
    }
  }

  /** The window that a run builds second, on the id of the first. */
  function SecondWindow(h: Hasher, tenant: Blob, log: seq<Entry>, max: nat, cps: seq<Checkpoint>, prev: Blob, at: int64)
    : Checkpoint
    requires NextStart(cps, |cps|) < |log| < TWO_TO_THE_64 && max > 0
    requires FirstEnd(log, NextStart(cps, |cps|), max) < FetchEnd(log, NextStart(cps, |cps|))
  {
    var start := NextStart(cps, |cps|);
    RoundWindow(h, tenant, log, max, prev, FetchEnd(log, start) - start, start, max, at)
  }

  /** A run over new rows starts with its first window, on top of the working copy's last checkpoint. */
  lemma RunStarts(h: Hasher, tenant: Blob, log: seq<Entry>, max: nat, cps: seq<Checkpoint>, a: Anchors,
                  notaries: seq<Notary>, env: Env, cp: Checkpoint, next: Anchors)
    requires Tiles(h, tenant, log, max, cps) && IsListing(a.copy, cps) && Keyed(a.copy) && Numbered(log) && max > 0
    requires NextStart(cps, |cps|) < |log| < TWO_TO_THE_64 && !env.readFails
    requires cp == FirstWindow(h, tenant, log, max, cps, env.clock(0))
    requires next == WindowStep(a, cp, env.fault(0), notaries)
    ensures AnchorRun(h, tenant, a, log, env, notaries, max)
         == if !WindowSucceeds(env.fault(0), notaries) then RunResult(next, 0, false)
            else RestOfRun(h, tenant, log, max, cps, next, cp, notaries, env)
  {
    var start := NextStart(cps, |cps|);
    var stop := FetchEnd(log, start);
    assert start < stop;
    hide Tiles, IsListing, Keyed, Numbered, FirstWindow, AnchorRun, AnchorFrom, WindowStep, WindowSucceeds, NextStart,
         PrevID, FetchEnd, RestOfRun;
    RunResumes(h, tenant, log, max, cps, a, notaries, env);
    FirstRound(h, tenant, log, max, cps, a, notaries, env, start, stop, cp, next);
  }

  lemma FirstRound(h: Hasher, tenant: Blob, log: seq<Entry>, max: nat, cps: seq<Checkpoint>, a: Anchors,
                   notaries: seq<Notary>, env: Env, start: nat, stop: nat, cp: Checkpoint, next: Anchors)
    requires max > 0 && NextStart(cps, |cps|) == start < |log| < TWO_TO_THE_64 && start < stop == FetchEnd(log, start)
    requires cp == FirstWindow(h, tenant, log, max, cps, env.clock(0))
    requires next == WindowStep(a, cp, env.fault(0), notaries)
    ensures AnchorFrom(h, tenant, a, log[start..stop], 0, PrevID(cps, |cps|), 0, env, notaries, max)
         == if !WindowSucceeds(env.fault(0), notaries) then RunResult(next, 0, false)
            else RestOfRun(h, tenant, log, max, cps, next, cp, notaries, env)
  {
    hide RoundWindow, AnchorFrom, WindowStep, WindowSucceeds, NextStart, PrevID, FetchEnd;
    RoundRuns(h, tenant, log, max, PrevID(cps, |cps|), a, notaries, stop - start, start, 0, 0, env, cp);
  }

  /** A run whose first working-copy write fails stops there, with the checkpoint in write-once storage. */
  lemma CrashedRun(h: Hasher, tenant: Blob, log: seq<Entry>, max: nat, cps: seq<Checkpoint>, a: Anchors,
                   notaries: seq<Notary>, env: Env, cp: Checkpoint)
    requires Stored(h, tenant, log, max, cps, a) && Numbered(log) && max > 0
    requires NextStart(cps, |cps|) < |log| < TWO_TO_THE_64 && !env.readFails && env.fault(0).CopyFails?
    requires cp == FirstWindow(h, tenant, log, max, cps, env.clock(0))
    ensures AnchorRun(h, tenant, a, log, env, notaries, max)
         == RunResult(WindowStep(a, cp, CopyFails, notaries), 0, false)
  {
    hide Tiles, IsListing, Keyed, Numbered, AnchorRun, WindowStep, NextStart, FirstWindow, RestOfRun;
    RunStarts(h, tenant, log, max, cps, a, notaries, env, cp, WindowStep(a, cp, env.fault(0), notaries));
  }

  // ---- What the rest of a run can change ----

  /** `a'` keeps the records of `a` and the proofs below `from`; whatever is new ends at `from` or later. */
  ghost predicate LaterOnly(a: Anchors, a': Anchors, from: nat) {
    && (Keyed(a.worm) ==> Keyed(a'.worm))
    && (forall e :: e in a.worm ==> e in a'.worm && a'.worm[e] == a.worm[e])
    && (forall e :: e in a'.worm && e !in a.worm ==> e >= from && Countable(a'.worm[e]))
    && (forall e: uint64 :: e < from ==> ProofsAt(a'.proofs, e) == ProofsAt(a.proofs, e))
  }

  lemma LaterOnlyTrans(a: Anchors, b: Anchors, c: Anchors, from: nat, from': nat)
    requires from <= from' && LaterOnly(a, b, from) && LaterOnly(b, c, from')
    ensures LaterOnly(a, c, from)
  {
    hide Countable;
  }

  lemma LaterOnlyStep(a: Anchors, cp: Checkpoint, fault: WindowFault, notaries: seq<Notary>, from: nat)
    requires from <= cp.seqEnd && Countable(cp)
    ensures LaterOnly(a, WindowStep(a, cp, fault, notaries), from)
  {
    hide Countable, PutStamps;
    forall e: uint64 | e < from
      ensures ProofsAt(WindowStep(a, cp, fault, notaries).proofs, e) == ProofsAt(a.proofs, e)
    {
      if !fault.WormFails? && !fault.CopyFails? {
        StampsElsewhere(a.proofs, cp.seqEnd, cp.checkpointID, notaries, Stamped(fault, notaries), e);
      }
    }
  }

  lemma LaterOnlyRefl(a: Anchors, from: nat)
    ensures LaterOnly(a, a, from)
  {
  }

  lemma CountableIs(cp: Checkpoint)
    ensures Countable(cp) <==> cp.seqStart <= cp.seqEnd < TWO_TO_THE_64 - 1
  {
  }

  /** Whatever state it starts from, a run only adds what lies beyond the window it is at. */
  lemma {:induction false} AnchorFromAdds(h: Hasher, tenant: Blob, log: seq<Entry>, max: nat, prev: Blob, a: Anchors,
                                          notaries: seq<Notary>, len: nat, base: nat, i: nat, count: nat, env: Env)
    requires Numbered(log) && max > 0 && base + len <= |log| < TWO_TO_THE_64
    ensures LaterOnly(a, AnchorFrom(h, tenant, a, log[base..base + len], i, prev, count, env, notaries, max).anchors,
                      base + i)
    decreases len - i
  {
    hide Build, Numbered, AnchorFrom, WindowStep, Stamped, WindowSucceeds, RoundWindow, LaterOnly, Countable;
    var rows := log[base..base + len];
    if i >= len {
      AnchorFromDone(h, tenant, a, rows, i, prev, count, env, notaries, max);
      LaterOnlyRefl(a, base + i);
    } else {
      var cp := RoundWindow(h, tenant, log, max, prev, len, base, i, env.clock(count));
      var next := WindowStep(a, cp, env.fault(count), notaries);
      RoundRuns(h, tenant, log, max, prev, a, notaries, len, base, i, count, env, cp);
      RoundFields(h, tenant, log, max, prev, len, base, i, env.clock(count));
      assert Countable(cp) by { CountableIs(cp); }
      LaterOnlyStep(a, cp, env.fault(count), notaries, base + i);
      if WindowSucceeds(env.fault(count), notaries) {
        AnchorFromAdds(h, tenant, log, max, cp.checkpointID, next, notaries, len, base, i + max, count + 1, env);
        var r := AnchorFrom(h, tenant, next, rows, i + max, cp.checkpointID, count + 1, env, notaries, max);
        LaterOnlyTrans(a, next, r.anchors, base + i, base + (i + max));
      }
    }
  }

  /** Records that end after all others are listed after all others. */
  lemma {:induction false} ListingPrefix(m: Records, l: seq<Checkpoint>, m': Records, l': seq<Checkpoint>)
    requires IsListing(m, l) && Keyed(m) && IsListing(m', l') && Keyed(m')
    requires forall e :: e in m ==> e in m' && m'[e] == m[e]
    requires forall e, c :: e in m' && e !in m && c in l ==> c.seqEnd < e
    ensures l <= l'
    decreases |l'|
  {
    assert l != [] ==> l[0] in l && l[0] in l';
    if l' != [] {
      var init, last := l'[..|l'| - 1], l'[|l'| - 1];
      assert last in l';
      if last.seqEnd in m {
        assert m[last.seqEnd] == last && last in l;
        forall e | e in m' ensures e in m { assert m'[e] in l' && m'[e].seqEnd == e <= last.seqEnd; }
        assert m == m';
        ListingIsUnique(m, l, l');
      } else {
        ListingInit(m', l');
        ListingPrefix(m, l, m' - {last.seqEnd}, init);
      }
    }
  }

  // ---- Both runs together ----

  /** Any run over an honest log leaves the anchoring invariant or, whichever its torn window, the start of such
      a history. */
  lemma EveryRunLeaves(h: Hasher, tenant: Blob, log: seq<Entry>, log': seq<Entry>, max: nat, cps: seq<Checkpoint>,
                       a: Anchors, notaries: seq<Notary>, env: Env, env': Env)
    returns (o: Outcome)
    requires Linked(h, tenant, log') && log <= log' && |log'| < TWO_TO_THE_64 && max > 0
    requires Panel(notaries) && Anchored(h, tenant, log, max, cps, a, notaries)
    ensures |log| < TWO_TO_THE_64
    ensures var after := AnchorRun(h, tenant, a, log, env, notaries, max).anchors;
            match o
            case InOrder(cps') => Anchored(h, tenant, log, max, cps', after, notaries)
            case Torn(cps', a', cp) =>
              var w := History(tenant, log, log', max, cps', a', cp, notaries, env');
              w.Happened(h) && w.Before() == after
  {
    hide Linked, Numbered, StrictBySeq, Panel, Proven, AnchorRun;
    LinkedIsNumbered(h, tenant, log');
    NumberedPrefix(log, log');
    o := RunLeaves(h, tenant, log, max, cps, a, notaries, env);
  }

  lemma NumberedPrefix(log: seq<Entry>, log': seq<Entry>)
    requires Numbered(log') && log <= log'
    ensures Numbered(log)
  {
    assert forall i :: 0 <= i < |log| ==> log[i] == log'[i];
  }

  /** A torn window ends within what the next run fetches for its first window. */
  lemma TornEndsWithin(log: seq<Entry>, start: nat, max: nat, end: nat)
    requires start <= end < |log| && end + 1 - start <= max && end + 1 - start <= ROW_LIMIT
    ensures end + 1 <= FirstEnd(log, start, max)
  {
  }

  /** The torn checkpoint and the rebuilt one: both come next, and the window does not shrink. */
  lemma BothWindows(h: Hasher, w: History)
    requires w.Happened(h)
    ensures w.Sized() && Numbered(w.log') && Stored(h, w.tenant, w.log', w.max, w.cps, w.a)
    ensures TornOn(h, w.tenant, w.log', w.max, w.cps, w.a, w.cp)
    ensures NextWindow(h, w.tenant, w.log', w.cps, w.cp) && NextWindow(h, w.tenant, w.log', w.cps, w.Again(h))
    ensures w.Again(h).seqEnd + 1 == FirstEnd(w.log', w.Start(), w.max) && w.Again(h).anchoredAt == w.env.clock(0)
    ensures w.Start() <= w.cp.seqEnd <= w.Again(h).seqEnd < |w.log'|
    ensures |w.Again(h).checkpointID| == 32
  {
    assert w.Start() <= w.cp.seqEnd < |w.log'|;
    hide Linked, Numbered, StrictBySeq, Tiles, IsListing, Keyed, Proven, Panel, NextWindow, FirstWindow, FirstEnd,
         NextStart, Stored;
    LinkedIsNumbered(h, w.tenant, w.log');
    StoredGrows(h, w.tenant, w.log, w.log', w.max, w.cps, w.a);
    FirstIsNext(h, w.tenant, w.log', w.max, w.cps, w.env.clock(0));
    NextWindowGrows(h, w.tenant, w.log, w.log', w.cps, w.cp);
    TornEndsWithin(w.log', w.Start(), w.max, w.cp.seqEnd);
  }

  /** The second run knows nothing of the first one's end: it resumes from the working copy. */
  lemma SecondRun(h: Hasher, w: History)
    requires w.Sized() && Numbered(w.log') && Stored(h, w.tenant, w.log', w.max, w.cps, w.a)
    ensures w.env.readFails ==> w.After(h) == w.Before()
    ensures !w.env.readFails ==>
              w.After(h) == if !WindowSucceeds(w.env.fault(0), w.notaries) then w.Retried(h)
                            else RestOfRun(h, w.tenant, w.log', w.max, w.cps, w.Retried(h), w.Again(h), w.notaries,
                                           w.env).anchors
  {
    if !w.env.readFails {
      assert w.Before().copy == w.a.copy;
      hide Tiles, IsListing, Keyed, Numbered, AnchorRun, WindowStep, WindowSucceeds, NextStart, FirstWindow, RestOfRun;
      RunStarts(h, w.tenant, w.log', w.max, w.cps, w.Before(), w.notaries, w.env, w.Again(h), w.Retried(h));
    }
  }

  /** From the retried window on, the second run only adds what lies beyond. */
  lemma SecondRunAdds(h: Hasher, w: History)
    requires w.Sized() && Numbered(w.log') && Stored(h, w.tenant, w.log', w.max, w.cps, w.a) && !w.env.readFails
    requires w.Again(h).seqEnd + 1 == FirstEnd(w.log', w.Start(), w.max)
    ensures LaterOnly(w.Retried(h), w.After(h), w.Again(h).seqEnd + 1)
  {
    hide Numbered, FirstWindow, AnchorRun, RestOfRun, WindowSucceeds, NextStart, Stored, LaterOnly, FirstEnd,
         History.After, History.Retried;
    SecondRun(h, w);
    if WindowSucceeds(w.env.fault(0), w.notaries) {
      RestAdds(h, w.tenant, w.log', w.max, w.cps, w.Retried(h), w.Again(h), w.notaries, w.env);
      FirstEndWithin(w.log', w.Start(), w.max);
      LaterOnlyWeakens(w.Retried(h), w.After(h), w.Start() + w.max, w.Again(h).seqEnd + 1);
    } else {
      LaterOnlyRefl(w.Retried(h), w.Again(h).seqEnd + 1);
    }
  }

  /** Without further rows the rest of the run is nothing. */
  lemma RestEnds(h: Hasher, tenant: Blob, log: seq<Entry>, max: nat, cps: seq<Checkpoint>, a: Anchors,
                 again: Checkpoint, notaries: seq<Notary>, env: Env)
    requires NextStart(cps, |cps|) < |log| < TWO_TO_THE_64 && max > 0
    requires FirstEnd(log, NextStart(cps, |cps|), max) == FetchEnd(log, NextStart(cps, |cps|))
    ensures RestOfRun(h, tenant, log, max, cps, a, again, notaries, env).anchors == a
  {
    var start := NextStart(cps, |cps|);
    var rows := log[start..FetchEnd(log, start)];
    hide AnchorFrom;
    AnchorFromDone(h, tenant, a, rows, max, again.checkpointID, 1, env, notaries, max);
  }

  /** Otherwise it starts with the second window. */
  lemma RestGoesOn(h: Hasher, tenant: Blob, log: seq<Entry>, max: nat, cps: seq<Checkpoint>, a: Anchors,
                   again: Checkpoint, notaries: seq<Notary>, env: Env, start: nat, stop: nat, second: Checkpoint,
                   next: Anchors, after: Anchors)
    requires NextStart(cps, |cps|) == start < |log| < TWO_TO_THE_64 && max > 0 && Numbered(log)
    requires start + max < stop && stop == FetchEnd(log, start)
    requires second == RoundWindow(h, tenant, log, max, again.checkpointID, stop - start, start, max, env.clock(1))
    requires next == WindowStep(a, second, env.fault(1), notaries)
    requires after == RestOfRun(h, tenant, log, max, cps, a, again, notaries, env).anchors
    ensures start + max == second.seqStart <= second.seqEnd < |log| && |second.checkpointID| == 32
    ensures BuiltFrom(h, tenant, log, second) && second.prevCheckpointHash == again.checkpointID
    ensures LaterOnly(next, after, second.seqEnd + 1)
    ensures env.fault(1).WormFails? ==> after == a
  {
    hide RoundWindow, Numbered, AnchorFrom, WindowStep, LaterOnly, NextStart, FetchEnd, BuiltFrom;
    SecondRound(h, tenant, log, max, a, again.checkpointID, notaries, stop - start, start, env, second, next, after);
  }

  lemma SecondRound(h: Hasher, tenant: Blob, log: seq<Entry>, max: nat, a: Anchors, prev: Blob,
                    notaries: seq<Notary>, len: nat, base: nat, env: Env, second: Checkpoint, next: Anchors,
                    after: Anchors)
    requires base + len <= |log| < TWO_TO_THE_64 && 0 < max < len && Numbered(log)
    requires second == RoundWindow(h, tenant, log, max, prev, len, base, max, env.clock(1))
    requires next == WindowStep(a, second, env.fault(1), notaries)
    requires after == AnchorFrom(h, tenant, a, log[base..base + len], max, prev, 1, env, notaries, max).anchors
    ensures base + max == second.seqStart <= second.seqEnd < |log| && |second.checkpointID| == 32
    ensures BuiltFrom(h, tenant, log, second) && second.prevCheckpointHash == prev
    ensures LaterOnly(next, after, second.seqEnd + 1)
    ensures env.fault(1).WormFails? ==> after == a
  {
    hide RoundWindow, Numbered, AnchorFrom, WindowStep, LaterOnly, BuiltFrom;
    RoundIsBuilt(h, tenant, log, max, prev, len, base, max, env.clock(1), second);
    RestFromSecond(h, tenant, log, max, a, prev, notaries, len, base, env, second, next, after);
    if env.fault(1).WormFails? {
      SecondFails(h, tenant, log, max, a, prev, notaries, len, base, env, second, after);
    }
  }

  lemma RestFromSecond(h: Hasher, tenant: Blob, log: seq<Entry>, max: nat, a: Anchors, prev: Blob,
                       notaries: seq<Notary>, len: nat, base: nat, env: Env, second: Checkpoint, next: Anchors,
                       after: Anchors)
    requires base + len <= |log| < TWO_TO_THE_64 && 0 < max < len && Numbered(log)
    requires second == RoundWindow(h, tenant, log, max, prev, len, base, max, env.clock(1))
    requires next == WindowStep(a, second, env.fault(1), notaries)
    requires after == AnchorFrom(h, tenant, a, log[base..base + len], max, prev, 1, env, notaries, max).anchors
    ensures LaterOnly(next, after, second.seqEnd + 1)
  {
    hide RoundWindow, Numbered, AnchorFrom, WindowStep, WindowSucceeds, LaterOnly;
    RoundRuns(h, tenant, log, max, prev, a, notaries, len, base, max, 1, env, second);
    RoundFields(h, tenant, log, max, prev, len, base, max, env.clock(1));
    if WindowSucceeds(env.fault(1), notaries) {
      AnchorFromAdds(h, tenant, log, max, second.checkpointID, next, notaries, len, base, max + max, 2, env);
      LaterOnlyWeakens(next, after, base + (max + max), second.seqEnd + 1);
    } else {
      LaterOnlyRefl(next, second.seqEnd + 1);
    }
  }

  lemma SecondFails(h: Hasher, tenant: Blob, log: seq<Entry>, max: nat, a: Anchors, prev: Blob,
                    notaries: seq<Notary>, len: nat, base: nat, env: Env, second: Checkpoint, after: Anchors)
    requires base + len <= |log| < TWO_TO_THE_64 && 0 < max < len && env.fault(1).WormFails?
    requires second == RoundWindow(h, tenant, log, max, prev, len, base, max, env.clock(1))
    requires after == AnchorFrom(h, tenant, a, log[base..base + len], max, prev, 1, env, notaries, max).anchors
    ensures after == a
  {
    hide RoundWindow, AnchorFrom;
    RoundRuns(h, tenant, log, max, prev, a, notaries, len, base, max, 1, env, second);
  }

  lemma RestAdds(h: Hasher, tenant: Blob, log: seq<Entry>, max: nat, cps: seq<Checkpoint>, a: Anchors,
                 again: Checkpoint, notaries: seq<Notary>, env: Env)
    requires NextStart(cps, |cps|) <= |log| < TWO_TO_THE_64 && max > 0 && Numbered(log)
    ensures LaterOnly(a, RestOfRun(h, tenant, log, max, cps, a, again, notaries, env).anchors,
                      NextStart(cps, |cps|) + max)
  {
    hide AnchorFrom, Numbered, NextStart, FetchEnd, LaterOnly;
    var start := NextStart(cps, |cps|);
    var len := FetchEnd(log, start) - start;
    assert start + len == FetchEnd(log, start);
    AnchorFromAdds(h, tenant, log, max, again.checkpointID, a, notaries, len, start, max, 1, env);
  }

  lemma FirstEndWithin(log: seq<Entry>, start: nat, max: nat)
    requires start <= |log|
    ensures FirstEnd(log, start, max) <= start + max
  {
  }

  lemma LaterOnlyWeakens(a: Anchors, b: Anchors, from: nat, from': nat)
    requires from' <= from && LaterOnly(a, b, from)
    ensures LaterOnly(a, b, from')
  {
  }
}
