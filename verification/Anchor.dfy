/** The anchorer: turns newly sealed rows into linked checkpoints held by the independent witnesses. */
module Anchor {
  import opened Bytes
  import opened Hashing
  import opened Chain
  import opened ChainStore
  import opened Checkpoints
  import opened Witness
  import opened Ingest

  const ROW_LIMIT: nat := 100000
  const DEFAULT_WINDOW: nat := 1000

  // ---- What one run does to one tenant's anchors ----

  /** Everything anchored for a tenant: the write-once records, the working copy, and the proofs held,
      the last two as insert-if-absent tables. */
  datatype Anchors = Anchors(worm: Records, copy: Records, proofs: map<uint64, seq<Proof>>)

  const NO_ANCHORS: Anchors := Anchors(map[], map[], map[])

  /** How the outside world treats one window: which call fails, if any. */
  datatype WindowFault = NoFault | WormFails | CopyFails | NotaryFails(at: nat)

  /** How it treats one run: whether the initial reads fail, the clock, and the fate of each window. */
  datatype Env = Env(readFails: bool, clock: nat -> int64, fault: nat -> WindowFault)

  function InsertIfAbsent(m: Records, cp: Checkpoint): Records {
    if cp.seqEnd in m then m else m[cp.seqEnd := cp]
  }

  function ProofsAt(proofs: map<uint64, seq<Proof>>, e: uint64): seq<Proof> {
    if e in proofs then proofs[e] else []
  }

  predicate HasNotary(ps: seq<Proof>, name: Blob) {
    exists i :: 0 <= i < |ps| && ps[i].notary == name
  }

  function AddProof(proofs: map<uint64, seq<Proof>>, e: uint64, p: Proof): map<uint64, seq<Proof>> {
    var ps := ProofsAt(proofs, e);
    if HasNotary(ps, p.notary) then proofs else proofs[e := ps + [p]]
  }

  /** Stamps of the first `n` notaries. */
  function PutStamps(proofs: map<uint64, seq<Proof>>, e: uint64, id: bytes, notaries: seq<Notary>, n: nat)
    : map<uint64, seq<Proof>>
    requires n <= |notaries|
  {
    if n == 0 then proofs
    else AddProof(PutStamps(proofs, e, id, notaries, n - 1), e, notaries[n - 1].stamp(id))
  }

  /** How many notaries stamp before one fails. */
  function Stamped(fault: WindowFault, notaries: seq<Notary>): nat {
    if fault.NotaryFails? && fault.at < |notaries| then fault.at else |notaries|
  }

  predicate WindowSucceeds(fault: WindowFault, notaries: seq<Notary>) {
    !fault.WormFails? && !fault.CopyFails? && Stamped(fault, notaries) == |notaries|
  }

  function WindowStep(a: Anchors, cp: Checkpoint, fault: WindowFault, notaries: seq<Notary>): Anchors {
    if fault.WormFails? then a
    else
      var a1 := a.(worm := InsertIfAbsent(a.worm, cp));
      if fault.CopyFails? then a1
      else
        a1.(copy := InsertIfAbsent(a.copy, cp),
            proofs := PutStamps(a.proofs, cp.seqEnd, cp.checkpointID, notaries, Stamped(fault, notaries)))
  }

  datatype RunResult = RunResult(anchors: Anchors, anchored: nat, ok: bool)

  /** Checkpoints counted over several runs. */
  ghost function AnchoredIn(runs: seq<RunResult>): nat {
    if runs == [] then 0 else AnchoredIn(runs[..|runs| - 1]) + runs[|runs| - 1].anchored
  }

  /** The window loop from entry `i` on, with `count` windows already anchored. */
  function AnchorFrom(h: Hasher, tenant: Blob, a: Anchors, entries: seq<Entry>, i: nat, prevID: Blob, count: nat,
                      env: Env, notaries: seq<Notary>, max: nat): RunResult
    requires max > 0 && |entries| < TWO_TO_THE_64
    decreases |entries| - i
  {
    if i >= |entries| then RunResult(a, count, true)
    else
      var end := if i + max > |entries| then |entries| else i + max;
      var cp := Build(h, tenant, entries[i..end], prevID, env.clock(count));
      var a1 := WindowStep(a, cp, env.fault(count), notaries);
      if !WindowSucceeds(env.fault(count), notaries) then RunResult(a1, count, false)
      else AnchorFrom(h, tenant, a1, entries, i + max, cp.checkpointID, count + 1, env, notaries, max)
  }

  /** One turn of the window loop. */
  lemma AnchorFromNext(h: Hasher, tenant: Blob, a: Anchors, entries: seq<Entry>, i: nat, end: nat, prevID: Blob,
                       count: nat, env: Env, notaries: seq<Notary>, max: nat, cp: Checkpoint)
    requires max > 0 && i < |entries| < TWO_TO_THE_64 && end == if i + max > |entries| then |entries| else i + max
    requires cp == Build(h, tenant, entries[i..end], prevID, env.clock(count))
    ensures AnchorFrom(h, tenant, a, entries, i, prevID, count, env, notaries, max)
         == if !WindowSucceeds(env.fault(count), notaries)
            then RunResult(WindowStep(a, cp, env.fault(count), notaries), count, false)
            else AnchorFrom(h, tenant, WindowStep(a, cp, env.fault(count), notaries), entries, i + max,
                            cp.checkpointID, count + 1, env, notaries, max)
  {
  }

  lemma AnchorFromDone(h: Hasher, tenant: Blob, a: Anchors, entries: seq<Entry>, i: nat, prevID: Blob, count: nat,
                       env: Env, notaries: seq<Notary>, max: nat)
    requires max > 0 && |entries| <= i && |entries| < TWO_TO_THE_64
    ensures AnchorFrom(h, tenant, a, entries, i, prevID, count, env, notaries, max) == RunResult(a, count, true)
  {
  }

  predicate IsMax(s: set<uint64>, k: uint64) {
    k in s && forall x :: x in s ==> x <= k
  }

  lemma {:induction false} HasMax(s: set<uint64>)
    requires s != {}
    ensures exists k :: IsMax(s, k)
  {
    var x :| x in s;
    if s == {x} {
      assert IsMax(s, x);
    } else {
      HasMax(s - {x});
      var k :| IsMax(s - {x}, k);
      assert forall y :: y in s ==> y == x || y in s - {x};
      assert IsMax(s, if k < x then x else k);
    }
  }

  ghost function MaxKey(s: set<uint64>): (k: uint64)
    requires s != {}
    ensures IsMax(s, k)
  {
    HasMax(s);
    var k :| IsMax(s, k);
    k
  }

  /** The record with the highest last sequence number. */
  ghost function LastOf(m: Records): (r: Option<Checkpoint>) {
    if m.Keys == {} then None else Some(m[MaxKey(m.Keys)])
  }

  ghost function AnchorRun(h: Hasher, tenant: Blob, a: Anchors, rows: seq<Entry>, env: Env, notaries: seq<Notary>,
                           max: nat)
    : RunResult
    requires max > 0 && |rows| < TWO_TO_THE_64
  {
    if env.readFails then RunResult(a, 0, false)
    else
      var last := LastOf(a.copy);
      var start := if last.Some? then last.value.seqEnd + 1 else 0;
      AnchorFrom(h, tenant, a, EntriesAsc(rows, start, ROW_LIMIT), 0,
                 if last.Some? then last.value.checkpointID else [], 0, env, notaries, max)
  }

  // ---- The working copy ----

  class AnchorStore {
    var checkpoints: map<Blob, Records>
    var proofs: map<Blob, map<uint64, seq<Proof>>>

    constructor ()
      ensures checkpoints == map[] && proofs == map[]
    {
      checkpoints, proofs := map[], map[];
    }

    ghost function Copy(t: Blob): Records reads this`checkpoints {
      if t in checkpoints then checkpoints[t] else map[]
    }

    ghost function Proofs(t: Blob): map<uint64, seq<Proof>> reads this`proofs {
      if t in proofs then proofs[t] else map[]
    }

    /** The record with the highest last sequence number. */
    method LastCheckpoint(tenantID: Blob) returns (r: Option<Checkpoint>)
      ensures r == LastOf(Copy(tenantID))
    {
      var m := if tenantID in checkpoints then checkpoints[tenantID] else map[];
      var todo := m.Keys;
      var found, best := false, 0;
      while todo != {}
        invariant todo <= m.Keys && (found <==> todo != m.Keys)
        invariant found ==> best in m && best !in todo && forall k :: k in m && k !in todo ==> k <= best
        decreases |todo|
      {
        var k :| k in todo;
        todo := todo - {k};
        if !found || k > best {
          found, best := true, k;
        }
      }
      r := if found then Some(m[best]) else None;
    }

    method PutCheckpoint(cp: Checkpoint, fails: bool) returns (ok: bool)
      modifies this`checkpoints
      ensures ok == !fails
      ensures Copy(cp.tenantID) == if fails then old(Copy(cp.tenantID)) else InsertIfAbsent(old(Copy(cp.tenantID)), cp)
      ensures forall t :: t != cp.tenantID ==> Copy(t) == old(Copy(t))
    {
      if fails {
        return false;
      }
      var m := if cp.tenantID in checkpoints then checkpoints[cp.tenantID] else map[];
      if cp.seqEnd !in m {
        checkpoints := checkpoints[cp.tenantID := m[cp.seqEnd := cp]];
      }
      ok := true;
    }

    method PutProof(tenantID: Blob, seqEnd: uint64, p: Proof)
      modifies this`proofs
      ensures Proofs(tenantID) == AddProof(old(Proofs(tenantID)), seqEnd, p)
      ensures forall t :: t != tenantID ==> Proofs(t) == old(Proofs(t))
    {
      var byEnd: map<uint64, seq<Proof>> := if tenantID in proofs then proofs[tenantID] else map[];
      var ps := if seqEnd in byEnd then byEnd[seqEnd] else [];
      if !HasNotary(ps, p.notary) {
        proofs := proofs[tenantID := byEnd[seqEnd := ps + [p]]];
      }
    }
  }

  // ---- The anchorer ----

  class Anchorer {
    const h: Hasher
    const logs: LogStore
    const cps: AnchorStore
    const worm: MemStore
    const notaries: seq<Notary>
    const windowMax: int

    constructor (logs: LogStore, cps: AnchorStore, worm: MemStore, notaries: seq<Notary>, windowMax: int)
      ensures this.logs == logs && this.h == logs.h && this.cps == cps && this.worm == worm
      ensures this.notaries == notaries && this.windowMax == windowMax
    {
      this.logs, this.h, this.cps, this.worm := logs, logs.h, cps, worm;
      this.notaries, this.windowMax := notaries, windowMax;
    }

    /** The configured size, if there is one. */
    function WindowMax(): (max: nat)
      ensures max > 0 && (windowMax > 0 ==> max == windowMax) && (windowMax <= 0 ==> max == 1000)
    {
      if windowMax > 0 then windowMax else DEFAULT_WINDOW
    }

    ghost function Of(t: Blob): Anchors reads cps, worm {
      Anchors(worm.Of(t), cps.Copy(t), cps.Proofs(t))
    }

    /** Anchors all rows sealed since the tenant's last checkpoint. */
    method AnchorTenant(tenant: Blob, env: Env) returns (anchored: nat, ok: bool)
      requires worm.Valid() && logs.h == h && |RowsIn(logs.rows, tenant)| < TWO_TO_THE_64
      modifies cps, worm
      ensures worm.Valid()
      ensures RunResult(Of(tenant), anchored, ok)
           == AnchorRun(h, tenant, old(Of(tenant)), RowsIn(logs.rows, tenant), env, notaries, WindowMax())
      ensures forall t :: t != tenant ==> Of(t) == old(Of(t))
    {
      hide Build, EntriesAsc, LastOf, WindowStep, WindowSucceeds, AnchorFrom, WindowMax;
      anchored := 0;
      ghost var max := WindowMax();
      ghost var result := AnchorRun(h, tenant, Of(tenant), RowsIn(logs.rows, tenant), env, notaries, max);
      if env.readFails {
        return 0, false;
      }
      var last := cps.LastCheckpoint(tenant);
      var start, prevID := 0, [];
      if last.Some? {
        start, prevID := last.value.seqEnd + 1, last.value.checkpointID;
      }
      var entries := EntriesAsc(RowsIn(logs.rows, tenant), start, ROW_LIMIT);
      var i := 0;
      assert result == AnchorFrom(h, tenant, Of(tenant), entries, 0, prevID, 0, env, notaries, max);
      hide AnchorRun;
      while i < |entries|
        invariant worm.Valid()
        invariant result == AnchorFrom(h, tenant, Of(tenant), entries, i, prevID, anchored, env, notaries, max)
        invariant forall t :: t != tenant ==> Of(t) == old(Of(t))
        decreases |entries| - i
      {
        var end := i + WindowMax();
        if end > |entries| {
          end := |entries|;
        }
        var cp := BuildCheckpoint(h, tenant, entries[i..end], prevID, env.clock(anchored));
        AnchorFromNext(h, tenant, Of(tenant), entries, i, end, prevID, anchored, env, notaries, max, cp);
        var done := AnchorWindow(tenant, cp, env.fault(anchored));
        if !done {
          return anchored, false;
        }
        prevID := cp.checkpointID;
        anchored := anchored + 1;
        i := i + WindowMax();
      }
      AnchorFromDone(h, tenant, Of(tenant), entries, i, prevID, anchored, env, notaries, max);
      ok := true;
    }

    /** Every tenant in turn, up to the first failed run. `outcomes` are the runs that were tried, and
        `total` counts what all of them anchored, the failed one included. */
    method AnchorAll(tenants: seq<Blob>, envs: Blob -> Env)
      returns (total: nat, ok: bool, ghost outcomes: seq<RunResult>)
      requires worm.Valid() && logs.h == h && Distinct(tenants)
      requires forall t: Blob :: |RowsIn(logs.rows, t)| < TWO_TO_THE_64
      modifies cps, worm
      ensures worm.Valid() && |outcomes| <= |tenants| && (ok ==> |outcomes| == |tenants|)
      ensures forall k :: 0 <= k < |outcomes| ==>
                && outcomes[k] == Result(tenants[k], old(Of(tenants[k])), envs(tenants[k]))
                && Of(tenants[k]) == outcomes[k].anchors
                && (outcomes[k].ok <==> ok || k < |outcomes| - 1)
      ensures forall t :: t !in tenants[..|outcomes|] ==> Of(t) == old(Of(t))
      ensures total == AnchoredIn(outcomes)
    {
      hide AnchorRun, Of, MemStore.Valid, RowsIn;
      total, outcomes := 0, [];
      for i := 0 to |tenants|
        invariant worm.Valid() && |outcomes| == i && total == AnchoredIn(outcomes)
        invariant forall k :: 0 <= k < i ==>
                    && outcomes[k] == Result(tenants[k], old(Of(tenants[k])), envs(tenants[k]))
                    && Of(tenants[k]) == outcomes[k].anchors && outcomes[k].ok
        invariant forall t :: t !in tenants[..i] ==> Of(t) == old(Of(t))
      {
        var t := tenants[i];
        assert tenants[..i + 1] == tenants[..i] + [t] && t !in tenants[..i];
        ghost var before := outcomes;
        var n, done := AnchorTenant(t, envs(t));
        total, outcomes := total + n, outcomes + [RunResult(Of(t), n, done)];
        assert outcomes[..i] == before;
        if !done {
          return total, false, outcomes;
        }
      }
      ok := true;
    }

    ghost function Result(t: Blob, a: Anchors, env: Env): RunResult
      reads logs
      requires |RowsIn(logs.rows, t)| < TWO_TO_THE_64
    {
      AnchorRun(h, t, a, RowsIn(logs.rows, t), env, notaries, WindowMax())
    }

    /** The body of the window loop: write-once storage first, then the working copy, then the notaries.
        An overwrite error counts as done. */
    method AnchorWindow(tenant: Blob, cp: Checkpoint, fault: WindowFault) returns (done: bool)
      requires worm.Valid() && cp.tenantID == tenant
      modifies cps, worm
      ensures worm.Valid()
      ensures done == WindowSucceeds(fault, notaries)
      ensures Of(tenant) == WindowStep(old(Of(tenant)), cp, fault, notaries)
      ensures forall t :: t != tenant ==> Of(t) == old(Of(t))
    {
      var stored := PutFailed;
      if !fault.WormFails? {
        stored := worm.Put(cp);
      }
      if stored.PutFailed? {
        return false;
      }
      var copied := cps.PutCheckpoint(cp, fault.CopyFails?);
      if !copied {
        return false;
      }
      done := StampAll(tenant, cp.seqEnd, cp.checkpointID, fault);
    }

    /** The notary loop: stores each proof before asking the next notary. */
    method StampAll(tenant: Blob, seqEnd: uint64, id: bytes, fault: WindowFault) returns (done: bool)
      modifies cps`proofs
      ensures done == (Stamped(fault, notaries) == |notaries|)
      ensures cps.Proofs(tenant) == PutStamps(old(cps.Proofs(tenant)), seqEnd, id, notaries, Stamped(fault, notaries))
      ensures forall t :: t != tenant ==> cps.Proofs(t) == old(cps.Proofs(t))
    {
      hide AddProof;
      for k := 0 to |notaries|
        invariant k <= Stamped(fault, notaries)
        invariant cps.Proofs(tenant) == PutStamps(old(cps.Proofs(tenant)), seqEnd, id, notaries, k)
        invariant forall t :: t != tenant ==> cps.Proofs(t) == old(cps.Proofs(t))
      {
        if fault.NotaryFails? && fault.at == k {
          return false;
        }
        var p := notaries[k].stamp(id);
        cps.PutProof(tenant, seqEnd, p);
      }
      done := true;
    }
  }
}
