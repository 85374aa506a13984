/** What a tenant's part of the report depends on, and what it does not. */
module Independence {
  import opened Bytes
  import opened Hashing
  import opened Chain
  import opened ChainStore
  import opened Checkpoints
  import opened Witness
  import opened Verify

  function IssuesOf(issues: seq<Issue>, t: Blob): seq<Issue> {
    if issues == [] then []
    else IssuesOf(issues[..|issues| - 1], t) + if issues[|issues| - 1].tenant == t then [issues[|issues| - 1]] else []
  }

  lemma {:induction false} IssuesOfConcat(a: seq<Issue>, b: seq<Issue>, t: Blob)
    ensures IssuesOf(a + b, t) == IssuesOf(a, t) + IssuesOf(b, t)
  {
    if b == [] {
      assert a + b == a;
    } else {
      var init := b[..|b| - 1];
      assert (a + b)[..|a + b| - 1] == a + init;
      IssuesOfConcat(a, init, t);
    }
  }

  ghost predicate AllFor(issues: seq<Issue>, t: Blob) {
    forall i :: i in issues ==> i.tenant == t
  }

  lemma AllForConcat(a: seq<Issue>, b: seq<Issue>, t: Blob)
    ensures AllFor([], t)
    ensures AllFor(a, t) && AllFor(b, t) ==> AllFor(a + b, t)
  {
  }

  lemma {:induction false} IssuesOfUniform(issues: seq<Issue>, t: Blob, u: Blob)
    requires AllFor(issues, t)
    ensures IssuesOf(issues, u) == if t == u then issues else []
  {
    if issues != [] {
      var init, last := issues[..|issues| - 1], issues[|issues| - 1];
      assert issues == init + [last] && last in issues;
      IssuesOfUniform(init, t, u);
    }
  }

  // ---- Every issue names its tenant ----

  lemma {:induction false} ReplayIssuesFor(h: Hasher, t: Blob, es: seq<Entry>, i: nat)
    requires i <= |es| < TWO_TO_THE_64
    ensures AllFor(ReplayFrom(h, t, es, i).issues, t)
    decreases |es| - i
  {
    hide FaultAt;
    if i < |es| { ReplayIssuesFor(h, t, es, i + 1); }
  }

  lemma {:induction false} ProofIssuesFor(t: Blob, e: uint64, id: bytes, held: seq<Proof>, notaries: Notaries)
    ensures AllFor(ProofTally(t, e, id, held, notaries).issues, t)
  {
    if held != [] { ProofIssuesFor(t, e, id, held[..|held| - 1], notaries); }
  }

  lemma {:induction false} WindowsIssuesFor(h: Hasher, t: Blob, es: seq<Entry>, cps: seq<Checkpoint>, n: nat,
                                            ledger: Ledger, notaries: Notaries)
    requires n <= |cps| && forall cp :: cp in cps ==> Countable(cp)
    ensures AllFor(WindowsTally(h, t, es, cps, n, ledger, notaries).issues, t)
  {
    hide WindowTally, AllFor;
    AllForConcat([], [], t);
    if n > 0 {
      WindowsIssuesFor(h, t, es, cps, n - 1, ledger, notaries);
      WindowIssuesFor(h, t, es, cps[n - 1], PrevID(cps, n - 1), ledger, notaries);
      AllForConcat(WindowsTally(h, t, es, cps, n - 1, ledger, notaries).issues,
                   WindowTally(h, t, es, cps[n - 1], PrevID(cps, n - 1), ledger, notaries).issues, t);
    }
  }

  lemma WindowIssuesFor(h: Hasher, t: Blob, es: seq<Entry>, cp: Checkpoint, prev: Blob, ledger: Ledger,
                        notaries: Notaries)
    requires Countable(cp)
    ensures AllFor(WindowTally(h, t, es, cp, prev, ledger, notaries).issues, t)
  {
    hide RangeOf, IDString, ProofTally;
    var (entries, complete) := RangeOf(es, cp.seqStart, cp.seqEnd);
    if complete {
      ProofIssuesFor(t, cp.seqEnd, h(IDString(h, t, entries, prev, cp.anchoredAt)), Held(ledger, t, cp.seqEnd),
                     notaries);
    }
  }

  lemma TenantIssuesFor(h: Hasher, t: Blob, es: seq<Entry>, fetch: Fetch, ledger: Ledger, notaries: Notaries)
    requires |es| < TWO_TO_THE_64 && Readable(fetch)
    ensures AllFor(TenantTally(h, t, es, fetch, ledger, notaries).issues, t)
  {
    hide WindowsTally, ReplayFrom;
    ReplayIssuesFor(h, t, es, 0);
    if fetch.Fetched? { WindowsIssuesFor(h, t, es, fetch.cps, |fetch.cps|, ledger, notaries); }
  }

  /** The issues of the whole report that name a tenant are exactly that tenant's own report, which looks
      at nothing but its rows, its checkpoints and its proofs. */
  lemma {:induction false} ReportSplits(h: Hasher, ids: seq<Blob>, table: Table, worm: Blob -> Fetch,
                                        ledger: Ledger, notaries: Notaries, t: Blob)
    requires Loaded(table, worm) && (forall u :: u in ids ==> u in table) && Distinct(ids)
    ensures IssuesOf(AllTally(h, ids, table, worm, ledger, notaries).issues, t)
         == if t in ids then TenantTally(h, t, table[t], worm(t), ledger, notaries).issues else []
  {
    hide TenantTally;
    if ids != [] {
      var init, u := ids[..|ids| - 1], ids[|ids| - 1];
      assert ids == init + [u];
      ReportSplits(h, init, table, worm, ledger, notaries, t);
      var before, own := AllTally(h, init, table, worm, ledger, notaries),
                         TenantTally(h, u, table[u], worm(u), ledger, notaries);
      IssuesOfConcat(before.issues, own.issues, t);
      TenantIssuesFor(h, u, table[u], worm(u), ledger, notaries);
      IssuesOfUniform(own.issues, u, t);
    }
  }

  /** So the report is silent exactly when it is silent about every tenant. */
  lemma {:induction false} ReportCleanIffTenants(h: Hasher, ids: seq<Blob>, table: Table, worm: Blob -> Fetch,
                                                 ledger: Ledger, notaries: Notaries)
    requires Loaded(table, worm) && forall u :: u in ids ==> u in table
    ensures AllTally(h, ids, table, worm, ledger, notaries).Silent() <==>
            forall t :: t in ids ==> TenantTally(h, t, table[t], worm(t), ledger, notaries).Silent()
  {
    hide TenantTally, Tally.Silent, Tally.Plus;
    if ids == [] {
      SilentIsEmpty(ZERO);
    } else {
      var init, u := ids[..|ids| - 1], ids[|ids| - 1];
      assert ids == init + [u];
      ReportCleanIffTenants(h, init, table, worm, ledger, notaries);
      SilentPlus(AllTally(h, init, table, worm, ledger, notaries),
                 TenantTally(h, u, table[u], worm(u), ledger, notaries));
    }
  }

  // ---- Unreadable storage ----

  /** When write-once storage cannot be read, the report on the tenant is that of the replay, and after it
      exactly one storage error that names the tenant and no row. */
  lemma UnreadableIsReported(h: Hasher, t: Blob, es: seq<Entry>, ledger: Ledger, notaries: Notaries)
    requires |es| < TWO_TO_THE_64
    ensures var replay, r := ReplayFrom(h, t, es, 0), TenantTally(h, t, es, Unreadable, ledger, notaries);
            && r.issues == replay.issues + [Issue(t, 0, false, WormError)]
            && r.entries == replay.entries && r.checkpoints == replay.checkpoints && r.proofs == replay.proofs
  {
    hide ReplayFrom;
  }

  ghost predicate NoStorageError(issues: seq<Issue>) {
    forall i :: i in issues ==> i.kind != WormError
  }

  lemma {:induction false} ReplayNoStorageError(h: Hasher, t: Blob, es: seq<Entry>, i: nat)
    requires i <= |es| < TWO_TO_THE_64
    ensures NoStorageError(ReplayFrom(h, t, es, i).issues)
    decreases |es| - i
  {
    hide PrevAt, LeafOf, LinkedAt;
    if i < |es| { ReplayNoStorageError(h, t, es, i + 1); }
  }

  lemma WindowNoStorageError(h: Hasher, t: Blob, es: seq<Entry>, cp: Checkpoint, prev: Blob, ledger: Ledger,
                             notaries: Notaries)
    requires Countable(cp)
    ensures NoStorageError(WindowTally(h, t, es, cp, prev, ledger, notaries).issues)
  {
    hide RangeOf, IDString, ProofTally, Held;
    var (entries, complete) := RangeOf(es, cp.seqStart, cp.seqEnd);
    if complete {
      ComplaintPerRejection(t, cp.seqEnd, h(IDString(h, t, entries, prev, cp.anchoredAt)), Held(ledger, t, cp.seqEnd),
                            notaries);
    }
  }

  lemma {:induction false} WindowsNoStorageError(h: Hasher, t: Blob, es: seq<Entry>, cps: seq<Checkpoint>, n: nat,
                                                 ledger: Ledger, notaries: Notaries)
    requires n <= |cps| && forall cp :: cp in cps ==> Countable(cp)
    ensures NoStorageError(WindowsTally(h, t, es, cps, n, ledger, notaries).issues)
  {
    hide WindowTally;
    if n > 0 {
      WindowsNoStorageError(h, t, es, cps, n - 1, ledger, notaries);
      WindowNoStorageError(h, t, es, cps[n - 1], PrevID(cps, n - 1), ledger, notaries);
    }
  }

  /** A storage error is reported if and only if storage could not be read, so a silent report means that it was. */
  lemma StorageErrorIffUnreadable(h: Hasher, t: Blob, es: seq<Entry>, fetch: Fetch, ledger: Ledger, notaries: Notaries)
    requires |es| < TWO_TO_THE_64 && Readable(fetch)
    ensures fetch.Unreadable?
       <==> exists i :: i in TenantTally(h, t, es, fetch, ledger, notaries).issues && i.kind == WormError
    ensures TenantTally(h, t, es, fetch, ledger, notaries).Silent() ==> fetch.Fetched?
  {
    hide ReplayFrom, WindowsTally;
    ReplayNoStorageError(h, t, es, 0);
    match fetch {
      case Unreadable =>
        UnreadableIsReported(h, t, es, ledger, notaries);
        assert Issue(t, 0, false, WormError) in TenantTally(h, t, es, Unreadable, ledger, notaries).issues;
      case Fetched(cps) =>
        WindowsNoStorageError(h, t, es, cps, |cps|, ledger, notaries);
    }
  }

  /** A silent report over all tenants means that every listed tenant's storage was read. */
  lemma SilentReportMeansRead(h: Hasher, ids: seq<Blob>, table: Table, worm: Blob -> Fetch, ledger: Ledger,
                              notaries: Notaries)
    requires Loaded(table, worm) && (forall u :: u in ids ==> u in table)
    requires AllTally(h, ids, table, worm, ledger, notaries).Silent()
    ensures forall t :: t in ids ==> worm(t).Fetched?
  {
    hide TenantTally, AllTally, Tally.Silent;
    ReportCleanIffTenants(h, ids, table, worm, ledger, notaries);
    forall t | t in ids ensures worm(t).Fetched? {
      StorageErrorIffUnreadable(h, t, table[t], worm(t), ledger, notaries);
    }
  }

  // ---- Adding and removing proofs ----

  /** `more` holds every proof of `less`, as often, and possibly others, in any order. */
  ghost predicate MoreProofs(less: Ledger, more: Ledger, t: Blob) {
    forall e: uint64 :: multiset(Held(less, t, e)) <= multiset(Held(more, t, e))
  }

  function NonNotary(issues: seq<Issue>): seq<Issue> {
    if issues == [] then []
    else NonNotary(issues[..|issues| - 1])
         + if issues[|issues| - 1].kind != NotaryMismatch then [issues[|issues| - 1]] else []
  }

  lemma {:induction false} NonNotaryConcat(a: seq<Issue>, b: seq<Issue>)
    ensures NonNotary(a + b) == NonNotary(a) + NonNotary(b)
  {
    if b == [] {
      assert a + b == a;
    } else {
      var init := b[..|b| - 1];
      assert (a + b)[..|a + b| - 1] == a + init;
      NonNotaryConcat(a, init);
    }
  }

  /** The issues of `less` are all in `more`, and only notary issues were added. */
  ghost predicate OnlyNotaryIssuesAdded(less: seq<Issue>, more: seq<Issue>) {
    multiset(less) <= multiset(more) && NonNotary(less) == NonNotary(more)
  }

  lemma AddedConcat(a: seq<Issue>, a': seq<Issue>, b: seq<Issue>, b': seq<Issue>)
    requires OnlyNotaryIssuesAdded(a, a') && OnlyNotaryIssuesAdded(b, b')
    ensures OnlyNotaryIssuesAdded(a + b, a' + b')
  {
    NonNotaryConcat(a, b);
    NonNotaryConcat(a', b');
  }

  predicate Rejected(p: Proof, id: bytes, notaries: Notaries) {
    p.notary in notaries && !notaries[p.notary].check(p, id)
  }

  function Rejections(held: seq<Proof>, id: bytes, notaries: Notaries): nat {
    if held == [] then 0
    else Rejections(held[..|held| - 1], id, notaries) + if Rejected(held[|held| - 1], id, notaries) then 1 else 0
  }

  /** The notary loop complains once per rejected proof, always in the same words. */
  lemma {:induction false} ComplaintPerRejection(t: Blob, e: uint64, id: bytes, held: seq<Proof>, notaries: Notaries)
    ensures |ProofTally(t, e, id, held, notaries).issues| == Rejections(held, id, notaries)
    ensures forall i :: i in ProofTally(t, e, id, held, notaries).issues ==> i == Issue(t, e, true, NotaryMismatch)
  {
    if held != [] { ComplaintPerRejection(t, e, id, held[..|held| - 1], notaries); }
  }

  lemma {:induction false} RejectionsConcat(a: seq<Proof>, b: seq<Proof>, id: bytes, notaries: Notaries)
    ensures Rejections(a + b, id, notaries) == Rejections(a, id, notaries) + Rejections(b, id, notaries)
  {
    if b == [] {
      assert a + b == a;
    } else {
      var init := b[..|b| - 1];
      assert (a + b)[..|a + b| - 1] == a + init;
      RejectionsConcat(a, init, id, notaries);
    }
  }

  /** Taking one proof out, wherever it stands, takes out its own complaint. */
  lemma RejectionsWithout(held: seq<Proof>, j: nat, id: bytes, notaries: Notaries)
    requires j < |held|
    ensures multiset(held) == multiset(held[..j] + held[j + 1..]) + multiset{held[j]}
    ensures Rejections(held, id, notaries)
         == Rejections(held[..j] + held[j + 1..], id, notaries) + if Rejected(held[j], id, notaries) then 1 else 0
  {
    var a, x, b := held[..j], [held[j]], held[j + 1..];
    assert held == a + x + b;
    RejectionsConcat(a + x, b, id, notaries);
    RejectionsConcat(a, x, id, notaries);
    RejectionsConcat(a, b, id, notaries);
    assert x[..0] == [] && x[0] == held[j];
  }

  lemma OneLess(a: multiset<Proof>, b: multiset<Proof>, x: Proof)
    requires a + multiset{x} <= b + multiset{x}
    ensures a <= b
  {
    forall y | y in a ensures a[y] <= b[y] {
      assert (a + multiset{x})[y] <= (b + multiset{x})[y];
    }
  }

  lemma {:induction false} RejectionsMonotone(a: seq<Proof>, b: seq<Proof>, id: bytes, notaries: Notaries)
    requires multiset(a) <= multiset(b)
    ensures Rejections(a, id, notaries) <= Rejections(b, id, notaries)
    decreases |a|
  {
    hide Rejected;
    if a != [] {
      var init, x := a[..|a| - 1], a[|a| - 1];
      assert a == init + [x];
      assert x in multiset(a) && x in multiset(b);
      var j :| 0 <= j < |b| && b[j] == x;
      RejectionsWithout(b, j, id, notaries);
      OneLess(multiset(init), multiset(b[..j] + b[j + 1..]), x);
      RejectionsMonotone(init, b[..j] + b[j + 1..], id, notaries);
    }
  }

  /** Lists of copies of one notary issue. */
  lemma CopiesAdded(x: Issue, less: seq<Issue>, more: seq<Issue>)
    requires x.kind == NotaryMismatch && |less| <= |more|
    requires (forall i :: i in less ==> i == x) && (forall i :: i in more ==> i == x)
    ensures OnlyNotaryIssuesAdded(less, more)
  {
    assert more == more[..|less|] + more[|less|..];
    assert forall k :: 0 <= k < |less| ==> less[k] in less && more[k] in more;
    assert less == more[..|less|];
    OnlyCopies(x, less);
    OnlyCopies(x, more);
  }

  lemma {:induction false} OnlyCopies(x: Issue, issues: seq<Issue>)
    requires x.kind == NotaryMismatch && forall i :: i in issues ==> i == x
    ensures NonNotary(issues) == []
  {
    if issues != [] {
      var init, last := issues[..|issues| - 1], issues[|issues| - 1];
      assert last in issues && forall i :: i in init ==> i in issues;
      OnlyCopies(x, init);
    }
  }

  lemma MoreProofTally(t: Blob, e: uint64, id: bytes, held: seq<Proof>, held': seq<Proof>, notaries: Notaries)
    requires multiset(held) <= multiset(held')
    ensures OnlyNotaryIssuesAdded(ProofTally(t, e, id, held, notaries).issues,
                                  ProofTally(t, e, id, held', notaries).issues)
  {
    hide ProofTally, OnlyNotaryIssuesAdded;
    ComplaintPerRejection(t, e, id, held, notaries);
    ComplaintPerRejection(t, e, id, held', notaries);
    RejectionsMonotone(held, held', id, notaries);
    CopiesAdded(Issue(t, e, true, NotaryMismatch), ProofTally(t, e, id, held, notaries).issues,
                ProofTally(t, e, id, held', notaries).issues);
  }

  lemma MoreWindowTally(h: Hasher, t: Blob, es: seq<Entry>, cp: Checkpoint, prev: Blob,
                        less: Ledger, more: Ledger, notaries: Notaries)
    requires Countable(cp) && MoreProofs(less, more, t)
    ensures OnlyNotaryIssuesAdded(WindowTally(h, t, es, cp, prev, less, notaries).issues,
                                  WindowTally(h, t, es, cp, prev, more, notaries).issues)
  {
    hide RangeOf, IDString, ProofTally, Held, OnlyNotaryIssuesAdded;
    var (entries, complete) := RangeOf(es, cp.seqStart, cp.seqEnd);
    AddedNothing(WindowTally(h, t, es, cp, prev, less, notaries).issues);
    if complete {
      var id := h(IDString(h, t, entries, prev, cp.anchoredAt));
      var first := if id == cp.checkpointID then [] else [Issue(t, cp.seqEnd, true, CheckpointMismatch)];
      AddedNothing(first);
      MoreProofTally(t, cp.seqEnd, id, Held(less, t, cp.seqEnd), Held(more, t, cp.seqEnd), notaries);
      AddedConcat(first, first, ProofTally(t, cp.seqEnd, id, Held(less, t, cp.seqEnd), notaries).issues,
                  ProofTally(t, cp.seqEnd, id, Held(more, t, cp.seqEnd), notaries).issues);
    }
  }

  lemma AddedNothing(issues: seq<Issue>)
    ensures OnlyNotaryIssuesAdded(issues, issues)
  {
  }

  lemma {:induction false} MoreWindowsTally(h: Hasher, t: Blob, es: seq<Entry>, cps: seq<Checkpoint>, n: nat,
                                            less: Ledger, more: Ledger, notaries: Notaries)
    requires n <= |cps| && (forall cp :: cp in cps ==> Countable(cp)) && MoreProofs(less, more, t)
    ensures OnlyNotaryIssuesAdded(WindowsTally(h, t, es, cps, n, less, notaries).issues,
                                  WindowsTally(h, t, es, cps, n, more, notaries).issues)
  {
    hide WindowTally, OnlyNotaryIssuesAdded, MoreProofs;
    AddedNothing([]);
    if n > 0 {
      var cp, prev := cps[n - 1], PrevID(cps, n - 1);
      MoreWindowsTally(h, t, es, cps, n - 1, less, more, notaries);
      MoreWindowTally(h, t, es, cp, prev, less, more, notaries);
      AddedConcat(WindowsTally(h, t, es, cps, n - 1, less, notaries).issues,
                  WindowsTally(h, t, es, cps, n - 1, more, notaries).issues,
                  WindowTally(h, t, es, cp, prev, less, notaries).issues,
                  WindowTally(h, t, es, cp, prev, more, notaries).issues);
    }
  }

  /** Adding proofs to the ledger, anywhere and in any order, never removes an issue; read the other way
      round, removing any proofs removes only notary issues. */
  lemma MoreProofsMoreIssues(h: Hasher, t: Blob, es: seq<Entry>, fetch: Fetch, less: Ledger, more: Ledger,
                             notaries: Notaries)
    requires |es| < TWO_TO_THE_64 && Readable(fetch) && MoreProofs(less, more, t)
    ensures OnlyNotaryIssuesAdded(TenantTally(h, t, es, fetch, less, notaries).issues,
                                  TenantTally(h, t, es, fetch, more, notaries).issues)
  {
    hide WindowsTally, ReplayFrom, OnlyNotaryIssuesAdded, MoreProofs;
    var replay := ReplayFrom(h, t, es, 0).issues;
    AddedNothing(replay);
    match fetch {
      case Unreadable =>
        AddedNothing(TenantTally(h, t, es, fetch, less, notaries).issues);
      case Fetched(cps) =>
        MoreWindowsTally(h, t, es, cps, |cps|, less, more, notaries);
        AddedConcat(replay, replay, WindowsTally(h, t, es, cps, |cps|, less, notaries).issues,
                    WindowsTally(h, t, es, cps, |cps|, more, notaries).issues);
    }
  }

  /** A tenant's report looks at the ledger through the tenant's own proofs only. */
  lemma SameProofsSameReport(h: Hasher, t: Blob, es: seq<Entry>, fetch: Fetch, m: Ledger, m': Ledger,
                             notaries: Notaries)
    requires |es| < TWO_TO_THE_64 && Readable(fetch)
    requires forall x: uint64 :: Held(m', t, x) == Held(m, t, x)
    ensures TenantTally(h, t, es, fetch, m', notaries) == TenantTally(h, t, es, fetch, m, notaries)
  {
    hide Held, WindowsTally, ReplayFrom;
    if fetch.Fetched? { SameProofsSameWindows(h, t, es, fetch.cps, |fetch.cps|, m, m', notaries); }
  }

  function Filed(m: Ledger, k: bytes): seq<Proof> {
    if k in m then m[k] else []
  }

  /** The ledgers agree on every key that is not another tenant's. */
  ghost predicate DifferElsewhere(m: Ledger, m': Ledger, t: Blob) {
    forall k: bytes :: Filed(m, k) != Filed(m', k) ==> exists u: Blob, e: uint64 :: u != t && k == LedgerKey(u, e)
  }

  /** Whatever happens to the proofs of other tenants does not count, even when ids contain slashes. */
  lemma OtherTenantsProofs(h: Hasher, t: Blob, es: seq<Entry>, fetch: Fetch, m: Ledger, m': Ledger, notaries: Notaries)
    requires |es| < TWO_TO_THE_64 && Readable(fetch) && DifferElsewhere(m, m', t)
    ensures TenantTally(h, t, es, fetch, m', notaries) == TenantTally(h, t, es, fetch, m, notaries)
  {
    hide LedgerKey, TenantTally, Readable;
    forall x: uint64 ensures Held(m', t, x) == Held(m, t, x) {
      var k := LedgerKey(t, x);
      assert Held(m', t, x) == Filed(m', k) && Held(m, t, x) == Filed(m, k);
      if Filed(m, k) != Filed(m', k) {
        var u: Blob, e: uint64 :| u != t && k == LedgerKey(u, e);
        LedgerKeyInjective(t, x, u, e);
      }
    }
    SameProofsSameReport(h, t, es, fetch, m, m', notaries);
  }

  lemma {:induction false} SameProofsSameWindows(h: Hasher, t: Blob, es: seq<Entry>, cps: seq<Checkpoint>, n: nat,
                                                 m: Ledger, m': Ledger, notaries: Notaries)
    requires n <= |cps| && (forall cp :: cp in cps ==> Countable(cp))
    requires forall x: uint64 :: Held(m', t, x) == Held(m, t, x)
    ensures WindowsTally(h, t, es, cps, n, m', notaries) == WindowsTally(h, t, es, cps, n, m, notaries)
  {
    hide Held, RangeOf, IDString, ProofTally;
    if n > 0 { SameProofsSameWindows(h, t, es, cps, n - 1, m, m', notaries); }
  }
}
