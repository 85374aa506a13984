/** The log table and the batch sealer, with cached heads, failed appends and restarts. */
module Ingest {
  import opened Bytes
  import opened Hashing
  import opened Canonical
  import opened Chain
  import opened ChainStore

  // ---- The log table ----

  /** The row with the highest sequence number. */
  function MaxRow(es: seq<Entry>): Entry
    requires es != []
  {
    if |es| == 1 then es[0]
    else
      var m := MaxRow(es[..|es| - 1]);
      if es[|es| - 1].seqNo > m.seqNo then es[|es| - 1] else m
  }

  /** Where a sealer resumes: after the highest row, or at genesis. */
  function StoredHead(h: Hasher, tenant: Blob, es: seq<Entry>): Head {
    if es == [] then Head(0, Genesis(h, tenant))
    else Head((MaxRow(es).seqNo + 1) % TWO_TO_THE_64, MaxRow(es).entryHash)
  }

  function AppendAll(table: Table, es: seq<Entry>): Table {
    if es == [] then table
    else
      var init := AppendAll(table, es[..|es| - 1]);
      var e := es[|es| - 1];
      init[e.tenantID := RowsIn(init, e.tenantID) + [e]]
  }

  /** The rows numbered `start` or higher, at most `limit` of them. */
  function EntriesAsc(es: seq<Entry>, start: nat, limit: nat): (r: seq<Entry>)
    ensures |r| <= |es| && |r| <= limit
  {
    var from := From(es, start);
    if |from| <= limit then from else from[..limit]
  }

  function From(es: seq<Entry>, start: nat): (r: seq<Entry>)
    ensures |r| <= |es|
  {
    if es == [] then []
    else From(es[..|es| - 1], start) + if es[|es| - 1].seqNo >= start then [es[|es| - 1]] else []
  }

  /** The table keeps each tenant's rows in the order of the storage key, the sequence number. */
  class LogStore {
    const h: Hasher
    var rows: Table

    constructor (h: Hasher)
      ensures this.h == h && rows == map[]
    {
      this.h, rows := h, map[];
    }

    method Head(tenantID: Blob, fails: bool) returns (r: Option<Head>)
      ensures r == if fails then None else Some(StoredHead(h, tenantID, RowsIn(rows, tenantID)))
    {
      if fails {
        return None;
      }
      var es := RowsIn(rows, tenantID);
      if |es| == 0 {
        return Some(ChainStore.Head.Head(0, Genesis(h, tenantID)));
      }
      var top := es[0];
      for i := 1 to |es|
        invariant top == MaxRow(es[..i])
      {
        assert es[..i + 1][..i] == es[..i];
        if es[i].seqNo > top.seqNo {
          top := es[i];
        }
      }
      assert es[..|es|] == es;
      r := Some(ChainStore.Head.Head((top.seqNo + 1) % TWO_TO_THE_64, top.entryHash));
    }

    /** All or nothing; an empty batch never reaches the database. */
    method Append(entries: seq<Entry>, fails: bool) returns (ok: bool)
      modifies this
      ensures ok <==> entries == [] || !fails
      ensures rows == if ok then AppendAll(old(rows), entries) else old(rows)
    {
      if |entries| == 0 {
        return true;
      }
      if fails {
        return false;
      }
      for i := 0 to |entries|
        invariant rows == AppendAll(old(rows), entries[..i])
      {
        assert entries[..i + 1][..i] == entries[..i];
        var t := entries[i].tenantID;
        rows := rows[t := RowsIn(rows, t) + [entries[i]]];
      }
      assert entries[..|entries|] == entries;
      ok := true;
    }
  }

  // ---- What sealing a batch does ----

  /** How the database answers one call of `SealBatch`. */
  datatype BatchFault = NoFault | HeadFails | AppendFails

  /** No database call that the batch needs fails: reading the head, unless it is cached, and writing the rows,
      unless there are none. */
  predicate GoesThrough(cached: bool, recs: seq<Record>, fault: BatchFault) {
    !(!cached && fault.HeadFails?) && !(|recs| > 0 && fault.AppendFails?)
  }

  datatype SealerState = SealerState(rows: Table, heads: map<Blob, Head>)

  function HeadFor(h: Hasher, s: SealerState, tenant: Blob): Head {
    if tenant in s.heads then s.heads[tenant] else StoredHead(h, tenant, RowsIn(s.rows, tenant))
  }

  function AdvancedHead(hd: Head, es: seq<Entry>): Head
    requires hd.nextSeq + |es| < TWO_TO_THE_64
  {
    Head(hd.nextSeq + |es|, if es == [] then hd.prevHash else es[|es| - 1].entryHash)
  }

  /** The sealed rows, or nothing when a database call failed. */
  function BatchResult(h: Hasher, s: SealerState, tenant: Blob, recs: seq<Record>, fault: BatchFault)
    : Option<seq<Entry>>
    requires HeadFor(h, s, tenant).nextSeq + |recs| < TWO_TO_THE_64
  {
    var hd := HeadFor(h, s, tenant);
    if (tenant !in s.heads && fault.HeadFails?) || (recs != [] && fault.AppendFails?) then None
    else Some(SealAll(h, tenant, hd.nextSeq, hd.prevHash, recs))
  }

  function BatchStep(h: Hasher, s: SealerState, tenant: Blob, recs: seq<Record>, fault: BatchFault): SealerState
    requires HeadFor(h, s, tenant).nextSeq + |recs| < TWO_TO_THE_64
  {
    var hd := HeadFor(h, s, tenant);
    if tenant !in s.heads && fault.HeadFails? then s
    else
      match BatchResult(h, s, tenant, recs, fault)
      case None => s.(heads := s.heads[tenant := hd])
      case Some(es) => SealerState(AppendAll(s.rows, es), s.heads[tenant := AdvancedHead(hd, es)])
  }

  class Sealer {
    const h: Hasher
    const store: LogStore
    var heads: map<Blob, Head>

    constructor (store: LogStore)
      ensures this.store == store && h == store.h && heads == map[]
    {
      this.store, this.h, heads := store, store.h, map[];
    }

    ghost function State(): SealerState reads this, store {
      SealerState(store.rows, heads)
    }

    /** The head only moves after a successful write. */
    method SealBatch(tenantID: Blob, recs: seq<Record>, fault: BatchFault) returns (r: Option<seq<Entry>>)
      requires store.h == h
      requires HeadFor(h, State(), tenantID).nextSeq + |recs| < TWO_TO_THE_64
      modifies this, store
      ensures r == BatchResult(h, old(State()), tenantID, recs, fault)
      ensures State() == BatchStep(h, old(State()), tenantID, recs, fault)
      ensures r.Some? <==> GoesThrough(tenantID in old(heads), recs, fault)
      ensures var hd := HeadFor(h, old(State()), tenantID);
              r.Some? ==> r.value == SealAll(h, tenantID, hd.nextSeq, hd.prevHash, recs)
      ensures store.rows == if r.Some? then AppendAll(old(store.rows), r.value) else old(store.rows)
      ensures tenantID in heads <==> tenantID in old(heads) || !fault.HeadFails?
    {
      hide Encode, AppendAll, StoredHead, SealAll;
      if tenantID !in heads {
        var hd := store.Head(tenantID, fault.HeadFails?);
        if hd.None? {
          return None;
        }
        heads := heads[tenantID := hd.value];
      }
      var hd := heads[tenantID];
      var entries, n, prev := SealRows(h, tenantID, hd, recs);
      var ok := store.Append(entries, fault.AppendFails?);
      if !ok {
        return None;
      }
      heads := heads[tenantID := Head(n, prev)];
      r := Some(entries);
    }
  }

  /** The loop of `SealBatch`: one row per record, each linked to the one before it. */
  method SealRows(h: Hasher, tenantID: Blob, hd: Head, recs: seq<Record>)
    returns (entries: seq<Entry>, n: uint64, prev: Blob)
    requires hd.nextSeq + |recs| < TWO_TO_THE_64
    ensures entries == SealAll(h, tenantID, hd.nextSeq, hd.prevHash, recs)
    ensures Head(n, prev) == AdvancedHead(hd, entries)
  {
    hide Encode, SealAll, EntryLeaf, ChainHash;
    n, prev, entries := hd.nextSeq, hd.prevHash, [];
    for i := 0 to |recs|
      invariant n == hd.nextSeq + i && |entries| == i
      invariant prev == if entries == [] then hd.prevHash else entries[i - 1].entryHash
      invariant entries + SealAll(h, tenantID, n, prev, recs[i..])
           == SealAll(h, tenantID, hd.nextSeq, hd.prevHash, recs)
    {
      var rec := recs[i];
      var leaf := EntryLeaf(h, tenantID, n, rec.eventTime, rec.ingestTime, rec.source, rec.raw);
      var entryHash := ChainHash(h, prev, leaf);
      var e := Entry(tenantID, n, rec.eventTime, rec.ingestTime, rec.source, rec.raw, prev, entryHash);
      SealNext(h, tenantID, n, prev, recs, i, entries, e);
      entries := entries + [e];
      prev := entryHash;
      n := n + 1;
    }
    assert SealAll(h, tenantID, n, prev, recs[|recs|..]) == [];
  }

  lemma SealNext(h: Hasher, tenant: Blob, n: nat, prev: Blob, recs: seq<Record>, i: nat, entries: seq<Entry>, e: Entry)
    requires i < |recs| && n + |recs| - i < TWO_TO_THE_64
    requires e == SealOne(h, tenant, n, prev, recs[i])
    ensures entries + SealAll(h, tenant, n, prev, recs[i..])
         == (entries + [e]) + SealAll(h, tenant, n + 1, e.entryHash, recs[i + 1..])
  {
    hide SealOne;
    assert recs[i..][1..] == recs[i + 1..];
    assert SealAll(h, tenant, n, prev, recs[i..]) == [e] + SealAll(h, tenant, n + 1, e.entryHash, recs[i + 1..]);
  }

  // ---- What stays true ----

  /** The tenant's rows are a chain, and a cached head is the head of that chain. */
  ghost predicate HeadSynced(h: Hasher, s: SealerState, t: Blob) {
    var es := RowsIn(s.rows, t);
    && |es| < TWO_TO_THE_64 && Linked(h, t, es) && Owned(t, es)
    && (t in s.heads ==> s.heads[t] == Head(|es|, HeadHash(h, t, es)))
  }

  ghost predicate Synced(h: Hasher, s: SealerState) {
    forall t: Blob :: HeadSynced(h, s, t)
  }

  /** In whatever order the rows are, the head is after one with the highest number. */
  lemma {:induction false} MaxRowIsHighest(es: seq<Entry>)
    requires es != []
    ensures MaxRow(es) in es && forall e :: e in es ==> e.seqNo <= MaxRow(es).seqNo
  {
    if |es| > 1 {
      MaxRowIsHighest(es[..|es| - 1]);
      assert forall e :: e in es ==> e in es[..|es| - 1] || e == es[|es| - 1];
    }
  }

  lemma {:induction false} MaxRowNumbered(es: seq<Entry>)
    requires Numbered(es) && es != []
    ensures MaxRow(es) == es[|es| - 1]
  {
    if |es| > 1 { MaxRowNumbered(es[..|es| - 1]); }
  }

  /** After a restart the stored head is the head of the chain. */
  lemma StoredHeadOfChain(h: Hasher, tenant: Blob, es: seq<Entry>)
    requires Linked(h, tenant, es) && |es| < TWO_TO_THE_64
    ensures StoredHead(h, tenant, es) == Head(|es|, HeadHash(h, tenant, es))
  {
    hide Linked;
    LinkedNumbered(h, tenant, es);
    if es != [] { MaxRowNumbered(es); }
  }

  lemma AppendOneMore(table: Table, tenant: Blob, es: seq<Entry>, e: Entry)
    ensures var init := if es == [] then table else table[tenant := RowsIn(table, tenant) + es];
            init[tenant := RowsIn(init, tenant) + [e]] == table[tenant := RowsIn(table, tenant) + (es + [e])]
  {
    assert RowsIn(table, tenant) + es + [e] == RowsIn(table, tenant) + (es + [e]);
    assert [] + [e] == [e];
  }

  lemma {:induction false} AppendAllUniform(table: Table, tenant: Blob, es: seq<Entry>)
    requires Owned(tenant, es)
    ensures AppendAll(table, es) == if es == [] then table else table[tenant := RowsIn(table, tenant) + es]
  {
    hide RowsIn;
    if es != [] {
      var init, e := es[..|es| - 1], es[|es| - 1];
      assert e in es && forall x :: x in init ==> x in es;
      AppendAllUniform(table, tenant, init);
      AppendOneMore(table, tenant, init, e);
      assert es == init + [e];
    }
  }

  /** A batch either extends the tenant's chain by its sealed records or leaves every row alone; the
      cached heads stay right either way. */
  lemma BatchKeepsSynced(h: Hasher, s: SealerState, tenant: Blob, recs: seq<Record>, fault: BatchFault)
    requires Synced(h, s) && |RowsIn(s.rows, tenant)| + |recs| < TWO_TO_THE_64
    ensures HeadFor(h, s, tenant) == Head(|RowsIn(s.rows, tenant)|, HeadHash(h, tenant, RowsIn(s.rows, tenant)))
    ensures var s' := BatchStep(h, s, tenant, recs, fault);
            && Synced(h, s')
            && (forall t: Blob :: t != tenant ==> RowsIn(s'.rows, t) == RowsIn(s.rows, t))
            && (forall t: Blob :: t != tenant ==> (t in s'.heads <==> t in s.heads))
            && (tenant in s'.heads <==> tenant in s.heads || !fault.HeadFails?)
            && Payloads(RowsIn(s'.rows, tenant)) == Payloads(RowsIn(s.rows, tenant))
               + if GoesThrough(tenant in s.heads, recs, fault) then recs else []
    ensures BatchResult(h, s, tenant, recs, fault).Some? <==> GoesThrough(tenant in s.heads, recs, fault)
  {
    hide Encode, AppendAll, SealAll, StoredHead, Linked, Owned;
    var es := RowsIn(s.rows, tenant);
    assert HeadSynced(h, s, tenant);
    StoredHeadOfChain(h, tenant, es);
    var hd := HeadFor(h, s, tenant);
    var s' := BatchStep(h, s, tenant, recs, fault);
    var result := BatchResult(h, s, tenant, recs, fault);
    if result.Some? {
      ExtendedChain(h, tenant, es, recs);
      AppendAllUniform(s.rows, tenant, result.value);
      assert es + [] == es;
      assert RowsIn(s'.rows, tenant) == es + result.value;
    }
    forall t: Blob ensures HeadSynced(h, s', t) { assert HeadSynced(h, s, t); }
  }

  lemma ExtendedChain(h: Hasher, tenant: Blob, es: seq<Entry>, recs: seq<Record>)
    requires |es| + |recs| < TWO_TO_THE_64 && Linked(h, tenant, es) && Owned(tenant, es)
    ensures var more := SealAll(h, tenant, |es|, HeadHash(h, tenant, es), recs);
            && Linked(h, tenant, es + more) && Owned(tenant, es + more) && Owned(tenant, more)
            && Payloads(es + more) == Payloads(es) + recs
            && HeadHash(h, tenant, es + more) == AdvancedHead(Head(|es|, HeadHash(h, tenant, es)), more).prevHash
  {
    hide Encode, SealAll;
    LinkedIffSealed(h, tenant, es);
    SealedAppend(h, tenant, Payloads(es), recs);
    SealedIsLinked(h, tenant, Payloads(es) + recs);
    SealAllOwned(h, tenant, |es|, HeadHash(h, tenant, es), recs);
  }
}
