/** The in-memory log store and the one-at-a-time sealer that writes to it. */
module ChainStore {
  import opened Bytes
  import opened Hashing
  import opened Canonical
  import opened Chain

  type Table = map<Blob, seq<Entry>>

  function RowsIn(table: Table, id: Blob): seq<Entry> {
    if id in table then table[id] else []
  }

  /** The same tenants with the same rows, in some order. */
  ghost predicate Reordered(table: Table, table': Table) {
    && table.Keys == table'.Keys
    && forall t :: t in table ==> multiset(table[t]) == multiset(table'[t]) && |table[t]| == |table'[t]|
  }

  ghost predicate SortedBySeq(es: seq<Entry>) {
    forall i, j :: 0 <= i < j < |es| ==> es[i].seqNo <= es[j].seqNo
  }

  function InsertAt(s: seq<Entry>, k: nat, e: Entry): (r: seq<Entry>)
    requires k <= |s|
    ensures |r| == |s| + 1 && r[k] == e
    ensures forall i :: 0 <= i < k ==> r[i] == s[i]
    ensures forall i :: k < i < |r| ==> r[i] == s[i - 1]
  {
    s[..k] + [e] + s[k..]
  }

  lemma InsertKeepsMultiset(s: seq<Entry>, k: nat, e: Entry)
    requires k <= |s|
    ensures multiset(InsertAt(s, k, e)) == multiset(s) + multiset{e}
  {
    assert s == s[..k] + s[k..];
  }

  lemma InsertKeepsSorted(s: seq<Entry>, k: nat, e: Entry)
    requires k <= |s| && SortedBySeq(s)
    requires k > 0 ==> s[k - 1].seqNo <= e.seqNo
    requires k < |s| ==> e.seqNo <= s[k].seqNo
    ensures SortedBySeq(InsertAt(s, k, e))
  {
    hide InsertAt;
  }

  /** `sort.Slice` by sequence number: a sorted permutation, ties in an order nobody may rely on. */
  method SortSlice(es: seq<Entry>) returns (sorted: seq<Entry>)
    ensures SortedBySeq(sorted) && multiset(sorted) == multiset(es)
  {
    hide InsertAt;
    sorted := [];
    for i := 0 to |es|
      invariant SortedBySeq(sorted) && multiset(sorted) == multiset(es[..i])
    {
      var k := 0;
      while k < |sorted| && sorted[k].seqNo <= es[i].seqNo
        invariant 0 <= k <= |sorted|
        invariant k > 0 ==> sorted[k - 1].seqNo <= es[i].seqNo
      {
        k := k + 1;
      }
      assert es[..i + 1] == es[..i] + [es[i]];
      InsertKeepsMultiset(sorted, k, es[i]);
      InsertKeepsSorted(sorted, k, es[i]);
      sorted := InsertAt(sorted, k, es[i]);
    }
    assert es[..|es|] == es;
  }

  ghost predicate StrictBySeq(es: seq<Entry>) {
    forall i, j :: 0 <= i < j < |es| ==> es[i].seqNo < es[j].seqNo
  }

  lemma SameFirst(a: seq<Entry>, b: seq<Entry>)
    requires StrictBySeq(a) && SortedBySeq(b) && multiset(a) == multiset(b) && a != [] && b != []
    ensures a[0] == b[0]
  {
    assert a[0] in multiset(b) && b[0] in multiset(a);
    var k :| 0 <= k < |a| && a[k] == b[0];
    var l :| 0 <= l < |b| && b[l] == a[0];
    assert b[0].seqNo <= b[l].seqNo;
  }

  /** Rows that are already in strict order have no other sorted permutation. */
  lemma {:induction false} SortIsUnique(a: seq<Entry>, b: seq<Entry>)
    requires StrictBySeq(a) && SortedBySeq(b) && multiset(a) == multiset(b)
    ensures a == b
  {
    assert |a| == |multiset(a)| == |multiset(b)| == |b|;
    if a != [] {
      SameFirst(a, b);
      assert a == [a[0]] + a[1..] && b == [b[0]] + b[1..];
      assert multiset(a[1..]) == multiset(a) - multiset{a[0]};
      assert multiset(b[1..]) == multiset(b) - multiset{b[0]};
      SortIsUnique(a[1..], b[1..]);
    }
  }

  /** The row a map keyed by sequence number ends up with: the last one. */
  function LastAt(es: seq<Entry>, n: uint64): (r: Option<Entry>)
    ensures r.Some? ==> r.value in es && r.value.seqNo == n
    ensures r.None? ==> forall e :: e in es ==> e.seqNo != n
  {
    if es == [] then None
    else if es[|es| - 1].seqNo == n then Some(es[|es| - 1])
    else LastAt(es[..|es| - 1], n)
  }

  /** Of several rows with the number it is the one stored last. */
  lemma {:induction false} LastAtIsLast(es: seq<Entry>, n: uint64, k: nat)
    requires k < |es| && es[k].seqNo == n && forall j :: k < j < |es| ==> es[j].seqNo != n
    ensures LastAt(es, n) == Some(es[k])
  {
    if k < |es| - 1 { LastAtIsLast(es[..|es| - 1], n, k); }
  }

  /** The rows found at `start, start + 1, ..` up to `end` or the first missing number. */
  function RangeOf(es: seq<Entry>, start: nat, end: uint64): (r: (seq<Entry>, bool))
    requires start <= end + 1
    ensures r.1 ==> |r.0| == end + 1 - start
    ensures !r.1 ==> |r.0| < end + 1 - start && LastAt(es, start + |r.0|).None?
    ensures forall i :: 0 <= i < |r.0| ==> LastAt(es, start + i) == Some(r.0[i])
    decreases end + 1 - start
  {
    if start > end then ([], true)
    else
      match LastAt(es, start)
      case None => ([], false)
      case Some(e) =>
        var (rest, complete) := RangeOf(es, start + 1, end);
        ([e] + rest, complete)
  }

  /** The three clauses of `RangeOf` leave no choice. */
  lemma {:induction false} RangeIsDetermined(es: seq<Entry>, start: nat, end: uint64, out: seq<Entry>, complete: bool)
    requires start <= end + 1
    requires if complete then |out| == end + 1 - start
             else |out| < end + 1 - start && LastAt(es, start + |out|).None?
    requires forall i :: 0 <= i < |out| ==> LastAt(es, start + i) == Some(out[i])
    ensures RangeOf(es, start, end) == (out, complete)
    decreases |out|
  {
    hide LastAt;
    if out != [] {
      assert LastAt(es, start + 0) == Some(out[0]);
      assert forall i :: 0 <= i < |out| - 1 ==> LastAt(es, start + (i + 1)) == Some(out[1..][i]);
      RangeIsDetermined(es, start + 1, end, out[1..], complete);
      assert LastAt(es, start) == Some(out[0]) && [out[0]] + out[1..] == out;
    }
  }

  function Without(es: seq<Entry>, n: uint64): (r: seq<Entry>)
    ensures forall e :: e in r <==> e in es && e.seqNo != n
  {
    if es == [] then []
    else
      var r := Without(es[..|es| - 1], n);
      if es[|es| - 1].seqNo != n then r + [es[|es| - 1]] else r
  }

  /** The rows that stay are the ones they were, in the same order and as often. */
  lemma {:induction false} WithoutSplits(a: seq<Entry>, b: seq<Entry>, n: uint64)
    ensures Without(a + b, n) == Without(a, n) + Without(b, n)
    ensures |a| == 1 ==> Without(a, n) == if a[0].seqNo == n then [] else a
  {
    if b == [] {
      assert a + b == a;
    } else {
      assert (a + b)[..|a + b| - 1] == a + b[..|b| - 1];
      WithoutSplits(a, b[..|b| - 1], n);
    }
  }

  // ---- Lexicographic order of tenant ids ----

  predicate LexLeq(a: bytes, b: bytes) {
    a == [] || (b != [] && (a[0] < b[0] || (a[0] == b[0] && LexLeq(a[1..], b[1..]))))
  }

  /** The first place where two ids differ decides; a prefix comes first. */
  lemma {:induction false} LexLeqIs(a: bytes, b: bytes)
    ensures LexLeq(a, b) <==>
            a <= b || exists i :: 0 <= i < |a| && i < |b| && a[..i] == b[..i] && a[i] < b[i]
  {
    if a != [] && b != [] && a[0] == b[0] {
      var a', b' := a[1..], b[1..];
      LexLeqIs(a', b');
      assert a == [a[0]] + a' && b == [b[0]] + b';
      assert a <= b <==> a' <= b';
      if i :| 0 <= i < |a'| && i < |b'| && a'[..i] == b'[..i] && a'[i] < b'[i] {
        assert a[..i + 1] == [a[0]] + a'[..i] && b[..i + 1] == [b[0]] + b'[..i];
        assert a[i + 1] < b[i + 1];
      }
      if i :| 0 <= i < |a| && i < |b| && a[..i] == b[..i] && a[i] < b[i] {
        assert a'[..i - 1] == a[..i][1..] && b'[..i - 1] == b[..i][1..];
        assert a'[i - 1] < b'[i - 1];
      }
    } else if a != [] && b != [] {
      assert a[..0] == b[..0];
      if i :| 0 <= i < |a| && i < |b| && a[..i] == b[..i] && a[i] < b[i] {
        assert i > 0 ==> a[..i][0] == b[..i][0];
      }
    }
  }

  lemma LexTotal(a: bytes, b: bytes)
    ensures LexLeq(a, b) || LexLeq(b, a)
  {
  }

  ghost predicate LexSorted(ids: seq<Blob>) {
    forall i :: 0 <= i < |ids| - 1 ==> LexLeq(ids[i], ids[i + 1])
  }

  ghost predicate Distinct<T>(xs: seq<T>) {
    forall i, j :: 0 <= i < j < |xs| ==> xs[i] != xs[j]
  }

  /** The first loop of `Range`: later rows replace earlier ones. */
  method IndexBySeq(es: seq<Entry>) returns (byseq: map<uint64, Entry>)
    ensures forall n: uint64 :: LastAt(es, n) == if n in byseq then Some(byseq[n]) else None
  {
    byseq := map[];
    for i := 0 to |es|
      invariant forall n: uint64 :: LastAt(es[..i], n) == if n in byseq then Some(byseq[n]) else None
    {
      byseq := byseq[es[i].seqNo := es[i]];
      assert es[..i + 1][..i] == es[..i];
    }
    assert es[..|es|] == es;
  }

  class Store {
    var entries: Table

    constructor ()
      ensures entries == map[]
    {
      entries := map[];
    }

    ghost function Rows(id: Blob): seq<Entry> reads this {
      RowsIn(entries, id)
    }

    method Append(e: Entry)
      modifies this
      ensures entries == old(entries)[e.tenantID := old(Rows(e.tenantID)) + [e]]
    {
      var es := if e.tenantID in entries then entries[e.tenantID] else [];
      entries := entries[e.tenantID := es + [e]];
    }

    /** Sorts the tenant's rows in place and returns them. */
    method Tenant(id: Blob) returns (es: seq<Entry>)
      modifies this
      ensures es == Rows(id) && SortedBySeq(es) && multiset(es) == multiset(old(Rows(id))) && |es| == |old(Rows(id))|
      ensures entries == if id in old(entries) then old(entries)[id := es] else old(entries)
    {
      if id !in entries {
        return [];
      }
      es := SortSlice(entries[id]);
      assert |es| == |multiset(es)| == |multiset(entries[id])| == |entries[id]|;
      entries := entries[id := es];
    }

    /** A range that ends right before its start is complete and empty. */
    method Range(id: Blob, start: uint64, end: uint64) returns (out: seq<Entry>, complete: bool)
      requires start <= end + 1 < TWO_TO_THE_64
      ensures (out, complete) == RangeOf(Rows(id), start, end)
    {
      hide LastAt;
      var es := if id in entries then entries[id] else [];
      var byseq := IndexBySeq(es);
      out := [];
      var n := start;
      while n <= end
        invariant start <= n <= end + 1 && |out| == n - start
        invariant forall i :: 0 <= i < |out| ==> LastAt(es, start + i) == Some(out[i])
        decreases end + 1 - n
      {
        if n !in byseq {
          RangeIsDetermined(es, start, end, out, false);
          return out, false;
        }
        out := out + [byseq[n]];
        n := n + 1;
      }
      RangeIsDetermined(es, start, end, out, true);
      complete := true;
    }

    /** The tenant keeps its key even when no row is left. */
    method Delete(tenantID: Blob, n: uint64)
      modifies this
      ensures entries == old(entries)[tenantID := Without(old(Rows(tenantID)), n)]
    {
      var es := if tenantID in entries then entries[tenantID] else [];
      var out := [];
      for i := 0 to |es|
        invariant out == Without(es[..i], n)
      {
        assert es[..i + 1][..i] == es[..i];
        if es[i].seqNo != n {
          out := out + [es[i]];
        }
      }
      assert es[..|es|] == es;
      entries := entries[tenantID := out];
    }

    /** All tenant ids, each once, in lexicographic order. */
    method Tenants() returns (ids: seq<Blob>)
      ensures LexSorted(ids) && Distinct(ids)
      ensures forall id :: id in ids <==> id in entries
    {
      hide LexLeq;
      ids := [];
      var todo := entries.Keys;
      while todo != {}
        invariant todo <= entries.Keys
        invariant forall id :: id in ids <==> id in entries && id !in todo
        invariant LexSorted(ids) && Distinct(ids)
        decreases |todo|
      {
        var id :| id in todo;
        todo := todo - {id};
        var k := 0;
        while k < |ids| && LexLeq(ids[k], id)
          invariant 0 <= k <= |ids|
          invariant k > 0 ==> LexLeq(ids[k - 1], id)
        {
          k := k + 1;
        }
        if k < |ids| { LexTotal(ids[k], id); }
        ids := ids[..k] + [id] + ids[k..];
      }
    }
  }

  // ---- The one-at-a-time sealer ----

  datatype Head = Head(nextSeq: uint64, prevHash: Blob)

  ghost predicate SyncedAt(h: Hasher, heads: map<Blob, Head>, table: Table, t: Blob) {
    var es := RowsIn(table, t);
    && Linked(h, t, es) && Owned(t, es) && |es| < TWO_TO_THE_64
    && (t in heads ==> heads[t] == Head(|es|, HeadHash(h, t, es)))
    && (t !in heads ==> es == [])
  }

  class Sealer {
    const h: Hasher
    const store: Store
    var heads: map<Blob, Head>

    constructor (h: Hasher, store: Store)
      ensures this.h == h && this.store == store && heads == map[]
    {
      this.h, this.store, heads := h, store, map[];
    }

    /** The sealer is the store's only writer and nobody else has touched the rows. */
    ghost predicate Synced() reads this, store {
      forall t: Blob :: SyncedAt(h, heads, store.entries, t)
    }

    method Seal(tenantID: Blob, r: Record) returns (e: Entry)
      requires tenantID in heads ==> heads[tenantID].nextSeq < TWO_TO_THE_64 - 1
      modifies this, store
      ensures var hd := if tenantID in old(heads) then old(heads[tenantID]) else Head(0, Genesis(h, tenantID));
              && e == SealOne(h, tenantID, hd.nextSeq, hd.prevHash, r)
              && heads == old(heads)[tenantID := Head(hd.nextSeq + 1, e.entryHash)]
      ensures store.entries == old(store.entries)[tenantID := old(store.Rows(tenantID)) + [e]]
      ensures old(Synced()) ==>
                && Synced()
                && |old(store.Rows(tenantID))| + 1 < TWO_TO_THE_64
                && store.Rows(tenantID) == Sealed(h, tenantID, Payloads(old(store.Rows(tenantID))) + [r])
    {
      hide Encode;
      ghost var before, heads0, table0, synced := store.Rows(tenantID), heads, store.entries, Synced();
      if tenantID !in heads {
        heads := heads[tenantID := Head(0, Genesis(h, tenantID))];
      }
      var head := heads[tenantID];
      var leaf := EntryLeaf(h, tenantID, head.nextSeq, r.eventTime, r.ingestTime, r.source, r.raw);
      var entryHash := ChainHash(h, head.prevHash, leaf);
      e := Entry(tenantID, head.nextSeq, r.eventTime, r.ingestTime, r.source, r.raw, head.prevHash, entryHash);
      store.Append(e);
      heads := heads[tenantID := Head(head.nextSeq + 1, entryHash)];
      if synced {
        assert SyncedAt(h, heads0, table0, tenantID);
        SealedByOne(h, tenantID, before, r);
        forall t: Blob ensures SyncedAt(h, heads, store.entries, t) {
          assert SyncedAt(h, heads0, table0, t);
          hide Linked, HeadHash, Genesis;
        }
      }
    }
  }

  lemma SealedByOne(h: Hasher, tenant: Blob, es: seq<Entry>, r: Record)
    requires |es| < TWO_TO_THE_64 - 1 && Linked(h, tenant, es) && Owned(tenant, es)
    ensures var e := SealOne(h, tenant, |es|, HeadHash(h, tenant, es), r);
            && es + [e] == Sealed(h, tenant, Payloads(es) + [r])
            && Linked(h, tenant, es + [e]) && Owned(tenant, es + [e])
            && HeadHash(h, tenant, es + [e]) == e.entryHash
  {
    hide Encode;
    LinkedIffSealed(h, tenant, es);
    SealedNext(h, tenant, Payloads(es), r);
    SealedIsLinked(h, tenant, Payloads(es) + [r]);
  }
}
