/** The independent witnesses: immutable checkpoint storage, notaries, and the ledger of their proofs. */
module Witness {
  import opened Bytes
  import opened Checkpoints

  // ---- Notaries and proofs ----

  datatype Proof = Proof(notary: Blob, format: Blob, token: bytes)

  /** A notary as the anchorer and the verifier see it. */
  datatype Notary = Notary(name: Blob, stamp: bytes -> Proof, check: (Proof, bytes) -> bool)

  /** A notary accepts its own proofs of checkpoint ids, which are 32 bytes long. */
  ghost predicate Reliable(n: Notary) {
    forall id: Digest :: n.stamp(id).notary == n.name && n.check(n.stamp(id), id)
  }

  /** Asked about `y`, the proof answers as a proof for `id` should. */
  predicate Genuine(n: Notary, p: Proof, id: bytes, y: bytes) {
    n.check(p, y) <==> y == id
  }

  /** The HMAC notary, over any keyed hash `mac`. */
  function MockNotary(mac: (Blob, bytes) -> Digest, name: Blob, secret: Blob): (n: Notary)
    ensures Reliable(n)
    ensures forall x: bytes, y: bytes :: n.check(n.stamp(x), y) <==> mac(secret, x) == mac(secret, y)
    ensures forall x: bytes, y: bytes :: Genuine(n, n.stamp(x), x, y) <==> (mac(secret, x) == mac(secret, y) ==> x == y)
  {
    Notary(name, (id: bytes) => Proof(name, Ascii("mock-hmac"), mac(secret, id)),
           (p: Proof, id: bytes) => p.token == mac(secret, id))
  }

  // ---- The ledger ----

  /** The decimal digits of `n`. */
  function Decimal(n: nat): (d: bytes)
    ensures |d| >= 1 && (|d| == 1 <==> n < 10)
    ensures forall c :: c in d ==> 0x30 <= c <= 0x39
  {
    if n < 10 then [0x30 + n] else Decimal(n / 10) + [0x30 + n % 10]
  }

  lemma {:induction false} DecimalInjective(m: nat, n: nat)
    requires Decimal(m) == Decimal(n)
    ensures m == n
  {
    var a, b := Decimal(m), Decimal(n);
    assert a[|a| - 1] == 0x30 + m % 10 && b[|b| - 1] == 0x30 + n % 10;
    if m >= 10 && n >= 10 {
      assert a[..|a| - 1] == Decimal(m / 10) && b[..|b| - 1] == Decimal(n / 10);
      DecimalInjective(m / 10, n / 10);
    }
  }

  /** The number that digits stand for. */
  function FromDecimal(d: bytes): int {
    if d == [] then 0 else 10 * FromDecimal(d[..|d| - 1]) + (d[|d| - 1] as int - 0x30)
  }

  lemma {:induction false} DecimalValue(n: nat)
    ensures FromDecimal(Decimal(n)) == n
  {
    var d := Decimal(n);
    if n >= 10 {
      assert d[..|d| - 1] == Decimal(n / 10);
      DecimalValue(n / 10);
    } else {
      assert d[..0] == [];
    }
  }

  const SLASH: byte := 0x2f

  function LedgerKey(tenantID: Blob, seqEnd: uint64): bytes {
    tenantID + [SLASH] + Decimal(seqEnd)
  }

  lemma NoSlashAfter(t: bytes, d: bytes, i: nat)
    requires |t| < i < |t| + 1 + |d|
    requires forall c :: c in d ==> 0x30 <= c <= 0x39
    ensures (t + [SLASH] + d)[i] != SLASH
  {
    assert (t + [SLASH] + d)[i] == d[i - |t| - 1] && d[i - |t| - 1] in d;
  }

  /** The key determines tenant and number, even for tenant ids that contain a slash. */
  lemma LedgerKeyInjective(t: Blob, e: uint64, t': Blob, e': uint64)
    requires LedgerKey(t, e) == LedgerKey(t', e')
    ensures t == t' && e == e'
  {
    hide Decimal;
    var k, d, d' := LedgerKey(t, e), Decimal(e), Decimal(e');
    assert k[|t|] == SLASH && k[|t'|] == SLASH;
    if |t| < |t'| {
      NoSlashAfter(t, d, |t'|);
    }
    if |t'| < |t| {
      NoSlashAfter(t', d', |t|);
    }
    assert t == k[..|t|] == t' && d == k[|t| + 1..] == d';
    DecimalInjective(e, e');
  }

  type Ledger = map<bytes, seq<Proof>>

  /** The proofs held for a tenant's checkpoint ending at `seqEnd`. */
  function Held(m: Ledger, tenantID: Blob, seqEnd: uint64): seq<Proof> {
    var k := LedgerKey(tenantID, seqEnd);
    if k in m then m[k] else []
  }

  class ProofLedger {
    var m: Ledger

    constructor ()
      ensures m == map[]
    {
      m := map[];
    }

    method Add(tenantID: Blob, seqEnd: uint64, p: Proof)
      modifies this
      ensures forall t: Blob, e: uint64 ::
                Held(m, t, e) ==
                if t == tenantID && e == seqEnd then old(Held(m, t, e)) + [p] else old(Held(m, t, e))
    {
      var k := LedgerKey(tenantID, seqEnd);
      forall t: Blob, e: uint64 | LedgerKey(t, e) == k ensures t == tenantID && e == seqEnd {
        LedgerKeyInjective(t, e, tenantID, seqEnd);
      }
      m := m[k := (if k in m then m[k] else []) + [p]];
    }

    method Get(tenantID: Blob, seqEnd: uint64) returns (ps: seq<Proof>)
      ensures ps == Held(m, tenantID, seqEnd)
    {
      var k := LedgerKey(tenantID, seqEnd);
      ps := if k in m then m[k] else [];
    }
  }

  // ---- Write-once checkpoint storage ----

  datatype PutResult = PutDone | ErrImmutable | PutFailed

  type Records = map<uint64, Checkpoint>

  ghost predicate AscendingEnds(cps: seq<Checkpoint>) {
    forall i, j :: 0 <= i < j < |cps| ==> cps[i].seqEnd < cps[j].seqEnd
  }

  /** `cps` are exactly the records, in order of their last sequence number. */
  ghost predicate IsListing(m: Records, cps: seq<Checkpoint>) {
    && AscendingEnds(cps)
    && forall cp :: cp in cps <==> cp.seqEnd in m && m[cp.seqEnd] == cp
  }

  ghost predicate Keyed(m: Records) {
    forall k :: k in m ==> m[k].seqEnd == k
  }

  lemma ListingInit(m: Records, cps: seq<Checkpoint>)
    requires IsListing(m, cps) && cps != []
    ensures IsListing(m - {cps[|cps| - 1].seqEnd}, cps[..|cps| - 1])
  {
    var init, last := cps[..|cps| - 1], cps[|cps| - 1];
    assert cps == init + [last];
    assert forall c :: c in init ==> c.seqEnd < last.seqEnd;
    assert forall c :: c in cps <==> c in init || c == last;
  }

  lemma ListingLast(m: Records, a: seq<Checkpoint>, b: seq<Checkpoint>)
    requires IsListing(m, a) && IsListing(m, b) && a != []
    ensures b != [] && a[|a| - 1] == b[|b| - 1]
  {
    var x := a[|a| - 1];
    assert x in a && x in b;
    var y := b[|b| - 1];
    assert y in b && y in a;
    assert y.seqEnd <= x.seqEnd <= y.seqEnd;
  }

  lemma {:induction false} ListingIsUnique(m: Records, a: seq<Checkpoint>, b: seq<Checkpoint>)
    requires IsListing(m, a) && IsListing(m, b)
    ensures a == b
    decreases |a|
  {
    if a != [] {
      ListingLast(m, a, b);
      ListingInit(m, a);
      ListingInit(m, b);
      ListingIsUnique(m - {a[|a| - 1].seqEnd}, a[..|a| - 1], b[..|b| - 1]);
      assert a == a[..|a| - 1] + [a[|a| - 1]] && b == b[..|b| - 1] + [b[|b| - 1]];
    } else if b != [] {
      ListingLast(m, b, a);
    }
  }

  /** Appending a checkpoint that ends after all others. */
  lemma ListingAppend(m: Records, cps: seq<Checkpoint>, cp: Checkpoint)
    requires IsListing(m, cps) && Keyed(m)
    requires cps != [] ==> cps[|cps| - 1].seqEnd < cp.seqEnd
    ensures cp.seqEnd !in m && Keyed(m[cp.seqEnd := cp])
    ensures IsListing(m[cp.seqEnd := cp], cps + [cp])
  {
    var m', cps' := m[cp.seqEnd := cp], cps + [cp];
    assert forall c :: c in cps ==> c.seqEnd < cp.seqEnd;
    assert forall k :: k in m ==> m[k] in cps;
    forall c ensures c in cps' <==> c.seqEnd in m' && m'[c.seqEnd] == c {
      assert c in cps' <==> c in cps || c == cp;
    }
  }

  class MemStore {
    var records: map<Blob, Records>

    constructor ()
      ensures records == map[] && Valid()
    {
      records := map[];
    }

    ghost predicate Valid() reads this {
      forall t :: t in records ==> Keyed(records[t])
    }

    ghost function Of(tenantID: Blob): Records reads this {
      if tenantID in records then records[tenantID] else map[]
    }

    /** Never overwrites. */
    method Put(cp: Checkpoint) returns (r: PutResult)
      requires Valid()
      modifies this
      ensures Valid()
      ensures r == if cp.seqEnd in old(Of(cp.tenantID)) then ErrImmutable else PutDone
      ensures Of(cp.tenantID) ==
              if cp.seqEnd in old(Of(cp.tenantID)) then old(Of(cp.tenantID)) else old(Of(cp.tenantID))[cp.seqEnd := cp]
      ensures forall t :: t != cp.tenantID ==> Of(t) == old(Of(t))
    {
      if cp.tenantID !in records {
        records := records[cp.tenantID := map[]];
      }
      var byTenant := records[cp.tenantID];
      if cp.seqEnd in byTenant {
        return ErrImmutable;
      }
      records := records[cp.tenantID := byTenant[cp.seqEnd := cp]];
      r := PutDone;
    }

    method Get(tenantID: Blob, seqEnd: uint64) returns (r: Option<Checkpoint>)
      ensures r == if seqEnd in Of(tenantID) then Some(Of(tenantID)[seqEnd]) else None
    {
      r := if tenantID in records && seqEnd in records[tenantID] then Some(records[tenantID][seqEnd]) else None;
    }

    /** Collects the tenant's records in map order, then sorts them by last sequence number. */
    method All(tenantID: Blob) returns (out: seq<Checkpoint>)
      requires Valid()
      ensures IsListing(Of(tenantID), out)
    {
      var byTenant := if tenantID in records then records[tenantID] else map[];
      var todo := byTenant.Keys;
      out := [];
      while todo != {}
        invariant todo <= byTenant.Keys && AscendingEnds(out)
        invariant forall cp :: cp in out <==> cp.seqEnd in byTenant && cp.seqEnd !in todo && byTenant[cp.seqEnd] == cp
        decreases |todo|
      {
        var e :| e in todo;
        todo := todo - {e};
        out := InsertByEnd(out, byTenant[e]);
      }
    }
  }

  function InsertByEnd(cps: seq<Checkpoint>, cp: Checkpoint): (r: seq<Checkpoint>)
    requires AscendingEnds(cps) && forall c :: c in cps ==> c.seqEnd != cp.seqEnd
    ensures AscendingEnds(r) && forall c :: c in r <==> c in cps || c == cp
  {
    if cps == [] || cps[|cps| - 1].seqEnd < cp.seqEnd then cps + [cp]
    else
      var last := cps[|cps| - 1];
      var init := InsertByEnd(cps[..|cps| - 1], cp);
      assert forall i :: 0 <= i < |init| ==> init[i] in cps[..|cps| - 1] || init[i] == cp;
      init + [last]
  }
}
