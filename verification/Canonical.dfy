/** The canonical, versioned encoding that every component agrees on byte for byte. */
module Canonical {
  import opened Bytes
  import opened Hashing

  const CANON_VERSION: uint64 := 1

  const DOMAIN_ENTRY: Blob := Ascii("mlog/entry/v1")
  const DOMAIN_GENESIS: Blob := Ascii("mlog/genesis/v1")
  const DOMAIN_CHECKPOINT: Blob := Ascii("mlog/checkpoint/v1")

  /** A field is written as its length, then its bytes. */
  function Field(b: Blob): bytes {
    BE64(|b|) + b
  }

  function Encode(fields: seq<Blob>): bytes {
    if fields == [] then [] else Field(fields[0]) + Encode(fields[1..])
  }

  /** `uint64(n)` for a signed `n`: two's complement. */
  function Unsigned(n: int64): (u: uint64)
    ensures (u - n) % TWO_TO_THE_64 == 0
  {
    if n < 0 then n + TWO_TO_THE_64 else n
  }

  // ---- The encoder ----

  class Encoder {
    var buf: bytes
    ghost var fields: seq<Blob>

    ghost predicate Valid() reads this {
      buf == Encode(fields)
    }

    constructor (domain: Blob)
      ensures Valid() && fields == [domain]
    {
      buf := BE64(|domain|) + domain;
      fields := [domain];
      assert Encode([domain]) == Field(domain) + Encode([]);
    }

    method Bytes(b: Blob)
      requires Valid()
      modifies this
      ensures Valid() && fields == old(fields) + [b]
    {
      var l := BE64(|b|);
      buf := buf + l;
      buf := buf + b;
      EncodeAppend(fields, b);
      fields := fields + [b];
    }

    method Uint(n: uint64)
      requires Valid()
      modifies this
      ensures Valid() && fields == old(fields) + [BE64(n)]
    {
      Bytes(BE64(n));
    }

    method Int(n: int64)
      requires Valid()
      modifies this
      ensures Valid() && fields == old(fields) + [BE64(Unsigned(n))]
    {
      Uint(Unsigned(n));
    }

    method Raw() returns (raw: bytes)
      requires Valid()
      ensures raw == Encode(fields)
    {
      raw := buf;
    }

    method Sum(h: Hasher) returns (sum: Digest)
      requires Valid()
      ensures sum == h(Encode(fields))
    {
      sum := h(buf);
    }
  }

  lemma {:induction false} EncodeAppend(fields: seq<Blob>, b: Blob)
    ensures Encode(fields + [b]) == Encode(fields) + Field(b)
  {
    if fields == [] {
      assert Encode([b]) == Field(b) + Encode([]);
    } else {
      EncodeAppend(fields[1..], b);
      assert (fields + [b])[1..] == fields[1..] + [b];
    }
  }

  // ---- What is hashed ----

  function GenesisFields(tenantID: Blob): seq<Blob> {
    [DOMAIN_GENESIS, tenantID]
  }

  function EntryFields(tenantID: Blob, seqNo: uint64, eventTime: int64, ingestTime: int64, source: Blob, raw: Blob)
    : seq<Blob>
  {
    [DOMAIN_ENTRY, BE64(CANON_VERSION), tenantID, BE64(seqNo),
     BE64(Unsigned(eventTime)), BE64(Unsigned(ingestTime)), source, raw]
  }

  function CheckpointFields(tenantID: Blob, seqStart: uint64, seqEnd: uint64, entryCount: uint64,
                            headHash: Blob, merkleRoot: Blob, prevCheckpointHash: Blob, anchoredAt: int64)
    : seq<Blob>
  {
    [DOMAIN_CHECKPOINT, BE64(CANON_VERSION), tenantID, BE64(seqStart), BE64(seqEnd), BE64(entryCount),
     headHash, merkleRoot, prevCheckpointHash, BE64(Unsigned(anchoredAt))]
  }

  function Genesis(h: Hasher, tenantID: Blob): Digest {
    h(Encode(GenesisFields(tenantID)))
  }

  function EntryLeaf(h: Hasher, tenantID: Blob, seqNo: uint64, eventTime: int64, ingestTime: int64,
                     source: Blob, raw: Blob): Digest
  {
    h(Encode(EntryFields(tenantID, seqNo, eventTime, ingestTime, source, raw)))
  }

  function ChainHash(h: Hasher, prevHash: Blob, leaf: Digest): Digest {
    h(prevHash + leaf)
  }

  function CheckpointID(h: Hasher, tenantID: Blob, seqStart: uint64, seqEnd: uint64, entryCount: uint64,
                        headHash: Blob, merkleRoot: Blob, prevCheckpointHash: Blob, anchoredAt: int64): Digest
  {
    h(Encode(CheckpointFields(tenantID, seqStart, seqEnd, entryCount,
                              headHash, merkleRoot, prevCheckpointHash, anchoredAt)))
  }

  /** The encoder calls that make a tenant's genesis. */
  method SumGenesis(h: Hasher, tenantID: Blob) returns (genesis: Digest)
    ensures genesis == Genesis(h, tenantID)
  {
    var e := new Encoder(DOMAIN_GENESIS);
    e.Bytes(tenantID);
    assert e.fields == GenesisFields(tenantID);
    genesis := e.Sum(h);
  }

  /** The encoder calls that make an entry leaf. */
  method SumEntryLeaf(h: Hasher, tenantID: Blob, seqNo: uint64, eventTime: int64, ingestTime: int64,
                      source: Blob, raw: Blob) returns (leaf: Digest)
    ensures leaf == EntryLeaf(h, tenantID, seqNo, eventTime, ingestTime, source, raw)
  {
    var e := new Encoder(DOMAIN_ENTRY);
    e.Uint(CANON_VERSION);
    e.Bytes(tenantID);
    e.Uint(seqNo);
    e.Int(eventTime);
    e.Int(ingestTime);
    e.Bytes(source);
    e.Bytes(raw);
    assert e.fields == EntryFields(tenantID, seqNo, eventTime, ingestTime, source, raw);
    leaf := e.Sum(h);
  }

  /** The encoder calls that make a checkpoint id. */
  method SumCheckpointID(h: Hasher, tenantID: Blob, seqStart: uint64, seqEnd: uint64, entryCount: uint64,
                         headHash: Blob, merkleRoot: Blob, prevCheckpointHash: Blob, anchoredAt: int64)
    returns (id: Digest)
    ensures id == CheckpointID(h, tenantID, seqStart, seqEnd, entryCount,
                               headHash, merkleRoot, prevCheckpointHash, anchoredAt)
  {
    var e := new Encoder(DOMAIN_CHECKPOINT);
    e.Uint(CANON_VERSION);
    e.Bytes(tenantID);
    e.Uint(seqStart);
    e.Uint(seqEnd);
    e.Uint(entryCount);
    assert e.fields
        == [DOMAIN_CHECKPOINT, BE64(CANON_VERSION), tenantID, BE64(seqStart), BE64(seqEnd), BE64(entryCount)];
    e.Bytes(headHash);
    e.Bytes(merkleRoot);
    e.Bytes(prevCheckpointHash);
    e.Int(anchoredAt);
    assert e.fields == CheckpointFields(tenantID, seqStart, seqEnd, entryCount,
                                        headHash, merkleRoot, prevCheckpointHash, anchoredAt);
    id := e.Sum(h);
  }

  // ---- The layout, byte for byte ----

  /** From any position on. */
  lemma EncodeEach(f: seq<Blob>)
    ensures forall k :: 0 <= k < |f| ==> Encode(f[k..]) == Field(f[k]) + Encode(f[k + 1..])
    ensures Encode(f[|f|..]) == [] && f[0..] == f
  {
    hide Field;
    forall k | 0 <= k < |f| ensures Encode(f[k..]) == Field(f[k]) + Encode(f[k + 1..]) {
      assert f[k..][1..] == f[k + 1..];
    }
  }

  /** What every component that hashes an entry has to agree on: tag, version, tenant, number, event time, ingest
      time, source, raw line, each behind its length in eight bytes. */
  lemma EntryLayout(t: Blob, n: uint64, ev: int64, ing: int64, src: Blob, raw: Blob)
    ensures Encode(EntryFields(t, n, ev, ing, src, raw))
         == Field(Ascii("mlog/entry/v1")) + (Field(BE64(1)) + (Field(t) + (Field(BE64(n))
            + (Field(BE64(Unsigned(ev))) + (Field(BE64(Unsigned(ing))) + (Field(src) + Field(raw)))))))
  {
    hide Encode, Field, Ascii, BE64, Unsigned;
    var f := EntryFields(t, n, ev, ing, src, raw);
    EncodeEach(f);
    assert f[1] == BE64(1) && f[2] == t && f[3] == BE64(n) && f[4] == BE64(Unsigned(ev)) && f[5] == BE64(Unsigned(ing));
    assert f[6] == src && f[7] == raw && |f| == 8;
    assert Encode(f[2..]) == Field(t) + (Field(BE64(n)) + Encode(f[4..]));
    assert Field(raw) + [] == Field(raw);
    assert Encode(f[4..]) == Field(f[4]) + (Field(f[5]) + (Field(src) + Field(raw)));
  }

  /** And on a checkpoint: tag, version, tenant, first and last number, count, head, root, predecessor, time. */
  lemma CheckpointLayout(t: Blob, s: uint64, e: uint64, c: uint64, hd: Blob, rt: Blob, pv: Blob, at: int64)
    ensures Encode(CheckpointFields(t, s, e, c, hd, rt, pv, at))
         == Field(Ascii("mlog/checkpoint/v1")) + (Field(BE64(1)) + (Field(t) + (Field(BE64(s)) + (Field(BE64(e))
            + (Field(BE64(c)) + (Field(hd) + (Field(rt) + (Field(pv) + Field(BE64(Unsigned(at)))))))))))
  {
    hide Encode, Field, Ascii, BE64, Unsigned;
    var f := CheckpointFields(t, s, e, c, hd, rt, pv, at);
    EncodeEach(f);
    assert f[1] == BE64(1) && f[2] == t && f[3] == BE64(s) && f[4] == BE64(e) && f[5] == BE64(c);
    assert f[6] == hd && f[7] == rt && f[8] == pv && f[9] == BE64(Unsigned(at)) && |f| == 10;
    assert Encode(f[2..]) == Field(t) + (Field(f[3]) + (Field(f[4]) + (Field(f[5]) + Encode(f[6..]))));
    assert Field(f[9]) + [] == Field(f[9]);
    assert Encode(f[6..]) == Field(hd) + (Field(rt) + (Field(pv) + Field(f[9])));
  }

  // ---- Injectivity ----

  /** The raw bytes determine the whole field sequence, the domain tag included. */
  lemma {:induction false} EncodeInjective(fs: seq<Blob>, gs: seq<Blob>)
    requires Encode(fs) == Encode(gs)
    ensures fs == gs
  {
    if fs == [] || gs == [] {
    } else {
      var e := Encode(fs);
      assert BE64(|fs[0]|) == e[..8] == BE64(|gs[0]|);
      BE64Injective(|fs[0]|, |gs[0]|);
      var n := 8 + |fs[0]|;
      assert fs[0] == e[8..n] == gs[0];
      assert Encode(fs[1..]) == e[n..] == Encode(gs[1..]);
      EncodeInjective(fs[1..], gs[1..]);
    }
  }

  /** Hashing a structure under one tag never hashes the bytes of a structure under another. */
  lemma DomainsDisjoint(fs: seq<Blob>, gs: seq<Blob>)
    requires fs != [] && gs != [] && fs[0] != gs[0]
    ensures Encode(fs) != Encode(gs)
  {
    if Encode(fs) == Encode(gs) { EncodeInjective(fs, gs); }
  }

  lemma IntInjective(m: int64, n: int64)
    requires BE64(Unsigned(m)) == BE64(Unsigned(n))
    ensures m == n
  {
    BE64Injective(Unsigned(m), Unsigned(n));
  }

  lemma GenesisInjective(t: Blob, t': Blob)
    ensures Encode(GenesisFields(t)) == Encode(GenesisFields(t')) <==> t == t'
  {
    if Encode(GenesisFields(t)) == Encode(GenesisFields(t')) {
      EncodeInjective(GenesisFields(t), GenesisFields(t'));
      assert GenesisFields(t)[1] == GenesisFields(t')[1];
    }
  }

  /** Two tenants' chains start from the same hash only if they are the same tenant. */
  lemma GenesisBindsTenant(h: Hasher, t: Blob, t': Blob)
    requires CollisionFree(h, [Encode(GenesisFields(t)), Encode(GenesisFields(t'))])
    ensures Genesis(h, t) == Genesis(h, t') <==> t == t'
  {
    hide Encode;
    var trail := [Encode(GenesisFields(t)), Encode(GenesisFields(t'))];
    assert trail[0] in trail && trail[1] in trail;
    GenesisInjective(t, t');
  }

  lemma EntryInjective(t: Blob, n: uint64, ev: int64, ing: int64, src: Blob, raw: Blob,
                       t': Blob, n': uint64, ev': int64, ing': int64, src': Blob, raw': Blob)
    ensures Encode(EntryFields(t, n, ev, ing, src, raw)) == Encode(EntryFields(t', n', ev', ing', src', raw'))
       <==> t == t' && n == n' && ev == ev' && ing == ing' && src == src' && raw == raw'
  {
    var fs, gs := EntryFields(t, n, ev, ing, src, raw), EntryFields(t', n', ev', ing', src', raw');
    if Encode(fs) == Encode(gs) {
      EncodeInjective(fs, gs);
      assert forall i :: 0 <= i < 8 ==> fs[i] == gs[i];
      assert fs[2] == t && fs[3] == BE64(n) && fs[6] == src && fs[7] == raw;
      BE64Injective(n, n');
      assert fs[4] == gs[4];
      IntInjective(ev, ev');
      assert fs[5] == gs[5];
      IntInjective(ing, ing');
    }
  }

  lemma CheckpointInjective(t: Blob, s: uint64, e: uint64, c: uint64, hd: Blob, rt: Blob, pv: Blob, at: int64,
                            t': Blob, s': uint64, e': uint64, c': uint64, hd': Blob, rt': Blob, pv': Blob, at': int64)
    ensures Encode(CheckpointFields(t, s, e, c, hd, rt, pv, at))
         == Encode(CheckpointFields(t', s', e', c', hd', rt', pv', at'))
       <==> t == t' && s == s' && e == e' && c == c' && hd == hd' && rt == rt' && pv == pv' && at == at'
  {
    var fs, gs := CheckpointFields(t, s, e, c, hd, rt, pv, at), CheckpointFields(t', s', e', c', hd', rt', pv', at');
    if Encode(fs) == Encode(gs) {
      EncodeInjective(fs, gs);
      assert fs[2] == gs[2] && fs[3] == gs[3] && fs[4] == gs[4] && fs[5] == gs[5];
      BE64Injective(s, s');
      BE64Injective(e, e');
      BE64Injective(c, c');
      assert fs[6] == gs[6] && fs[7] == gs[7] && fs[8] == gs[8] && fs[9] == gs[9];
      IntInjective(at, at');
    }
  }
}
