/** The codec as the program runs it: a growing buffer, a read cursor, and recursion over both. */
module OtsCodec {
  import opened Bytes
  import opened Merkle
  import opened OtsWire

  // ---- Writing ----

  class Buffer {
    var data: bytes

    constructor ()
      ensures data == []
    {
      data := [];
    }

    method WriteByte(b: byte)
      modifies this
      ensures data == old(data) + [b]
    {
      data := data + [b];
    }

    method Write(b: bytes)
      modifies this
      ensures data == old(data) + b
    {
      data := data + b;
    }
  }

  method WriteVaruint(buf: Buffer, n: nat)
    modifies buf
    ensures buf.data == old(buf.data) + Varuint(n)
  {
    var n := n;
    ghost var all := old(buf.data) + Varuint(n);
    while n >= 0x80
      invariant buf.data + Varuint(n) == all
    {
      buf.WriteByte(n % 128 + 128);
      n := n / 128;
    }
    buf.WriteByte(n);
  }

  method WriteVarbytes(buf: Buffer, b: bytes)
    modifies buf
    ensures buf.data == old(buf.data) + Varbytes(b)
  {
    WriteVaruint(buf, |b|);
    buf.Write(b);
  }

  method SerializeOp(buf: Buffer, o: Op)
    modifies buf
    ensures buf.data == old(buf.data) + PrintOp(o)
  {
    buf.WriteByte(o.tag);
    if o.tag == OP_APPEND || o.tag == OP_PREPEND {
      WriteVarbytes(buf, o.arg);
    }
  }

  method SerializeAttestation(buf: Buffer, a: Attestation)
    modifies buf
    ensures buf.data == old(buf.data) + PrintAttestation(a)
  {
    hide Varbytes, Varuint;
    buf.Write(a.tag);
    var body := new Buffer();
    if a.IsPending() {
      WriteVarbytes(body, a.uri);
    } else if a.IsBitcoin() {
      WriteVaruint(body, a.height);
    } else {
      body.Write(a.raw);
    }
    assert body.data == AttestationBody(a);
    WriteVarbytes(buf, body.data);
  }

  /** Attestations first, then operations; every edge but the last behind a fork marker. */
  method SerializeTimestamp(buf: Buffer, t: Timestamp)
    modifies buf
    ensures buf.data == old(buf.data) + PrintNode(t)
    decreases t
  {
    hide PrintEdges, PrintAttestation, PrintOp;
    var total := |t.attestations| + |t.ops|;
    var i := 0;
    ghost var all := old(buf.data) + PrintNode(t);
    assert t.attestations[0..] == t.attestations;
    for k := 0 to |t.attestations|
      invariant i == k
      invariant buf.data + PrintEdges(t.attestations[k..], t.ops) == all
    {
      PrintLeafAt(t.attestations, t.ops, k, buf.data);
      WriteMarker(buf, i, total);
      buf.WriteByte(ATTESTATION);
      SerializeAttestation(buf, t.attestations[k]);
      i := i + 1;
    }
    assert t.attestations[|t.attestations|..] == [] && t.ops[0..] == t.ops;
    for k := 0 to |t.ops|
      invariant i == |t.attestations| + k
      invariant buf.data + PrintEdges([], t.ops[k..]) == all
    {
      PrintEdgeAt(t.ops, k, buf.data);
      WriteMarker(buf, i, total);
      SerializeOp(buf, t.ops[k].o);
      assert t.ops[k] in t.ops;
      SerializeTimestamp(buf, t.ops[k].child);
      i := i + 1;
    }
    PrintNothing();
    assert t.ops[|t.ops|..] == [] && buf.data + [] == buf.data;
  }

  method WriteMarker(buf: Buffer, i: nat, total: nat)
    requires i < total
    modifies buf
    ensures buf.data == old(buf.data) + Marker(total - i)
  {
    if i < total - 1 {
      buf.WriteByte(FORK);
    }
  }

  lemma Regroup(data: bytes, marker: bytes, head: bytes, body: bytes, tail: bytes)
    ensures data + (marker + (head + body) + tail) == data + marker + head + body + tail
  {
  }

  lemma PrintLeafAt(atts: seq<Attestation>, ops: seq<Edge>, k: nat, data: bytes)
    requires k < |atts|
    ensures data + PrintEdges(atts[k..], ops)
         == data + Marker(|atts| + |ops| - k) + [ATTESTATION] + PrintAttestation(atts[k])
            + PrintEdges(atts[k + 1..], ops)
  {
    hide PrintAttestation, Marker, PrintEdges;
    var rest := atts[k..];
    assert rest[0] == atts[k] && rest[1..] == atts[k + 1..] && |rest| == |atts| - k;
    PrintFirstLeaf(rest, ops);
    Regroup(data, Marker(|rest| + |ops|), [ATTESTATION], PrintAttestation(atts[k]), PrintEdges(rest[1..], ops));
  }

  lemma PrintFirstLeaf(atts: seq<Attestation>, ops: seq<Edge>)
    requires atts != []
    ensures PrintEdges(atts, ops) == Marker(|atts| + |ops|) + PrintLeaf(atts[0]) + PrintEdges(atts[1..], ops)
  {
  }

  lemma PrintEdgeAt(ops: seq<Edge>, k: nat, data: bytes)
    requires k < |ops|
    ensures data + PrintEdges([], ops[k..])
         == data + Marker(|ops| - k) + PrintOp(ops[k].o) + PrintNode(ops[k].child) + PrintEdges([], ops[k + 1..])
  {
    hide PrintOp, PrintNode, Marker;
    assert ops[k..][1..] == ops[k + 1..];
    var marker, tail := Marker(|ops| - k), PrintEdges([], ops[k + 1..]);
    assert PrintEdges([], ops[k..]) == marker + PrintEdge(ops[k]) + tail;
    hide PrintEdges;
    Regroup(data, marker, PrintOp(ops[k].o), PrintNode(ops[k].child), tail);
  }

  lemma PrintNothing()
    ensures PrintEdges([], []) == []
  {
  }

  method SerializeFile(d: DetachedFile) returns (b: bytes)
    ensures b == PrintFile(d)
  {
    hide HEADER_MAGIC, PrintNode, Varuint;
    var buf := new Buffer();
    buf.Write(HEADER_MAGIC);
    WriteVaruint(buf, 1);
    buf.WriteByte(d.fileHashOp);
    buf.Write(d.ts.msg);
    SerializeTimestamp(buf, d.ts);
    b := buf.data;
  }

  // ---- 64-bit accumulation ----

  /** Bitwise or. */
  function Or(a: nat, b: nat): nat
    decreases a + b
  {
    if a == 0 then b else if b == 0 then a
    else (if a % 2 == 1 || b % 2 == 1 then 1 else 0) + 2 * Or(a / 2, b / 2)
  }

  /** `uint64(x) << shift`: bits beyond the word are lost. */
  function Shl64(x: nat, shift: nat): (r: nat)
    ensures r < TWO_TO_THE_64
  {
    (x * Pow2(shift)) % TWO_TO_THE_64
  }

  /** Below `2^s` and from `2^s` up there is nothing to merge: or is addition. */
  lemma {:induction false} OrDisjoint(a: nat, d: nat, s: nat)
    requires a < Pow2(s)
    ensures Or(a, d * Pow2(s)) == a + d * Pow2(s)
  {
    if s == 0 {
      assert a == 0;
    } else {
      var p := d * Pow2(s - 1);
      assert d * Pow2(s) == 2 * p;
      OrDisjoint(a / 2, d, s - 1);
      assert (2 * p) % 2 == 0 && 2 * p / 2 == p;
    }
  }

  lemma {:induction false} Pow2Add(i: nat, j: nat)
    ensures Pow2(i + j) == Pow2(i) * Pow2(j)
  {
    if i > 0 {
      Pow2Add(i - 1, j);
      assert Pow2(i + j) == 2 * Pow2(i - 1 + j);
      assert 2 * (Pow2(i - 1) * Pow2(j)) == (2 * Pow2(i - 1)) * Pow2(j);
    }
  }

  lemma Pow2Of8()
    ensures Pow2(8) == 256
  {
    assert Pow2(4) == 16;
  }

  lemma Pow2Of32()
    ensures Pow2(32) == 0x1_0000_0000
  {
    hide Pow2;
    Pow2Of8();
    Pow2Add(8, 8);
    Pow2Add(16, 16);
  }

  lemma Pow2Of64()
    ensures Pow2(64) == TWO_TO_THE_64
  {
    hide Pow2;
    Pow2Of32();
    Pow2Add(32, 32);
  }

  /** One step of the accumulator: or-ing a seven-bit group into place is addition modulo 2^64, also when
      the group is shifted partly or wholly out of the word. */
  lemma OrShiftAdds(acc: nat, x: nat, s: nat)
    requires acc < Pow2(s)
    ensures Or(acc % TWO_TO_THE_64, Shl64(x, s)) == (acc + x * Pow2(s)) % TWO_TO_THE_64
  {
    Pow2Of64();
    if s < 64 {
      Pow2Add(s, 64 - s);
      var lo, hi := Pow2(s), Pow2(64 - s);
      assert TWO_TO_THE_64 == lo * hi;
      ModOfMultiple(x, lo, hi);
      assert Shl64(x, s) == (x % hi) * lo;
      Below(acc, lo, hi);
      OrDisjoint(acc, x % hi, s);
      AddBelow(acc, x, lo, hi);
    } else {
      Pow2Add(64, s - 64);
      assert x * Pow2(s) == (x * Pow2(s - 64)) * TWO_TO_THE_64;
      MultipleVanishes(acc, x * Pow2(s - 64));
    }
  }

  lemma Below(acc: nat, lo: nat, hi: nat)
    requires acc < lo && hi >= 1
    ensures acc % (lo * hi) == acc
  {
    assert lo <= lo * hi;
  }

  lemma ModOfMultiple(x: nat, lo: nat, hi: nat)
    requires lo >= 1 && hi >= 1
    ensures lo * hi > 0 && (x * lo) % (lo * hi) == (x % hi) * lo
  {
    AddBelow(0, x, lo, hi);
  }

  lemma AtLeastOnce(k: nat, d: nat)
    requires k >= 1
    ensures k * d >= d
  {
    assert k * d == (k - 1) * d + d;
  }

  lemma DivModUnique(n: nat, d: nat, q: nat, r: nat)
    requires d > 0 && n == q * d + r && r < d
    ensures n % d == r
  {
    var q', r' := n / d, n % d;
    assert n == q' * d + r';
    assert (q' - q) * d == r - r' by { Difference(q', q, d); }
    if q' > q {
      AtLeastOnce(q' - q, d);
    } else if q > q' {
      AtLeastOnce(q - q', d);
      Difference(q, q', d);
    }
  }

  lemma Difference(a: int, b: int, d: int)
    ensures (a - b) * d == a * d - b * d
  {
  }

  lemma Spread(q: nat, hi: nat, r: nat, lo: nat)
    ensures (q * hi + r) * lo == q * (lo * hi) + r * lo
  {
    assert q * (lo * hi) == q * hi * lo;
  }

  lemma AddBelow(acc: nat, x: nat, lo: nat, hi: nat)
    requires acc < lo && hi >= 1
    ensures lo * hi > 0 && (acc + x * lo) % (lo * hi) == acc + (x % hi) * lo
  {
    var q, r := x / hi, x % hi;
    Spread(q, hi, r, lo);
    AtLeastOnce(hi - r, lo);
    Difference(hi, r, lo);
    AtLeastOnce(hi, lo);
    DivModUnique(acc + x * lo, lo * hi, q, acc + r * lo);
  }

  lemma MultipleVanishes(acc: nat, k: nat)
    ensures (k * TWO_TO_THE_64) % TWO_TO_THE_64 == 0
    ensures (acc + k * TWO_TO_THE_64) % TWO_TO_THE_64 == acc % TWO_TO_THE_64
    ensures Or(acc % TWO_TO_THE_64, 0) == acc % TWO_TO_THE_64
  {
    DivModUnique(k * TWO_TO_THE_64, TWO_TO_THE_64, k, 0);
    DivModUnique(acc + k * TWO_TO_THE_64, TWO_TO_THE_64, k + acc / TWO_TO_THE_64, acc % TWO_TO_THE_64);
  }

  // ---- Reading ----

  class Reader {
    const data: bytes
    var pos: nat

    ghost predicate Valid() reads this { pos <= |data| }

    /** What is still to be read. */
    ghost function Rest(): bytes
      reads this
      requires Valid()
    {
      data[pos..]
    }

    constructor (b: bytes)
      ensures Valid() && Rest() == b
    {
      data, pos := b, 0;
    }

    method ReadByte() returns (r: Option<byte>)
      requires Valid()
      modifies this
      ensures Valid()
      ensures if old(Rest()) == [] then r.None? else r == Some(old(Rest())[0]) && Rest() == old(Rest())[1..]
    {
      if pos == |data| {
        return None;
      }
      r := Some(data[pos]);
      pos := pos + 1;
    }

    method ReadN(n: nat) returns (r: Option<bytes>)
      requires Valid()
      modifies this
      ensures Valid()
      ensures match OtsWire.ReadN(old(Rest()), n)
              case None => r.None?
              case Some((b, rest)) => r == Some(b) && Rest() == rest
    {
      if n > |data| - pos {
        pos := |data|;
        return None;
      }
      ghost var before := Rest();
      r := Some(data[pos..pos + n]);
      pos := pos + n;
      assert before[..n] == r.value && before[n..] == Rest();
    }

    /** Seven bits at a time into a 64-bit word. */
    method Varuint() returns (r: Option<uint64>)
      requires Valid()
      modifies this
      ensures Valid()
      ensures match ReadVaruint(old(Rest()))
              case None => r.None?
              case Some((n, rest)) => r == Some(n % TWO_TO_THE_64) && Rest() == rest
    {
      hide Scanning, Or, Shl64, Pow2, ReadVaruint;
      var result: uint64 := 0;
      var shift: nat := 0;
      ghost var acc: nat := 0;
      ScanStart(Rest());
      while true
        invariant Valid() && result == acc % TWO_TO_THE_64
        invariant Scanning(old(Rest()), Rest(), acc, shift)
        decreases |Rest()|
      {
        ghost var before := Rest();
        ScanStep(old(Rest()), before, acc, shift);
        var b := ReadByte();
        if b.None? {
          return None;
        }
        var x := b.value % 128;
        OrShiftAdds(acc, x, shift);
        result := Or(result, Shl64(x, shift));
        acc := acc + x * Pow2(shift);
        if b.value < 0x80 {
          return Some(result);
        }
        shift := shift + 7;
      }
    }

    method Varbytes() returns (r: Option<bytes>)
      requires Valid()
      modifies this
      ensures Valid()
      ensures match ReadVarbytes(old(Rest()))
              case None => r.None?
              case Some((b, rest)) => r == Some(b) && Rest() == rest
    {
      var n := Varuint();
      if n.None? {
        return None;
      }
      r := ReadN(n.value);
    }
  }

  /** `acc` is the value of the groups read so far, `shift` bits in all. */
  ghost predicate Scanning(all: bytes, rest: bytes, acc: nat, shift: nat) {
    && acc < Pow2(shift)
    && ReadVaruint(all) == match ReadVaruint(rest)
                           case None => None
                           case Some((n, end)) => Some((acc + n * Pow2(shift), end))
  }

  lemma ScanStart(all: bytes)
    ensures Scanning(all, all, 0, 0)
  {
  }

  lemma ScanStep(all: bytes, rest: bytes, acc: nat, shift: nat)
    requires Scanning(all, rest, acc, shift)
    ensures acc < Pow2(shift)
    ensures if rest == [] then ReadVaruint(all) == None
            else if rest[0] < 0x80 then ReadVaruint(all) == Some((acc + rest[0] % 128 * Pow2(shift), rest[1..]))
            else Scanning(all, rest[1..], acc + rest[0] % 128 * Pow2(shift), shift + 7)
  {
    if rest != [] && rest[0] >= 0x80 {
      var x := rest[0] % 128;
      GroupFits(acc, x, shift);
      if ReadVaruint(rest[1..]).Some? {
        NextGroup(acc, x, ReadVaruint(rest[1..]).value.0, shift);
      }
    }
  }

  lemma NextGroup(acc: nat, x: nat, n: nat, s: nat)
    ensures acc + (x + 128 * n) * Pow2(s) == (acc + x * Pow2(s)) + n * Pow2(s + 7)
  {
    Pow2Add(7, s);
    assert Pow2(7) == 128 by { assert Pow2(3) == 8; }
    Spread(n, 128, x, Pow2(s));
    assert n * 128 + x == x + 128 * n;
    assert Pow2(s) * 128 == Pow2(s + 7);
  }

  lemma GroupFits(acc: nat, x: nat, s: nat)
    requires acc < Pow2(s) && x < 128
    ensures acc + x * Pow2(s) < Pow2(s + 7)
  {
    Pow2Add(7, s);
    assert Pow2(7) == 128 by { assert Pow2(3) == 8; }
    AtLeastOnce(128 - x, Pow2(s));
    Difference(128, x, Pow2(s));
  }

  method DeserializeOp(tag: byte, r: Reader) returns (o: Option<Op>)
    requires r.Valid()
    modifies r
    ensures r.Valid()
    ensures match ParseOp(tag, old(r.Rest()))
            case None => o.None?
            case Some((op, rest)) => o == Some(op) && r.Rest() == rest
  {
    if tag == OP_APPEND || tag == OP_PREPEND {
      var arg := r.Varbytes();
      if arg.None? {
        return None;
      }
      return Some(Op(tag, arg.value));
    }
    if tag == OP_SHA1 || tag == OP_RIPEMD160 || tag == OP_SHA256 {
      return Some(Op(tag, []));
    }
    o := None;
  }

  method DeserializeAttestation(r: Reader) returns (a: Option<Attestation>)
    requires r.Valid()
    modifies r
    ensures r.Valid()
    ensures match ParseAttestation(old(r.Rest()))
            case None => a.None?
            case Some((att, rest)) => a == Some(att) && r.Rest() == rest
  {
    hide ReadVaruint, ReadVarbytes;
    var tag := r.ReadN(8);
    if tag.None? {
      return None;
    }
    var body := r.Varbytes();
    if body.None? {
      return None;
    }
    a := DeserializeBody(tag.value, body.value);
  }

  /** The switch on the tag; the body has a reader of its own. */
  method DeserializeBody(tag: bytes, body: bytes) returns (a: Option<Attestation>)
    ensures a == ParseBody(tag, body)
  {
    hide ReadVaruint, ReadVarbytes;
    var br := new Reader(body);
    if tag == TAG_PENDING {
      var uri := br.Varbytes();
      if uri.None? {
        return None;
      }
      return Some(Attestation(tag, uri.value, 0, []));
    }
    if tag == TAG_BITCOIN {
      var height := br.Varuint();
      if height.None? {
        return None;
      }
      return Some(Attestation(tag, [], height.value, []));
    }
    a := Some(Attestation(tag, [], 0, body));
  }

  /** Recursion and loop both end because every edge consumes input. */
  method DeserializeTimestamp(hs: OpHashes, r: Reader, msg: bytes) returns (result: Option<Timestamp>)
    requires r.Valid()
    modifies r
    ensures r.Valid()
    ensures match ParseNode(hs, old(r.Rest()), msg)
            case None => result.None?
            case Some((t, rest)) => result == Some(t) && r.Rest() == rest
    decreases |r.Rest()|, 1
  {
    hide ParseOne;
    var t := Timestamp(msg, [], []);
    var tag := r.ReadByte();
    if tag.None? {
      return None;
    }
    assert old(r.Rest()) == [tag.value] + r.Rest();
    while tag == Some(FORK)
      invariant r.Valid() && tag.Some? && t.msg == msg
      invariant |r.Rest()| < |old(r.Rest())|
      invariant ParseEdges(hs, [tag.value] + r.Rest(), t) == ParseNode(hs, old(r.Rest()), msg)
      decreases |r.Rest()|
    {
      var b := [FORK] + r.Rest();
      assert b[1..] == r.Rest();
      var next := r.ReadByte();
      if next.None? {
        return None;
      }
      assert b[1] == next.value && b[2..] == r.Rest();
      var one := DeserializeOne(hs, next.value, r, t);
      if one.None? {
        return None;
      }
      t := one.value;
      ghost var before := r.Rest();
      tag := r.ReadByte();
      if tag.None? {
        return None;
      }
      assert before == [tag.value] + r.Rest();
    }
    assert ([tag.value] + r.Rest())[1..] == r.Rest();
    result := DeserializeOne(hs, tag.value, r, t);
  }

  /** The closure `one`: adds one edge to the node. */
  method DeserializeOne(hs: OpHashes, tag: byte, r: Reader, t: Timestamp) returns (result: Option<Timestamp>)
    requires r.Valid()
    modifies r
    ensures r.Valid()
    ensures match ParseOne(hs, tag, old(r.Rest()), t)
            case None => result.None?
            case Some((t', rest)) => result == Some(t') && r.Rest() == rest && t'.msg == t.msg
    decreases |r.Rest()|, 2
  {
    hide ParseNode;
    if tag == ATTESTATION {
      var a := DeserializeAttestation(r);
      if a.None? {
        return None;
      }
      return Some(t.(attestations := t.attestations + [a.value]));
    }
    var o := DeserializeOp(tag, r);
    if o.None? {
      return None;
    }
    var child := DeserializeTimestamp(hs, r, o.value.Apply(hs, t.msg));
    if child.None? {
      return None;
    }
    result := Some(t.(ops := t.ops + [Edge(o.value, child.value)]));
  }

  method ParseDetachedFile(hs: OpHashes, b: bytes) returns (d: Option<DetachedFile>)
    ensures d == ParseFile(hs, b)
  {
    hide HEADER_MAGIC, ParseNode, ReadVaruint;
    var r := new Reader(b);
    var magic := r.ReadN(|HEADER_MAGIC|);
    if magic.None? || magic.value != HEADER_MAGIC {
      return None;
    }
    var version := r.Varuint();
    if version.None? {
      return None;
    }
    ghost var b2 := r.Rest();
    var fileHashOp := r.ReadByte();
    if fileHashOp.None? {
      return None;
    }
    assert b2[..1] == [fileHashOp.value];
    if fileHashOp.value != OP_SHA256 {
      return None;
    }
    var digest := r.ReadN(32);
    if digest.None? {
      return None;
    }
    var ts := DeserializeTimestamp(hs, r, digest.value);
    if ts.None? {
      return None;
    }
    d := Some(DetachedFile(fileHashOp.value, ts.value));
  }
}
