/** Printing and parsing OpenTimestamps proofs are inverse to each other. */
module OtsRoundTrip {
  import opened Bytes
  import opened OtsWire

  // ---- Varints and byte strings ----

  lemma {:induction false} VaruintRoundTrip(n: nat, rest: bytes)
    ensures ReadVaruint(Varuint(n) + rest) == Some((n, rest))
  {
    var b := Varuint(n) + rest;
    if n >= 0x80 {
      VaruintRoundTrip(n / 128, rest);
      assert b[1..] == Varuint(n / 128) + rest;
    } else {
      assert b[1..] == rest;
    }
  }

  /** Reading leaves a suffix of the input. */
  lemma {:induction false} VaruintSuffix(b: bytes)
    requires ReadVaruint(b).Some?
    ensures var rest := ReadVaruint(b).value.1; rest == b[|b| - |rest|..]
  {
    if b[0] >= 0x80 { VaruintSuffix(b[1..]); }
  }

  /** The printed form of a number, or of anything smaller, is no longer than any encoding of it. */
  lemma {:induction false} VaruintShortest(b: bytes, n: nat)
    requires ReadVaruint(b).Some? && n <= ReadVaruint(b).value.0
    ensures |Varuint(n)| <= |b| - |ReadVaruint(b).value.1|
  {
    if b[0] >= 0x80 && n >= 0x80 {
      var v := ReadVaruint(b[1..]).value.0;
      assert n / 128 <= v;
      VaruintShortest(b[1..], n / 128);
    }
  }

  // ---- Numbers, by their definition ----

  /** Unsigned LEB128, section 7.6 of DWARF 5: every byte but the last has its top bit set. */
  ghost predicate IsLEB128(b: bytes) {
    b != [] && (forall i :: 0 <= i < |b| - 1 ==> b[i] >= 128) && b[|b| - 1] < 128
  }

  function Pow128(k: nat): nat {
    if k == 0 then 1 else 128 * Pow128(k - 1)
  }

  /** Groups of seven bits, the first one weighing least. */
  function LEB128Value(b: bytes): nat {
    if b == [] then 0 else LEB128Value(b[..|b| - 1]) + b[|b| - 1] % 128 * Pow128(|b| - 1)
  }

  lemma {:induction false} LEB128Front(x: byte, b: bytes)
    ensures LEB128Value([x] + b) == x % 128 + 128 * LEB128Value(b)
  {
    if b == [] {
      assert ([x] + b)[..0] == [];
    } else {
      var init, last := b[..|b| - 1], b[|b| - 1];
      assert ([x] + b)[..|b|] == [x] + init;
      LEB128Front(x, init);
      assert last % 128 * Pow128(|b|) == 128 * (last % 128 * Pow128(|b| - 1));
    }
  }

  lemma LEB128Longer(x: byte, b: bytes)
    requires x >= 128 && IsLEB128(b)
    ensures IsLEB128([x] + b) && LEB128Value([x] + b) == x % 128 + 128 * LEB128Value(b)
  {
    hide LEB128Value;
    LEB128Front(x, b);
  }

  /** The printed form is LEB128, with no empty group at the end. */
  lemma {:induction false} VaruintIsLEB128(n: nat)
    ensures IsLEB128(Varuint(n)) && LEB128Value(Varuint(n)) == n
    ensures |Varuint(n)| > 1 ==> Varuint(n)[|Varuint(n)| - 1] != 0
  {
    hide LEB128Value;
    if n >= 0x80 {
      var tail := Varuint(n / 128);
      VaruintIsLEB128(n / 128);
      LEB128Longer(n % 128 + 128, tail);
      assert Varuint(n)[|tail|] == tail[|tail| - 1];
    } else {
      LEB128One(n);
    }
  }

  lemma LEB128One(x: byte)
    requires x < 128
    ensures IsLEB128([x]) && LEB128Value([x]) == x
  {
    assert [x][..0] == [];
  }

  /** Any LEB128 form is read, overlong ones included, for the number it stands for. */
  lemma {:induction false} LEB128IsRead(b: bytes, rest: bytes)
    requires IsLEB128(b)
    ensures ReadVaruint(b + rest) == Some((LEB128Value(b), rest))
  {
    assert b == [b[0]] + b[1..];
    LEB128Front(b[0], b[1..]);
    assert (b + rest)[1..] == b[1..] + rest;
    if |b| > 1 { LEB128IsRead(b[1..], rest); }
  }

  /** And nothing else is. */
  lemma {:induction false} ReadIsLEB128(b: bytes) returns (used: bytes)
    requires ReadVaruint(b).Some?
    ensures var (n, rest) := ReadVaruint(b).value; b == used + rest && IsLEB128(used) && n == LEB128Value(used)
  {
    hide LEB128Value, IsLEB128;
    if b[0] >= 0x80 {
      var tail := ReadIsLEB128(b[1..]);
      used := [b[0]] + tail;
      LEB128Longer(b[0], tail);
      assert b == [b[0]] + b[1..];
    } else {
      used := Varuint(b[0]);
      VaruintIsLEB128(b[0]);
      assert b == [b[0]] + b[1..];
    }
  }

  lemma VarbytesRoundTrip(x: bytes, rest: bytes)
    requires |x| < TWO_TO_THE_64
    ensures ReadVarbytes(Varbytes(x) + rest) == Some((x, rest))
  {
    assert Varbytes(x) + rest == Varuint(|x|) + (x + rest);
    VaruintRoundTrip(|x|, x + rest);
    assert (x + rest)[..|x|] == x && (x + rest)[|x|..] == rest;
  }

  lemma VarbytesShortest(b: bytes)
    requires ReadVarbytes(b).Some?
    ensures var (x, rest) := ReadVarbytes(b).value;
            |Varbytes(x)| <= |b| - |rest| && |x| < TWO_TO_THE_64
  {
    var (n, tail) := ReadVaruint(b).value;
    VaruintShortest(b, n % TWO_TO_THE_64);
  }

  // ---- Operations and attestations ----

  lemma OpRoundTrip(o: Op, rest: bytes)
    requires o.Supported() && |o.arg| < TWO_TO_THE_64
    ensures var b := PrintOp(o) + rest;
            b[0] == o.tag && o.tag != FORK && o.tag != ATTESTATION && ParseOp(o.tag, b[1..]) == Some((o, rest))
  {
    hide Varbytes, ReadVarbytes;
    var b := PrintOp(o) + rest;
    if o.HasArg() {
      VarbytesRoundTrip(o.arg, rest);
      assert b[1..] == Varbytes(o.arg) + rest;
    } else {
      assert b[1..] == rest;
    }
  }

  lemma OpShortest(tag: byte, b: bytes)
    requires ParseOp(tag, b).Some?
    ensures var (o, rest) := ParseOp(tag, b).value; |PrintOp(o)| <= 1 + |b| - |rest| && |o.arg| < TWO_TO_THE_64
  {
    if tag == OP_APPEND || tag == OP_PREPEND { VarbytesShortest(b); }
  }

  lemma BodyRoundTrip(a: Attestation)
    requires a.Plain() && |a.uri| < TWO_TO_THE_64
    ensures ParseBody(a.tag, AttestationBody(a)) == Some(a)
  {
    if a.IsPending() {
      VarbytesRoundTrip(a.uri, []);
      assert Varbytes(a.uri) + [] == Varbytes(a.uri);
    } else if a.IsBitcoin() {
      VaruintRoundTrip(a.height, []);
      assert Varuint(a.height) + [] == Varuint(a.height);
    }
  }

  lemma AttestationRoundTrip(a: Attestation, rest: bytes)
    requires a.Plain() && |AttestationBody(a)| < TWO_TO_THE_64
    ensures ParseAttestation(PrintAttestation(a) + rest) == Some((a, rest))
  {
    var body := AttestationBody(a);
    var b := PrintAttestation(a) + rest;
    assert b[..8] == a.tag && b[8..] == Varbytes(body) + rest;
    VarbytesRoundTrip(body, rest);
    BodyRoundTrip(a);
  }

  /** Bytes of the body beyond what the tag needs are ignored, and an unknown tag keeps them all. */
  lemma SurplusIsIgnored(a: Attestation, surplus: bytes)
    requires a.Plain() && |a.uri| < TWO_TO_THE_64
    ensures a.IsPending() || a.IsBitcoin() ==> ParseBody(a.tag, AttestationBody(a) + surplus) == Some(a)
    ensures !a.IsPending() && !a.IsBitcoin() ==>
              ParseBody(a.tag, a.raw + surplus) == Some(a.(raw := a.raw + surplus))
  {
    if a.IsPending() {
      VarbytesRoundTrip(a.uri, surplus);
    } else if a.IsBitcoin() {
      VaruintRoundTrip(a.height, surplus);
    }
  }

  /** An attestation is read if and only if its body is. */
  lemma AttestationIsRead(tag: bytes, body: bytes, rest: bytes)
    requires |tag| == 8 && |body| < TWO_TO_THE_64
    ensures ParseAttestation(tag + Varbytes(body) + rest)
         == match ParseBody(tag, body) case None => None case Some(a) => Some((a, rest))
  {
    hide ReadVarbytes, Varbytes;
    var b := tag + Varbytes(body) + rest;
    assert b[..8] == tag && b[8..] == Varbytes(body) + rest;
    VarbytesRoundTrip(body, rest);
  }

  lemma BodyShortest(tag: bytes, body: bytes)
    requires ParseBody(tag, body).Some? && |tag| == 8
    ensures var a := ParseBody(tag, body).value; a.Plain() && |AttestationBody(a)| <= |body| && a.tag == tag
  {
    if tag == TAG_PENDING {
      VarbytesShortest(body);
    } else if tag == TAG_BITCOIN {
      VaruintShortest(body, ReadVaruint(body).value.0 % TWO_TO_THE_64);
    }
  }

  lemma {:induction false} VaruintMonotone(m: nat, n: nat)
    requires m <= n
    ensures |Varuint(m)| <= |Varuint(n)|
  {
    if m >= 0x80 { VaruintMonotone(m / 128, n / 128); }
  }

  lemma AttestationShortest(b: bytes)
    requires ParseAttestation(b).Some?
    ensures var (a, rest) := ParseAttestation(b).value;
            a.Plain() && |PrintAttestation(a)| <= |b| - |rest| && |AttestationBody(a)| < TWO_TO_THE_64
  {
    var tag, b8 := b[..8], b[8..];
    VarbytesShortest(b8);
    var (body, rest) := ReadVarbytes(b8).value;
    BodyShortest(tag, body);
    var a := ParseBody(tag, body).value;
    VaruintMonotone(|AttestationBody(a)|, |body|);
  }

  // ---- Trees ----

  /** At least one edge per node, supported operations, plain attestations, lengths that fit 64 bits. */
  predicate WellFormed(t: Timestamp)
    decreases t
  {
    |t.attestations| + |t.ops| > 0 && WellFormedAttestations(t.attestations) && WellFormedEdges(t.ops)
  }

  predicate WellFormedAttestations(atts: seq<Attestation>) {
    forall a :: a in atts ==> a.Plain() && |AttestationBody(a)| < TWO_TO_THE_64
  }

  predicate WellFormedEdges(ops: seq<Edge>)
    decreases ops
  {
    forall e :: e in ops ==> WellFormedEdge(e)
  }

  predicate WellFormedEdge(e: Edge)
    decreases e
  {
    e.o.Supported() && |e.o.arg| < TWO_TO_THE_64 && WellFormed(e.child)
  }

  /** What an operation makes of a message, by its name. */
  ghost predicate StepsTo(hs: OpHashes, o: Op, before: bytes, after: bytes) {
    && (o.HasArg() ==> |after| == |before| + |o.arg|)
    && (o.tag == OP_APPEND ==> after[..|before|] == before && after[|before|..] == o.arg)
    && (o.tag == OP_PREPEND ==> after[..|o.arg|] == o.arg && after[|o.arg|..] == before)
    && (o.tag == OP_SHA256 ==> after == hs.sha256(before))
    && (o.tag == OP_SHA1 ==> after == hs.sha1(before))
    && (o.tag == OP_RIPEMD160 ==> after == hs.ripemd160(before))
  }

  lemma AppliedIs(hs: OpHashes, o: Op, msg: bytes)
    ensures StepsTo(hs, o, msg, o.Apply(hs, msg))
  {
    if o.tag == OP_APPEND {
      assert (msg + o.arg)[..|msg|] == msg && (msg + o.arg)[|msg|..] == o.arg;
    } else if o.tag == OP_PREPEND {
      assert (o.arg + msg)[..|o.arg|] == o.arg && (o.arg + msg)[|o.arg|..] == msg;
    }
  }

  /** Every child's message is its parent's message with the operation applied. */
  predicate Coherent(hs: OpHashes, t: Timestamp)
    decreases t
  {
    CoherentEdges(hs, t.ops, t.msg)
  }

  predicate CoherentEdges(hs: OpHashes, ops: seq<Edge>, msg: bytes)
    decreases ops
  {
    forall e :: e in ops ==> CoherentEdge(hs, e, msg)
  }

  predicate CoherentEdge(hs: OpHashes, e: Edge, msg: bytes)
    decreases e
  {
    e.child.msg == e.o.Apply(hs, msg) && Coherent(hs, e.child)
  }

  /** The tree with its messages recomputed from the root. */
  function Relabel(hs: OpHashes, t: Timestamp, msg: bytes): Timestamp
    decreases t
  {
    Timestamp(msg, t.attestations, RelabelEdges(hs, t.ops, msg))
  }

  function RelabelEdges(hs: OpHashes, ops: seq<Edge>, msg: bytes): seq<Edge>
    decreases ops
  {
    if ops == [] then [] else [RelabelEdge(hs, ops[0], msg)] + RelabelEdges(hs, ops[1..], msg)
  }

  function RelabelEdge(hs: OpHashes, e: Edge, msg: bytes): Edge
    decreases e
  {
    Edge(e.o, Relabel(hs, e.child, e.o.Apply(hs, msg)))
  }

  lemma {:induction false} RelabelCoherent(hs: OpHashes, t: Timestamp)
    requires Coherent(hs, t)
    ensures Relabel(hs, t, t.msg) == t
    decreases t
  {
    RelabelCoherentEdges(hs, t.ops, t.msg);
  }

  lemma {:induction false} RelabelCoherentEdges(hs: OpHashes, ops: seq<Edge>, msg: bytes)
    requires CoherentEdges(hs, ops, msg)
    ensures RelabelEdges(hs, ops, msg) == ops
    decreases ops
  {
    if ops != [] {
      assert CoherentEdge(hs, ops[0], msg);
      RelabelCoherentEdge(hs, ops[0], msg);
      RelabelCoherentEdges(hs, ops[1..], msg);
    }
  }

  lemma {:induction false} RelabelCoherentEdge(hs: OpHashes, e: Edge, msg: bytes)
    requires CoherentEdge(hs, e, msg)
    ensures RelabelEdge(hs, e, msg) == e
    decreases e
  {
    RelabelCoherent(hs, e.child);
  }

  // ---- Parsing what was printed ----

  /** Parsing `PrintNode(t) ++ rest` consumes exactly the printed tree and returns it with its messages
      recomputed from the message it is parsed against. */
  lemma {:induction false} NodeRoundTrip(hs: OpHashes, t: Timestamp, msg: bytes, rest: bytes)
    requires WellFormed(t)
    ensures ParseNode(hs, PrintNode(t) + rest, msg) == Some((Relabel(hs, t, msg), rest))
    decreases t
  {
    EdgesRoundTrip(hs, t.attestations, t.ops, Timestamp(msg, [], []), rest);
    assert [] + t.attestations == t.attestations;
    assert [] + RelabelEdges(hs, t.ops, msg) == RelabelEdges(hs, t.ops, msg);
  }

  /** What the parser makes of a printed edge `item` with `n` edges to go: a fork marker sends it round the
      loop again. */
  lemma EdgeThen(hs: OpHashes, n: nat, item: bytes, tail: bytes, rest: bytes, t: Timestamp, t': Timestamp)
    requires item != [] && item[0] != FORK
    requires ParseOne(hs, item[0], (item + (tail + rest))[1..], t) == Some((t', tail + rest))
    ensures ParseEdges(hs, (Marker(n) + item + tail) + rest, t)
         == if n > 1 then ParseEdges(hs, tail + rest, t') else Some((t', tail + rest))
  {
    hide ParseOne;
    var b, c := (Marker(n) + item + tail) + rest, item + (tail + rest);
    assert b == Marker(n) + c && c[0] == item[0];
    if n > 1 {
      assert b == [FORK] + c;
      assert b[0] == FORK && b[1] == c[0] && b[2..] == c[1..];
    } else {
      assert b == c;
    }
  }

  lemma LeafRoundTrip(hs: OpHashes, a: Attestation, t: Timestamp, rest: bytes)
    requires a.Plain() && |AttestationBody(a)| < TWO_TO_THE_64
    ensures var b := PrintLeaf(a) + rest;
            && PrintLeaf(a) != [] && PrintLeaf(a)[0] != FORK
            && ParseOne(hs, PrintLeaf(a)[0], b[1..], t) == Some((t.(attestations := t.attestations + [a]), rest))
  {
    hide PrintAttestation, ParseAttestation, AttestationBody, ParseOp;
    AttestationRoundTrip(a, rest);
    assert (PrintLeaf(a) + rest)[1..] == PrintAttestation(a) + rest;
  }

  lemma {:induction false} EdgeRoundTrip(hs: OpHashes, e: Edge, t: Timestamp, rest: bytes)
    requires WellFormedEdge(e)
    ensures var b := PrintEdge(e) + rest;
            && PrintEdge(e) != [] && PrintEdge(e)[0] != FORK
            && ParseOne(hs, PrintEdge(e)[0], b[1..], t)
               == Some((t.(ops := t.ops + [RelabelEdge(hs, e, t.msg)]), rest))
    decreases e
  {
    var tail := PrintNode(e.child) + rest;
    assert PrintEdge(e) + rest == PrintOp(e.o) + tail;
    OpRoundTrip(e.o, tail);
    NodeRoundTrip(hs, e.child, e.o.Apply(hs, t.msg), rest);
  }

  lemma {:induction false} EdgesRoundTrip(hs: OpHashes, atts: seq<Attestation>, ops: seq<Edge>, t: Timestamp,
                                          rest: bytes)
    requires |atts| + |ops| > 0 && WellFormedAttestations(atts) && WellFormedEdges(ops)
    ensures ParseEdges(hs, PrintEdges(atts, ops) + rest, t)
         == Some((t.(attestations := t.attestations + atts, ops := t.ops + RelabelEdges(hs, ops, t.msg)), rest))
    decreases ops, |atts|, 1
  {
    hide ParseEdges, ParseOne, PrintLeaf, PrintEdge, Relabel;
    var n := |atts| + |ops|;
    if atts != [] {
      assert atts[0] in atts;
      var tail, t' := PrintEdges(atts[1..], ops), t.(attestations := t.attestations + [atts[0]]);
      LeafRoundTrip(hs, atts[0], t, tail + rest);
      EdgeThen(hs, n, PrintLeaf(atts[0]), tail, rest, t, t');
      assert t'.attestations + atts[1..] == t.attestations + atts;
      if n > 1 {
        EdgesRoundTrip(hs, atts[1..], ops, t', rest);
      } else {
        assert atts == [atts[0]] && tail + rest == rest && t.ops + RelabelEdges(hs, ops, t.msg) == t.ops;
      }
    } else {
      FirstEdgeRoundTrip(hs, ops, t, rest);
      if n > 1 {
        EdgesRoundTrip(hs, [], ops[1..], t.(ops := t.ops + [RelabelEdge(hs, ops[0], t.msg)]), rest);
      }
    }
  }

  /** With the first edge read, the rest of the edges remain. */
  lemma FirstEdgeRoundTrip(hs: OpHashes, ops: seq<Edge>, t: Timestamp, rest: bytes)
    requires ops != [] && WellFormedEdges(ops)
    ensures var t' := t.(ops := t.ops + [RelabelEdge(hs, ops[0], t.msg)]);
            && WellFormedEdges(ops[1..])
            && PrintEdges([], ops) == Marker(|ops|) + PrintEdge(ops[0]) + PrintEdges([], ops[1..])
            && t'.attestations + [] == t.attestations + []
            && t'.ops + RelabelEdges(hs, ops[1..], t.msg) == t.ops + RelabelEdges(hs, ops, t.msg)
            && ParseEdges(hs, PrintEdges([], ops) + rest, t)
               == if |ops| > 1 then ParseEdges(hs, PrintEdges([], ops[1..]) + rest, t')
                  else Some((t.(attestations := t.attestations + [], ops := t.ops + RelabelEdges(hs, ops, t.msg)),
                             rest))
    decreases ops, 0, 0
  {
    hide ParseEdges, ParseOne, PrintEdge, Relabel;
    assert ops[0] in ops && WellFormedEdge(ops[0]);
    var tail, t' := PrintEdges([], ops[1..]), t.(ops := t.ops + [RelabelEdge(hs, ops[0], t.msg)]);
    EdgeRoundTrip(hs, ops[0], t, tail + rest);
    EdgeThen(hs, |ops|, PrintEdge(ops[0]), tail, rest, t, t');
    assert t'.ops + RelabelEdges(hs, ops[1..], t.msg) == t.ops + RelabelEdges(hs, ops, t.msg);
    assert t.attestations + [] == t.attestations;
    if |ops| == 1 { assert tail + rest == rest && t.ops + RelabelEdges(hs, ops, t.msg) == t'.ops; }
  }

  // ---- Edges in any order ----

  datatype Item = LeafItem(a: Attestation) | EdgeItem(e: Edge)

  function PrintItem(x: Item): bytes {
    match x
    case LeafItem(a) => PrintLeaf(a)
    case EdgeItem(e) => PrintEdge(e)
  }

  /** Attestations and operations as they come, every one but the last behind a fork marker. */
  function PrintItems(items: seq<Item>): bytes {
    if items == [] then [] else Marker(|items|) + PrintItem(items[0]) + PrintItems(items[1..])
  }

  predicate WellFormedItem(x: Item) {
    match x
    case LeafItem(a) => a.Plain() && |AttestationBody(a)| < TWO_TO_THE_64
    case EdgeItem(e) => WellFormedEdge(e)
  }

  function LeavesIn(items: seq<Item>): seq<Attestation> {
    if items == [] then []
    else (if items[0].LeafItem? then [items[0].a] else []) + LeavesIn(items[1..])
  }

  function EdgesIn(items: seq<Item>): seq<Edge> {
    if items == [] then []
    else (if items[0].EdgeItem? then [items[0].e] else []) + EdgesIn(items[1..])
  }

  function Attached(hs: OpHashes, x: Item, t: Timestamp): Timestamp {
    match x
    case LeafItem(a) => Timestamp(t.msg, t.attestations + [a], t.ops)
    case EdgeItem(e) => Timestamp(t.msg, t.attestations, t.ops + [RelabelEdge(hs, e, t.msg)])
  }

  lemma ItemRoundTrip(hs: OpHashes, x: Item, t: Timestamp, rest: bytes)
    requires WellFormedItem(x)
    ensures PrintItem(x) != [] && PrintItem(x)[0] != FORK
    ensures ParseOne(hs, PrintItem(x)[0], (PrintItem(x) + rest)[1..], t) == Some((Attached(hs, x, t), rest))
  {
    hide ParseOne, PrintLeaf, PrintEdge;
    match x {
      case LeafItem(a) => LeafRoundTrip(hs, a, t, rest);
      case EdgeItem(e) => EdgeRoundTrip(hs, e, t, rest);
    }
  }

  /** Attestations and operations may come in any order; each kind keeps its own. */
  lemma {:induction false} ItemsRoundTrip(hs: OpHashes, items: seq<Item>, t: Timestamp, rest: bytes)
    requires items != [] && forall x :: x in items ==> WellFormedItem(x)
    ensures ParseEdges(hs, PrintItems(items) + rest, t)
         == Some((Timestamp(t.msg, t.attestations + LeavesIn(items),
                            t.ops + RelabelEdges(hs, EdgesIn(items), t.msg)), rest))
    decreases |items|
  {
    hide ParseEdges, ParseOne, PrintItem, Relabel, WellFormedItem;
    var x, tail := items[0], PrintItems(items[1..]);
    assert x in items;
    ItemRoundTrip(hs, x, t, tail + rest);
    var t' := Attached(hs, x, t);
    EdgeThen(hs, |items|, PrintItem(x), tail, rest, t, t');
    AttachedOne(hs, items, t);
    if |items| > 1 {
      ItemsRoundTrip(hs, items[1..], t', rest);
    } else {
      assert items[1..] == [] && tail + rest == rest;
      assert t'.attestations + [] == t'.attestations && t'.ops + [] == t'.ops;
    }
  }

  lemma AttachedOne(hs: OpHashes, items: seq<Item>, t: Timestamp)
    requires items != []
    ensures var x, more := items[0], items[1..];
            && t.attestations + LeavesIn(items) == Attached(hs, x, t).attestations + LeavesIn(more)
            && t.ops + RelabelEdges(hs, EdgesIn(items), t.msg)
               == Attached(hs, x, t).ops + RelabelEdges(hs, EdgesIn(more), t.msg)
  {
    hide RelabelEdges, RelabelEdge;
    var x, more := items[0], items[1..];
    match x {
      case LeafItem(a) =>
        Regroup(t.attestations, a, LeavesIn(more));
        assert EdgesIn(items) == EdgesIn(more);
      case EdgeItem(e) =>
        RelabelFirst(hs, e, EdgesIn(more), t.msg);
        Regroup(t.ops, RelabelEdge(hs, e, t.msg), RelabelEdges(hs, EdgesIn(more), t.msg));
        assert LeavesIn(items) == LeavesIn(more);
    }
  }

  lemma Regroup<T>(s: seq<T>, x: T, more: seq<T>)
    ensures s + ([x] + more) == s + [x] + more
  {
  }

  lemma RelabelFirst(hs: OpHashes, e: Edge, more: seq<Edge>, msg: bytes)
    ensures RelabelEdges(hs, [e] + more, msg) == [RelabelEdge(hs, e, msg)] + RelabelEdges(hs, more, msg)
  {
    hide RelabelEdge;
    assert ([e] + more)[1..] == more;
  }

  lemma PrintedAlone(a: Attestation, e: Edge, b: Attestation)
    ensures PrintEdges([a], []) == PrintLeaf(a)
    ensures PrintEdges([b], [e]) == [FORK] + PrintLeaf(b) + PrintEdge(e)
  {
    hide PrintLeaf, PrintEdge;
    assert PrintEdges([], []) == [];
    assert PrintEdges([a][1..], []) == [];
    assert PrintEdges([], [e]) == [] + PrintEdge(e) + PrintEdges([], [e][1..]);
    assert PrintEdges([b][1..], [e]) == PrintEdges([], [e]);
  }

  lemma ExamplePieces()
    ensures PrintLeaf(Attestation(TAG_PENDING, [0x41], 0, [])) == [0x00] + TAG_PENDING + [0x02, 0x01, 0x41]
    ensures PrintLeaf(Attestation(TAG_BITCOIN, [], 300, [])) == [0x00] + TAG_BITCOIN + [0x02, 0xac, 0x02]
    ensures PrintOp(Op(OP_APPEND, [7])) == [0xf0, 0x01, 0x07]
    ensures TAG_PENDING != TAG_BITCOIN
  {
    assert TAG_PENDING[0] != TAG_BITCOIN[0];
    assert Varuint(300) == [0xac] + Varuint(2) == [0xac, 0x02];
    assert Varbytes([0xac, 0x02]) == [0x02, 0xac, 0x02];
    assert Varbytes([0x41]) == [0x01, 0x41] && Varbytes([0x01, 0x41]) == [0x02, 0x01, 0x41];
    assert Varbytes([7]) == [0x01, 0x07];
  }

  /** The layout, byte by byte: a node with a pending attestation and, behind an append, a Bitcoin one. */
  lemma WireExample(hs: OpHashes, msg: bytes)
    ensures var wire := [0xff] + ([0x00] + TAG_PENDING + [0x02, 0x01, 0x41])
                        + ([0xf0, 0x01, 0x07] + ([0x00] + TAG_BITCOIN + [0x02, 0xac, 0x02]));
            var leaf := Timestamp(msg + [7], [Attestation(TAG_BITCOIN, [], 300, [])], []);
            var t := Timestamp(msg, [Attestation(TAG_PENDING, [0x41], 0, [])], [Edge(Op(OP_APPEND, [7]), leaf)]);
            PrintNode(t) == wire && ParseNode(hs, wire, msg) == Some((t, []))
  {
    hide PrintLeaf, PrintEdges, PrintOp, Varbytes, Varuint, ParseNode, TAG_PENDING, TAG_BITCOIN;
    var pending, bitcoin := Attestation(TAG_PENDING, [0x41], 0, []), Attestation(TAG_BITCOIN, [], 300, []);
    var leaf := Timestamp(msg + [7], [bitcoin], []);
    var edge := Edge(Op(OP_APPEND, [7]), leaf);
    var t := Timestamp(msg, [pending], [edge]);
    ExamplePieces();
    PrintedAlone(bitcoin, edge, pending);
    ExampleIsGood(hs, t, edge, leaf, pending, bitcoin);
    CoherentRoundTrip(hs, t, t, []);
    assert PrintNode(t) + [] == PrintNode(t);
  }

  lemma ExampleIsGood(hs: OpHashes, t: Timestamp, edge: Edge, leaf: Timestamp, pending: Attestation,
                      bitcoin: Attestation)
    requires pending == Attestation(TAG_PENDING, [0x41], 0, []) && bitcoin == Attestation(TAG_BITCOIN, [], 300, [])
    requires t == Timestamp(t.msg, [pending], [edge]) && edge == Edge(Op(OP_APPEND, [7]), leaf)
    requires leaf == Timestamp(t.msg + [7], [bitcoin], [])
    ensures WellFormed(t) && Coherent(hs, t)
  {
    ExamplePieces();
    assert Varuint(300) == [0xac] + Varuint(2) == [0xac, 0x02];
    assert Varbytes([0x41]) == [0x01, 0x41];
    assert WellFormed(leaf) && Coherent(hs, leaf);
    assert WellFormedEdge(edge) && CoherentEdge(hs, edge, t.msg);
  }

  // ---- Printing what was parsed ----

  /** Bytes needed for the edges when each of them carries a fork marker. */
  function Weight(atts: seq<Attestation>, ops: seq<Edge>): nat {
    if atts != [] then Weight(atts[..|atts| - 1], ops) + 1 + |PrintLeaf(atts[|atts| - 1])|
    else if ops != [] then Weight([], ops[..|ops| - 1]) + 1 + |PrintEdge(ops[|ops| - 1])|
    else 0
  }

  lemma {:induction false} WeightOpFirst(atts: seq<Attestation>, ops: seq<Edge>)
    requires ops != []
    ensures Weight(atts, ops) == Weight(atts, ops[..|ops| - 1]) + 1 + |PrintEdge(ops[|ops| - 1])|
    decreases |atts|
  {
    hide PrintLeaf, PrintEdge;
    if atts != [] { WeightOpFirst(atts[..|atts| - 1], ops); }
  }

  lemma {:induction false} WeightFromFront(atts: seq<Attestation>, ops: seq<Edge>)
    ensures atts != [] ==> Weight(atts, ops) == 1 + |PrintLeaf(atts[0])| + Weight(atts[1..], ops)
    ensures atts == [] && ops != [] ==> Weight([], ops) == 1 + |PrintEdge(ops[0])| + Weight([], ops[1..])
    decreases |atts| + |ops|
  {
    hide PrintLeaf, PrintEdge;
    if |atts| > 1 {
      WeightFromFront(atts[..|atts| - 1], ops);
      assert atts[1..][..|atts| - 2] == atts[..|atts| - 1][1..];
    } else if atts == [] && |ops| > 1 {
      WeightFromFront([], ops[..|ops| - 1]);
      assert ops[1..][..|ops| - 2] == ops[..|ops| - 1][1..];
    }
  }

  lemma {:induction false} PrintedSize(atts: seq<Attestation>, ops: seq<Edge>)
    requires |atts| + |ops| > 0
    ensures |PrintEdges(atts, ops)| == Weight(atts, ops) - 1
    decreases |atts| + |ops|
  {
    hide PrintLeaf, PrintEdge;
    WeightFromFront(atts, ops);
    if |atts| + |ops| > 1 {
      if atts != [] { PrintedSize(atts[1..], ops); } else { PrintedSize([], ops[1..]); }
    }
  }

  /** What the parser has built so far: everything but the demand for at least one edge. */
  ghost predicate Partial(hs: OpHashes, t: Timestamp) {
    WellFormedAttestations(t.attestations) && WellFormedEdges(t.ops) && CoherentEdges(hs, t.ops, t.msg)
  }

  lemma AddLeaf(hs: OpHashes, t: Timestamp, a: Attestation)
    requires Partial(hs, t) && a.Plain() && |AttestationBody(a)| < TWO_TO_THE_64
    ensures var t' := t.(attestations := t.attestations + [a]);
            && Partial(hs, t') && WellFormed(t') && Coherent(hs, t')
            && Weight(t'.attestations, t'.ops) == Weight(t.attestations, t.ops) + 1 + |PrintLeaf(a)|
  {
    hide PrintLeaf, PrintEdge;
    assert (t.attestations + [a])[..|t.attestations|] == t.attestations;
  }

  lemma AddEdge(hs: OpHashes, t: Timestamp, e: Edge)
    requires Partial(hs, t) && WellFormedEdge(e) && CoherentEdge(hs, e, t.msg)
    ensures var t' := t.(ops := t.ops + [e]);
            && Partial(hs, t') && WellFormed(t') && Coherent(hs, t')
            && Weight(t'.attestations, t'.ops) == Weight(t.attestations, t.ops) + 1 + |PrintEdge(e)|
  {
    hide PrintLeaf, PrintEdge, WellFormedEdge, CoherentEdge;
    WeightOpFirst(t.attestations, t.ops + [e]);
    assert (t.ops + [e])[..|t.ops|] == t.ops;
  }

  ghost predicate Suffix(rest: bytes, b: bytes) {
    |rest| <= |b| && rest == b[|b| - |rest|..]
  }

  lemma SuffixTrans(a: bytes, b: bytes, c: bytes)
    requires Suffix(a, b) && Suffix(b, c)
    ensures Suffix(a, c)
  {
  }

  lemma VarbytesSuffix(b: bytes)
    requires ReadVarbytes(b).Some?
    ensures Suffix(ReadVarbytes(b).value.1, b)
  {
    VaruintSuffix(b);
  }

  lemma AttestationSuffix(b: bytes)
    requires ParseAttestation(b).Some?
    ensures Suffix(ParseAttestation(b).value.1, b)
  {
    VarbytesSuffix(b[8..]);
    SuffixTrans(ParseAttestation(b).value.1, b[8..], b);
  }

  lemma OpSuffix(tag: byte, b: bytes)
    requires ParseOp(tag, b).Some?
    ensures Suffix(ParseOp(tag, b).value.1, b)
  {
    if tag == OP_APPEND || tag == OP_PREPEND { VarbytesSuffix(b); }
  }

  /** Every accepted tree has an edge at every node and only supported operations, each message is its
      parent's with the operation applied, the input is consumed from the front, and the printed tree is
      no longer than what was consumed. */
  lemma {:induction false} ParsedNode(hs: OpHashes, b: bytes, msg: bytes)
    requires ParseNode(hs, b, msg).Some?
    ensures var (t, rest) := ParseNode(hs, b, msg).value;
            && WellFormed(t) && Coherent(hs, t) && t.msg == msg
            && Suffix(rest, b) && |PrintNode(t)| <= |b| - |rest|
    decreases |b|, 2
  {
    ParsedEdges(hs, b, Timestamp(msg, [], []));
    var t := ParseNode(hs, b, msg).value.0;
    PrintedSize(t.attestations, t.ops);
  }

  lemma {:induction false} ParsedEdges(hs: OpHashes, b: bytes, t: Timestamp)
    requires ParseEdges(hs, b, t).Some? && Partial(hs, t)
    ensures var (t', rest) := ParseEdges(hs, b, t).value;
            && WellFormed(t') && Coherent(hs, t') && t'.msg == t.msg && Suffix(rest, b)
            && Weight(t'.attestations, t'.ops) <= Weight(t.attestations, t.ops) + |b| - |rest| + 1
    decreases |b|, 1
  {
    hide Weight, WellFormed, Coherent, Partial;
    if b[0] == FORK {
      ParsedOne(hs, b[1], b[2..], t);
      var (t1, rest1) := ParseOne(hs, b[1], b[2..], t).value;
      ParsedEdges(hs, rest1, t1);
      SuffixTrans(rest1, b[2..], b);
      SuffixTrans(ParseEdges(hs, rest1, t1).value.1, rest1, b);
    } else {
      ParsedOne(hs, b[0], b[1..], t);
      SuffixTrans(ParseOne(hs, b[0], b[1..], t).value.1, b[1..], b);
    }
  }

  lemma {:induction false} ParsedOne(hs: OpHashes, tag: byte, b: bytes, t: Timestamp)
    requires ParseOne(hs, tag, b, t).Some? && Partial(hs, t)
    ensures var (t', rest) := ParseOne(hs, tag, b, t).value;
            && Partial(hs, t') && WellFormed(t') && Coherent(hs, t') && t'.msg == t.msg && Suffix(rest, b)
            && Weight(t'.attestations, t'.ops) <= Weight(t.attestations, t.ops) + |b| - |rest| + 2
    decreases |b|, 3
  {
    hide Weight, WellFormed, Coherent, Partial;
    if tag == ATTESTATION {
      AttestationSuffix(b);
      AttestationShortest(b);
      AddLeaf(hs, t, ParseAttestation(b).value.0);
    } else {
      OpSuffix(tag, b);
      OpShortest(tag, b);
      var (o, rest) := ParseOp(tag, b).value;
      ParsedNode(hs, rest, o.Apply(hs, t.msg));
      var (child, rest') := ParseNode(hs, rest, o.Apply(hs, t.msg)).value;
      SuffixTrans(rest', rest, b);
      AddEdge(hs, t, Edge(o, child));
    }
  }

  /** Canonicalisation. Whatever the accepted bytes looked like (overlong varints, interleaved edges, unread
      bytes in attestation bodies), printing the tree gives bytes that parse to the same tree and are no
      longer than the bytes consumed. */
  lemma Canonicalisation(hs: OpHashes, b: bytes, msg: bytes, more: bytes)
    requires ParseNode(hs, b, msg).Some?
    ensures var (t, rest) := ParseNode(hs, b, msg).value;
            && ParseNode(hs, PrintNode(t) + more, msg) == Some((t, more))
            && |PrintNode(t)| <= |b| - |rest|
  {
    ParsedNode(hs, b, msg);
    var t := ParseNode(hs, b, msg).value.0;
    NodeRoundTrip(hs, t, msg, more);
    RelabelCoherent(hs, t);
  }

  /** A coherent tree is read back unchanged, and no other tree with its message prints the same. */
  lemma CoherentRoundTrip(hs: OpHashes, t: Timestamp, u: Timestamp, rest: bytes)
    requires WellFormed(t) && Coherent(hs, t) && WellFormed(u) && Coherent(hs, u)
    ensures ParseNode(hs, PrintNode(t) + rest, t.msg) == Some((t, rest))
    ensures t.msg == u.msg && PrintNode(t) == PrintNode(u) ==> t == u
  {
    NodeRoundTrip(hs, t, t.msg, rest);
    NodeRoundTrip(hs, u, u.msg, rest);
    RelabelCoherent(hs, t);
    RelabelCoherent(hs, u);
  }

  // ---- The envelope ----

  lemma FileRoundTrip(hs: OpHashes, d: DetachedFile, rest: bytes)
    requires d.fileHashOp == OP_SHA256 && |d.ts.msg| == 32 && WellFormed(d.ts) && Coherent(hs, d.ts)
    ensures ParseFile(hs, PrintFile(d) + rest) == Some(d)
  {
    hide HEADER_MAGIC;
    var tree := PrintNode(d.ts) + rest;
    var b3 := d.ts.msg + tree;
    var b2 := [d.fileHashOp] + b3;
    var b1 := Varuint(1) + b2;
    var b := PrintFile(d) + rest;
    assert b == HEADER_MAGIC + b1;
    assert b[..|HEADER_MAGIC|] == HEADER_MAGIC && b[|HEADER_MAGIC|..] == b1;
    VaruintRoundTrip(1, b2);
    assert b2[..1] == [d.fileHashOp] && b2[1..] == b3;
    assert b3[..32] == d.ts.msg && b3[32..] == tree;
    CoherentRoundTrip(hs, d.ts, d.ts, rest);
  }

  /** Whatever the version says, and whatever form it has, a SHA-256 file is read as its digest and tree. */
  lemma AnyVersion(hs: OpHashes, version: bytes, op: byte, digest: bytes, tree: bytes)
    requires IsLEB128(version) && |digest| == 32
    ensures ParseFile(hs, HEADER_MAGIC + version + [op] + digest + tree)
         == if op != OP_SHA256 then None
            else match ParseNode(hs, tree, digest) case None => None case Some((t, _)) => Some(DetachedFile(op, t))
  {
    hide HEADER_MAGIC, ParseNode, IsLEB128, ReadVaruint;
    var b3 := digest + tree;
    var b2 := [op] + b3;
    var b1 := version + b2;
    var b := HEADER_MAGIC + version + [op] + digest + tree;
    assert b == HEADER_MAGIC + b1;
    assert b[..|HEADER_MAGIC|] == HEADER_MAGIC && b[|HEADER_MAGIC|..] == b1;
    LEB128IsRead(version, b2);
    assert b2[..1] == [op] && b2[1..] == b3;
    assert b3[..32] == digest && b3[32..] == tree;
  }

  /** Any accepted file prints to a file that parses to the same content and is no longer. */
  lemma FileCanonicalisation(hs: OpHashes, b: bytes, more: bytes)
    requires ParseFile(hs, b).Some?
    ensures var d := ParseFile(hs, b).value;
            && ParseFile(hs, PrintFile(d) + more) == Some(d)
            && |PrintFile(d)| <= |b|
            && d.fileHashOp == OP_SHA256 && |d.ts.msg| == 32 && WellFormed(d.ts) && Coherent(hs, d.ts)
  {
    hide HEADER_MAGIC, PrintNode, ParseNode;
    var d := ParseFile(hs, b).value;
    var b1 := b[|HEADER_MAGIC|..];
    var b2 := ReadVaruint(b1).value.1;
    ParsedNode(hs, b2[1..][32..], b2[1..][..32]);
    FileRoundTrip(hs, d, more);
  }
}
