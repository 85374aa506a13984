/** The OpenTimestamps wire format: varints, operations, attestations, the proof tree and its envelope.

    Printing and parsing are functions on byte strings; the methods move a buffer and a read cursor and
    are proved against them. */
module OtsWire {
  import opened Bytes

  const OP_APPEND: byte := 0xf0
  const OP_PREPEND: byte := 0xf1
  const OP_SHA1: byte := 0x02
  const OP_RIPEMD160: byte := 0x03
  const OP_SHA256: byte := 0x08
  const FORK: byte := 0xff
  const ATTESTATION: byte := 0x00

  const TAG_PENDING: bytes := [0x83, 0xdf, 0xe3, 0x0d, 0x2e, 0xf9, 0x0c, 0x8e]
  const TAG_BITCOIN: bytes := [0x05, 0x88, 0x96, 0x0d, 0x73, 0xd7, 0x19, 0x01]

  const HEADER_MAGIC: bytes :=
    [0x00] + Ascii("OpenTimestamps") + [0x00, 0x00] + Ascii("Proof")
    + [0x00, 0xbf, 0x89, 0xe2, 0xe8, 0x84, 0xe8, 0x92, 0x94]

  /** The hash functions that operations name. */
  datatype OpHashes = OpHashes(sha256: bytes -> Digest, sha1: bytes -> bytes, ripemd160: bytes -> bytes)

  datatype Op = Op(tag: byte, arg: bytes) {
    function Apply(hs: OpHashes, msg: bytes): bytes {
      if tag == OP_APPEND then msg + arg
      else if tag == OP_PREPEND then arg + msg
      else if tag == OP_SHA256 then hs.sha256(msg)
      else if tag == OP_SHA1 then hs.sha1(msg)
      else if tag == OP_RIPEMD160 then hs.ripemd160(msg)
      else msg
    }

    predicate HasArg() {
      tag == OP_APPEND || tag == OP_PREPEND
    }

    predicate Supported() {
      if HasArg() then true else (tag == OP_SHA1 || tag == OP_RIPEMD160 || tag == OP_SHA256) && arg == []
    }
  }

  datatype Attestation = Attestation(tag: bytes, uri: bytes, height: uint64, raw: bytes) {
    predicate IsPending() { tag == TAG_PENDING }

    predicate IsBitcoin() { tag == TAG_BITCOIN }

    /** Only the fields that belong to the tag are set. */
    predicate Plain() {
      && |tag| == 8
      && (IsPending() || uri == []) && (IsBitcoin() || height == 0) && (IsPending() || IsBitcoin() ==> raw == [])
    }
  }

  datatype Edge = Edge(o: Op, child: Timestamp)

  datatype Timestamp = Timestamp(msg: bytes, attestations: seq<Attestation>, ops: seq<Edge>)

  // ---- Printing ----

  /** Unsigned LEB128, section 7.6 of DWARF 5. */
  function Varuint(n: nat): (b: bytes)
    ensures |b| >= 1
  {
    if n >= 0x80 then [n % 128 + 128] + Varuint(n / 128) else [n]
  }

  function Varbytes(b: bytes): bytes {
    Varuint(|b|) + b
  }

  function PrintOp(o: Op): bytes {
    [o.tag] + if o.HasArg() then Varbytes(o.arg) else []
  }

  function AttestationBody(a: Attestation): bytes {
    if a.IsPending() then Varbytes(a.uri) else if a.IsBitcoin() then Varuint(a.height) else a.raw
  }

  function PrintAttestation(a: Attestation): bytes {
    a.tag + Varbytes(AttestationBody(a))
  }

  /** The fork marker that precedes every edge but the last. */
  function Marker(remaining: nat): bytes {
    if remaining > 1 then [FORK] else []
  }

  function PrintNode(t: Timestamp): bytes
    decreases t
  {
    PrintEdges(t.attestations, t.ops)
  }

  function PrintEdges(atts: seq<Attestation>, ops: seq<Edge>): bytes
    decreases ops, |atts|
  {
    if atts != [] then
      Marker(|atts| + |ops|) + PrintLeaf(atts[0]) + PrintEdges(atts[1..], ops)
    else if ops != [] then
      Marker(|ops|) + PrintEdge(ops[0]) + PrintEdges([], ops[1..])
    else []
  }

  function PrintLeaf(a: Attestation): bytes {
    [ATTESTATION] + PrintAttestation(a)
  }

  function PrintEdge(e: Edge): bytes
    decreases e
  {
    PrintOp(e.o) + PrintNode(e.child)
  }

  // ---- Parsing ----

  type Parsed<+T> = Option<(T, bytes)>

  /** The number, not yet cut to 64 bits, and the rest of the input. */
  function ReadVaruint(b: bytes): (r: Parsed<nat>)
    ensures r.Some? ==> |r.value.1| < |b|
  {
    if b == [] then None
    else if b[0] < 0x80 then Some((b[0], b[1..]))
    else
      match ReadVaruint(b[1..])
      case None => None
      case Some((n, rest)) => Some((b[0] - 128 + 128 * n, rest))
  }

  function ReadN(b: bytes, n: nat): (r: Parsed<bytes>)
    ensures r.Some? ==> |r.value.0| == n && |r.value.1| == |b| - n
  {
    if n <= |b| then Some((b[..n], b[n..])) else None
  }

  /** A length is cut to 64 bits; one that exceeds the remaining input fails. */
  function ReadVarbytes(b: bytes): (r: Parsed<bytes>)
    ensures r.Some? ==> |r.value.1| < |b|
  {
    match ReadVaruint(b)
    case None => None
    case Some((n, rest)) => ReadN(rest, n % TWO_TO_THE_64)
  }

  function ParseOp(tag: byte, b: bytes): (r: Parsed<Op>)
    ensures r.Some? ==> |r.value.1| <= |b| && r.value.0.tag == tag && r.value.0.Supported()
  {
    if tag == OP_APPEND || tag == OP_PREPEND then
      match ReadVarbytes(b)
      case None => None
      case Some((arg, rest)) => Some((Op(tag, arg), rest))
    else if tag == OP_SHA1 || tag == OP_RIPEMD160 || tag == OP_SHA256 then Some((Op(tag, []), b))
    else None
  }

  /** Bytes of the body beyond what the tag needs are ignored. */
  function ParseBody(tag: bytes, body: bytes): Option<Attestation> {
    if tag == TAG_PENDING then
      match ReadVarbytes(body)
      case None => None
      case Some((uri, _)) => Some(Attestation(tag, uri, 0, []))
    else if tag == TAG_BITCOIN then
      match ReadVaruint(body)
      case None => None
      case Some((n, _)) => Some(Attestation(tag, [], n % TWO_TO_THE_64, []))
    else Some(Attestation(tag, [], 0, body))
  }

  function ParseAttestation(b: bytes): (r: Parsed<Attestation>)
    ensures r.Some? ==> |r.value.1| < |b|
  {
    match ReadN(b, 8)
    case None => None
    case Some((tag, rest)) =>
      match ReadVarbytes(rest)
      case None => None
      case Some((body, rest')) =>
        match ParseBody(tag, body)
        case None => None
        case Some(a) => Some((a, rest'))
  }

  function ParseNode(hs: OpHashes, b: bytes, msg: bytes): (r: Parsed<Timestamp>)
    ensures r.Some? ==> |r.value.1| < |b|
    decreases |b|, 2
  {
    ParseEdges(hs, b, Timestamp(msg, [], []))
  }

  /** The edges still to come are added to `t`. */
  function ParseEdges(hs: OpHashes, b: bytes, t: Timestamp): (r: Parsed<Timestamp>)
    ensures r.Some? ==> |r.value.1| < |b|
    decreases |b|, 1
  {
    if b == [] then None
    else if b[0] == FORK then
      if |b| == 1 then None
      else
        match ParseOne(hs, b[1], b[2..], t)
        case None => None
        case Some((t', rest)) => ParseEdges(hs, rest, t')
    else ParseOne(hs, b[0], b[1..], t)
  }

  /** One edge: an attestation, or an operation and its subtree. */
  function ParseOne(hs: OpHashes, tag: byte, b: bytes, t: Timestamp): (r: Parsed<Timestamp>)
    ensures r.Some? ==> |r.value.1| <= |b|
    decreases |b|, 3
  {
    if tag == ATTESTATION then
      match ParseAttestation(b)
      case None => None
      case Some((a, rest)) => Some((t.(attestations := t.attestations + [a]), rest))
    else
      match ParseOp(tag, b)
      case None => None
      case Some((o, rest)) =>
        match ParseNode(hs, rest, o.Apply(hs, t.msg))
        case None => None
        case Some((child, rest')) => Some((t.(ops := t.ops + [Edge(o, child)]), rest'))
  }

  // ---- The envelope ----

  datatype DetachedFile = DetachedFile(fileHashOp: byte, ts: Timestamp)

  function PrintFile(d: DetachedFile): bytes {
    HEADER_MAGIC + Varuint(1) + [d.fileHashOp] + d.ts.msg + PrintNode(d.ts)
  }

  /** Any version is accepted; bytes after the tree are ignored. */
  function ParseFile(hs: OpHashes, b: bytes): Option<DetachedFile> {
    match ReadN(b, |HEADER_MAGIC|)
    case None => None
    case Some((magic, b1)) =>
      if magic != HEADER_MAGIC then None
      else
        match ReadVaruint(b1)
        case None => None
        case Some((_, b2)) =>
          match ReadN(b2, 1)
          case None => None
          case Some((op, b3)) =>
            if op[0] != OP_SHA256 then None
            else
              match ReadN(b3, 32)
              case None => None
              case Some((digest, b4)) =>
                match ParseNode(hs, b4, digest)
                case None => None
                case Some((ts, _)) => Some(DetachedFile(op[0], ts))
  }
}
