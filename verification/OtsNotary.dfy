/** The OpenTimestamps notary: assembling a proof, checking it, and finding the Bitcoin block it leads to. */
module OtsNotary {
  import opened Bytes
  import opened OtsWire
  import opened OtsRoundTrip
  import opened OtsCodec

  // ---- Walking the tree ----

  /** All attestations: a node's own, then its subtrees' in order. */
  function Collect(t: Timestamp): seq<Attestation>
    decreases t
  {
    t.attestations + CollectEdges(t.ops)
  }

  function CollectEdges(ops: seq<Edge>): seq<Attestation>
    decreases ops
  {
    if ops == [] then [] else CollectEdge(ops[0]) + CollectEdges(ops[1..])
  }

  function CollectEdge(e: Edge): seq<Attestation>
    decreases e
  {
    Collect(e.child)
  }

  function FirstBitcoin(atts: seq<Attestation>): (r: Option<Attestation>)
    ensures r.Some? ==> r.value in atts && r.value.IsBitcoin()
    ensures r.None? <==> forall a :: a in atts ==> !a.IsBitcoin()
  {
    if atts == [] then None
    else if atts[0].IsBitcoin() then Some(atts[0])
    else FirstBitcoin(atts[1..])
  }

  /** The node holding a Bitcoin attestation, and the attestation. */
  function FindBitcoin(t: Timestamp): Option<(Timestamp, Attestation)>
    decreases t
  {
    match FirstBitcoin(t.attestations)
    case Some(a) => Some((t, a))
    case None => FindInEdges(t.ops)
  }

  function FindInEdges(ops: seq<Edge>): Option<(Timestamp, Attestation)>
    decreases ops
  {
    if ops == [] then None
    else
      match FindInEdge(ops[0])
      case Some(found) => Some(found)
      case None => FindInEdges(ops[1..])
  }

  function FindInEdge(e: Edge): Option<(Timestamp, Attestation)>
    decreases e
  {
    FindBitcoin(e.child)
  }

  /** The operations on the way from `t` to `node`. */
  ghost predicate Path(t: Timestamp, path: seq<Op>, node: Timestamp)
    decreases path
  {
    if path == [] then t == node
    else exists e :: e in t.ops && e.o == path[0] && Path(e.child, path[1..], node)
  }

  function Fold(hs: OpHashes, path: seq<Op>, msg: bytes): bytes {
    if path == [] then msg else Fold(hs, path[1..], path[0].Apply(hs, msg))
  }

  /** It is the first in the list. */
  lemma {:induction false} FirstBitcoinIsFirst(atts: seq<Attestation>, k: nat)
    requires k < |atts| && atts[k].IsBitcoin() && forall j :: 0 <= j < k ==> !atts[j].IsBitcoin()
    ensures FirstBitcoin(atts) == Some(atts[k])
  {
    if k > 0 { FirstBitcoinIsFirst(atts[1..], k - 1); }
  }

  /** `collect` leaves out no attestation of any node. */
  lemma {:induction false} HeldIsCollected(t: Timestamp, path: seq<Op>, node: Timestamp, a: Attestation)
    requires Path(t, path, node) && a in node.attestations
    ensures a in Collect(t)
    decreases path
  {
    if path != [] {
      var e :| e in t.ops && e.o == path[0] && Path(e.child, path[1..], node);
      HeldIsCollected(e.child, path[1..], node, a);
      ChildIsCollected(t.ops, e, a);
    }
  }

  lemma {:induction false} ChildIsCollected(ops: seq<Edge>, e: Edge, a: Attestation)
    requires e in ops && a in Collect(e.child)
    ensures a in CollectEdges(ops)
  {
    if e != ops[0] { ChildIsCollected(ops[1..], e, a); }
  }

  /** And it makes none up. */
  lemma {:induction false} CollectedIsHeld(t: Timestamp, a: Attestation) returns (path: seq<Op>, node: Timestamp)
    requires a in Collect(t)
    ensures Path(t, path, node) && a in node.attestations
    decreases t
  {
    if a in t.attestations {
      path, node := [], t;
    } else {
      path, node := CollectedInEdges(t.ops, a);
    }
  }

  lemma {:induction false} CollectedInEdges(ops: seq<Edge>, a: Attestation) returns (path: seq<Op>, node: Timestamp)
    requires a in CollectEdges(ops)
    ensures path != [] && a in node.attestations
    ensures exists e :: e in ops && e.o == path[0] && Path(e.child, path[1..], node)
    decreases ops
  {
    if a in CollectEdge(ops[0]) {
      var rest;
      rest, node := CollectedInEdge(ops[0], a);
      path := [ops[0].o] + rest;
      assert path[1..] == rest && ops[0] in ops;
    } else {
      path, node := CollectedInEdges(ops[1..], a);
      var e :| e in ops[1..] && e.o == path[0] && Path(e.child, path[1..], node);
      assert e in ops;
    }
  }

  lemma {:induction false} CollectedInEdge(e: Edge, a: Attestation) returns (path: seq<Op>, node: Timestamp)
    requires a in CollectEdge(e)
    ensures Path(e.child, path, node) && a in node.attestations
    decreases e
  {
    path, node := CollectedIsHeld(e.child, a);
  }

  lemma FirstOfConcat(a: seq<Attestation>, b: seq<Attestation>)
    ensures FirstBitcoin(a + b) == if FirstBitcoin(a).Some? then FirstBitcoin(a) else FirstBitcoin(b)
  {
    if a == [] {
      assert a + b == b;
    } else {
      assert (a + b)[1..] == a[1..] + b;
    }
  }

  /** `findBitcoin` succeeds exactly when `collect` has a Bitcoin attestation, and then returns the first
      one in that order together with a node that holds it. */
  lemma {:induction false} FindAgreesWithCollect(t: Timestamp)
    ensures match FindBitcoin(t)
            case None => FirstBitcoin(Collect(t)) == None
            case Some((node, a)) => FirstBitcoin(Collect(t)) == Some(a) && a in node.attestations
    decreases t
  {
    FirstOfConcat(t.attestations, CollectEdges(t.ops));
    FindAgreesEdges(t.ops);
  }

  lemma {:induction false} FindAgreesEdges(ops: seq<Edge>)
    ensures match FindInEdges(ops)
            case None => FirstBitcoin(CollectEdges(ops)) == None
            case Some((node, a)) => FirstBitcoin(CollectEdges(ops)) == Some(a) && a in node.attestations
    decreases ops
  {
    if ops != [] {
      FirstOfConcat(CollectEdge(ops[0]), CollectEdges(ops[1..]));
      FindAgreesEdge(ops[0]);
      FindAgreesEdges(ops[1..]);
    }
  }

  lemma {:induction false} FindAgreesEdge(e: Edge)
    ensures match FindInEdge(e)
            case None => FirstBitcoin(CollectEdge(e)) == None
            case Some((node, a)) => FirstBitcoin(CollectEdge(e)) == Some(a) && a in node.attestations
    decreases e
  {
    FindAgreesWithCollect(e.child);
  }

  /** In a coherent tree the found node's message is the root message pushed through the operations on the
      way there. */
  lemma {:induction false} FoundByPath(hs: OpHashes, t: Timestamp) returns (path: seq<Op>)
    requires Coherent(hs, t) && FindBitcoin(t).Some?
    ensures var node := FindBitcoin(t).value.0; Path(t, path, node) && node.msg == Fold(hs, path, t.msg)
    decreases t
  {
    if FirstBitcoin(t.attestations).Some? {
      path := [];
    } else {
      path := FoundInEdges(hs, t.ops, t.msg);
      var e :| e in t.ops && e.o == path[0] && Path(e.child, path[1..], FindBitcoin(t).value.0);
    }
  }

  lemma {:induction false} FoundInEdges(hs: OpHashes, ops: seq<Edge>, msg: bytes) returns (path: seq<Op>)
    requires CoherentEdges(hs, ops, msg) && FindInEdges(ops).Some?
    ensures path != []
    ensures var node := FindInEdges(ops).value.0;
            && (exists e :: e in ops && e.o == path[0] && Path(e.child, path[1..], node))
            && node.msg == Fold(hs, path, msg)
    decreases ops
  {
    if FindInEdge(ops[0]).Some? {
      assert CoherentEdge(hs, ops[0], msg);
      var rest := FoundInEdge(hs, ops[0], msg);
      path := [ops[0].o] + rest;
      assert path[1..] == rest && ops[0] in ops;
    } else {
      path := FoundInEdges(hs, ops[1..], msg);
      var e :| e in ops[1..] && e.o == path[0] && Path(e.child, path[1..], FindInEdges(ops).value.0);
      assert e in ops;
    }
  }

  lemma {:induction false} FoundInEdge(hs: OpHashes, e: Edge, msg: bytes) returns (path: seq<Op>)
    requires CoherentEdge(hs, e, msg) && FindInEdge(e).Some?
    ensures var node := FindInEdge(e).value.0;
            Path(e.child, path, node) && node.msg == Fold(hs, path, e.o.Apply(hs, msg))
    decreases e
  {
    path := FoundByPath(hs, e.child);
  }

  /** The messages along a path: each operation makes the next message of the one before, as its name says. */
  ghost predicate Derivation(hs: OpHashes, path: seq<Op>, msgs: seq<bytes>) {
    && |msgs| == |path| + 1
    && forall i :: 0 <= i < |path| ==> path[i].Supported() && StepsTo(hs, path[i], msgs[i], msgs[i + 1])
  }

  /** In a parsed tree, every edge of every node is such a step. */
  lemma {:induction false} CoherentSteps(hs: OpHashes, t: Timestamp, path: seq<Op>, node: Timestamp, e: Edge)
    requires WellFormed(t) && Coherent(hs, t) && Path(t, path, node) && e in node.ops
    ensures e.o.Supported() && StepsTo(hs, e.o, node.msg, e.child.msg)
    decreases path
  {
    if path == [] {
      assert WellFormedEdge(e) && CoherentEdge(hs, e, t.msg);
      AppliedIs(hs, e.o, t.msg);
    } else {
      var next :| next in t.ops && next.o == path[0] && Path(next.child, path[1..], node);
      assert WellFormedEdge(next) && CoherentEdge(hs, next, t.msg);
      CoherentSteps(hs, next.child, path[1..], node, e);
    }
  }

  /** So in what the parser accepts: below an append the message continues the parent's, below a prepend it ends
      with it, and below a hash it is that hash of it. */
  lemma ParsedSteps(hs: OpHashes, b: bytes, msg: bytes, path: seq<Op>, node: Timestamp, e: Edge)
    requires ParseNode(hs, b, msg).Some? && Path(ParseNode(hs, b, msg).value.0, path, node) && e in node.ops
    ensures e.o.Supported() && StepsTo(hs, e.o, node.msg, e.child.msg)
  {
    hide ParseNode, StepsTo;
    ParsedNode(hs, b, msg);
    CoherentSteps(hs, ParseNode(hs, b, msg).value.0, path, node, e);
  }

  /** The messages along a path of a parsed tree are such a derivation, from the root's to the node's. */
  lemma {:induction false} PathDerives(hs: OpHashes, t: Timestamp, path: seq<Op>, node: Timestamp)
    returns (msgs: seq<bytes>)
    requires WellFormed(t) && Coherent(hs, t) && Path(t, path, node)
    ensures Derivation(hs, path, msgs) && msgs[0] == t.msg && msgs[|path|] == node.msg
    decreases path
  {
    hide StepsTo;
    if path == [] {
      msgs := [t.msg];
    } else {
      var e :| e in t.ops && e.o == path[0] && Path(e.child, path[1..], node);
      assert WellFormedEdge(e) && CoherentEdge(hs, e, t.msg);
      AppliedIs(hs, e.o, t.msg);
      var rest := PathDerives(hs, e.child, path[1..], node);
      msgs := [t.msg] + rest;
      forall i | 0 <= i < |path| ensures path[i].Supported() && StepsTo(hs, path[i], msgs[i], msgs[i + 1]) {
        if i > 0 { assert path[i] == path[1..][i - 1] && msgs[i] == rest[i - 1] && msgs[i + 1] == rest[i]; }
      }
    }
  }

  /** A tree with an edge at every node ends in attestations. */
  lemma {:induction false} WellFormedHasAttestation(t: Timestamp)
    requires WellFormed(t)
    ensures Collect(t) != []
    decreases t
  {
    if t.attestations == [] {
      assert t.ops[0] in t.ops && WellFormedEdge(t.ops[0]);
      WellFormedEdgeHasAttestation(t.ops[0]);
    }
  }

  lemma {:induction false} WellFormedEdgeHasAttestation(e: Edge)
    requires WellFormedEdge(e)
    ensures CollectEdge(e) != []
    decreases e
  {
    WellFormedHasAttestation(e.child);
  }

  // ---- Checking a proof ----

  /** The proof is a well-formed file bound to the id, with at least one attestation. */
  method Verify(hs: OpHashes, token: bytes, checkpointID: bytes) returns (ok: bool)
    ensures ok == Accepts(hs, token, checkpointID)
  {
    var d := ParseDetachedFile(hs, token);
    if d.None? || d.value.ts.msg != checkpointID {
      return false;
    }
    var atts := Collect(d.value.ts);
    ok := |atts| != 0;
  }

  predicate Accepts(hs: OpHashes, token: bytes, checkpointID: bytes) {
    match ParseFile(hs, token)
    case None => false
    case Some(d) => d.ts.msg == checkpointID && Collect(d.ts) != []
  }

  /** The attestation check never fails: a token is accepted exactly for the digest it parses to. */
  lemma AcceptsExactly(hs: OpHashes, token: bytes, checkpointID: bytes)
    ensures Accepts(hs, token, checkpointID) <==>
            ParseFile(hs, token).Some? && ParseFile(hs, token).value.ts.msg == checkpointID
  {
    if ParseFile(hs, token).Some? {
      FileCanonicalisation(hs, token, []);
      WellFormedHasAttestation(ParseFile(hs, token).value.ts);
    }
  }

  /** In particular the check involves no calendar: a file that merely names one is accepted for its digest. */
  lemma AcceptedWithoutCalendar(hs: OpHashes, checkpointID: bytes, uri: bytes)
    requires |checkpointID| == 32 && |Varbytes(uri)| < TWO_TO_THE_64
    ensures var tree := Timestamp(checkpointID, [Attestation(TAG_PENDING, uri, 0, [])], []);
            Accepts(hs, PrintFile(DetachedFile(OP_SHA256, tree)), checkpointID)
  {
    hide ParseFile, PrintFile, Varbytes;
    var tree := Timestamp(checkpointID, [Attestation(TAG_PENDING, uri, 0, [])], []);
    var d := DetachedFile(OP_SHA256, tree);
    FileRoundTrip(hs, d, []);
    assert PrintFile(d) + [] == PrintFile(d);
    AcceptsExactly(hs, PrintFile(d), checkpointID);
  }

  /** The URIs of exactly the pending attestations, in order; `kept` are their positions. */
  method PendingURIs(hs: OpHashes, token: bytes) returns (uris: Option<seq<bytes>>, ghost kept: seq<nat>)
    ensures uris.None? <==> ParseFile(hs, token).None?
    ensures uris.Some? ==>
              var atts := Collect(ParseFile(hs, token).value.ts);
              && |uris.value| == |kept|
              && (forall i, j :: 0 <= i < j < |kept| ==> kept[i] < kept[j])
              && (forall k: nat :: k in kept <==> k < |atts| && atts[k].IsPending())
              && (forall i :: 0 <= i < |kept| ==> kept[i] < |atts| && uris.value[i] == atts[kept[i]].uri)
  {
    kept := [];
    var d := ParseDetachedFile(hs, token);
    if d.None? {
      return None, kept;
    }
    var atts, out := Collect(d.value.ts), [];
    for i := 0 to |atts|
      invariant |out| == |kept|
      invariant forall k: nat :: k in kept <==> k < i && atts[k].IsPending()
      invariant forall j, k :: 0 <= j < k < |kept| ==> kept[j] < kept[k]
      invariant forall j :: 0 <= j < |kept| ==> kept[j] < i && out[j] == atts[kept[j]].uri
    {
      if atts[i].IsPending() {
        out, kept := out + [atts[i].uri], kept + [i];
      }
    }
    uris := Some(out);
  }

  method HasBitcoin(hs: OpHashes, token: bytes) returns (found: bool)
    ensures found <==> ParseFile(hs, token).Some? && FindBitcoin(ParseFile(hs, token).value.ts).Some?
  {
    var d := ParseDetachedFile(hs, token);
    if d.None? {
      return false;
    }
    FindAgreesWithCollect(d.value.ts);
    var atts := Collect(d.value.ts);
    for i := 0 to |atts|
      invariant forall j :: 0 <= j < i ==> !atts[j].IsBitcoin()
    {
      if atts[i].IsBitcoin() {
        assert atts[i] in atts;
        return true;
      }
    }
    found := false;
  }

  /** `explorer` gives the Merkle root of the block at a height, in the byte order of the proof. */
  method VerifyBitcoin(hs: OpHashes, explorer: uint64 -> Option<bytes>, token: bytes, checkpointID: bytes)
    returns (height: Option<uint64>)
    ensures height == BitcoinHeight(hs, explorer, token, checkpointID)
  {
    var ok := Verify(hs, token, checkpointID);
    if !ok {
      return None;
    }
    var d := ParseDetachedFile(hs, token);
    match FindBitcoin(d.value.ts) {
      case None => return None;
      case Some((node, att)) =>
        var root := explorer(att.height);
        if root.None? || node.msg != root.value {
          return None;
        }
        return Some(att.height);
    }
  }

  function BitcoinHeight(hs: OpHashes, explorer: uint64 -> Option<bytes>, token: bytes, checkpointID: bytes)
    : Option<uint64>
  {
    if !Accepts(hs, token, checkpointID) then None
    else
      match FindBitcoin(ParseFile(hs, token).value.ts)
      case None => None
      case Some((node, att)) => if explorer(att.height) == Some(node.msg) then Some(att.height) else None
  }

  /** What the check of the Bitcoin attestation says, for every accepted proof: it is about the first Bitcoin
      attestation in collect order, there must be one, and the messages on the way to a node that holds it must
      lead from the checkpoint id to the Merkle root of the block at its height. */
  lemma BitcoinVerdict(hs: OpHashes, explorer: uint64 -> Option<bytes>, token: bytes, checkpointID: bytes)
    returns (path: seq<Op>, msgs: seq<bytes>, node: Timestamp)
    requires Accepts(hs, token, checkpointID)
    ensures var ts := ParseFile(hs, token).value.ts;
            match FirstBitcoin(Collect(ts))
            case None => BitcoinHeight(hs, explorer, token, checkpointID) == None
            case Some(a) =>
              && Path(ts, path, node) && a in node.attestations
              && Derivation(hs, path, msgs) && msgs[0] == checkpointID && msgs[|path|] == node.msg
              && BitcoinHeight(hs, explorer, token, checkpointID)
                 == if explorer(a.height) == Some(msgs[|path|]) then Some(a.height) else None
  {
    hide ParseFile, StepsTo;
    FileCanonicalisation(hs, token, []);
    var ts := ParseFile(hs, token).value.ts;
    FindAgreesWithCollect(ts);
    path, msgs, node := [], [ts.msg], ts;
    if FindBitcoin(ts).Some? {
      path := FoundByPath(hs, ts);
      node := FindBitcoin(ts).value.0;
      msgs := PathDerives(hs, ts, path, node);
    }
  }

  /** So a verified height means that appending, prepending and hashing along the proof takes the checkpoint id to
      the Merkle root of the block at that height. */
  lemma BitcoinBinding(hs: OpHashes, explorer: uint64 -> Option<bytes>, token: bytes, checkpointID: bytes)
    returns (path: seq<Op>, msgs: seq<bytes>)
    requires BitcoinHeight(hs, explorer, token, checkpointID).Some?
    ensures Derivation(hs, path, msgs) && msgs[0] == checkpointID
    ensures explorer(BitcoinHeight(hs, explorer, token, checkpointID).value) == Some(msgs[|path|])
  {
    var node;
    path, msgs, node := BitcoinVerdict(hs, explorer, token, checkpointID);
  }

  // ---- Stamping ----

  /** The calendars' subtrees, merged into one node; a body that fails to parse counts as unreachable. */
  function Merge(hs: OpHashes, submitted: bytes, bodies: seq<Option<bytes>>): (Timestamp, bool) {
    if bodies == [] then (Timestamp(submitted, [], []), false)
    else
      var (node, any) := Merge(hs, submitted, bodies[..|bodies| - 1]);
      match bodies[|bodies| - 1]
      case None => (node, any)
      case Some(body) =>
        match ParseNode(hs, body, submitted)
        case None => (node, any)
        case Some((cal, _)) => (Timestamp(submitted, node.attestations + cal.attestations, node.ops + cal.ops), true)
  }

  /** checkpoint id, append nonce, sha256, calendars. */
  function StampTree(hs: OpHashes, checkpointID: bytes, nonce: bytes, node: Timestamp): Timestamp {
    var afterAppend := Timestamp(checkpointID + nonce, [], [Edge(Op(OP_SHA256, []), node)]);
    Timestamp(checkpointID, [], [Edge(Op(OP_APPEND, nonce), afterAppend)])
  }

  function Token(hs: OpHashes, checkpointID: bytes, nonce: bytes, node: Timestamp): bytes {
    PrintFile(DetachedFile(OP_SHA256, StampTree(hs, checkpointID, nonce, node)))
  }

  /** `bodies` are the calendars' answers, `None` where a calendar is unreachable. */
  method Stamp(hs: OpHashes, checkpointID: bytes, nonce: bytes, bodies: seq<Option<bytes>>)
    returns (token: Option<bytes>)
    ensures var (node, any) := Merge(hs, hs.sha256(checkpointID + nonce), bodies);
            token == if any then Some(Token(hs, checkpointID, nonce, node)) else None
  {
    hide ParseNode, PrintFile;
    var appended := checkpointID + nonce;
    var submitted := hs.sha256(appended);
    var submittedNode := Timestamp(submitted, [], []);
    var ok := false;
    for i := 0 to |bodies|
      invariant (submittedNode, ok) == Merge(hs, submitted, bodies[..i])
    {
      assert bodies[..i + 1][..i] == bodies[..i];
      if bodies[i].Some? {
        var r := new Reader(bodies[i].value);
        var cal := DeserializeTimestamp(hs, r, submitted);
        if cal.Some? {
          submittedNode := Timestamp(submitted, submittedNode.attestations + cal.value.attestations,
                                     submittedNode.ops + cal.value.ops);
          ok := true;
        }
      }
    }
    assert bodies[..|bodies|] == bodies;
    if !ok {
      return None;
    }
    var afterAppend := Timestamp(appended, [], [Edge(Op(OP_SHA256, []), submittedNode)]);
    var root := Timestamp(checkpointID, [], [Edge(Op(OP_APPEND, nonce), afterAppend)]);
    var b := SerializeFile(DetachedFile(OP_SHA256, root));
    token := Some(b);
  }

  /** Merging the answers of `a` and then of `b` keeps both, in order. */
  lemma {:induction false} MergeSplits(hs: OpHashes, submitted: bytes, a: seq<Option<bytes>>, b: seq<Option<bytes>>)
    ensures var x, y, both := Merge(hs, submitted, a), Merge(hs, submitted, b), Merge(hs, submitted, a + b);
            && both.0 == Timestamp(submitted, x.0.attestations + y.0.attestations, x.0.ops + y.0.ops)
            && both.1 == (x.1 || y.1)
  {
    hide ParseNode;
    MergeMessage(hs, submitted, a);
    if b == [] {
      assert a + b == a;
    } else {
      var init := b[..|b| - 1];
      assert (a + b)[..|a + b| - 1] == a + init;
      MergeSplits(hs, submitted, a, init);
    }
  }

  lemma {:induction false} MergeMessage(hs: OpHashes, submitted: bytes, bodies: seq<Option<bytes>>)
    ensures Merge(hs, submitted, bodies).0.msg == submitted
  {
    hide ParseNode;
    if bodies != [] { MergeMessage(hs, submitted, bodies[..|bodies| - 1]); }
  }

  /** One answer is merged as it was parsed; no answer, or one that does not parse, adds nothing. */
  lemma MergeOne(hs: OpHashes, submitted: bytes, body: Option<bytes>)
    ensures body.Some? && ParseNode(hs, body.value, submitted).Some? ==>
              Merge(hs, submitted, [body]) == (ParseNode(hs, body.value, submitted).value.0, true)
    ensures body.None? || ParseNode(hs, body.value, submitted).None? ==>
              Merge(hs, submitted, [body]) == (Timestamp(submitted, [], []), false)
  {
    assert [body][..0] == [];
    if body.Some? && ParseNode(hs, body.value, submitted).Some? {
      ParsedNode(hs, body.value, submitted);
      var cal := ParseNode(hs, body.value, submitted).value.0;
      assert [] + cal.attestations == cal.attestations && [] + cal.ops == cal.ops;
    }
  }

  /** Whatever a calendar that answered attests, wherever in its tree, is among the attestations of the token; the
      pending ones are therefore among its `PendingURIs`. */
  lemma AnswerIsKept(hs: OpHashes, checkpointID: bytes, nonce: bytes, bodies: seq<Option<bytes>>, i: nat,
                     a: Attestation)
    requires |checkpointID| == 32 && |nonce| == 16 && i < |bodies| && bodies[i].Some?
    requires ParseNode(hs, bodies[i].value, hs.sha256(checkpointID + nonce)).Some?
    requires a in Collect(ParseNode(hs, bodies[i].value, hs.sha256(checkpointID + nonce)).value.0)
    ensures var token := Token(hs, checkpointID, nonce, Merge(hs, hs.sha256(checkpointID + nonce), bodies).0);
            ParseFile(hs, token).Some? && a in Collect(ParseFile(hs, token).value.ts)
  {
    var submitted := hs.sha256(checkpointID + nonce);
    var cal, node := ParseNode(hs, bodies[i].value, submitted).value.0, Merge(hs, submitted, bodies).0;
    hide ParseNode, ParseFile, PrintFile, Merge;
    MergeIsGood(hs, submitted, bodies);
    assert bodies == bodies[..i] + [bodies[i]] + bodies[i + 1..];
    MergeSplits(hs, submitted, bodies[..i] + [bodies[i]], bodies[i + 1..]);
    MergeSplits(hs, submitted, bodies[..i], [bodies[i]]);
    MergeOne(hs, submitted, bodies[i]);
    var path, held := CollectedIsHeld(cal, a);
    KeptInMerge(cal, node, path, held, a);
    StampVerifies(hs, checkpointID, nonce, bodies, checkpointID);
    StampPath(hs, checkpointID, nonce, node);
  }

  /** In the token the merged answers hang below the nonce and a SHA-256, and below nothing else: what the calendars
      were asked to attest is the hash of the id with the nonce behind it, not the id. */
  lemma AnswersBelowNonce(hs: OpHashes, checkpointID: bytes, nonce: bytes, bodies: seq<Option<bytes>>)
    requires |checkpointID| == 32 && |nonce| == 16
    requires Merge(hs, hs.sha256(checkpointID + nonce), bodies).1
    ensures var node := Merge(hs, hs.sha256(checkpointID + nonce), bodies).0;
            var d := ParseFile(hs, Token(hs, checkpointID, nonce, node));
            && d.Some? && d.value.ts.msg == checkpointID && node.msg == hs.sha256(checkpointID + nonce)
            && Path(d.value.ts, [Op(OP_APPEND, nonce), Op(OP_SHA256, [])], node)
            && Collect(d.value.ts) == Collect(node)
  {
    var node := Merge(hs, hs.sha256(checkpointID + nonce), bodies).0;
    hide ParseFile, PrintFile, Merge;
    MergeIsGood(hs, hs.sha256(checkpointID + nonce), bodies);
    StampVerifies(hs, checkpointID, nonce, bodies, checkpointID);
    StampPath(hs, checkpointID, nonce, node);
  }

  lemma StampPath(hs: OpHashes, checkpointID: bytes, nonce: bytes, node: Timestamp)
    ensures Path(StampTree(hs, checkpointID, nonce, node), [Op(OP_APPEND, nonce), Op(OP_SHA256, [])], node)
    ensures Collect(StampTree(hs, checkpointID, nonce, node)) == Collect(node)
  {
    var tree := StampTree(hs, checkpointID, nonce, node);
    var path, inner := [Op(OP_APPEND, nonce), Op(OP_SHA256, [])], tree.ops[0].child;
    assert path[1..] == [Op(OP_SHA256, [])] && path[1..][1..] == [];
    assert Path(node, path[1..][1..], node);
    assert inner.ops[0] in inner.ops && Path(inner, path[1..], node);
    assert tree.ops[0] in tree.ops;
    CollectOne(inner);
    CollectOne(tree);
  }

  lemma CollectOne(t: Timestamp)
    requires t.attestations == [] && |t.ops| == 1
    ensures Collect(t) == Collect(t.ops[0].child)
  {
    assert CollectEdges(t.ops[1..]) == [];
    assert CollectEdges(t.ops) == CollectEdge(t.ops[0]) + [];
  }

  lemma KeptInMerge(cal: Timestamp, node: Timestamp, path: seq<Op>, held: Timestamp, a: Attestation)
    requires Path(cal, path, held) && a in held.attestations
    requires forall x :: x in cal.attestations ==> x in node.attestations
    requires forall e :: e in cal.ops ==> e in node.ops
    ensures a in Collect(node)
  {
    if path != [] {
      var e :| e in cal.ops && e.o == path[0] && Path(e.child, path[1..], held);
      HeldIsCollected(e.child, path[1..], held, a);
      ChildIsCollected(node.ops, e, a);
    }
  }

  lemma {:induction false} MergeIsGood(hs: OpHashes, submitted: bytes, bodies: seq<Option<bytes>>)
    ensures var (node, any) := Merge(hs, submitted, bodies);
            && node.msg == submitted && Partial(hs, node) && (any ==> WellFormed(node))
    ensures var (node, any) := Merge(hs, submitted, bodies);
            any <==> exists i :: 0 <= i < |bodies| && bodies[i].Some? && ParseNode(hs, bodies[i].value, submitted).Some?
  {
    hide ParseNode;
    if bodies != [] {
      var k := |bodies| - 1;
      MergeIsGood(hs, submitted, bodies[..k]);
      if bodies[k].Some? && ParseNode(hs, bodies[k].value, submitted).Some? {
        ParsedNode(hs, bodies[k].value, submitted);
      }
      assert forall i :: 0 <= i < k ==> bodies[..k][i] == bodies[i];
    }
  }

  /** The assembled token parses back to exactly the merged tree, and is accepted for the stamped id and
      for no other. */
  lemma StampVerifies(hs: OpHashes, checkpointID: bytes, nonce: bytes, bodies: seq<Option<bytes>>, id: bytes)
    requires |checkpointID| == 32 && |nonce| == 16
    requires Merge(hs, hs.sha256(checkpointID + nonce), bodies).1
    ensures var tree := StampTree(hs, checkpointID, nonce, Merge(hs, hs.sha256(checkpointID + nonce), bodies).0);
            var token := Token(hs, checkpointID, nonce, Merge(hs, hs.sha256(checkpointID + nonce), bodies).0);
            && ParseFile(hs, token) == Some(DetachedFile(OP_SHA256, tree))
            && (Accepts(hs, token, id) <==> id == checkpointID)
  {
    hide ParseFile, PrintFile, Merge;
    var node := Merge(hs, hs.sha256(checkpointID + nonce), bodies).0;
    MergeIsGood(hs, hs.sha256(checkpointID + nonce), bodies);
    var tree := StampTree(hs, checkpointID, nonce, node);
    StampTreeGood(hs, checkpointID, nonce, node);
    var d := DetachedFile(OP_SHA256, tree);
    FileRoundTrip(hs, d, []);
    assert PrintFile(d) + [] == PrintFile(d);
    AcceptsExactly(hs, PrintFile(d), id);
  }

  lemma StampTreeGood(hs: OpHashes, checkpointID: bytes, nonce: bytes, node: Timestamp)
    requires WellFormed(node) && Coherent(hs, node) && node.msg == hs.sha256(checkpointID + nonce) && |nonce| == 16
    ensures WellFormed(StampTree(hs, checkpointID, nonce, node))
    ensures Coherent(hs, StampTree(hs, checkpointID, nonce, node))
  {
    var tree := StampTree(hs, checkpointID, nonce, node);
    var inner := tree.ops[0].child;
    assert WellFormedEdge(inner.ops[0]) && CoherentEdge(hs, inner.ops[0], inner.msg);
    assert WellFormedEdge(tree.ops[0]) && CoherentEdge(hs, tree.ops[0], tree.msg);
  }
}
