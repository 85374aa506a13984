/** The OpenTimestamps notary on the anchorer's panel. */
module OtsPanel {
  import opened Bytes
  import opened OtsWire
  import opened Witness
  import opened AnchorInvariant
  import OtsRoundTrip
  import OtsNotary

  /** What the notary's surroundings answer when it stamps an id: the nonce it draws, and the bodies the
      calendars return, `None` where one is unreachable. */
  datatype Surroundings = Surroundings(nonce: bytes -> bytes, bodies: bytes -> seq<Option<bytes>>) {
    function Merged(hs: OpHashes, id: bytes): (Timestamp, bool) {
      OtsNotary.Merge(hs, hs.sha256(id + nonce(id)), bodies(id))
    }

    /** 16 bytes of nonce, and a calendar that answers with a tree; otherwise `Stamp` fails, which is a fault
        of the anchoring run and no proof. */
    ghost predicate Answering(hs: OpHashes) {
      forall id: Digest :: |nonce(id)| == 16 && Merged(hs, id).1
    }
  }

  /** The tokens are those of `OtsNotary.Stamp`, the check is `OtsNotary.Verify`. */
  function OpenTimestamps(hs: OpHashes, name: Blob, s: Surroundings): Notary {
    Notary(name,
           (id: bytes) => Proof(name, Ascii("opentimestamps"),
                                OtsNotary.Token(hs, id, s.nonce(id), s.Merged(hs, id).0)),
           (p: Proof, id: bytes) => OtsNotary.Accepts(hs, p.token, id))
  }

  /** It accepts its own proofs, and its proof for an id is good for no other string of bytes. */
  lemma OpenTimestampsIsReliable(hs: OpHashes, name: Blob, s: Surroundings)
    requires s.Answering(hs)
    ensures var n := OpenTimestamps(hs, name, s);
            && Reliable(n)
            && forall id: Digest, y: bytes :: Genuine(n, n.stamp(id), id, y)
  {
    hide OtsNotary.Accepts, OtsNotary.Token, Surroundings.Merged;
    var n := OpenTimestamps(hs, name, s);
    forall id: Digest, y: bytes ensures n.check(n.stamp(id), y) <==> y == id {
      TokenIsGenuine(hs, s, id, y);
    }
  }

  lemma TokenIsGenuine(hs: OpHashes, s: Surroundings, id: Digest, y: bytes)
    requires |s.nonce(id)| == 16 && s.Merged(hs, id).1
    ensures OtsNotary.Accepts(hs, OtsNotary.Token(hs, id, s.nonce(id), s.Merged(hs, id).0), y) <==> y == id
  {
    OtsNotary.StampVerifies(hs, id, s.nonce(id), s.bodies(id), y);
  }

  /** It can join any panel on which its name is still free. */
  lemma OpenTimestampsJoins(hs: OpHashes, name: Blob, s: Surroundings, others: seq<Notary>)
    requires s.Answering(hs) && Panel(others)
    requires forall i :: 0 <= i < |others| ==> others[i].name != name
    ensures Panel(others + [OpenTimestamps(hs, name, s)])
  {
    hide Reliable, Surroundings.Answering;
    OpenTimestampsIsReliable(hs, name, s);
  }

  /** The check reads exactly 32 bytes of digest, so the notary accepts no id of another length. */
  lemma OnlyDigests(hs: OpHashes, token: bytes, id: bytes)
    requires OtsNotary.Accepts(hs, token, id)
    ensures |id| == 32
  {
    OtsRoundTrip.FileCanonicalisation(hs, token, []);
  }
}
