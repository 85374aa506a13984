/** The Merkle root of a list of entry hashes, computed level by level. */
module Merkle {
  import opened Bytes
  import opened Hashing

  /** Leaf and node prefixes, as in section 2.1 of RFC 6962. */
  const LEAF_PREFIX: byte := 0x00
  const NODE_PREFIX: byte := 0x01

  // ---- Levels: what the two loops compute ----

  function LeafLevel(h: Hasher, entryHashes: seq<Blob>): (level: seq<Digest>)
    ensures |level| == |entryHashes|
    ensures forall i :: 0 <= i < |level| ==> level[i] == h([LEAF_PREFIX] + entryHashes[i])
  {
    seq(|entryHashes|, i requires 0 <= i < |entryHashes| => h([LEAF_PREFIX] + entryHashes[i]))
  }

  function Parent(h: Hasher, left: Digest, right: Digest): Digest {
    h([NODE_PREFIX] + left + right)
  }

  /** The index of the right sibling of `2 * i`: the last node of an odd level is its own sibling. */
  function Sibling(n: nat, i: nat): (j: nat)
    requires 2 * i < n
    ensures j < n
  {
    if 2 * i + 1 < n then 2 * i + 1 else 2 * i
  }

  function PairUp(h: Hasher, level: seq<Digest>): (next: seq<Digest>)
    ensures |next| == (|level| + 1) / 2
    ensures forall i :: 0 <= i < |next| ==> next[i] == Parent(h, level[2 * i], level[Sibling(|level|, i)])
  {
    seq((|level| + 1) / 2, i requires 0 <= i < (|level| + 1) / 2 => Parent(h, level[2 * i], level[Sibling(|level|, i)]))
  }

  function Reduce(h: Hasher, level: seq<Digest>): Digest
    requires level != []
    decreases |level|
  {
    if |level| == 1 then level[0] else Reduce(h, PairUp(h, level))
  }

  function MerkleRoot(h: Hasher, entryHashes: seq<Blob>): Digest {
    if entryHashes == [] then h([LEAF_PREFIX]) else Reduce(h, LeafLevel(h, entryHashes))
  }

  // ---- How much work a root takes ----

  function Rounds(n: nat): nat {
    if n <= 1 then 0 else 1 + Rounds((n + 1) / 2)
  }

  function NodeHashes(n: nat): nat {
    if n <= 1 then 0 else (n + 1) / 2 + NodeHashes((n + 1) / 2)
  }

  function Pow2(k: nat): (p: nat)
    ensures p >= 1
  {
    if k == 0 then 1 else 2 * Pow2(k - 1)
  }

  /** `Rounds(n)` is the base-two logarithm of `n`, rounded up. */
  lemma {:induction false} RoundsIsCeilLog2(n: nat)
    requires n >= 1
    ensures n <= Pow2(Rounds(n))
    ensures n >= 2 ==> Pow2(Rounds(n) - 1) < n
  {
    if n >= 2 { RoundsIsCeilLog2((n + 1) / 2); }
  }

  /** A root of `n` leaves hashes at least `n - 1` inner nodes, and at most one more each round. */
  lemma {:induction false} NodeHashBounds(n: nat)
    requires n >= 1
    ensures n - 1 <= NodeHashes(n) <= n - 1 + Rounds(n)
  {
    if n >= 2 { NodeHashBounds((n + 1) / 2); }
  }

  // ---- The tree behind a root ----

  /** A binary tree over entry hashes; a duplicated node is the same subtree twice. */
  datatype Tree = Leaf(entryHash: Blob) | Node(left: Tree, right: Tree)

  function Root(h: Hasher, t: Tree): Digest {
    match t
    case Leaf(x) => h([LEAF_PREFIX] + x)
    case Node(l, r) => Parent(h, Root(h, l), Root(h, r))
  }

  /** Every string hashed in the tree. */
  function Hashed(h: Hasher, t: Tree): seq<bytes> {
    match t
    case Leaf(x) => [[LEAF_PREFIX] + x]
    case Node(l, r) => [[NODE_PREFIX] + Root(h, l) + Root(h, r)] + Hashed(h, l) + Hashed(h, r)
  }

  function Leaves(entryHashes: seq<Blob>): (ts: seq<Tree>)
    ensures |ts| == |entryHashes|
    ensures forall i :: 0 <= i < |ts| ==> ts[i] == Leaf(entryHashes[i])
  {
    seq(|entryHashes|, i requires 0 <= i < |entryHashes| => Leaf(entryHashes[i]))
  }

  function PairTrees(ts: seq<Tree>): (next: seq<Tree>)
    ensures |next| == (|ts| + 1) / 2
    ensures forall i :: 0 <= i < |next| ==> next[i] == Node(ts[2 * i], ts[Sibling(|ts|, i)])
  {
    seq((|ts| + 1) / 2, i requires 0 <= i < (|ts| + 1) / 2 => Node(ts[2 * i], ts[Sibling(|ts|, i)]))
  }

  function Grow(ts: seq<Tree>): Tree
    requires ts != []
    decreases |ts|
  {
    if |ts| == 1 then ts[0] else Grow(PairTrees(ts))
  }

  function TreeOf(entryHashes: seq<Blob>): Tree
    requires entryHashes != []
  {
    Grow(Leaves(entryHashes))
  }

  /** The strings `MerkleRoot` hashes. */
  function RootTrail(h: Hasher, entryHashes: seq<Blob>): seq<bytes> {
    if entryHashes == [] then [[LEAF_PREFIX]] else Hashed(h, TreeOf(entryHashes))
  }

  ghost predicate RootsOf(h: Hasher, level: seq<Digest>, ts: seq<Tree>) {
    && |level| == |ts|
    && forall i :: 0 <= i < |ts| ==> level[i] == Root(h, ts[i])
  }

  lemma {:induction false} ReduceIsRoot(h: Hasher, level: seq<Digest>, ts: seq<Tree>)
    requires level != [] && RootsOf(h, level, ts)
    ensures Reduce(h, level) == Root(h, Grow(ts))
    decreases |level|
  {
    if |level| > 1 {
      ReduceIsRoot(h, PairUp(h, level), PairTrees(ts));
    }
  }

  /** The level-by-level root is the root of the tree. */
  lemma MerkleRootIsTreeRoot(h: Hasher, entryHashes: seq<Blob>)
    requires entryHashes != []
    ensures MerkleRoot(h, entryHashes) == Root(h, TreeOf(entryHashes))
  {
    ReduceIsRoot(h, LeafLevel(h, entryHashes), Leaves(entryHashes));
  }

  // ---- The method ----

  ghost function HashedIn(h: Hasher, ts: seq<Tree>): set<bytes> {
    set t, s | t in ts && s in Hashed(h, t) :: s
  }

  lemma HashedInAppend(h: Hasher, ts: seq<Tree>, t: Tree)
    ensures HashedIn(h, ts + [t]) == HashedIn(h, ts) + set s | s in Hashed(h, t)
  {
    assert t in ts + [t] && forall u :: u in ts ==> u in ts + [t];
  }

  lemma HashedInOne(h: Hasher, t: Tree)
    ensures HashedIn(h, [t]) == set s | s in Hashed(h, t)
  {
    assert t in [t];
  }

  ghost function ParentStrings(h: Hasher, ts: seq<Tree>, n: nat): set<bytes>
    requires n <= (|ts| + 1) / 2
  {
    set i | 0 <= i < n :: [NODE_PREFIX] + Root(h, ts[2 * i]) + Root(h, ts[Sibling(|ts|, i)])
  }

  /** Pairing up a level hashes the parents' strings and nothing else. */
  lemma PairingHashes(h: Hasher, ts: seq<Tree>)
    ensures HashedIn(h, PairTrees(ts)) == HashedIn(h, ts) + ParentStrings(h, ts, (|ts| + 1) / 2)
  {
    var next := PairTrees(ts);
    forall s | s in HashedIn(h, next)
      ensures s in HashedIn(h, ts) + ParentStrings(h, ts, |next|)
    {
      var i :| 0 <= i < |next| && s in Hashed(h, next[i]);
      var left, right := ts[2 * i], ts[Sibling(|ts|, i)];
      assert s == [NODE_PREFIX] + Root(h, left) + Root(h, right) || s in Hashed(h, left) || s in Hashed(h, right);
    }
    forall s | s in ParentStrings(h, ts, |next|)
      ensures s in HashedIn(h, next)
    {
      var i :| 0 <= i < |next| && s == [NODE_PREFIX] + Root(h, ts[2 * i]) + Root(h, ts[Sibling(|ts|, i)]);
      assert s in Hashed(h, next[i]);
    }
    forall s | s in HashedIn(h, ts)
      ensures s in HashedIn(h, next)
    {
      var j :| 0 <= j < |ts| && s in Hashed(h, ts[j]);
      var parent := next[j / 2];
      assert ts[j] == parent.left || ts[j] == parent.right;
      assert s in Hashed(h, parent);
    }
  }

  /** The inner loop: the next level, built left to right. */
  method NextLevel(h: Hasher, level: array<Digest>, ghost trees: seq<Tree>)
    returns (next: seq<Digest>, ghost hashed: set<bytes>)
    requires RootsOf(h, level[..], trees)
    ensures next == PairUp(h, level[..])
    ensures hashed == ParentStrings(h, trees, |next|)
  {
    next, hashed := [], {};
    var i := 0;
    while i < level.Length
      invariant i == 2 * |next| && |next| <= (level.Length + 1) / 2
      invariant next == PairUp(h, level[..])[..|next|]
      invariant hashed == ParentStrings(h, trees, |next|)
    {
      var left := level[i];
      var right := left;
      if i + 1 < level.Length {
        right := level[i + 1];
      }
      next := next + [Parent(h, left, right)];
      hashed := hashed + {[NODE_PREFIX] + left + right};
      i := i + 2;
    }
  }

  /** What holds at the head of the outer loop. */
  ghost predicate Halving(h: Hasher, entryHashes: seq<Blob>, level: seq<Digest>, trees: seq<Tree>,
                          rounds: nat, nodes: nat, hashed: set<bytes>)
  {
    && entryHashes != [] && level != [] && RootsOf(h, level, trees)
    && Grow(trees) == TreeOf(entryHashes)
    && Reduce(h, level) == MerkleRoot(h, entryHashes)
    && rounds + Rounds(|level|) == Rounds(|entryHashes|)
    && nodes + NodeHashes(|level|) == NodeHashes(|entryHashes|)
    && hashed == HashedIn(h, trees)
  }

  lemma HalvingStep(h: Hasher, entryHashes: seq<Blob>, level: seq<Digest>, trees: seq<Tree>,
                    rounds: nat, nodes: nat, hashed: set<bytes>)
    requires Halving(h, entryHashes, level, trees, rounds, nodes, hashed) && |level| > 1
    ensures Halving(h, entryHashes, PairUp(h, level), PairTrees(trees), rounds + 1, nodes + (|level| + 1) / 2,
                    hashed + ParentStrings(h, trees, (|level| + 1) / 2))
  {
    PairingHashes(h, trees);
  }

  lemma HalvingDone(h: Hasher, entryHashes: seq<Blob>, level: seq<Digest>, trees: seq<Tree>,
                    rounds: nat, nodes: nat, hashed: set<bytes>)
    requires Halving(h, entryHashes, level, trees, rounds, nodes, hashed) && |level| == 1
    ensures level[0] == MerkleRoot(h, entryHashes)
    ensures rounds == Rounds(|entryHashes|) && nodes == NodeHashes(|entryHashes|)
    ensures hashed == set s | s in RootTrail(h, entryHashes)
  {
    assert trees == [TreeOf(entryHashes)];
    HashedInOne(h, TreeOf(entryHashes));
  }

  /** Fills the leaf level, then halves it until one node is left. The ghost results account for the
      rounds, the inner nodes and the exact set of strings hashed. */
  method ComputeMerkleRoot(h: Hasher, entryHashes: seq<Blob>)
    returns (root: Digest, ghost rounds: nat, ghost nodes: nat, ghost hashed: set<bytes>)
    ensures root == MerkleRoot(h, entryHashes)
    ensures rounds == Rounds(|entryHashes|) && nodes == NodeHashes(|entryHashes|)
    ensures hashed == set s | s in RootTrail(h, entryHashes)
  {
    rounds, nodes, hashed := 0, 0, {};
    if |entryHashes| == 0 {
      hashed := {[LEAF_PREFIX]};
      return h([LEAF_PREFIX]), rounds, nodes, hashed;
    }

    var level := new Digest[|entryHashes|];
    ghost var trees := Leaves(entryHashes);
    for i := 0 to |entryHashes|
      invariant level[..i] == LeafLevel(h, entryHashes)[..i]
      invariant hashed == HashedIn(h, trees[..i])
    {
      level[i] := h([LEAF_PREFIX] + entryHashes[i]);
      assert trees[..i + 1] == trees[..i] + [trees[i]];
      HashedInAppend(h, trees[..i], trees[i]);
      hashed := hashed + {[LEAF_PREFIX] + entryHashes[i]};
    }
    assert trees[..|entryHashes|] == trees;
    assert level[..] == LeafLevel(h, entryHashes);

    while level.Length > 1
      invariant Halving(h, entryHashes, level[..], trees, rounds, nodes, hashed)
      decreases level.Length
    {
      var next, parents := NextLevel(h, level, trees);
      HalvingStep(h, entryHashes, level[..], trees, rounds, nodes, hashed);
      rounds, nodes, hashed := rounds + 1, nodes + |next|, hashed + parents;
      trees := PairTrees(trees);
      level := new Digest[|next|](j requires 0 <= j < |next| => next[j]);
      assert level[..] == next;
    }
    HalvingDone(h, entryHashes, level[..], trees, rounds, nodes, hashed);
    root := level[0];
  }
}
