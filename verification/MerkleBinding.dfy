/** What a Merkle root says about the list it was computed from.

    Odd levels duplicate their last node, so a root does not determine the list: it determines the
    list's expansion, the leaves of the full binary tree that the duplications stand for. */
module MerkleBinding {
  import opened Bytes
  import opened Hashing
  import opened Merkle

  /** An odd number of blocks is evened out by repeating the last block. */
  function Even(xs: seq<Blob>, blocks: nat, width: nat): seq<Blob>
    requires |xs| == blocks * width && (blocks % 2 == 1 ==> width <= |xs|)
  {
    if blocks % 2 == 1 then xs + xs[|xs| - width..] else xs
  }

  lemma BlockFits(blocks: nat, width: nat)
    requires blocks >= 1
    ensures width <= blocks * width
    ensures (blocks + 1) / 2 * (2 * width) == if blocks % 2 == 1 then blocks * width + width else blocks * width
  {
    assert blocks * width == width + (blocks - 1) * width;
    if blocks % 2 == 1 {
      assert blocks == 2 * ((blocks + 1) / 2) - 1;
    } else {
      assert blocks == 2 * ((blocks + 1) / 2);
    }
  }

  /** `xs`, read as blocks of `width` entry hashes, after all the levels' duplications. */
  function Expand(xs: seq<Blob>, blocks: nat, width: nat): seq<Blob>
    requires blocks >= 1 && |xs| == blocks * width
    decreases blocks
  {
    BlockFits(blocks, width);
    if blocks == 1 then xs else Expand(Even(xs, blocks, width), (blocks + 1) / 2, 2 * width)
  }

  function Expansion(xs: seq<Blob>): seq<Blob>
    requires xs != []
  {
    Expand(xs, |xs|, 1)
  }

  lemma {:induction false} ExpandExtends(xs: seq<Blob>, blocks: nat, width: nat)
    requires blocks >= 1 && |xs| == blocks * width
    ensures xs <= Expand(xs, blocks, width)
    decreases blocks
  {
    if blocks > 1 {
      BlockFits(blocks, width);
      ExpandExtends(Even(xs, blocks, width), (blocks + 1) / 2, 2 * width);
    }
  }

  // ---- The expansion is the leaf list of the tree ----

  function LeafList(t: Tree): seq<Blob> {
    match t
    case Leaf(x) => [x]
    case Node(l, r) => LeafList(l) + LeafList(r)
  }

  ghost predicate Perfect(t: Tree, height: nat) {
    match t
    case Leaf(_) => height == 0
    case Node(l, r) => height > 0 && Perfect(l, height - 1) && Perfect(r, height - 1)
  }

  lemma {:induction false} PerfectSize(t: Tree, height: nat)
    requires Perfect(t, height)
    ensures |LeafList(t)| == Pow2(height)
  {
    if t.Node? {
      PerfectSize(t.left, height - 1);
      PerfectSize(t.right, height - 1);
    }
  }

  lemma {:induction false} Pow2Injective(j: nat, k: nat)
    requires Pow2(j) == Pow2(k)
    ensures j == k
  {
    if j > 0 && k > 0 { Pow2Injective(j - 1, k - 1); }
  }

  lemma {:induction false} PerfectFromLeaves(t: Tree, u: Tree, height: nat)
    requires Perfect(t, height) && Perfect(u, height)
    requires LeafList(t) == LeafList(u)
    ensures t == u
  {
    if height == 0 {
      assert LeafList(t)[0] == LeafList(u)[0];
    } else {
      PerfectSize(t.left, height - 1);
      PerfectSize(u.left, height - 1);
      var n := Pow2(height - 1);
      assert LeafList(t.left) == LeafList(t)[..n] == LeafList(u.left);
      assert LeafList(t.right) == LeafList(t)[n..] == LeafList(u.right);
      PerfectFromLeaves(t.left, u.left, height - 1);
      PerfectFromLeaves(t.right, u.right, height - 1);
    }
  }

  function Flat(ts: seq<Tree>): seq<Blob> {
    if ts == [] then [] else LeafList(ts[0]) + Flat(ts[1..])
  }

  ghost predicate AllPerfect(ts: seq<Tree>, height: nat) {
    forall t :: t in ts ==> Perfect(t, height)
  }

  lemma {:induction false} FlatSize(ts: seq<Tree>, height: nat)
    requires AllPerfect(ts, height)
    ensures |Flat(ts)| == |ts| * Pow2(height)
  {
    if ts != [] {
      PerfectSize(ts[0], height);
      FlatSize(ts[1..], height);
      assert |ts| * Pow2(height) == Pow2(height) + (|ts| - 1) * Pow2(height);
    }
  }

  lemma EvenAfter(head: seq<Blob>, xs: seq<Blob>, blocks: nat, width: nat)
    requires blocks >= 1 && |xs| == blocks * width && |head| == 2 * width
    requires |head + xs| == (blocks + 2) * width && width <= |xs|
    ensures Even(head + xs, blocks + 2, width) == head + Even(xs, blocks, width)
  {
    var tail := xs[|xs| - width..];
    assert (head + xs)[|head + xs| - width..] == tail;
    assert (head + xs) + tail == head + (xs + tail);
  }

  lemma FlatTwo(ts: seq<Tree>)
    requires |ts| >= 2
    ensures Flat(ts) == LeafList(ts[0]) + LeafList(ts[1]) + Flat(ts[2..])
  {
    assert ts[1..][1..] == ts[2..];
  }

  lemma PairTreesTwo(ts: seq<Tree>)
    requires |ts| >= 2
    ensures PairTrees(ts) == [Node(ts[0], ts[1])] + PairTrees(ts[2..])
  {
  }

  lemma {:induction false} FlatPair(ts: seq<Tree>, height: nat)
    requires ts != [] && AllPerfect(ts, height)
    ensures |Flat(ts)| == |ts| * Pow2(height) && Pow2(height) <= |Flat(ts)|
    ensures Flat(PairTrees(ts)) == Even(Flat(ts), |ts|, Pow2(height))
  {
    FlatSize(ts, height);
    var width := Pow2(height);
    BlockFits(|ts|, width);
    PerfectSize(ts[0], height);
    if |ts| == 1 {
      assert PairTrees(ts) == [Node(ts[0], ts[0])];
      assert Flat(ts)[|Flat(ts)| - width..] == Flat(ts) == LeafList(ts[0]);
    } else {
      PerfectSize(ts[1], height);
      FlatTwo(ts);
      PairTreesTwo(ts);
      if |ts| > 2 {
        FlatPair(ts[2..], height);
        EvenAfter(LeafList(ts[0]) + LeafList(ts[1]), Flat(ts[2..]), |ts| - 2, width);
      }
    }
  }

  lemma {:induction false} GrowExpands(ts: seq<Tree>, height: nat)
    requires ts != [] && AllPerfect(ts, height)
    ensures |Flat(ts)| == |ts| * Pow2(height)
    ensures LeafList(Grow(ts)) == Expand(Flat(ts), |ts|, Pow2(height))
    ensures Perfect(Grow(ts), height + Rounds(|ts|))
    decreases |ts|
  {
    FlatSize(ts, height);
    if |ts| == 1 {
      assert Flat(ts) == LeafList(ts[0]);
    } else {
      FlatPair(ts, height);
      BlockFits(|ts|, Pow2(height));
      GrowExpands(PairTrees(ts), height + 1);
    }
  }

  lemma {:induction false} FlatLeaves(xs: seq<Blob>)
    ensures Flat(Leaves(xs)) == xs
  {
    if xs != [] {
      assert Leaves(xs)[1..] == Leaves(xs[1..]);
      FlatLeaves(xs[1..]);
    }
  }

  lemma TreeOfExpands(xs: seq<Blob>)
    requires xs != []
    ensures LeafList(TreeOf(xs)) == Expansion(xs)
    ensures Perfect(TreeOf(xs), Rounds(|xs|))
  {
    FlatLeaves(xs);
    GrowExpands(Leaves(xs), 0);
  }

  // ---- Binding ----

  /** Equal roots come from equal trees: the prefixes keep a leaf from being read as a node. */
  lemma {:induction false} RootInjective(h: Hasher, t: Tree, u: Tree)
    requires CollisionFree(h, Hashed(h, t) + Hashed(h, u))
    requires Root(h, t) == Root(h, u)
    ensures t == u
  {
    var strings := Hashed(h, t) + Hashed(h, u);
    assert Hashed(h, t)[0] in strings && Hashed(h, u)[0] in strings;
    assert h(Hashed(h, t)[0]) == h(Hashed(h, u)[0]);
    var s := Hashed(h, t)[0];
    assert s == Hashed(h, u)[0];
    assert s[0] == if t.Leaf? then LEAF_PREFIX else NODE_PREFIX;
    assert s[0] == if u.Leaf? then LEAF_PREFIX else NODE_PREFIX;
    match (t, u) {
      case (Leaf(x), Leaf(y)) =>
        assert x == s[1..] == y;
      case (Node(l, r), Node(l', r')) =>
        assert Root(h, l) == s[1..33] == Root(h, l');
        assert Root(h, r) == s[33..] == Root(h, r');
        CollisionFreeSubset(h, Hashed(h, l) + Hashed(h, l'), strings);
        CollisionFreeSubset(h, Hashed(h, r) + Hashed(h, r'), strings);
        RootInjective(h, l, l');
        RootInjective(h, r, r');
      case (Leaf(_), Node(_, _)) => assert false;
      case (Node(_, _), Leaf(_)) => assert false;
    }
  }

  /** Two non-empty lists have the same root exactly when they have the same expansion. */
  lemma MerkleBindsExpansion(h: Hasher, xs: seq<Blob>, ys: seq<Blob>)
    requires xs != [] && ys != []
    requires CollisionFree(h, RootTrail(h, xs) + RootTrail(h, ys))
    ensures MerkleRoot(h, xs) == MerkleRoot(h, ys) <==> Expansion(xs) == Expansion(ys)
  {
    MerkleRootIsTreeRoot(h, xs);
    MerkleRootIsTreeRoot(h, ys);
    TreeOfExpands(xs);
    TreeOfExpands(ys);
    if MerkleRoot(h, xs) == MerkleRoot(h, ys) {
      RootInjective(h, TreeOf(xs), TreeOf(ys));
    }
    if Expansion(xs) == Expansion(ys) {
      PerfectSize(TreeOf(xs), Rounds(|xs|));
      PerfectSize(TreeOf(ys), Rounds(|ys|));
      Pow2Injective(Rounds(|xs|), Rounds(|ys|));
      PerfectFromLeaves(TreeOf(xs), TreeOf(ys), Rounds(|xs|));
    }
  }

  /** The empty list shares its root with the list of one empty hash, and with no other. */
  lemma EmptyRoot(h: Hasher, ys: seq<Blob>)
    requires ys != []
    requires CollisionFree(h, RootTrail(h, []) + RootTrail(h, ys))
    ensures MerkleRoot(h, []) == MerkleRoot(h, ys) <==> ys == [[]]
  {
    MerkleRootIsTreeRoot(h, ys);
    var strings := RootTrail(h, []) + RootTrail(h, ys);
    var t := TreeOf(ys);
    var s := Hashed(h, t)[0];
    assert [LEAF_PREFIX] in strings && s in strings && h(s) == Root(h, t);
    TreeOfExpands(ys);
    ExpandExtends(ys, |ys|, 1);
    if MerkleRoot(h, []) == MerkleRoot(h, ys) {
      assert s == [LEAF_PREFIX];
      assert t.Leaf? && t.entryHash == s[1..];
      assert ys[0] == Expansion(ys)[0] == [];
      assert |ys| <= |Expansion(ys)| == 1;
    }
    if ys == [[]] {
      assert t == Leaves(ys)[0] == Leaf([]);
      assert [LEAF_PREFIX] + [] == [LEAF_PREFIX];
    }
  }

  /** Together with the count, the root fixes the list. */
  lemma MerkleBindsList(h: Hasher, xs: seq<Blob>, ys: seq<Blob>)
    requires |xs| == |ys|
    requires CollisionFree(h, RootTrail(h, xs) + RootTrail(h, ys))
    requires MerkleRoot(h, xs) == MerkleRoot(h, ys)
    ensures xs == ys
  {
    if xs != [] {
      MerkleBindsExpansion(h, xs, ys);
      ExpandExtends(xs, |xs|, 1);
      ExpandExtends(ys, |ys|, 1);
    }
  }

  /** Without the count it does not: repeating the last hash of an odd list keeps the root. */
  lemma DuplicatedLastKeepsRoot(h: Hasher, xs: seq<Blob>)
    requires |xs| >= 3 && |xs| % 2 == 1
    ensures MerkleRoot(h, xs + [xs[|xs| - 1]]) == MerkleRoot(h, xs)
  {
    var ys := xs + [xs[|xs| - 1]];
    assert PairUp(h, LeafLevel(h, ys)) == PairUp(h, LeafLevel(h, xs));
  }
}
