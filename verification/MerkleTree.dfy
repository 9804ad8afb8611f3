/**
 The block's Merkle tree, as Bitcoin defines it: a level of odd width hashes its last node with itself.
 A block of N subtrees of height h is this one tree cut at level h. The lift teranode applies to a short
 final subtree is the same rule applied while that subtree's own level has width one.
 */
module MerkleTree {
  import opened Prelude

  /** A digest: its bytes, read as a number. */
  datatype Hash = Digest(value: nat)

  /** The node hash (double SHA-256 of the concatenation). Nothing is known about it. */
  const NodeHash: (Hash, Hash) -> Hash

  function MerkleTreeParent(left: Hash, right: Hash): Hash
  {
    NodeHash(left, right)
  }

  /** How many nodes level k has, over n leaves. */
  function Width(n: nat, k: nat): nat
  {
    if k == 0 then n else (Width(n, k - 1) + 1) / 2
  }

  /** The right child at level k of node i: the left one again where the level ends with it. */
  function RightChild(n: nat, k: nat, i: nat): nat
  {
    if 2 * i + 1 < Width(n, k) then 2 * i + 1 else 2 * i
  }

  /** Node i of level k. */
  function Node(leaves: seq<Hash>, k: nat, i: nat): Hash
    requires i < Width(|leaves|, k)
  {
    if k == 0 then leaves[i]
    else MerkleTreeParent(Node(leaves, k - 1, 2 * i), Node(leaves, k - 1, RightChild(|leaves|, k - 1, i)))
  }

  /** The Merkle root: the one node of the level at which the tree has narrowed to it. */
  function Root(leaves: seq<Hash>): Hash
    requires leaves != []
  {
    WidthAtHeight(|leaves|, 0);
    Node(leaves, CeilLog2(|leaves|), 0)
  }

  /** `h` hashed with itself k times. */
  function Lift(h: Hash, k: nat): Hash
  {
    if k == 0 then h else MerkleTreeParent(Lift(h, k - 1), Lift(h, k - 1))
  }

  // ----- widths

  lemma {:induction false} WidthOfHalf(n: nat, k: nat)
    ensures Width((n + 1) / 2, k) == Width(n, k + 1)
  {
    if k > 0 {
      WidthOfHalf(n, k - 1);
    }
  }

  lemma {:induction false} WidthCompose(n: nat, j: nat, k: nat, m: nat)
    requires m == j + k
    ensures Width(Width(n, j), k) == Width(n, m)
  {
    if k > 0 {
      WidthCompose(n, j, k - 1, m - 1);
    }
  }

  /** CeilLog2 levels suffice, no fewer do, and the level under the root has exactly two nodes. */
  lemma {:induction false} WidthAtHeight(n: nat, k: nat)
    requires n >= 1
    ensures Width(n, CeilLog2(n)) == 1
    ensures k < CeilLog2(n) ==> Width(n, k) >= 2
    ensures CeilLog2(n) <= k ==> Width(n, k) == 1
    ensures n >= 2 ==> Width(n, CeilLog2(n) - 1) == 2
    decreases n, k
  {
    if n == 1 {
      if k > 0 {
        WidthAtHeight(n, k - 1);
      }
    } else {
      WidthAtHeight((n + 1) / 2, if k == 0 then 0 else k - 1);
      WidthOfHalf(n, CeilLog2(n) - 1);
      if k > 0 {
        WidthOfHalf(n, k - 1);
      }
      if n > 2 {
        WidthOfHalf(n, CeilLog2(n) - 2);
      }
    }
  }

  /** At the tree's height the root is the only node. */
  lemma RootIsTop(leaves: seq<Hash>, h: nat, i: nat)
    requires leaves != [] && h == CeilLog2(|leaves|)
    requires i < Width(|leaves|, h)
    ensures i == 0 && Node(leaves, h, i) == Root(leaves)
  {
    WidthAtHeight(|leaves|, 0);
  }

  lemma SpineParent(leaves: seq<Hash>, k: nat)
    requires 1 < Width(|leaves|, k)
    ensures 0 < Width(|leaves|, k + 1)
    ensures Node(leaves, k + 1, 0) == MerkleTreeParent(Node(leaves, k, 0), Node(leaves, k, 1))
  {
  }

  /** Node j of level k exists exactly when the leaf under its left spine does. */
  lemma {:induction false} WidthByLeaf(n: nat, k: nat, j: nat)
    ensures j < Width(n, k) <==> Shl(j, k) < n
  {
    if k > 0 {
      WidthByLeaf(n, k - 1, 2 * j);
      ShlAdd(j, j, k - 1);
    }
  }

  lemma {:induction false} HeightOfLevel(n: nat, k: nat)
    requires n >= 1 && k <= CeilLog2(n)
    ensures Width(n, k) >= 1 && CeilLog2(Width(n, k)) == CeilLog2(n) - k
  {
    if k > 0 {
      HeightOfLevel(n, k - 1);
      WidthAtHeight(n, k - 1);
    }
  }

  // ----- cutting the tree at a level

  /** `tops` is level h of the tree over `leaves`. */
  ghost predicate IsLevel(leaves: seq<Hash>, h: nat, tops: seq<Hash>)
  {
    && |tops| == Width(|leaves|, h)
    && forall i {:trigger Node(leaves, h, i)} | 0 <= i < |tops| :: tops[i] == Node(leaves, h, i)
  }

  lemma {:induction false} NodeAboveLevel(leaves: seq<Hash>, h: nat, tops: seq<Hash>, k: nat, m: nat, i: nat)
    requires IsLevel(leaves, h, tops) && m == h + k
    requires i < Width(|tops|, k)
    ensures i < Width(|leaves|, m)
    ensures Node(tops, k, i) == Node(leaves, m, i)
  {
    WidthCompose(|leaves|, h, k, m);
    if k == 0 {
      assert tops[i] == Node(leaves, h, i);
    } else {
      WidthCompose(|leaves|, h, k - 1, m - 1);
      var right := RightChild(|tops|, k - 1, i);
      NodeAboveLevel(leaves, h, tops, k - 1, m - 1, 2 * i);
      NodeAboveLevel(leaves, h, tops, k - 1, m - 1, right);
      SameParent(tops, k, leaves, m, i);
    }
  }

  lemma SameParent(s: seq<Hash>, k: nat, t: seq<Hash>, m: nat, i: nat)
    requires k > 0 && m > 0 && Width(|s|, k - 1) == Width(|t|, m - 1)
    requires i < Width(|s|, k)
    requires Node(s, k - 1, 2 * i) == Node(t, m - 1, 2 * i)
    requires var right := RightChild(|s|, k - 1, i); Node(s, k - 1, right) == Node(t, m - 1, right)
    ensures i < Width(|t|, m)
    ensures Node(s, k, i) == Node(t, m, i)
  {
  }

  /** A tree and any of its levels below the root have the same root. */
  lemma RootOfLevel(leaves: seq<Hash>, h: nat, tops: seq<Hash>)
    requires leaves != [] && h <= CeilLog2(|leaves|)
    requires IsLevel(leaves, h, tops)
    ensures tops != [] && Root(tops) == Root(leaves)
  {
    HeightOfLevel(|leaves|, h);
    WidthAtHeight(|tops|, 0);
    WidthAtHeight(|leaves|, 0);
    NodeAboveLevel(leaves, h, tops, CeilLog2(|tops|), CeilLog2(|leaves|), 0);
  }

  // ----- subtrees

  /** Subtree `i` of a block cut at height h: its own leaves. */
  function Subtree(leaves: seq<Hash>, h: nat, i: nat): seq<Hash>
    requires i < Width(|leaves|, h)
  {
    SubtreeBounds(leaves, h, i);
    leaves[Shl(i, h)..if Shl(i + 1, h) <= |leaves| then Shl(i + 1, h) else |leaves|]
  }

  lemma SubtreeBounds(leaves: seq<Hash>, h: nat, i: nat)
    requires i < Width(|leaves|, h)
    ensures Shl(i, h) < |leaves|
    ensures Shl(i + 1, h) == Shl(i, h) + Shl(1, h) > Shl(i, h)
    ensures i + 1 < Width(|leaves|, h) <==> Shl(i + 1, h) < |leaves|
  {
    WidthByLeaf(|leaves|, h, i);
    WidthByLeaf(|leaves|, h, i + 1);
    ShlAdd(i, 1, h);
    ShlPositive(h);
  }

  /** `local` is the slice of `global` under node i of level h: full, or cut short by the end. */
  ghost predicate Under(local: seq<Hash>, global: seq<Hash>, h: nat, i: nat)
  {
    && 1 <= |local| <= Shl(1, h)
    && Shl(i, h) + |local| <= |global|
    && (forall j | 0 <= j < |local| :: local[j] == global[Shl(i, h) + j])
    && (|local| == Shl(1, h) || Shl(i, h) + |local| == |global|)
  }

  lemma SubtreeUnder(leaves: seq<Hash>, h: nat, i: nat)
    requires i < Width(|leaves|, h)
    ensures Under(Subtree(leaves, h, i), leaves, h, i)
    ensures i + 1 < Width(|leaves|, h) ==> |Subtree(leaves, h, i)| == Shl(1, h)
    ensures i + 1 == Width(|leaves|, h) ==> Shl(i, h) + |Subtree(leaves, h, i)| == |leaves|
  {
    SubtreeBounds(leaves, h, i);
  }

  lemma ShiftHalves(i: nat, h: nat, k: nat)
    requires 0 < k <= h
    ensures Shl(i, h - (k - 1)) == 2 * Shl(i, h - k)
  {
  }

  /** Level k of a slice, measured against level k of the whole. */
  lemma {:induction false} WidthUnder(local: nat, global: nat, h: nat, i: nat, k: nat)
    requires k <= h
    requires 1 <= local <= Shl(1, h) && Shl(i, h) + local <= global
    ensures 1 <= Width(local, k) <= Shl(1, h - k)
    ensures Shl(i, h - k) + Width(local, k) <= Width(global, k)
    ensures local == Shl(1, h) ==> Width(local, k) == Shl(1, h - k)
    ensures Shl(i, h) + local == global ==> Shl(i, h - k) + Width(local, k) == Width(global, k)
  {
    if k > 0 {
      WidthUnder(local, global, h, i, k - 1);
      ShiftHalves(i, h, k);
      ShiftHalves(1, h, k);
    }
  }

  /** Every node of a slice is the whole's node at the shifted offset `g`. */
  lemma {:induction false} NodeUnder(local: seq<Hash>, global: seq<Hash>, h: nat, i: nat, k: nat, j: nat, g: nat)
    requires Under(local, global, h, i) && k <= h
    requires j < Width(|local|, k) && g == Shl(i, h - k) + j
    ensures g < Width(|global|, k)
    ensures Node(local, k, j) == Node(global, k, g)
  {
    if k == 0 {
      assert local[j] == global[g];
    } else {
      ChildrenUnder(local, global, h, i, k, j, g);
      NodeUnder(local, global, h, i, k - 1, 2 * j, 2 * g);
      NodeUnder(local, global, h, i, k - 1, RightChild(|local|, k - 1, j), RightChild(|global|, k - 1, g));
    }
  }

  lemma ChildrenUnder(local: seq<Hash>, global: seq<Hash>, h: nat, i: nat, k: nat, j: nat, g: nat)
    requires Under(local, global, h, i) && 0 < k <= h
    requires j < Width(|local|, k) && g == Shl(i, h - k) + j
    ensures g < Width(|global|, k)
    ensures 2 * g == Shl(i, h - (k - 1)) + 2 * j
    ensures RightChild(|global|, k - 1, g) == Shl(i, h - (k - 1)) + RightChild(|local|, k - 1, j)
  {
    WidthUnder(|local|, |global|, h, i, k - 1);
    ShiftHalves(i, h, k);
    ShiftHalves(1, h, k);
  }

  /** Above its own root a subtree is its root hashed with itself, once per level. */
  lemma {:induction false} NodeAboveRoot(leaves: seq<Hash>, k: nat)
    requires leaves != []
    ensures Width(|leaves|, CeilLog2(|leaves|) + k) == 1
    ensures Node(leaves, CeilLog2(|leaves|) + k, 0) == Lift(Root(leaves), k)
  {
    WidthAtHeight(|leaves|, CeilLog2(|leaves|) + k);
    if k > 0 {
      NodeAboveRoot(leaves, k - 1);
    }
  }

  /** How far the root of subtree i lies below height h: 0 unless the final subtree is short. */
  function LiftOf(leaves: seq<Hash>, h: nat, i: nat): nat
    requires i < Width(|leaves|, h)
  {
    SubtreeHeight(leaves, h, i);
    h - CeilLog2(|Subtree(leaves, h, i)|)
  }

  lemma SubtreeHeight(leaves: seq<Hash>, h: nat, i: nat)
    requires i < Width(|leaves|, h)
    ensures 1 <= |Subtree(leaves, h, i)| && CeilLog2(|Subtree(leaves, h, i)|) <= h
    ensures i + 1 < Width(|leaves|, h) ==> CeilLog2(|Subtree(leaves, h, i)|) == h
  {
    SubtreeBounds(leaves, h, i);
    CeilLog2Least(|Subtree(leaves, h, i)|, h);
    PowersGrow(CeilLog2(|Subtree(leaves, h, i)|), h);
  }

  /** The subtree-root layer of the block holds each subtree's own root, lifted. */
  lemma SubtreeRootLayer(leaves: seq<Hash>, h: nat, i: nat)
    requires i < Width(|leaves|, h)
    ensures Subtree(leaves, h, i) != []
    ensures Node(leaves, h, i) == Lift(Root(Subtree(leaves, h, i)), LiftOf(leaves, h, i))
    ensures i + 1 < Width(|leaves|, h) ==> LiftOf(leaves, h, i) == 0
  {
    SubtreeHeight(leaves, h, i);
    NodeAboveRoot(Subtree(leaves, h, i), LiftOf(leaves, h, i));
    SubtreeUnder(leaves, h, i);
    NodeUnder(Subtree(leaves, h, i), leaves, h, i, h, 0, i);
  }

  // ----- bump.go's top tree

  /** Folds the subtree-root layer to the block root, padding a copy of the level in place. */
  method TopTreeRoot(hs: seq<Hash>) returns (r: Hash)
    requires hs != []
    ensures r == Root(hs)
  {
    var level := hs;
    ghost var k := 0;
    while |level| > 1
      invariant level != [] && k <= CeilLog2(|hs|)
      invariant IsLevel(hs, k, level)
      decreases |level|
    {
      WidthAtHeight(|hs|, k);
      if |level| % 2 == 1 {
        level := level + [level[|level| - 1]];
      }
      var next := [];
      for i := 0 to |level| / 2
        invariant |next| == i
        invariant forall j | 0 <= j < i :: next[j] == Node(hs, k + 1, j)
      {
        next := next + [MerkleTreeParent(level[2 * i], level[2 * i + 1])];
      }
      level := next;
      k := k + 1;
    }
    WidthAtHeight(|hs|, k);
    r := level[0];
  }

  /** The top-tree root when the final subtree's root is lifted k levels. */
  function LiftedTop(subtreeHashes: seq<Hash>, k: nat): Hash
    requires subtreeHashes != []
  {
    var last := |subtreeHashes| - 1;
    Root(subtreeHashes[last := Lift(subtreeHashes[last], k)])
  }

  /** `k` is a lift, within the internal height, that reproduces the header root. */
  predicate Reproduces(subtreeHashes: seq<Hash>, internalHeight: nat, header: Option<Hash>, k: nat)
  {
    |subtreeHashes| >= 2 && header.Some? && k <= internalHeight && LiftedTop(subtreeHashes, k) == header.value
  }

  /** The least lift that reproduces the header, or 0 when none does. */
  ghost predicate IsDerivedLift(subtreeHashes: seq<Hash>, internalHeight: nat, header: Option<Hash>, lift: nat)
  {
    && (forall k: nat | k < lift :: !Reproduces(subtreeHashes, internalHeight, header, k))
    && (Reproduces(subtreeHashes, internalHeight, header, lift)
        || (lift == 0 && forall k: nat :: !Reproduces(subtreeHashes, internalHeight, header, k)))
  }

  method DeriveFinalSubtreeLift(subtreeHashes: seq<Hash>, internalHeight: nat, headerMerkleRoot: Option<Hash>)
    returns (lift: nat)
    ensures IsDerivedLift(subtreeHashes, internalHeight, headerMerkleRoot, lift)
  {
    var n := |subtreeHashes|;
    if n < 2 || headerMerkleRoot == None {
      return 0;
    }
    var tops := subtreeHashes;
    var lifted := subtreeHashes[n - 1];
    for k := 0 to internalHeight + 1
      invariant |tops| == n && tops[..n - 1] == subtreeHashes[..n - 1]
      invariant lifted == Lift(subtreeHashes[n - 1], k)
      invariant forall j: nat | j < k :: !Reproduces(subtreeHashes, internalHeight, headerMerkleRoot, j)
    {
      tops := tops[n - 1 := lifted];
      assert tops == subtreeHashes[n - 1 := lifted];
      var root := TopTreeRoot(tops);
      if root == headerMerkleRoot.value {
        return k;
      }
      lifted := MerkleTreeParent(lifted, lifted);
    }
    return 0;
  }

  /** The subtree roots a block delivers: each subtree's own, unlifted root. */
  ghost predicate SubtreeRoots(leaves: seq<Hash>, h: nat, subtreeHashes: seq<Hash>)
  {
    && |subtreeHashes| == Width(|leaves|, h)
    && forall i | 0 <= i < |subtreeHashes| ::
         Subtree(leaves, h, i) != [] && subtreeHashes[i] == Root(Subtree(leaves, h, i))
  }

  /** The block's true lift always reproduces its header; so the derived lift is never above it. */
  lemma TrueLiftReproduces(leaves: seq<Hash>, h: nat, subtreeHashes: seq<Hash>)
    requires SubtreeRoots(leaves, h, subtreeHashes)
    requires |subtreeHashes| >= 2
    ensures leaves != []
    ensures Reproduces(subtreeHashes, h, Some(Root(leaves)), LiftOf(leaves, h, |subtreeHashes| - 1))
  {
    var last := |subtreeHashes| - 1;
    var tops := subtreeHashes[last := Lift(subtreeHashes[last], LiftOf(leaves, h, last))];
    forall i | 0 <= i < |tops|
      ensures tops[i] == Node(leaves, h, i)
    {
      SubtreeRootLayer(leaves, h, i);
    }
    WidthByLeaf(|leaves|, h, 0);
    ShlPositive(h);
    WidthAtHeight(|leaves|, h);
    RootOfLevel(leaves, h, tops);
  }
}
