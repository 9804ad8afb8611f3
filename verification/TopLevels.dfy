/** The block's levels above a full subtree-root layer: any slot folds, through the padding, to the top tree's root. */
module TopLevels {
  import opened Prelude
  import opened MerkleTree
  import opened MerklePaths
  import opened FillHashes
  import opened Coverage

  /** Slot o of the subtree-root layer holds `hashes[o]`, or the padding right of the last one, or nothing. */
  ghost predicate RootSlot(u: Path, base: nat, hashes: seq<Hash>, o: nat)
    requires base < |u|
  {
    var e := CompletedAt(u, base, |hashes|, base, o);
    SlotAgrees(hashes, 0, o, e) && (o < |hashes| ==> e.Some?)
  }

  /** The subtree-root layer is exactly `hashes`, and nothing is stored above it. */
  ghost predicate RootLayer(u: Path, base: nat, hashes: seq<Hash>)
  {
    && base < |u| && (forall o: nat :: RootSlot(u, base, hashes, o))
    && forall k: nat | base < k < |u| :: u[k] == []
  }

  /** A slot of the top tree: its node if it has one, the padding if the level is odd, else nothing. */
  ghost predicate TopSlot(u: Path, base: nat, hashes: seq<Hash>, j: nat, m: nat, o: nat)
    requires m < |u|
  {
    var e, w := CompletedAt(u, base, |hashes|, m, o), Width(|hashes|, j);
    && SlotAgrees(hashes, j, o, e)
    && (o < w ==> e.Some?) && (o == w && w % 2 == 1 && m + 1 < |u| ==> e.Some?)
  }

  lemma {:induction false} TopSlots(u: Path, base: nat, hashes: seq<Hash>, j: nat, m: nat, o: nat)
    requires RootLayer(u, base, hashes) && m == base + j && m < |u|
    ensures TopSlot(u, base, hashes, j, m, o)
  {
    if j == 0 {
      assert RootSlot(u, base, hashes, o);
      PaddingStep(u, base, |hashes|, m, o);
    } else {
      TopSlots(u, base, hashes, j - 1, m - 1, 2 * o);
      TopSlots(u, base, hashes, j - 1, m - 1, 2 * o + 1);
      TopStep(u, base, hashes, j, m, o);
    }
  }

  lemma TopStep(u: Path, base: nat, hashes: seq<Hash>, j: nat, m: nat, o: nat)
    requires 0 < j && m == base + j && m < |u| && u[m] == []
    requires TopSlot(u, base, hashes, j - 1, m - 1, 2 * o) && TopSlot(u, base, hashes, j - 1, m - 1, 2 * o + 1)
    ensures TopSlot(u, base, hashes, j, m, o)
  {
    var left := CompletedAt(u, base, |hashes|, m - 1, 2 * o);
    var right := CompletedAt(u, base, |hashes|, m - 1, 2 * o + 1);
    CombineAgrees(hashes, j - 1, o, left, right);
    PaddingStep(u, base, |hashes|, m, o);
  }

  /** The completed levels from the layer up are a path of the tree over `hashes`. */
  lemma TopPath(u: Path, base: nat, hashes: seq<Hash>, r: Path)
    requires RootLayer(u, base, hashes) && IsCompletion(r, u, base, |hashes|)
    ensures Agrees(hashes, r[base..])
  {
    forall j, e | 0 <= j < |r[base..]| && e in r[base..][j]
      ensures ElementAgrees(hashes, j, e)
    {
      LookupMember(r[base + j], e);
      TopSlots(u, base, hashes, j, base + j, e.offset);
    }
  }

  lemma {:induction false} TopClimbs(u: Path, base: nat, hashes: seq<Hash>, r: Path, j: nat, i: nat)
    requires RootLayer(u, base, hashes) && IsCompletion(r, u, base, |hashes|) && |hashes| >= 2
    requires |u| == base + CeilLog2(|hashes|) && base + j <= |u| && i < Width(|hashes|, j)
    ensures Climbs(r[base..], j, i)
    decreases |u| - j
  {
    if base + j < |u| {
      TopSibling(u, base, hashes, r, j, base + j, i);
      TopClimbs(u, base, hashes, r, j + 1, i / 2);
    }
  }

  /** Below the top every node has its sibling, real or padded. */
  lemma TopSibling(u: Path, base: nat, hashes: seq<Hash>, r: Path, j: nat, m: nat, i: nat)
    requires RootLayer(u, base, hashes) && IsCompletion(r, u, base, |hashes|) && |hashes| >= 2
    requires |u| == base + CeilLog2(|hashes|) && m == base + j && m < |u| && i < Width(|hashes|, j)
    ensures Lookup(r[m], Sibling(i)).Some? && i / 2 < Width(|hashes|, j + 1)
  {
    WidthAtHeight(|hashes|, j);
    TopSlots(u, base, hashes, j, m, Sibling(i));
    assert Lookup(r[m], Sibling(i)) == CompletedAt(u, base, |hashes|, m, Sibling(i));
  }

  lemma {:induction false} FoldFromLayer(r: Path, base: nat, level: nat, index: nat, working: Hash)
    requires base + level <= |r|
    ensures Fold(r, base + level, index, working) == Fold(r[base..], level, index, working)
    decreases |r| - level
  {
    if base + level < |r| {
      match Lookup(r[base + level], Sibling(index))
      case None =>
      case Some(e) =>
        if e.duplicate || e.hash.Some? {
          FoldFromLayer(r, base, level + 1, index / 2, FoldStep(index, working, e));
        }
    }
  }

  /**
   For every number of subtrees, not only powers of two: once the subtree-root layer is full, folding from any of its
   slots gives the root of the top tree, and the compound's ceil-log2 levels suffice.
   */
  lemma LayerFoldsToTop(u: Path, base: nat, hashes: seq<Hash>, r: Path, i: nat)
    requires RootLayer(u, base, hashes) && IsCompletion(r, u, base, |hashes|) && |hashes| >= 2
    requires |u| == base + CeilLog2(|hashes|) && i < |hashes|
    ensures Fold(r, base, i, hashes[i]) == Some(Root(hashes))
  {
    TopPath(u, base, hashes, r);
    TopClimbs(u, base, hashes, r, 0, i);
    FoldFromLayer(r, base, 0, i, hashes[i]);
    FoldReachesRoot(hashes, r[base..], i);
  }
}
