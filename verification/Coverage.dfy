/**
 What completing a path keeps and adds: agreement with the block's tree is kept at every slot, and every climb
 whose siblings are stored or computable, up to a full subtree-root layer, reaches the root.
 */
module Coverage {
  import opened Prelude
  import opened MerkleTree
  import opened MerklePaths
  import opened FillHashes

  /** A slot that is empty, or holds an element of the tree. */
  ghost predicate SlotAgrees(leaves: seq<Hash>, k: nat, o: nat, e: Option<PathElement>)
  {
    e.Some? ==> e.value.offset == o && ElementAgrees(leaves, k, e.value)
  }

  /** Two agreeing neighbours determine the tree's parent, and determine it whenever it exists. */
  lemma CombineAgrees(leaves: seq<Hash>, k: nat, o: nat, left: Option<PathElement>, right: Option<PathElement>)
    requires SlotAgrees(leaves, k, 2 * o, left) && SlotAgrees(leaves, k, 2 * o + 1, right)
    ensures var h := Combine(left, right);
            h.Some? ==> o < Width(|leaves|, k + 1) && h.value == Node(leaves, k + 1, o)
    ensures left.Some? && right.Some? && o < Width(|leaves|, k + 1) ==> Combine(left, right).Some?
  {
  }

  /** The padding counts of `base` and n are the tree's own. */
  ghost predicate Counts(leaves: seq<Hash>, levels: nat, base: nat, n: nat)
  {
    base < levels ==> n == Width(|leaves|, base)
  }

  lemma {:induction false} CompletedAgrees(leaves: seq<Hash>, p: Path, base: nat, n: nat, k: nat, o: nat)
    requires k < |p| && Agrees(leaves, p) && Counts(leaves, |p|, base, n)
    ensures SlotAgrees(leaves, k, o, CompletedAt(p, base, n, k, o))
  {
    if k > 0 {
      CompletedAgrees(leaves, p, base, n, k - 1, 2 * o);
      CompletedAgrees(leaves, p, base, n, k - 1, 2 * o + 1);
      CombineAgrees(leaves, k - 1, o, CompletedAt(p, base, n, k - 1, 2 * o), CompletedAt(p, base, n, k - 1, 2 * o + 1));
    }
    if PadsAt(|p|, base, n, k, o) {
      WidthCompose(|leaves|, base, k - base, k);
    }
  }

  /** A completed path agrees with the tree its input agreed with. */
  lemma CompletionAgrees(leaves: seq<Hash>, q: Path, p: Path, base: nat, n: nat)
    requires IsCompletion(q, p, base, n)
    requires Agrees(leaves, p) && Counts(leaves, |p|, base, n)
    ensures Agrees(leaves, q)
  {
    forall k, e | 0 <= k < |q| && e in q[k]
      ensures ElementAgrees(leaves, k, e)
    {
      LookupMember(q[k], e);
      CompletedAgrees(leaves, p, base, n, k, e.offset);
    }
  }

  // ----- climbs

  /** Every sibling from `index` of `level` up to `top` is stored or computable. */
  predicate ClimbTo(p: Path, base: nat, n: nat, level: nat, top: nat, index: nat)
    requires level <= top <= |p|
    decreases top - level
  {
    level == top || (CompletedAt(p, base, n, level, Sibling(index)).Some? && ClimbTo(p, base, n, level + 1, top, index / 2))
  }

  lemma {:induction false} ClimbAppend(p: Path, base: nat, n: nat, level: nat, mid: nat, top: nat, index: nat)
    requires level <= mid <= top <= |p|
    requires ClimbTo(p, base, n, level, mid, index)
    requires ClimbTo(p, base, n, mid, top, Shr(index, mid - level))
    ensures ClimbTo(p, base, n, level, top, index)
    decreases mid - level
  {
    if level < mid {
      ShrStep(index, mid - level);
      ClimbAppend(p, base, n, level + 1, mid, top, index / 2);
    }
  }

  lemma {:induction false} ClimbStored(q: Path, p: Path, base: nat, n: nat, level: nat, index: nat)
    requires level <= |p| && HasSlots(q, p, base, n)
    ensures Climbs(q, level, index) <==> ClimbTo(p, base, n, level, |p|, index)
    decreases |p| - level
  {
    if level < |p| {
      ClimbStored(q, p, base, n, level + 1, index / 2);
    }
  }

  /** A node with its climb fills in every node above it on the way. */
  lemma {:induction false} ClimbFills(leaves: seq<Hash>, p: Path, base: nat, n: nat, level: nat, top: nat, index: nat)
    requires level <= top < |p| && Agrees(leaves, p) && Counts(leaves, |p|, base, n)
    requires index < Width(|leaves|, level) && CompletedAt(p, base, n, level, index).Some?
    requires ClimbTo(p, base, n, level, top, index)
    ensures Shr(index, top - level) < Width(|leaves|, top)
    ensures CompletedAt(p, base, n, top, Shr(index, top - level)).Some?
    decreases top - level
  {
    if level < top {
      PairFilled(leaves, p, base, n, level, index);
      ClimbFills(leaves, p, base, n, level + 1, top, index / 2);
      ShrStep(index, top - level);
    }
  }

  /** Two completed siblings complete their parent. */
  lemma ParentFilled(leaves: seq<Hash>, p: Path, base: nat, n: nat, k: nat, o: nat)
    requires k + 1 < |p| && Agrees(leaves, p) && Counts(leaves, |p|, base, n)
    requires o < Width(|leaves|, k + 1)
    requires CompletedAt(p, base, n, k, 2 * o).Some? && CompletedAt(p, base, n, k, 2 * o + 1).Some?
    ensures CompletedAt(p, base, n, k + 1, o).Some?
  {
    var left, right := CompletedAt(p, base, n, k, 2 * o), CompletedAt(p, base, n, k, 2 * o + 1);
    CompletedAgrees(leaves, p, base, n, k, 2 * o);
    CompletedAgrees(leaves, p, base, n, k, 2 * o + 1);
    CombineAgrees(leaves, k, o, left, right);
    PaddingStep(p, base, n, k + 1, o);
  }

  lemma PairFilled(leaves: seq<Hash>, p: Path, base: nat, n: nat, k: nat, index: nat)
    requires k + 1 < |p| && Agrees(leaves, p) && Counts(leaves, |p|, base, n) && index < Width(|leaves|, k)
    requires CompletedAt(p, base, n, k, index).Some? && CompletedAt(p, base, n, k, Sibling(index)).Some?
    ensures index / 2 < Width(|leaves|, k + 1) && CompletedAt(p, base, n, k + 1, index / 2).Some?
  {
    assert index == 2 * (index / 2) || Sibling(index) == 2 * (index / 2);
    ParentFilled(leaves, p, base, n, k, index / 2);
  }

  // ----- the block levels

  ghost predicate LayerFull(p: Path, base: nat, n: nat)
    requires base < |p|
  {
    forall i: nat | i < n :: SlotFull(p, base, n, i)
  }

  ghost predicate SlotFull(p: Path, base: nat, n: nat, i: nat)
    requires base < |p|
  {
    CompletedAt(p, base, n, base, i).Some?
  }

  /** A real node whose children are there is there. */
  ghost predicate ParentThere(leaves: seq<Hash>, p: Path, base: nat, n: nat, k: nat, i: nat)
    requires 0 < k < |p|
  {
    && i < Width(|leaves|, k)
    && CompletedAt(p, base, n, k - 1, 2 * i).Some? && CompletedAt(p, base, n, k - 1, 2 * i + 1).Some?
    ==> CompletedAt(p, base, n, k, i).Some?
  }

  /** Above a full subtree-root layer every real node is there. */
  lemma BlockLevelsFull(leaves: seq<Hash>, p: Path, base: nat, n: nat, k: nat, i: nat)
    requires base <= k < |p| && Agrees(leaves, p) && n == Width(|leaves|, base)
    requires LayerFull(p, base, n)
    requires i < Width(|leaves|, k)
    ensures CompletedAt(p, base, n, k, i).Some?
  {
    forall k: nat, i: nat | 0 < k < |p|
      ensures ParentThere(leaves, p, base, n, k, i)
    {
      ParentIsThere(leaves, p, base, n, k, i);
    }
    LevelsFull(leaves, p, base, n, k, i);
  }

  lemma ParentIsThere(leaves: seq<Hash>, p: Path, base: nat, n: nat, k: nat, i: nat)
    requires 0 < k < |p| && Agrees(leaves, p) && Counts(leaves, |p|, base, n)
    ensures ParentThere(leaves, p, base, n, k, i)
  {
    if i < Width(|leaves|, k)
       && CompletedAt(p, base, n, k - 1, 2 * i).Some? && CompletedAt(p, base, n, k - 1, 2 * i + 1).Some? {
      ParentFilled(leaves, p, base, n, k - 1, i);
    }
  }

  lemma {:induction false} LevelsFull(leaves: seq<Hash>, p: Path, base: nat, n: nat, k: nat, i: nat)
    requires base <= k < |p| && n == Width(|leaves|, base) && LayerFull(p, base, n)
    requires forall k: nat, i: nat | 0 < k < |p| :: ParentThere(leaves, p, base, n, k, i)
    requires i < Width(|leaves|, k)
    ensures CompletedAt(p, base, n, k, i).Some?
    decreases k, 1
  {
    if k == base {
      assert SlotFull(p, base, n, i);
    } else {
      assert ParentThere(leaves, p, base, n, k, i);
      LevelsFull(leaves, p, base, n, k - 1, 2 * i);
      RightChildThere(leaves, p, base, n, k, i, 2 * i + 1);
    }
  }

  /** The right child of a real node is there, as a node or as the padding. */
  lemma {:induction false} RightChildThere(leaves: seq<Hash>, p: Path, base: nat, n: nat, k: nat, i: nat, right: nat)
    requires base < k < |p| && n == Width(|leaves|, base) && LayerFull(p, base, n)
    requires forall k: nat, i: nat | 0 < k < |p| :: ParentThere(leaves, p, base, n, k, i)
    requires i < Width(|leaves|, k) && right == 2 * i + 1
    ensures CompletedAt(p, base, n, k - 1, right).Some?
    decreases k, 0
  {
    if right < Width(|leaves|, k - 1) {
      LevelsFull(leaves, p, base, n, k - 1, right);
    } else {
      PaddingPresent(leaves, p, base, n, k - 1, right);
    }
  }

  /** Below the top level the padding of every odd level is there. */
  lemma PaddingPresent(leaves: seq<Hash>, p: Path, base: nat, n: nat, k: nat, o: nat)
    requires base <= k && k + 1 < |p| && n == Width(|leaves|, base)
    requires o == Width(|leaves|, k) && o % 2 == 1
    ensures CompletedAt(p, base, n, k, o).Some?
  {
    WidthCompose(|leaves|, base, k - base, k);
    PaddingStep(p, base, n, k, o);
  }

  /** From any slot of a full subtree-root layer the climb to the top of the block is complete. */
  lemma {:induction false} BlockClimb(leaves: seq<Hash>, p: Path, base: nat, n: nat, k: nat, i: nat)
    requires base <= k <= |p| && Agrees(leaves, p) && n == Width(|leaves|, base) && n >= 2
    requires |p| == base + CeilLog2(n) && base < |p| && LayerFull(p, base, n)
    requires i < Width(|leaves|, k)
    ensures ClimbTo(p, base, n, k, |p|, i)
    decreases |p| - k
  {
    if k < |p| {
      if Sibling(i) < Width(|leaves|, k) {
        BlockLevelsFull(leaves, p, base, n, k, Sibling(i));
      } else {
        WidthCompose(|leaves|, base, k - base, k);
        WidthAtHeight(n, k - base);
        PaddingPresent(leaves, p, base, n, k, Sibling(i));
      }
      BlockClimb(leaves, p, base, n, k + 1, i / 2);
    }
  }

  // ----- carrying a path into a larger one

  /** Every slot of `p`, shifted under node i of level h, is stored in `q`. */
  ghost predicate Includes(q: Path, p: Path, h: nat, i: nat)
  {
    |p| <= h && |p| <= |q| && forall k: nat, o: nat | k < |p| :: SlotIncluded(q, p, h, i, k, o)
  }

  ghost predicate SlotIncluded(q: Path, p: Path, h: nat, i: nat, k: nat, o: nat)
    requires k < |p| <= h && |p| <= |q|
  {
    Lookup(p[k], o).Some? ==> Lookup(q[k], Shl(i, h - k) + o).Some?
  }

  lemma IncludedSlot(q: Path, p: Path, h: nat, i: nat, k: nat, o: nat, g: nat)
    requires Includes(q, p, h, i) && k < |p| && Lookup(p[k], o).Some? && g == Shl(i, h - k) + o
    ensures Lookup(q[k], g).Some?
  {
    assert SlotIncluded(q, p, h, i, k, o);
  }

  /** What a subtree's path has or can compute, a block path that includes it has or can compute. */
  lemma {:induction false} FilledCarriesOver(
    local: seq<Hash>, global: seq<Hash>, p: Path, q: Path, base: nat, n: nat, h: nat, i: nat, k: nat, o: nat, g: nat)
    requires Under(local, global, h, i) && Includes(q, p, h, i)
    requires Agrees(local, p) && Agrees(global, q) && Counts(global, |q|, base, n)
    requires k < |p| && g == Shl(i, h - k) + o
    requires FilledAt(p, k, o).Some?
    ensures CompletedAt(q, base, n, k, g).Some?
  {
    if Lookup(p[k], o).Some? {
      IncludedSlot(q, p, h, i, k, o, g);
      StoredCompletes(q, base, n, k, g);
    } else {
      ChildrenFilled(p, k, o);
      ChildrenShift(i, h, k, o, g);
      FilledCarriesOver(local, global, p, q, base, n, h, i, k - 1, 2 * o, 2 * g);
      FilledCarriesOver(local, global, p, q, base, n, h, i, k - 1, 2 * o + 1, 2 * g + 1);
      DerivedCarriesOver(local, global, p, q, base, n, h, i, k, o, g);
    }
  }

  lemma StoredCompletes(q: Path, base: nat, n: nat, k: nat, g: nat)
    requires k < |q| && Lookup(q[k], g).Some?
    ensures CompletedAt(q, base, n, k, g).Some?
  {
    PaddingStep(q, base, n, k, g);
  }

  lemma DerivedCarriesOver(
    local: seq<Hash>, global: seq<Hash>, p: Path, q: Path, base: nat, n: nat, h: nat, i: nat, k: nat, o: nat, g: nat)
    requires Under(local, global, h, i) && Agrees(local, p) && Agrees(global, q) && Counts(global, |q|, base, n)
    requires 0 < k < |p| <= h && |p| <= |q| && g == Shl(i, h - k) + o
    requires Lookup(p[k], o).None? && FilledAt(p, k, o).Some?
    requires CompletedAt(q, base, n, k - 1, 2 * g).Some? && CompletedAt(q, base, n, k - 1, 2 * g + 1).Some?
    ensures CompletedAt(q, base, n, k, g).Some?
  {
    DerivedInside(local, global, p, h, i, k, o, g);
    ParentFilled(global, q, base, n, k - 1, g);
  }

  lemma ChildrenFilled(p: Path, k: nat, o: nat)
    requires k < |p| && Lookup(p[k], o).None? && FilledAt(p, k, o).Some?
    ensures k > 0 && FilledAt(p, k - 1, 2 * o).Some? && FilledAt(p, k - 1, 2 * o + 1).Some?
  {
  }

  lemma ChildrenShift(i: nat, h: nat, k: nat, o: nat, g: nat)
    requires 0 < k <= h && g == Shl(i, h - k) + o
    ensures 2 * g == Shl(i, h - (k - 1)) + 2 * o && 2 * g + 1 == Shl(i, h - (k - 1)) + (2 * o + 1)
  {
    ShiftHalves(i, h, k);
  }

  /** A node a subtree's path computes is a node of the block. */
  lemma DerivedInside(local: seq<Hash>, global: seq<Hash>, p: Path, h: nat, i: nat, k: nat, o: nat, g: nat)
    requires Under(local, global, h, i) && Agrees(local, p) && k < |p| <= h && g == Shl(i, h - k) + o
    requires Lookup(p[k], o).None? && FilledAt(p, k, o).Some?
    ensures g < Width(|global|, k)
  {
    CompletedAgrees(local, p, |p|, 0, k, o);
    WidthUnder(|local|, |global|, h, i, k);
  }

  /** Siblings and parents under node i of level h are shifted siblings and parents. */
  lemma SiblingUnder(i: nat, h: nat, k: nat, o: nat, g: nat)
    requires k < h && g == Shl(i, h - k) + o
    ensures Sibling(g) == Shl(i, h - k) + Sibling(o) && g / 2 == Shl(i, h - (k + 1)) + o / 2
  {
    ShiftHalves(i, h, k + 1);
  }

  lemma {:induction false} ClimbCarriesOver(
    local: seq<Hash>, global: seq<Hash>, p: Path, q: Path, base: nat, n: nat, h: nat, i: nat, k: nat, o: nat, g: nat)
    requires Under(local, global, h, i) && Includes(q, p, h, i)
    requires Agrees(local, p) && Agrees(global, q) && Counts(global, |q|, base, n)
    requires k <= |p| && g == Shl(i, h - k) + o
    requires ClimbTo(p, |p|, 0, k, |p|, o)
    ensures ClimbTo(q, base, n, k, |p|, g)
    decreases |p| - k
  {
    if k < |p| {
      SiblingUnder(i, h, k, o, g);
      FilledCarriesOver(local, global, p, q, base, n, h, i, k, Sibling(o), Sibling(g));
      ClimbCarriesOver(local, global, p, q, base, n, h, i, k + 1, o / 2, g / 2);
    }
  }
}
