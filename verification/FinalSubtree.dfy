/**
 The final subtree's slot: the lift's duplicate flags give it the same node a seed would, unless the subtree is a single
 leaf. Placing that subtree's path places nothing, the slot stays empty, and the compound proves no transaction.
 */
module FinalSubtree {
  import opened Prelude
  import opened MerkleTree
  import opened MerklePaths
  import opened FillHashes
  import opened Coverage
  import opened Merging
  import opened Compound
  import opened BlockProof

  lemma {:induction false} SeedsOnlyMissing(sh: Shape, hashes: seq<Hash>, have: set<nat>, count: nat)
    requires ValidShape(sh) && count <= |hashes|
    ensures forall e | e in Seeds(sh, hashes, have, count) :: e.offset !in have
  {
    if count > 0 {
      SeedsOnlyMissing(sh, hashes, have, count - 1);
    }
  }

  lemma PlacedApart(leaves: seq<Hash>, sh: Shape, ms: seq<MergedStump>, k: nat, e: PathElement)
    requires ShapeOfBlock(leaves, sh) && ValidShape(sh) && AllFit(leaves, sh, ms)
    requires sh.lift == sh.height && k < sh.height && e in PlacedLevel(sh, ms, k)
    ensures e.offset != Shl(sh.count - 1, sh.height - k)
  {
    var j := PlacedUnder(leaves, sh, ms, k, e);
    if e.offset == Shl(sh.count - 1, sh.height - k) {
      ShlPositive(sh.height - k);
      SlotsApart(sh.height, ms[j].index, sh.count - 1, k, e.offset);
    }
  }

  lemma NotSeeded(hashes: seq<Hash>, sh: Shape, ms: seq<MergedStump>)
    requires ValidShape(sh) && sh.count - 1 in Indices(ms)
    ensures Lookup(UnfilledLevel(hashes, sh, ms, sh.height), sh.count - 1).None?
  {
    NothingPlacedAbove(sh, ms, sh.height);
    NoSeed(sh, hashes, Indices(ms), sh.count - 1);
    assert UnfilledLevel(hashes, sh, ms, sh.height) == Seeds(sh, hashes, Indices(ms), |hashes|);
  }

  lemma NoSeed(sh: Shape, hashes: seq<Hash>, have: set<nat>, i: nat)
    requires ValidShape(sh) && i in have
    ensures Lookup(Seeds(sh, hashes, have, |hashes|), i).None?
  {
    SeedsOnlyMissing(sh, hashes, have, |hashes|);
    LookupNone(Seeds(sh, hashes, have, |hashes|), i);
  }

  lemma PlacedAvoids(leaves: seq<Hash>, sh: Shape, ms: seq<MergedStump>, k: nat, g: nat)
    requires ShapeOfBlock(leaves, sh) && ValidShape(sh) && AllFit(leaves, sh, ms)
    requires sh.lift == sh.height && k < sh.height && g == Shl(sh.count - 1, sh.height - k)
    ensures forall e | e in PlacedLevel(sh, ms, k) :: e.offset != g
  {
    forall e | e in PlacedLevel(sh, ms, k)
      ensures e.offset != g
    {
      PlacedApart(leaves, sh, ms, k, e);
    }
  }

  lemma LiftAvoids(hashes: seq<Hash>, sh: Shape, ms: seq<MergedStump>, k: nat, g: nat)
    requires ValidShape(sh) && k < sh.height && g == Shl(sh.count - 1, sh.height - k)
    requires forall e | e in PlacedLevel(sh, ms, k) :: e.offset != g
    ensures Lookup(UnfilledLevel(hashes, sh, ms, k), g).None?
  {
    var placed, lifted := PlacedLevel(sh, ms, k), LiftLevel(sh, Indices(ms), k);
    assert UnfilledLevel(hashes, sh, ms, k) == placed + lifted;
    BothAvoid(placed, lifted, g);
  }

  lemma BothAvoid(s: seq<PathElement>, t: seq<PathElement>, g: nat)
    requires (forall e | e in s :: e.offset != g) && forall e | e in t :: e.offset != g
    ensures Lookup(s + t, g).None?
  {
    LookupNone(s + t, g);
  }

  /** Nothing stands on the final slot's left edge. */
  lemma NothingPlaced(leaves: seq<Hash>, hashes: seq<Hash>, sh: Shape, ms: seq<MergedStump>, k: nat, g: nat)
    requires ShapeOfBlock(leaves, sh) && ValidShape(sh) && AllFit(leaves, sh, ms)
    requires sh.lift == sh.height && sh.count - 1 in Indices(ms)
    requires k <= sh.height && g == Shl(sh.count - 1, sh.height - k)
    ensures Lookup(UnfilledLevel(hashes, sh, ms, k), g).None?
  {
    if k < sh.height {
      PlacedAvoids(leaves, sh, ms, k, g);
      LiftAvoids(hashes, sh, ms, k, g);
    } else {
      NotSeeded(hashes, sh, ms);
    }
  }

  /** Nothing is stored on slot f's left edge at level j. */
  ghost predicate EdgeOpen(u: Path, h: nat, f: nat, j: nat)
    requires j <= h < |u|
  {
    Lookup(u[j], Shl(f, h - j)).None?
  }

  lemma {:induction false} EdgeStaysEmpty(u: Path, h: nat, n: nat, f: nat, k: nat, g: nat)
    requires k <= h < |u| && f < n && g == Shl(f, h - k)
    requires forall j: nat | j <= h :: EdgeOpen(u, h, f, j)
    ensures CompletedAt(u, h, n, k, g).None?
  {
    assert EdgeOpen(u, h, f, k);
    if k > 0 {
      EdgeStaysEmpty(u, h, n, f, k - 1, 2 * g);
    }
    NeverComputed(u, h, n, k, g);
  }

  /** A slot that stores nothing and whose left child is missing is not computed, and is not padded if it is a node's. */
  lemma NeverComputed(u: Path, h: nat, n: nat, k: nat, g: nat)
    requires k <= h < |u| && (k == h ==> g < n)
    requires Lookup(u[k], g).None? && (k > 0 ==> CompletedAt(u, h, n, k - 1, 2 * g).None?)
    ensures CompletedAt(u, h, n, k, g).None?
  {
  }

  lemma FinalEdgeOpen(leaves: seq<Hash>, hashes: seq<Hash>, sh: Shape, ms: seq<MergedStump>, u: Path, j: nat)
    requires ShapeOfBlock(leaves, sh) && ValidShape(sh) && AllFit(leaves, sh, ms)
    requires sh.lift == sh.height && sh.count - 1 in Indices(ms)
    requires j <= sh.height < |u| && u[j] == UnfilledLevel(hashes, sh, ms, j)
    ensures EdgeOpen(u, sh.height, sh.count - 1, j)
  {
    NothingPlaced(leaves, hashes, sh, ms, j, Shl(sh.count - 1, sh.height - j));
  }

  lemma FinalEdgesOpen(leaves: seq<Hash>, hashes: seq<Hash>, sh: Shape, ms: seq<MergedStump>, u: Path, f: nat)
    requires ShapeOfBlock(leaves, sh) && ValidShape(sh) && AllFit(leaves, sh, ms)
    requires sh.lift == sh.height && f == sh.count - 1 && f in Indices(ms)
    requires |u| > sh.height && forall j | 0 <= j < |u| :: u[j] == UnfilledLevel(hashes, sh, ms, j)
    ensures forall j: nat | j <= sh.height :: EdgeOpen(u, sh.height, f, j)
  {
    forall j: nat | j <= sh.height
      ensures EdgeOpen(u, sh.height, f, j)
    {
      FinalEdgeOpen(leaves, hashes, sh, ms, u, j);
    }
  }

  /** The last node of level k, above a layer of n slots at level h, is neither stored nor computed. */
  ghost predicate LastEmpty(u: Path, h: nat, n: nat, k: nat)
    requires h <= k < |u|
  {
    Width(n, k - h) > 0 && CompletedAt(u, h, n, k, Width(n, k - h) - 1).None?
  }

  /** The final subtree is a single leaf, and a path was placed for it. */
  predicate FinalLeafPlaced(sh: Shape, ms: seq<MergedStump>)
  {
    sh.lift == sh.height && sh.count - 1 in Indices(ms)
  }

  lemma LastOfLayer(u: Path, h: nat, n: nat, f: nat)
    requires h < |u| && n == f + 1 && forall j: nat | j <= h :: EdgeOpen(u, h, f, j)
    ensures LastEmpty(u, h, n, h)
  {
    EdgeStaysEmpty(u, h, n, f, h, f);
  }

  /** Delivered, a one-leaf final subtree leaves its slot of the subtree-root layer empty. */
  lemma FinalSlotEmpty(leaves: seq<Hash>, hashes: seq<Hash>, sh: Shape, ms: seq<MergedStump>, u: Path)
    requires ShapeOfBlock(leaves, sh) && ValidShape(sh) && AllFit(leaves, sh, ms) && FinalLeafPlaced(sh, ms)
    requires |u| > sh.height && forall j | 0 <= j < |u| :: u[j] == UnfilledLevel(hashes, sh, ms, j)
    ensures LastEmpty(u, sh.height, sh.count, sh.height)
  {
    FinalEdgesOpen(leaves, hashes, sh, ms, u, sh.count - 1);
    LastOfLayer(u, sh.height, sh.count, sh.count - 1);
  }

  // ----- what an empty final slot costs

  /** Nothing is stored above the layer, so an empty last slot leaves the last node of every level above it empty. */
  lemma {:induction false} LastNodeEmpty(u: Path, h: nat, n: nat, k: nat)
    requires h <= k < |u| && LastEmpty(u, h, n, h)
    requires forall j | h < j < |u| :: u[j] == []
    ensures LastEmpty(u, h, n, k)
  {
    if k > h {
      LastNodeEmpty(u, h, n, k - 1);
      LastNodeStep(u, h, n, k, Width(n, k - 1 - h) - 1, Width(n, k - h) - 1);
    }
  }

  lemma LastNodeStep(u: Path, h: nat, n: nat, k: nat, below: nat, g: nat)
    requires h < k < |u| && u[k] == [] && g + 1 == Width(n, k - h) && (below == 2 * g || below == 2 * g + 1)
    requires CompletedAt(u, h, n, k - 1, below).None?
    ensures CompletedAt(u, h, n, k, g).None?
  {
  }

  /** From any other node, the climb meets the last node of some level as a sibling. */
  lemma {:induction false} ClimbBreaks(path: Path, u: Path, h: nat, n: nat, k: nat, i: nat)
    requires IsCompletion(path, u, h, n) && h <= k <= |u| && Width(n, |u| - h) == 1
    requires forall j: nat | h <= j < |u| :: LastEmpty(u, h, n, j)
    requires i + 1 < Width(n, k - h)
    ensures !Climbs(path, k, i)
    decreases |u| - k
  {
    assert LastEmpty(u, h, n, k);
    if Sibling(i) + 1 == Width(n, k - h) {
      assert Lookup(path[k], Sibling(i)) == CompletedAt(u, h, n, k, Sibling(i));
    } else {
      ClimbBreaks(path, u, h, n, k + 1, i / 2);
    }
  }

  /** The compound then folds no leaf of any other subtree, however many subtrees there are. */
  lemma OthersUnproved(
    leaves: seq<Hash>, hashes: seq<Hash>, sh: Shape, ms: seq<MergedStump>, path: Path, g: nat, working: Hash)
    requires BlockInput(leaves, hashes, sh, ms) && IsCompletion(path, Unfilled(hashes, sh, ms), sh.height, sh.count)
    requires FinalLeafPlaced(sh, ms) && Shr(g, sh.height) < sh.count - 1
    ensures !Climbs(path, 0, g) && Fold(path, 0, g, working) == None
  {
    var u := Unfilled(hashes, sh, ms);
    FinalColumnEmpty(leaves, hashes, sh, ms, u);
    NoClimbBeside(path, u, sh.height, sh.count, g);
    FoldNeedsClimb(path, 0, g, working);
  }

  lemma FinalColumnEmpty(leaves: seq<Hash>, hashes: seq<Hash>, sh: Shape, ms: seq<MergedStump>, u: Path)
    requires BlockInput(leaves, hashes, sh, ms) && FinalLeafPlaced(sh, ms) && u == Unfilled(hashes, sh, ms)
    ensures |u| == sh.height + CeilLog2(sh.count) && sh.height < |u|
    ensures LastEmpty(u, sh.height, sh.count, sh.height)
    ensures forall k | sh.height < k < |u| :: u[k] == []
  {
    CeilLog2Positive(sh.count);
    FinalSlotEmpty(leaves, hashes, sh, ms, u);
    EmptyAbove(hashes, sh, ms, u);
  }

  lemma NoClimbBeside(path: Path, u: Path, h: nat, n: nat, g: nat)
    requires IsCompletion(path, u, h, n) && |u| == h + CeilLog2(n) && h < |u| && Shr(g, h) < n - 1
    requires LastEmpty(u, h, n, h) && forall k | h < k < |u| :: u[k] == []
    ensures !Climbs(path, 0, g)
  {
    WidthAtHeight(n, CeilLog2(n));
    SlotUnclimbed(path, u, h, n, Shr(g, h));
    if Climbs(path, 0, g) {
      ClimbsOn(path, 0, h, g);
    }
  }

  lemma SlotUnclimbed(path: Path, u: Path, h: nat, n: nat, i: nat)
    requires IsCompletion(path, u, h, n) && h < |u| && Width(n, |u| - h) == 1 && i < n - 1
    requires LastEmpty(u, h, n, h) && forall k | h < k < |u| :: u[k] == []
    ensures !Climbs(path, h, i)
  {
    forall k: nat | h <= k < |u|
      ensures LastEmpty(u, h, n, k)
    {
      LastNodeEmpty(u, h, n, k);
    }
    ClimbBreaks(path, u, h, n, h, i);
  }

  lemma EmptyAbove(hashes: seq<Hash>, sh: Shape, ms: seq<MergedStump>, u: Path)
    requires ValidShape(sh) && u == Unfilled(hashes, sh, ms)
    ensures forall k | sh.height < k < |u| :: u[k] == []
  {
    forall k | sh.height < k < |u|
      ensures u[k] == []
    {
      NothingPlacedAbove(sh, ms, k);
    }
  }

  /** The final leaf itself is not even stored, so the compound proves no transaction at all. */
  lemma NothingProved(
    leaves: seq<Hash>, hashes: seq<Hash>, sh: Shape, ms: seq<MergedStump>, path: Path, txid: Hash)
    requires BlockInput(leaves, hashes, sh, ms) && IsCompletion(path, Unfilled(hashes, sh, ms), sh.height, sh.count)
    requires FinalLeafPlaced(sh, ms) && sh.height > 0
    ensures ComputeRoot(path, txid) == None
  {
    CeilLog2Positive(sh.count);
    match FindLeafByHash(path[0], txid)
    case None =>
    case Some(e) =>
      StoredElsewhere(leaves, hashes, sh, ms, path, e);
      OthersUnproved(leaves, hashes, sh, ms, path, e.offset, txid);
  }

  lemma StoredElsewhere(
    leaves: seq<Hash>, hashes: seq<Hash>, sh: Shape, ms: seq<MergedStump>, path: Path, e: PathElement)
    requires BlockInput(leaves, hashes, sh, ms) && IsCompletion(path, Unfilled(hashes, sh, ms), sh.height, sh.count)
    requires FinalLeafPlaced(sh, ms) && sh.height > 0 && |path| > 0 && e in path[0] && e.hash.Some?
    ensures Shr(e.offset, sh.height) < sh.count - 1
  {
    StoredInBlock(leaves, hashes, sh, ms, path, e);
    LiftWidth(leaves, sh, 0);
    OffTheEdge(leaves, hashes, sh, ms, path, e, Shl(sh.count - 1, sh.height));
    ShrBelow(e.offset, sh.count - 1, sh.height);
  }

  lemma StoredInBlock(
    leaves: seq<Hash>, hashes: seq<Hash>, sh: Shape, ms: seq<MergedStump>, path: Path, e: PathElement)
    requires BlockInput(leaves, hashes, sh, ms) && IsCompletion(path, Unfilled(hashes, sh, ms), sh.height, sh.count)
    requires |path| > 0 && e in path[0] && e.hash.Some?
    ensures e.offset < |leaves|
  {
    var u := Unfilled(hashes, sh, ms);
    UnfilledFits(leaves, hashes, sh, ms, u);
    CompletionAgrees(leaves, path, u, sh.height, sh.count);
    assert ElementAgrees(leaves, 0, e);
  }

  lemma OffTheEdge(
    leaves: seq<Hash>, hashes: seq<Hash>, sh: Shape, ms: seq<MergedStump>, path: Path, e: PathElement, edge: nat)
    requires BlockInput(leaves, hashes, sh, ms) && IsCompletion(path, Unfilled(hashes, sh, ms), sh.height, sh.count)
    requires FinalLeafPlaced(sh, ms) && |path| > 0 && e in path[0] && edge == Shl(sh.count - 1, sh.height)
    ensures e.offset != edge
  {
    FinalLeafAbsent(leaves, hashes, sh, ms, Unfilled(hashes, sh, ms), edge);
    assert Lookup(path[0], edge) == None;
    LookupNone(path[0], edge);
  }

  lemma FinalLeafAbsent(leaves: seq<Hash>, hashes: seq<Hash>, sh: Shape, ms: seq<MergedStump>, u: Path, edge: nat)
    requires BlockInput(leaves, hashes, sh, ms) && FinalLeafPlaced(sh, ms) && u == Unfilled(hashes, sh, ms)
    requires edge == Shl(sh.count - 1, sh.height)
    ensures |u| > 0 && CompletedAt(u, sh.height, sh.count, 0, edge).None?
  {
    CeilLog2Positive(sh.count);
    FinalEdgesOpen(leaves, hashes, sh, ms, u, sh.count - 1);
    EdgeStaysEmpty(u, sh.height, sh.count, sh.count - 1, 0, edge);
  }

  // ----- the lift by flags is the lift by self-hashing

  /** Level k of slot f's left edge carries the lift's duplicate flag, and stores no node of its own at level k + 1. */
  ghost predicate LiftFlag(u: Path, h: nat, f: nat, k: nat)
    requires k < h < |u|
  {
    Lookup(u[k], Shl(f, h - k) + 1) == Some(DuplicateAt(Shl(f, h - k) + 1)) && Lookup(u[k + 1], Shl(f, h - (k + 1))).None?
  }

  /** From level j up, each flag hashes the node below it with itself. */
  lemma {:induction false} FlagsLift(u: Path, h: nat, n: nat, f: nat, j: nat, root: Hash, m: nat, g: nat)
    requires j <= m <= h < |u| && f < n && g == Shl(f, h - m)
    requires CompletedAt(u, h, n, j, Shl(f, h - j)) == Some(Computed(Shl(f, h - j), root))
    requires forall k: nat | j <= k < h :: LiftFlag(u, h, f, k)
    ensures CompletedAt(u, h, n, m, g) == Some(Computed(g, Lift(root, m - j)))
  {
    if j < m {
      FlagsLift(u, h, n, f, j, root, m - 1, 2 * g);
      assert LiftFlag(u, h, f, m - 1);
      FlagStep(u, h, n, m, g, Lift(root, m - 1 - j));
    }
  }

  lemma FlagStep(u: Path, h: nat, n: nat, m: nat, g: nat, below: Hash)
    requires 0 < m <= h < |u| && (m == h ==> g < n)
    requires CompletedAt(u, h, n, m - 1, 2 * g) == Some(Computed(2 * g, below))
    requires Lookup(u[m - 1], 2 * g + 1) == Some(DuplicateAt(2 * g + 1)) && Lookup(u[m], g).None?
    ensures CompletedAt(u, h, n, m, g) == Some(Computed(g, MerkleTreeParent(below, below)))
  {
    PaddingStep(u, h, n, m - 1, 2 * g + 1);
    PaddingStep(u, h, n, m, g);
  }

  /** Adding k flags above a final subtree's root gives the node that seeding its root, self-hashed k times, gives. */
  lemma FlagsAreSeed(u: Path, h: nat, n: nat, f: nat, k: nat, root: Hash)
    requires k <= h < |u| && f < n
    requires CompletedAt(u, h, n, h - k, Shl(f, k)) == Some(Computed(Shl(f, k), root))
    requires forall l: nat | h - k <= l < h :: LiftFlag(u, h, f, l)
    ensures CompletedAt(u, h, n, h, f) == Some(Computed(f, Lift(root, k)))
  {
    FlagsLift(u, h, n, f, h - k, root, h, f);
  }
}
