/**
 The compound of a block, built from per-subtree paths that agree with the block's tree, folds every leaf those paths
 climb from to the block's Merkle root.
 */
module BlockProof {
  import opened Prelude
  import opened MerkleTree
  import opened MerklePaths
  import opened FillHashes
  import opened Coverage
  import opened Merging
  import opened Compound

  /** The measures are the block's own. */
  ghost predicate ShapeOfBlock(leaves: seq<Hash>, sh: Shape)
  {
    && sh.count == Width(|leaves|, sh.height) && sh.count >= 2
    && sh.lift == LiftOf(leaves, sh.height, sh.count - 1)
  }

  lemma ShapeIsValid(leaves: seq<Hash>, sh: Shape, i: nat)
    requires ShapeOfBlock(leaves, sh) && i < sh.count
    ensures ValidShape(sh)
    ensures Subtree(leaves, sh.height, i) != []
    ensures RequiredHeight(sh, i) == CeilLog2(|Subtree(leaves, sh.height, i)|)
  {
    SubtreeHeight(leaves, sh.height, i);
    SubtreeHeight(leaves, sh.height, sh.count - 1);
  }

  /** The part of a merged path that is placed. */
  function PlacedPart(sh: Shape, m: MergedStump): Path
    requires ValidShape(sh) && RequiredHeight(sh, m.index) <= |m.path|
  {
    m.path[..RequiredHeight(sh, m.index)]
  }

  /** The placed part is a well-formed path of the subtree it is placed for. */
  ghost predicate Fits(leaves: seq<Hash>, sh: Shape, m: MergedStump)
    requires ShapeOfBlock(leaves, sh)
  {
    && m.index < sh.count && ValidShape(sh) && RequiredHeight(sh, m.index) <= |m.path|
    && WellFormed(PlacedPart(sh, m))
    && Agrees(Subtree(leaves, sh.height, m.index), PlacedPart(sh, m))
  }

  // ----- placed elements

  /** Offset g of level k lies under slot i of the subtree-root layer. */
  predicate InSlot(h: nat, i: nat, k: nat, g: nat)
    requires k <= h
  {
    Shl(i, h - k) <= g < Shl(i, h - k) + Shl(1, h - k)
  }

  lemma SlotsApart(h: nat, i: nat, j: nat, k: nat, g: nat)
    requires k <= h && InSlot(h, i, k, g) && InSlot(h, j, k, g)
    ensures i == j
  {
    if i < j {
      ShlMonotone(i, j, h - k);
    } else {
      ShlMonotone(j, i, h - k);
    }
  }

  /** An element of a subtree's path, shifted, is an element of the block's. */
  lemma ShiftedAgrees(leaves: seq<Hash>, h: nat, i: nat, k: nat, e: PathElement, g: nat)
    requires i < Width(|leaves|, h) && k < h
    requires ElementAgrees(Subtree(leaves, h, i), k, e) && g == Shl(i, h - k) + e.offset
    ensures InSlot(h, i, k, g) && ElementAgrees(leaves, k, e.(offset := g))
  {
    if e.hash.Some? {
      ShiftedHash(leaves, h, i, k, e, g);
    } else {
      ShiftedFlag(leaves, h, i, k, e, g);
    }
  }

  lemma ShiftedHash(leaves: seq<Hash>, h: nat, i: nat, k: nat, e: PathElement, g: nat)
    requires i < Width(|leaves|, h) && k < h && e.hash.Some?
    requires ElementAgrees(Subtree(leaves, h, i), k, e) && g == Shl(i, h - k) + e.offset
    ensures InSlot(h, i, k, g) && ElementAgrees(leaves, k, e.(offset := g))
  {
    var local := Subtree(leaves, h, i);
    SubtreeUnder(leaves, h, i);
    WidthUnder(|local|, |leaves|, h, i, k);
    NodeUnder(local, leaves, h, i, k, e.offset, g);
  }

  /** A subtree narrower than its slot is the block's last, so its odd level ends where the block's does. */
  lemma ShiftedFlag(leaves: seq<Hash>, h: nat, i: nat, k: nat, e: PathElement, g: nat)
    requires i < Width(|leaves|, h) && k < h && e.hash.None?
    requires ElementAgrees(Subtree(leaves, h, i), k, e) && g == Shl(i, h - k) + e.offset
    ensures InSlot(h, i, k, g) && ElementAgrees(leaves, k, e.(offset := g))
  {
    var local := Subtree(leaves, h, i);
    SubtreeUnder(leaves, h, i);
    WidthUnder(|local|, |leaves|, h, i, k);
    var half := EdgeIsEven(i, h, k);
    var full := EdgeIsEven(1, h, k);
    FlagInSlot(half, full, Width(|local|, k));
  }

  /** An odd count within an even room leaves space for its flag, and stays odd behind an even shift. */
  lemma FlagInSlot(half: nat, full: nat, w: nat)
    requires w % 2 == 1 && w <= 2 * full
    ensures w < 2 * full && (2 * half + w) % 2 == 1
  {
  }

  lemma StumpLevelFits(leaves: seq<Hash>, sh: Shape, m: MergedStump, k: nat)
    requires ShapeOfBlock(leaves, sh) && Fits(leaves, sh, m) && k <= sh.height
    ensures Distinct(StumpLevel(sh, m, k))
    ensures forall e | e in StumpLevel(sh, m, k) :: InSlot(sh.height, m.index, k, e.offset) && ElementAgrees(leaves, k, e)
  {
    if k < RequiredHeight(sh, m.index) {
      var part := PlacedPart(sh, m)[k];
      var level := StumpLevel(sh, m, k);
      assert level == Shifted(part, Shl(m.index, sh.height - k));
      forall e | e in level
        ensures InSlot(sh.height, m.index, k, e.offset) && ElementAgrees(leaves, k, e)
      {
        var j :| 0 <= j < |level| && level[j] == e;
        assert part[j] in part;
        ShiftedAgrees(leaves, sh.height, m.index, k, part[j], e.offset);
      }
    }
  }

  ghost predicate AllFit(leaves: seq<Hash>, sh: Shape, ms: seq<MergedStump>)
    requires ShapeOfBlock(leaves, sh)
  {
    && (forall m | m in ms :: Fits(leaves, sh, m))
    && (forall i, j | 0 <= i < j < |ms| :: ms[i].index != ms[j].index)
  }

  lemma DistinctConcat(s: seq<PathElement>, t: seq<PathElement>)
    requires Distinct(s) && Distinct(t)
    requires forall e, f | e in s && f in t :: e.offset != f.offset
    ensures Distinct(s + t)
  {
  }

  /** A placed element lies under the slot of the subtree it was placed for, at one of its own levels. */
  lemma {:induction false} PlacedUnder(leaves: seq<Hash>, sh: Shape, ms: seq<MergedStump>, k: nat, e: PathElement)
    returns (j: nat)
    requires ShapeOfBlock(leaves, sh) && ValidShape(sh) && k <= sh.height && e in PlacedLevel(sh, ms, k)
    requires forall m | m in ms :: Fits(leaves, sh, m)
    ensures j < |ms| && InSlot(sh.height, ms[j].index, k, e.offset) && k < RequiredHeight(sh, ms[j].index)
  {
    var n := |ms| - 1;
    if e in StumpLevel(sh, ms[n], k) {
      assert ms[n] in ms;
      StumpLevelFits(leaves, sh, ms[n], k);
      j := n;
    } else {
      j := PlacedUnder(leaves, sh, ms[..n], k, e);
    }
  }

  /** The placed elements of a level belong to the block and never collide. */
  lemma {:induction false} PlacedLevelFits(leaves: seq<Hash>, sh: Shape, ms: seq<MergedStump>, k: nat)
    requires ShapeOfBlock(leaves, sh) && ValidShape(sh) && AllFit(leaves, sh, ms) && k <= sh.height
    ensures Distinct(PlacedLevel(sh, ms, k))
    ensures forall e | e in PlacedLevel(sh, ms, k) :: ElementAgrees(leaves, k, e)
  {
    if ms != [] {
      var most, last := ms[..|ms| - 1], ms[|ms| - 1];
      assert last in ms;
      PlacedLevelFits(leaves, sh, most, k);
      StumpLevelFits(leaves, sh, last, k);
      forall e, f | e in PlacedLevel(sh, most, k) && f in StumpLevel(sh, last, k)
        ensures e.offset != f.offset
      {
        var j := PlacedUnder(leaves, sh, most, k, e);
        if e.offset == f.offset {
          SlotsApart(sh.height, ms[j].index, last.index, k, e.offset);
        }
      }
      DistinctConcat(PlacedLevel(sh, most, k), StumpLevel(sh, last, k));
    }
  }

  lemma {:induction false} PlacedIncludes(sh: Shape, ms: seq<MergedStump>, m: MergedStump, k: nat)
    requires ValidShape(sh) && m in ms
    ensures forall e | e in StumpLevel(sh, m, k) :: e in PlacedLevel(sh, ms, k)
  {
    if m != ms[|ms| - 1] {
      assert m in ms[..|ms| - 1];
      PlacedIncludes(sh, ms[..|ms| - 1], m, k);
    }
  }

  // ----- the lift and the seeds

  lemma LiftAgrees(leaves: seq<Hash>, sh: Shape, k: nat)
    requires ShapeOfBlock(leaves, sh) && ValidShape(sh) && sh.height - sh.lift <= k < sh.height
    ensures var g := Shl(sh.count - 1, sh.height - k);
            Width(|leaves|, k) == g + 1 && ElementAgrees(leaves, k, DuplicateAt(g + 1))
            && InSlot(sh.height, sh.count - 1, k, g + 1)
  {
    LiftWidth(leaves, sh, k);
    var half := EdgeIsEven(sh.count - 1, sh.height, k);
    FlagInSlot(half, 1, 1);
  }

  lemma EdgeIsEven(f: nat, h: nat, k: nat) returns (half: nat)
    requires k < h
    ensures Shl(f, h - k) == 2 * half && Shl(1, h - k) >= 2
  {
    ShlPositive(h - k - 1);
    half := Shl(f, h - k - 1);
  }

  /** From its natural height on, the final subtree is one node wide. */
  lemma LiftWidth(leaves: seq<Hash>, sh: Shape, k: nat)
    requires ShapeOfBlock(leaves, sh) && ValidShape(sh) && sh.height - sh.lift <= k < sh.height
    ensures Width(|leaves|, k) == Shl(sh.count - 1, sh.height - k) + 1
  {
    var f := sh.count - 1;
    SubtreeHeight(leaves, sh.height, f);
    SubtreeUnder(leaves, sh.height, f);
    OneWide(|Subtree(leaves, sh.height, f)|, |leaves|, sh.height, f, k);
  }

  lemma OneWide(local: nat, global: nat, h: nat, f: nat, k: nat)
    requires 1 <= local <= Shl(1, h) && Shl(f, h) + local == global && CeilLog2(local) <= k <= h
    ensures Width(global, k) == Shl(f, h - k) + 1
  {
    WidthUnder(local, global, h, f, k);
    WidthAtHeight(local, k);
  }

  lemma {:induction false} SeedsDistinct(sh: Shape, hashes: seq<Hash>, have: set<nat>, count: nat)
    requires ValidShape(sh) && count <= |hashes|
    ensures Distinct(Seeds(sh, hashes, have, count)) && forall e | e in Seeds(sh, hashes, have, count) :: e.offset < count
  {
    if count > 0 {
      SeedsDistinct(sh, hashes, have, count - 1);
    }
  }

  lemma {:induction false} SeedFor(sh: Shape, hashes: seq<Hash>, have: set<nat>, count: nat, i: nat) returns (e: PathElement)
    requires ValidShape(sh) && i < count <= |hashes| && i !in have
    ensures e in Seeds(sh, hashes, have, count) && e.offset == i
  {
    if i < count - 1 {
      e := SeedFor(sh, hashes, have, count - 1, i);
    } else {
      e := Computed(i, Lift(hashes[i], if i == sh.count - 1 then sh.lift else 0));
    }
  }

  /** Every seed is the block's node there. */
  lemma {:induction false} SeedsAgree(leaves: seq<Hash>, sh: Shape, hashes: seq<Hash>, have: set<nat>, count: nat)
    requires ShapeOfBlock(leaves, sh) && ValidShape(sh) && SubtreeRoots(leaves, sh.height, hashes) && count <= |hashes|
    ensures forall e | e in Seeds(sh, hashes, have, count) :: ElementAgrees(leaves, sh.height, e)
  {
    if count > 0 {
      SeedsAgree(leaves, sh, hashes, have, count - 1);
      SubtreeRootLayer(leaves, sh.height, count - 1);
    }
  }

  // ----- the unfilled compound

  /** Everything a compound is built from agrees with the block. */
  ghost predicate BlockInput(leaves: seq<Hash>, hashes: seq<Hash>, sh: Shape, ms: seq<MergedStump>)
  {
    && leaves != [] && ShapeOfBlock(leaves, sh) && ValidShape(sh)
    && SubtreeRoots(leaves, sh.height, hashes)
    && AllFit(leaves, sh, ms)
  }

  lemma {:induction false} NothingPlacedAbove(sh: Shape, ms: seq<MergedStump>, k: nat)
    requires ValidShape(sh) && k >= sh.height
    ensures PlacedLevel(sh, ms, k) == []
  {
    if ms != [] {
      NothingPlacedAbove(sh, ms[..|ms| - 1], k);
    }
  }

  /** The lift's flags stand under the final slot, where nothing is placed at those levels. */
  lemma LiftApart(leaves: seq<Hash>, sh: Shape, ms: seq<MergedStump>, k: nat, e: PathElement)
    requires ShapeOfBlock(leaves, sh) && ValidShape(sh) && AllFit(leaves, sh, ms)
    requires sh.height - sh.lift <= k < sh.height && e in PlacedLevel(sh, ms, k)
    ensures e.offset != Shl(sh.count - 1, sh.height - k) + 1
  {
    var j := PlacedUnder(leaves, sh, ms, k, e);
    if e.offset == Shl(sh.count - 1, sh.height - k) + 1 {
      LiftAgrees(leaves, sh, k);
      SlotsApart(sh.height, ms[j].index, sh.count - 1, k, e.offset);
    }
  }

  lemma LiftLevelFits(leaves: seq<Hash>, sh: Shape, ms: seq<MergedStump>, k: nat)
    requires ShapeOfBlock(leaves, sh) && ValidShape(sh) && AllFit(leaves, sh, ms) && k < sh.height
    ensures var lifted := LiftLevel(sh, Indices(ms), k);
            && Distinct(lifted)
            && (forall e | e in lifted :: ElementAgrees(leaves, k, e))
            && forall e, f | e in PlacedLevel(sh, ms, k) && f in lifted :: e.offset != f.offset
  {
    if LiftLevel(sh, Indices(ms), k) != [] {
      LiftAgrees(leaves, sh, k);
      forall e | e in PlacedLevel(sh, ms, k)
        ensures e.offset != Shl(sh.count - 1, sh.height - k) + 1
      {
        LiftApart(leaves, sh, ms, k, e);
      }
    }
  }

  lemma LowerLevelFits(leaves: seq<Hash>, hashes: seq<Hash>, sh: Shape, ms: seq<MergedStump>, k: nat)
    requires ShapeOfBlock(leaves, sh) && ValidShape(sh) && AllFit(leaves, sh, ms) && k < sh.height
    ensures Distinct(UnfilledLevel(hashes, sh, ms, k))
    ensures forall e | e in UnfilledLevel(hashes, sh, ms, k) :: ElementAgrees(leaves, k, e)
  {
    var placed, lifted := PlacedLevel(sh, ms, k), LiftLevel(sh, Indices(ms), k);
    PlacedLevelFits(leaves, sh, ms, k);
    LiftLevelFits(leaves, sh, ms, k);
    DistinctConcat(placed, lifted);
    assert UnfilledLevel(hashes, sh, ms, k) == placed + lifted;
  }

  lemma LayerFits(leaves: seq<Hash>, hashes: seq<Hash>, sh: Shape, ms: seq<MergedStump>, k: nat)
    requires ShapeOfBlock(leaves, sh) && ValidShape(sh) && SubtreeRoots(leaves, sh.height, hashes)
    requires k >= sh.height
    ensures Distinct(UnfilledLevel(hashes, sh, ms, k))
    ensures forall e | e in UnfilledLevel(hashes, sh, ms, k) :: ElementAgrees(leaves, k, e)
    ensures k == sh.height ==> forall i: nat | i < sh.count && i !in Indices(ms) ::
              exists e | e in UnfilledLevel(hashes, sh, ms, k) :: e.offset == i
  {
    NothingPlacedAbove(sh, ms, k);
    var seeds := Seeds(sh, hashes, Indices(ms), |hashes|);
    assert UnfilledLevel(hashes, sh, ms, k) == if k == sh.height then seeds else [];
    SeedsDistinct(sh, hashes, Indices(ms), |hashes|);
    SeedsAgree(leaves, sh, hashes, Indices(ms), |hashes|);
    if k == sh.height {
      forall i: nat | i < sh.count && i !in Indices(ms)
        ensures exists e | e in seeds :: e.offset == i
      {
        var e := SeedFor(sh, hashes, Indices(ms), |hashes|, i);
      }
    }
  }

  lemma UnfilledFits(leaves: seq<Hash>, hashes: seq<Hash>, sh: Shape, ms: seq<MergedStump>, u: Path)
    requires BlockInput(leaves, hashes, sh, ms) && u == Unfilled(hashes, sh, ms)
    ensures WellFormed(u) && Agrees(leaves, u)
  {
    forall k | 0 <= k < |u|
      ensures Distinct(u[k]) && forall e | e in u[k] :: ElementAgrees(leaves, k, e)
    {
      if k < sh.height {
        LowerLevelFits(leaves, hashes, sh, ms, k);
      } else {
        LayerFits(leaves, hashes, sh, ms, k);
      }
    }
  }

  // ----- climbs through the compound

  /** `u` is a path of the block, as tall as the block. */
  ghost predicate PathOfBlock(leaves: seq<Hash>, sh: Shape, u: Path)
  {
    && leaves != [] && ShapeOfBlock(leaves, sh) && ValidShape(sh)
    && |u| == sh.height + CeilLog2(sh.count) && sh.height < |u|
    && Agrees(leaves, u)
  }

  /** The final subtree's lift is represented in `u`. */
  ghost predicate LiftsStored(sh: Shape, u: Path)
    requires ValidShape(sh) && sh.height <= |u|
  {
    forall k: nat | sh.height - sh.lift <= k < sh.height :: Lookup(u[k], Shl(sh.count - 1, sh.height - k) + 1).Some?
  }

  /** A path stores leaf o, with its hash, and climbs from it. */
  ghost predicate LeafClimbs(part: Path, o: nat)
  {
    |part| > 0 && Lookup(part[0], o).Some? && Lookup(part[0], o).value.hash.Some? && ClimbTo(part, |part|, 0, 0, |part|, o)
  }

  /** `u` includes a path of subtree i that climbs from its leaf o. */
  ghost predicate CarriesLeaf(leaves: seq<Hash>, sh: Shape, u: Path, i: nat, part: Path, o: nat)
    requires PathOfBlock(leaves, sh, u)
  {
    && i < sh.count && |part| == RequiredHeight(sh, i)
    && Agrees(Subtree(leaves, sh.height, i), part)
    && Includes(u, part, sh.height, i)
    && LeafClimbs(part, o)
    && (|part| < sh.height ==> LiftsStored(sh, u))
  }

  lemma LeafInside(local: seq<Hash>, part: Path, o: nat)
    requires Agrees(local, part) && LeafClimbs(part, o)
    ensures o < |local|
  {
    assert ElementAgrees(local, 0, Lookup(part[0], o).value);
  }

  lemma IncludedLeaf(u: Path, part: Path, h: nat, i: nat, o: nat, g: nat)
    requires Includes(u, part, h, i) && LeafClimbs(part, o) && g == Shl(i, h) + o
    ensures Lookup(u[0], g).Some?
  {
    IncludedSlot(u, part, h, i, 0, o, g);
  }

  lemma CarriedLeaf(leaves: seq<Hash>, sh: Shape, u: Path, i: nat, part: Path, o: nat, g: nat)
    requires PathOfBlock(leaves, sh, u) && CarriesLeaf(leaves, sh, u, i, part, o) && g == Shl(i, sh.height) + o
    ensures o < |Subtree(leaves, sh.height, i)| <= Shl(1, sh.height) && g < |leaves| && Lookup(u[0], g).Some?
  {
    LeafInside(Subtree(leaves, sh.height, i), part, o);
    IncludedLeaf(u, part, sh.height, i, o, g);
    SubtreeBounds(leaves, sh.height, i);
  }

  lemma CarriedClimb(
    leaves: seq<Hash>, local: seq<Hash>, sh: Shape, u: Path, i: nat, part: Path, o: nat, g: nat)
    requires Under(local, leaves, sh.height, i) && Agrees(local, part) && Includes(u, part, sh.height, i)
    requires Agrees(leaves, u) && sh.count == Width(|leaves|, sh.height)
    requires ClimbTo(part, |part|, 0, 0, |part|, o) && g == Shl(i, sh.height) + o
    ensures ClimbTo(u, sh.height, sh.count, 0, |part|, g)
  {
    ClimbCarriesOver(local, leaves, part, u, sh.height, sh.count, sh.height, i, 0, o, g);
  }

  /** From a leaf that climbs its subtree, the compound climbs to the subtree-root layer. */
  lemma ClimbToLayer(leaves: seq<Hash>, sh: Shape, u: Path, i: nat, part: Path, o: nat, g: nat)
    requires PathOfBlock(leaves, sh, u) && CarriesLeaf(leaves, sh, u, i, part, o) && g == Shl(i, sh.height) + o
    ensures o < |Subtree(leaves, sh.height, i)| && g < |leaves|
    ensures Lookup(u[0], g).Some? && Shr(g, sh.height) == i
    ensures ClimbTo(u, sh.height, sh.count, 0, sh.height, g)
  {
    CarriedLeaf(leaves, sh, u, i, part, o, g);
    ShrOfShl(i, o, sh.height);
    ClimbInSubtree(leaves, sh, u, i, part, o, g);
    if |part| < sh.height {
      ClimbThroughLift(leaves, sh, u, i, o, g);
    }
  }

  lemma ClimbInSubtree(leaves: seq<Hash>, sh: Shape, u: Path, i: nat, part: Path, o: nat, g: nat)
    requires PathOfBlock(leaves, sh, u) && CarriesLeaf(leaves, sh, u, i, part, o) && g == Shl(i, sh.height) + o
    ensures ClimbTo(u, sh.height, sh.count, 0, |part|, g)
  {
    SubtreeUnder(leaves, sh.height, i);
    CarriedClimb(leaves, Subtree(leaves, sh.height, i), sh, u, i, part, o, g);
  }

  lemma ClimbThroughLift(leaves: seq<Hash>, sh: Shape, u: Path, i: nat, o: nat, g: nat)
    requires ShapeOfBlock(leaves, sh) && ValidShape(sh) && sh.height < |u| && LiftsStored(sh, u)
    requires i < sh.count && RequiredHeight(sh, i) < sh.height
    requires o < |Subtree(leaves, sh.height, i)| && g == Shl(i, sh.height) + o
    requires ClimbTo(u, sh.height, sh.count, 0, RequiredHeight(sh, i), g)
    ensures ClimbTo(u, sh.height, sh.count, 0, sh.height, g)
  {
    NaturalTop(leaves, sh, i, o, g);
    LiftClimb(sh, u, RequiredHeight(sh, i));
    ClimbAppend(u, sh.height, sh.count, 0, RequiredHeight(sh, i), sh.height, g);
  }

  /** At its natural height the final subtree has narrowed to one node. */
  lemma NaturalTop(leaves: seq<Hash>, sh: Shape, i: nat, o: nat, g: nat)
    requires ShapeOfBlock(leaves, sh) && ValidShape(sh) && i < sh.count
    requires o < |Subtree(leaves, sh.height, i)| && g == Shl(i, sh.height) + o
    ensures Shr(g, RequiredHeight(sh, i)) == Shl(i, sh.height - RequiredHeight(sh, i))
  {
    ShapeIsValid(leaves, sh, i);
    var r := RequiredHeight(sh, i);
    CeilLog2Least(|Subtree(leaves, sh.height, i)|, r);
    ShlSplit(i, sh.height - r, r, sh.height);
    ShrOfShl(Shl(i, sh.height - r), o, r);
  }

  lemma {:induction false} ShlSplit(i: nat, a: nat, b: nat, c: nat)
    requires c == a + b
    ensures Shl(i, c) == Shl(Shl(i, a), b)
  {
    if b > 0 {
      ShlSplit(i, a, b - 1, c - 1);
    }
  }

  /** The duplicate flags carry the final subtree's root to the common height. */
  lemma {:induction false} LiftClimb(sh: Shape, u: Path, k: nat)
    requires ValidShape(sh) && sh.height < |u| && LiftsStored(sh, u)
    requires sh.height - sh.lift <= k <= sh.height
    ensures ClimbTo(u, sh.height, sh.count, k, sh.height, Shl(sh.count - 1, sh.height - k))
    decreases sh.height - k
  {
    if k < sh.height {
      LiftClimb(sh, u, k + 1);
      ShiftHalves(sh.count - 1, sh.height, k + 1);
      LeftClimbStep(u, sh.height, sh.count, k, Shl(sh.count - 1, sh.height - (k + 1)));
    }
  }

  /** One more level below a climb, from a left child whose sibling is stored. */
  lemma LeftClimbStep(u: Path, h: nat, n: nat, k: nat, half: nat)
    requires k < h < |u| && Lookup(u[k], 2 * half + 1).Some? && ClimbTo(u, h, n, k + 1, h, half)
    ensures ClimbTo(u, h, n, k, h, 2 * half)
  {
    PaddingStep(u, h, n, k, 2 * half + 1);
  }

  /** Slot i of the subtree-root layer is stored, or some carried leaf climbs to it. */
  ghost predicate SlotServed(leaves: seq<Hash>, sh: Shape, u: Path, i: nat)
    requires PathOfBlock(leaves, sh, u)
  {
    Lookup(u[sh.height], i).Some? || exists part, o :: CarriesLeaf(leaves, sh, u, i, part, o)
  }

  lemma SlotFilled(leaves: seq<Hash>, sh: Shape, u: Path, i: nat)
    requires PathOfBlock(leaves, sh, u) && SlotServed(leaves, sh, u, i)
    ensures CompletedAt(u, sh.height, sh.count, sh.height, i).Some?
  {
    if Lookup(u[sh.height], i).Some? {
      PaddingStep(u, sh.height, sh.count, sh.height, i);
    } else {
      var part, o :| CarriesLeaf(leaves, sh, u, i, part, o);
      SlotFromLeaf(leaves, sh, u, i, part, o, Shl(i, sh.height) + o);
    }
  }

  lemma SlotFromLeaf(leaves: seq<Hash>, sh: Shape, u: Path, i: nat, part: Path, o: nat, g: nat)
    requires PathOfBlock(leaves, sh, u) && CarriesLeaf(leaves, sh, u, i, part, o) && g == Shl(i, sh.height) + o
    ensures CompletedAt(u, sh.height, sh.count, sh.height, i).Some?
  {
    ClimbToLayer(leaves, sh, u, i, part, o, g);
    PaddingStep(u, sh.height, sh.count, 0, g);
    ClimbFills(leaves, u, sh.height, sh.count, 0, sh.height, g);
  }

  /** A completed path of the block stores each carried leaf, under the slot of its subtree. */
  lemma CompletionStoresLeaf(leaves: seq<Hash>, sh: Shape, u: Path, path: Path, i: nat, part: Path, o: nat, g: nat)
    requires PathOfBlock(leaves, sh, u) && IsCompletion(path, u, sh.height, sh.count)
    requires CarriesLeaf(leaves, sh, u, i, part, o) && g == Shl(i, sh.height) + o
    ensures g < |leaves| && Shr(g, sh.height) == i
    ensures FindLeafByOffset(path, 0, g).Some? && FindLeafByOffset(path, 0, g).value.hash == Some(leaves[g])
  {
    ClimbToLayer(leaves, sh, u, i, part, o, g);
    CompletionAgrees(leaves, path, u, sh.height, sh.count);
    assert Lookup(path[0], g) == CompletedAt(u, sh.height, sh.count, 0, g);
    assert ElementAgrees(leaves, 0, Lookup(path[0], g).value);
  }

  /** A completed path of the block, every slot of it served, folds each carried leaf to the block's root. */
  lemma CompletionProvesLeaf(leaves: seq<Hash>, sh: Shape, u: Path, path: Path, i: nat, part: Path, o: nat, g: nat)
    requires PathOfBlock(leaves, sh, u) && IsCompletion(path, u, sh.height, sh.count)
    requires forall j: nat | j < sh.count :: SlotServed(leaves, sh, u, j)
    requires CarriesLeaf(leaves, sh, u, i, part, o) && g == Shl(i, sh.height) + o
    ensures g < |leaves|
    ensures FindLeafByOffset(path, 0, g).Some? && FindLeafByOffset(path, 0, g).value.hash == Some(leaves[g])
    ensures Fold(path, 0, g, leaves[g]) == Some(Root(leaves))
  {
    CompletionStoresLeaf(leaves, sh, u, path, i, part, o, g);
    ClimbToLayer(leaves, sh, u, i, part, o, g);
    ClimbToTop(leaves, sh, u, i, g);
    ClimbStored(path, u, sh.height, sh.count, 0, g);
    CompletionAgrees(leaves, path, u, sh.height, sh.count);
    BlockHeight(leaves, sh);
    FoldReachesRoot(leaves, path, g);
  }

  lemma ClimbToTop(leaves: seq<Hash>, sh: Shape, u: Path, i: nat, g: nat)
    requires PathOfBlock(leaves, sh, u) && i < sh.count && Shr(g, sh.height) == i
    requires forall j: nat | j < sh.count :: SlotServed(leaves, sh, u, j)
    requires ClimbTo(u, sh.height, sh.count, 0, sh.height, g)
    ensures ClimbTo(u, sh.height, sh.count, 0, |u|, g)
  {
    forall j: nat | j < sh.count
      ensures CompletedAt(u, sh.height, sh.count, sh.height, j).Some?
    {
      SlotFilled(leaves, sh, u, j);
    }
    BlockClimb(leaves, u, sh.height, sh.count, sh.height, i);
    ClimbAppend(u, sh.height, sh.count, 0, sh.height, |u|, g);
  }

  lemma BlockHeight(leaves: seq<Hash>, sh: Shape)
    requires leaves != [] && ShapeOfBlock(leaves, sh)
    ensures sh.height + CeilLog2(sh.count) == CeilLog2(|leaves|)
  {
    WidthAtHeight(|leaves|, sh.height);
    HeightOfLevel(|leaves|, sh.height);
  }
}
