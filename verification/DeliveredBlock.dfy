/**
 The compound carries every path placed in it and serves every slot of the subtree-root layer, so it folds each leaf a
 placed path climbs from to the block's root. The one exception, exactly, is a placed final subtree of a single leaf.
 */
module DeliveredBlock {
  import opened Prelude
  import opened MerkleTree
  import opened MerklePaths
  import opened FillHashes
  import opened Coverage
  import opened Merging
  import opened Compound
  import opened BlockProof
  import opened FinalSubtree

  // ----- the compound carries what was placed

  lemma LookupPresent(s: seq<PathElement>, e: PathElement)
    requires e in s
    ensures Lookup(s, e.offset).Some?
  {
    LookupNone(s, e.offset);
  }

  lemma ShiftedSlot(s: seq<PathElement>, shift: nat, o: nat) returns (e: PathElement)
    requires Lookup(s, o).Some?
    ensures e in Shifted(s, shift) && e.offset == shift + o
  {
    var j :| 0 <= j < |s| && s[j] == Lookup(s, o).value;
    e := Shifted(s, shift)[j];
  }

  lemma PlacedElement(sh: Shape, m: MergedStump, k: nat, o: nat, g: nat) returns (e: PathElement)
    requires ValidShape(sh) && k < RequiredHeight(sh, m.index) && k < |m.path|
    requires Lookup(m.path[k], o).Some? && g == Shl(m.index, sh.height - k) + o
    ensures e in StumpLevel(sh, m, k) && e.offset == g
  {
    e := ShiftedSlot(m.path[k], Shl(m.index, sh.height - k), o);
  }

  lemma PlacedSlot(hashes: seq<Hash>, sh: Shape, ms: seq<MergedStump>, m: MergedStump, k: nat, o: nat, g: nat)
    requires ValidShape(sh) && m in ms && k < RequiredHeight(sh, m.index) && k < |m.path|
    requires Lookup(m.path[k], o).Some? && g == Shl(m.index, sh.height - k) + o
    ensures Lookup(UnfilledLevel(hashes, sh, ms, k), g).Some?
  {
    var e := PlacedElement(sh, m, k, o, g);
    PlacedStays(hashes, sh, ms, m, k, e);
    LookupPresent(UnfilledLevel(hashes, sh, ms, k), e);
  }

  lemma PlacedStays(hashes: seq<Hash>, sh: Shape, ms: seq<MergedStump>, m: MergedStump, k: nat, e: PathElement)
    requires ValidShape(sh) && m in ms && e in StumpLevel(sh, m, k)
    ensures e in UnfilledLevel(hashes, sh, ms, k)
  {
    PlacedIncludes(sh, ms, m, k);
    assert e in PlacedLevel(sh, ms, k);
  }

  /** `u` has the levels of the unfilled compound. */
  ghost predicate IsUnfilled(u: Path, hashes: seq<Hash>, sh: Shape, ms: seq<MergedStump>)
    requires ValidShape(sh)
  {
    |u| == sh.height + CeilLog2(sh.count) && forall k | 0 <= k < |u| :: u[k] == UnfilledLevel(hashes, sh, ms, k)
  }

  lemma CompoundIncludes(hashes: seq<Hash>, sh: Shape, ms: seq<MergedStump>, u: Path, m: MergedStump, part: Path)
    requires ValidShape(sh) && IsUnfilled(u, hashes, sh, ms) && m in ms
    requires RequiredHeight(sh, m.index) <= |m.path| && part == m.path[..RequiredHeight(sh, m.index)]
    ensures Includes(u, part, sh.height, m.index)
  {
    forall k: nat, o: nat | k < |part|
      ensures SlotIncluded(u, part, sh.height, m.index, k, o)
    {
      if Lookup(part[k], o).Some? {
        PlacedSlot(hashes, sh, ms, m, k, o, Shl(m.index, sh.height - k) + o);
      }
    }
  }

  lemma CompoundLifts(hashes: seq<Hash>, sh: Shape, ms: seq<MergedStump>, u: Path)
    requires ValidShape(sh) && IsUnfilled(u, hashes, sh, ms) && sh.count - 1 in Indices(ms)
    ensures LiftsStored(sh, u)
  {
    forall k: nat | sh.height - sh.lift <= k < sh.height
      ensures Lookup(u[k], Shl(sh.count - 1, sh.height - k) + 1).Some?
    {
      LiftPresent(hashes, sh, ms, k, Shl(sh.count - 1, sh.height - k) + 1);
      assert u[k] == UnfilledLevel(hashes, sh, ms, k);
    }
  }

  lemma LiftPresent(hashes: seq<Hash>, sh: Shape, ms: seq<MergedStump>, k: nat, g: nat)
    requires ValidShape(sh) && sh.count - 1 in Indices(ms) && sh.height - sh.lift <= k < sh.height
    requires g == Shl(sh.count - 1, sh.height - k) + 1
    ensures Lookup(UnfilledLevel(hashes, sh, ms, k), g).Some?
  {
    var e := DuplicateAt(g);
    assert LiftLevel(sh, Indices(ms), k) == [e];
    LookupPresent(UnfilledLevel(hashes, sh, ms, k), e);
  }

  lemma CompoundIsPath(leaves: seq<Hash>, hashes: seq<Hash>, sh: Shape, ms: seq<MergedStump>, u: Path)
    requires BlockInput(leaves, hashes, sh, ms) && u == Unfilled(hashes, sh, ms)
    ensures PathOfBlock(leaves, sh, u) && WellFormed(u) && IsUnfilled(u, hashes, sh, ms)
  {
    CeilLog2Positive(sh.count);
    UnfilledFits(leaves, hashes, sh, ms, u);
  }

  lemma CompoundCarries(
    leaves: seq<Hash>, hashes: seq<Hash>, sh: Shape, ms: seq<MergedStump>, u: Path, m: MergedStump, part: Path, o: nat)
    requires PathOfBlock(leaves, sh, u) && IsUnfilled(u, hashes, sh, ms)
    requires m in ms && Fits(leaves, sh, m) && part == PlacedPart(sh, m) && LeafClimbs(part, o)
    ensures CarriesLeaf(leaves, sh, u, m.index, part, o)
  {
    CompoundIncludes(hashes, sh, ms, u, m, part);
    LiftsIfShort(hashes, sh, ms, u, m);
  }

  lemma LiftsIfShort(hashes: seq<Hash>, sh: Shape, ms: seq<MergedStump>, u: Path, m: MergedStump)
    requires ValidShape(sh) && IsUnfilled(u, hashes, sh, ms) && m in ms
    ensures RequiredHeight(sh, m.index) < sh.height ==> LiftsStored(sh, u)
  {
    if RequiredHeight(sh, m.index) < sh.height {
      assert m.index == sh.count - 1 && m.index in Indices(ms);
      CompoundLifts(hashes, sh, ms, u);
    }
  }

  /** Every placed path of a subtree that has levels climbs from at least one leaf. */
  ghost predicate EachClimbs(leaves: seq<Hash>, sh: Shape, ms: seq<MergedStump>)
    requires ShapeOfBlock(leaves, sh)
  {
    forall m | m in ms ::
      Fits(leaves, sh, m) && (RequiredHeight(sh, m.index) > 0 ==> exists o: nat :: LeafClimbs(PlacedPart(sh, m), o))
  }

  lemma CompoundServes(leaves: seq<Hash>, hashes: seq<Hash>, sh: Shape, ms: seq<MergedStump>, u: Path, i: nat)
    requires PathOfBlock(leaves, sh, u) && IsUnfilled(u, hashes, sh, ms) && SubtreeRoots(leaves, sh.height, hashes)
    requires EachClimbs(leaves, sh, ms) && i < sh.count && (i in Indices(ms) ==> RequiredHeight(sh, i) > 0)
    ensures SlotServed(leaves, sh, u, i)
  {
    if i in Indices(ms) {
      var m :| m in ms && m.index == i;
      var part := PlacedPart(sh, m);
      var o: nat :| LeafClimbs(part, o);
      CompoundCarries(leaves, hashes, sh, ms, u, m, part, o);
    } else {
      LayerFits(leaves, hashes, sh, ms, sh.height);
      var e :| e in UnfilledLevel(hashes, sh, ms, sh.height) && e.offset == i;
      LookupPresent(u[sh.height], e);
    }
  }

  /**
   Every leaf a placed path climbs from is stored in the compound, and folds there to the block's root exactly when no
   path was placed for a one-leaf final subtree; otherwise it does not fold at all.
   */
  lemma CompoundProvesLeaf(
    leaves: seq<Hash>, hashes: seq<Hash>, sh: Shape, ms: seq<MergedStump>, path: Path, m: MergedStump, o: nat, g: nat)
    requires BlockInput(leaves, hashes, sh, ms) && EachClimbs(leaves, sh, ms)
    requires WellFormed(Unfilled(hashes, sh, ms)) ==> IsCompletion(path, Unfilled(hashes, sh, ms), sh.height, sh.count)
    requires m in ms && LeafClimbs(PlacedPart(sh, m), o) && g == Shl(m.index, sh.height) + o
    ensures g < |leaves|
    ensures FindLeafByOffset(path, 0, g).Some? && FindLeafByOffset(path, 0, g).value.hash == Some(leaves[g])
    ensures Fold(path, 0, g, leaves[g]) == if FinalLeafPlaced(sh, ms) then None else Some(Root(leaves))
  {
    var u := Unfilled(hashes, sh, ms);
    CompoundIsPath(leaves, hashes, sh, ms, u);
    CompoundCarries(leaves, hashes, sh, ms, u, m, PlacedPart(sh, m), o);
    CompletionStoresLeaf(leaves, sh, u, path, m.index, PlacedPart(sh, m), o, g);
    if FinalLeafPlaced(sh, ms) {
      OthersUnproved(leaves, hashes, sh, ms, path, g, leaves[g]);
    } else {
      EverySlotServed(leaves, hashes, sh, ms, u);
      CompletionProvesLeaf(leaves, sh, u, path, m.index, PlacedPart(sh, m), o, g);
    }
  }

  lemma EverySlotServed(leaves: seq<Hash>, hashes: seq<Hash>, sh: Shape, ms: seq<MergedStump>, u: Path)
    requires PathOfBlock(leaves, sh, u) && IsUnfilled(u, hashes, sh, ms) && SubtreeRoots(leaves, sh.height, hashes)
    requires EachClimbs(leaves, sh, ms) && !FinalLeafPlaced(sh, ms) && sh.height > 0
    ensures forall i: nat | i < sh.count :: SlotServed(leaves, sh, u, i)
  {
    forall i: nat | i < sh.count
      ensures SlotServed(leaves, sh, u, i)
    {
      CompoundServes(leaves, hashes, sh, ms, u, i);
    }
  }
}
