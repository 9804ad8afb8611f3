/**
 BuildCompoundBUMP, end to end: for a block's header, subtree roots, coinbase path and STUMP variants, every delivered
 climb folds to the header's Merkle root in the compound it returns.
 */
module HeaderProof {
  import opened Prelude
  import opened MerkleTree
  import opened MerklePaths
  import opened Coverage
  import opened Coinbase
  import opened Variants
  import opened Merging
  import opened VariantFilter
  import opened Compound
  import opened BuildCompound
  import opened BlockProof
  import opened FinalSubtree
  import opened DeliveredBlock

  // ----- the subtree roots and the lift

  /** The roots as delivered: subtree 0's is over the coinbase placeholder, so anything may stand there. */
  ghost predicate DeliveredRoots(leaves: seq<Hash>, h: nat, hashes: seq<Hash>, coinbase: Option<Path>)
  {
    && |hashes| == Width(|leaves|, h)
    && forall i | 0 <= i < |hashes| && (i > 0 || coinbase.None?) ::
         Subtree(leaves, h, i) != [] && hashes[i] == Root(Subtree(leaves, h, i))
  }

  /** The coinbase path: as tall as the block, along its spine, from the real coinbase. */
  ghost predicate CoinbaseOf(leaves: seq<Hash>, cb: Path)
  {
    && leaves != [] && |cb| == CeilLog2(|leaves|)
    && FollowsSpine(leaves, cb, |cb|)
    && ExtractCoinbaseTxid(Some(cb)) == Some(leaves[0])
  }

  /** Folding the coinbase path up to the subtree-root layer gives subtree 0's root. */
  lemma Root0FromCoinbase(leaves: seq<Hash>, h: nat, cb: Path, count: nat)
    requires CoinbaseOf(leaves, cb) && h > 0 && count == Width(|leaves|, h) && count >= 2
    ensures Subtree0Root(Some(cb), count) == Some(Node(leaves, h, 0))
  {
    HeightSplits(|leaves|, h);
    assert FollowsSpine(leaves, cb, h);
    SpineFoldIsTree(leaves, cb, h, 0, leaves[0]);
    assert Subtree0Root(Some(cb), count) == SpineFold(cb, leaves[0], 0, h);
  }

  lemma HeightSplits(n: nat, h: nat)
    requires Width(n, h) >= 2
    ensures n >= 1 && CeilLog2(n) == h + CeilLog2(Width(n, h)) && CeilLog2(Width(n, h)) > 0
  {
    WidthAtHeight(n, h);
    HeightOfLevel(n, h);
  }

  lemma RootsCorrected(leaves: seq<Hash>, h: nat, hashes: seq<Hash>, coinbase: Option<Path>)
    requires DeliveredRoots(leaves, h, hashes, coinbase) && |hashes| >= 2 && h > 0
    requires coinbase.Some? ==> CoinbaseOf(leaves, coinbase.value)
    ensures SubtreeRoots(leaves, h, CorrectedHashes(hashes, coinbase))
  {
    SubtreeRootLayer(leaves, h, 0);
    if coinbase.Some? {
      Root0FromCoinbase(leaves, h, coinbase.value, |hashes|);
    } else {
      assert Subtree0Root(coinbase, |hashes|) == None;
    }
  }

  /** No lift below the block's own also reproduces the header; without a header, the block is unlifted. */
  ghost predicate HeaderDecides(leaves: seq<Hash>, h: nat, hashes: seq<Hash>, header: Option<Hash>)
    requires |hashes| == Width(|leaves|, h) && |hashes| >= 2
  {
    var lift := LiftOf(leaves, h, |hashes| - 1);
    if header.None? then lift == 0
    else leaves != [] && header.value == Root(leaves) && forall k: nat | k < lift :: !Reproduces(hashes, h, header, k)
  }

  /** The derived lift is the block's. */
  lemma LiftDerived(leaves: seq<Hash>, h: nat, hashes: seq<Hash>, header: Option<Hash>, lift: nat)
    requires SubtreeRoots(leaves, h, hashes) && |hashes| >= 2 && HeaderDecides(leaves, h, hashes, header)
    requires IsDerivedLift(hashes, h, header, lift)
    ensures lift == LiftOf(leaves, h, |hashes| - 1)
  {
    if header.Some? {
      TrueLiftReproduces(leaves, h, hashes);
    }
  }

  // ----- one subtree

  /** The leaves subtree i was delivered over. */
  function DeliveredLeaves(leaves: seq<Hash>, h: nat, i: nat, placeholder: Hash, coinbase: Option<Path>): seq<Hash>
    requires i < Width(|leaves|, h)
  {
    var local := Subtree(leaves, h, i);
    if i == 0 && coinbase.Some? && local != [] then local[0 := placeholder] else local
  }

  /** The variant climbs from its leaf o over the subtree's r levels. */
  ghost predicate VariantClimbs(v: Path, r: nat, o: nat)
  {
    r <= |v| && LeafClimbs(v[..r], o)
  }

  /** No variant marks a spine node above the leaves. */
  ghost predicate MarksOnLeaves(vs: seq<Path>)
  {
    forall v: Path, k: nat, e: PathElement | v in vs && 0 < k < |v| && e in v[k] && e.offset == 0 :: !e.tracked
  }

  /**
   The variants of one subtree: all agree, over its r levels, with the leaves they were delivered over, and some variant
   climbs from a leaf. Where the coinbase is to be swapped in, marks stand only on leaves, and if any variant carries
   leaf 0 then some variant climbs from it.
   */
  ghost predicate SubtreeWell(local: seq<Hash>, vs: seq<Path>, r: nat, swapped: bool)
  {
    && (forall v | v in vs :: AgreesBelow(local, v, r))
    && (exists v, o: nat | v in vs :: VariantClimbs(v, r, o))
    && (swapped ==> MarksOnLeaves(vs))
    && (swapped ==> (exists v | v in vs :: Clears(v)) ==> exists v | v in vs :: VariantClimbs(v, r, 0))
  }

  /** The merged path carries every climb one of its variants had. */
  lemma MergedClimbs(local: seq<Hash>, m: Path, vs: seq<Path>, v: Path, r: nat, o: nat)
    requires IsMergeOf(m, vs) && Consistent(vs) && v in vs && r <= |v| <= |m|
    requires forall u | u in vs :: AgreesBelow(local, u, r)
    requires 1 <= |local| <= Shl(1, r) && LeafClimbs(v[..r], o)
    ensures LeafClimbs(m[..r], o)
  {
    MergeKeepsClimb(local, m, vs, v, r, o);
    FoldCharacterized(vs, 0, o, v);
    assert FindLeafByOffset(m, 0, o) == FoldSlot(vs, 0, o);
  }

  /** Correcting a prefix is the prefix of the corrected path. */
  lemma CorrectedPrefix(p: Path, txid: Hash, cb: Path, r: nat)
    requires 0 < r <= |p|
    ensures Corrected(p, txid, Some(cb))[..r] == Corrected(p[..r], txid, Some(cb))
  {
    forall k | 0 <= k < r
      ensures CorrectedLevel(p, txid, Some(cb), k) == CorrectedLevel(p[..r], txid, Some(cb), k)
    {
    }
  }

  /** Subtree 0's leaf and climbs survive the correction when a path that carries leaf 0 also climbs from it. */
  lemma CorrectedClimbs(local: seq<Hash>, placeholder: Hash, p: Path, cb: Path, o: nat)
    requires Correctable(local, placeholder, p, cb) && LeafClimbs(p, o)
    requires Clears(p) ==> ClimbTo(p, |p|, 0, 0, |p|, 0)
    ensures LeafClimbs(Corrected(p, local[0], Some(cb)), o)
  {
    ClimbAfterCorrection(local, placeholder, p, cb, 0, o);
    if Clears(p) {
      SpineClimbServes(p, 0, o);
    }
    CorrectedSlot(p, local[0], Some(cb), 0, o);
  }

  /**
   Recomputation included, a leaf climbs after the correction exactly when it climbed as delivered and, if the path carries
   leaf 0, leaf 0 did too.
   */
  lemma CorrectedClimbsExactly(local: seq<Hash>, placeholder: Hash, p: Path, cb: Path, o: nat)
    requires Correctable(local, placeholder, p, cb) && o < |local| <= Shl(1, |p|) && |p| > 0
    ensures LeafClimbs(Corrected(p, local[0], Some(cb)), o) <==>
            LeafClimbs(p, o) && (Clears(p) ==> LeafClimbs(p, 0))
  {
    var q := Corrected(p, local[0], Some(cb));
    if LeafClimbs(q, o) {
      CorrectedSlot(p, local[0], Some(cb), 0, o);
      assert ElementAgrees(local[0 := placeholder], 0, Lookup(p[0], o).value);
      CorrectedClimbsNoMore(local, placeholder, p, cb, q, o);
      if Clears(p) {
        assert ElementAgrees(local[0 := placeholder], 0, Lookup(p[0], 0).value);
        SurvivorOpensSpine(local, placeholder, p, cb, q, 0, o);
        OpenSpineClimbs(p, 0);
      }
    }
    if LeafClimbs(p, o) && (Clears(p) ==> LeafClimbs(p, 0)) {
      CorrectedClimbs(local, placeholder, p, cb, o);
    }
  }

  /** The coinbase path's spine is subtree 0's own below the subtree-root layer. */
  lemma SpineOfSubtree0(leaves: seq<Hash>, h: nat, cb: Path, k: nat)
    requires CoinbaseOf(leaves, cb) && k < h <= |cb|
    ensures var local := Subtree(leaves, h, 0);
            local != [] && local[0] == leaves[0] && SpineAt(cb, local[0], k) == SpineNode(local, k)
  {
    var local := Subtree(leaves, h, 0);
    WidthPositive(|leaves|, h);
    SubtreeUnder(leaves, h, 0);
    ShlPositive(h);
    ShlPositive(h - k);
    WidthPositive(|local|, k);
    assert local[0] == leaves[Shl(0, h) + 0];
    NodeUnder(local, leaves, h, 0, k, 0, 0);
    SpineIsTree(leaves, cb, |cb|, k);
  }

  /** What merging gives, before correction. */
  lemma MergedWell(local: seq<Hash>, m: Path, vs: seq<Path>, r: nat, swapped: bool)
    requires SubtreeWell(local, vs, r, swapped) && IsMergeOf(m, vs) && Consistent(vs)
    requires 1 <= |local| <= Shl(1, r)
    ensures r <= |m| && WellFormed(m[..r]) && Agrees(local, m[..r])
    ensures forall v, o: nat | v in vs && VariantClimbs(v, r, o) :: LeafClimbs(m[..r], o)
  {
    var v, o: nat :| v in vs && VariantClimbs(v, r, o);
    assert |v| <= |m|;
    MergeAgrees(local, m, vs, r);
    forall v, o: nat | v in vs && VariantClimbs(v, r, o)
      ensures LeafClimbs(m[..r], o)
    {
      MergedClimbs(local, m, vs, v, r, o);
    }
  }

  /** A merged spine node is tracked only if some variant's is. */
  lemma MergedMarks(m: Path, vs: seq<Path>, r: nat)
    requires IsMergeOf(m, vs) && r <= |m|
    requires MarksOnLeaves(vs)
    ensures forall k, e | 0 < k < r && e in m[k] && e.offset == 0 :: !e.tracked
  {
    forall k, e | 0 < k < r && e in m[k] && e.offset == 0
      ensures !e.tracked
    {
      LookupMember(m[k], e);
      assert FindLeafByOffset(m, k, 0) == FoldSlot(vs, k, 0);
      if e.tracked {
        var _ := FoldTrackedFrom(vs, k, 0);
      }
    }
  }

  /** The merged path of subtree 0 can be corrected, and its climbs survive. */
  lemma MergedCorrectable(local: seq<Hash>, placeholder: Hash, m: Path, vs: seq<Path>, r: nat, cb: Path)
    requires local != [] && SubtreeWell(local[0 := placeholder], vs, r, true) && IsMergeOf(m, vs) && Consistent(vs)
    requires 1 <= |local| <= Shl(1, r) && 0 < r <= |cb|
    requires forall k: nat | k < r :: SpineAt(cb, local[0], k) == SpineNode(local, k)
    ensures r <= |m| && Correctable(local, placeholder, m[..r], cb)
    ensures Clears(m[..r]) ==> ClimbTo(m[..r], r, 0, 0, r, 0)
  {
    var delivered := local[0 := placeholder];
    MergedWell(delivered, m, vs, r, true);
    MergedMarks(m, vs, r);
    if Clears(m[..r]) {
      assert FindLeafByOffset(m, 0, 0) == FoldSlot(vs, 0, 0);
      var v := FoldSlotFrom(vs, 0, 0);
      assert Clears(v);
      var w :| w in vs && VariantClimbs(w, r, 0);
      assert LeafClimbs(m[..r], 0);
    }
  }

  /** The placed path of subtree 0: corrected, it agrees with the real subtree and keeps every delivered climb. */
  lemma SwappedPart(local: seq<Hash>, placeholder: Hash, m: Path, vs: seq<Path>, r: nat, cb: Path)
    requires local != [] && SubtreeWell(local[0 := placeholder], vs, r, true) && IsMergeOf(m, vs) && Consistent(vs)
    requires 1 <= |local| <= Shl(1, r) && 0 < r <= |cb|
    requires forall k: nat | k < r :: SpineAt(cb, local[0], k) == SpineNode(local, k)
    ensures r <= |m|
    ensures var part := Corrected(m, local[0], Some(cb))[..r];
            && WellFormed(part) && Agrees(local, part)
            && forall v, o: nat | v in vs && VariantClimbs(v, r, o) :: LeafClimbs(part, o)
  {
    MergedCorrectable(local, placeholder, m, vs, r, cb);
    CorrectedPrefix(m, local[0], cb, r);
    CorrectionAgrees(local, placeholder, m[..r], cb);
    MergedWell(local[0 := placeholder], m, vs, r, true);
    forall v, o: nat | v in vs && VariantClimbs(v, r, o)
      ensures LeafClimbs(Corrected(m[..r], local[0], Some(cb)), o)
    {
      CorrectedClimbs(local, placeholder, m[..r], cb, o);
    }
  }

  // ----- all subtrees

  /** Everything kept of the delivery is well delivered for its subtree, if that has levels to deliver. */
  ghost predicate DeliveredWell(leaves: seq<Hash>, sh: Shape, placeholder: Hash, coinbase: Option<Path>, kept: seq<Stump>)
    requires ValidShape(sh) && sh.count == Width(|leaves|, sh.height)
  {
    && (forall i: nat | VariantsOf(kept, i) != [] :: i < sh.count)
    && forall i: nat | i < sh.count && VariantsOf(kept, i) != [] && RequiredHeight(sh, i) > 0 ::
         SubtreeWell(DeliveredLeaves(leaves, sh.height, i, placeholder, coinbase), VariantsOf(kept, i),
                     RequiredHeight(sh, i), i == 0 && coinbase.Some?)
  }

  /** The coinbase path covers subtree 0's levels, along its spine. */
  lemma SpineOfBlock(leaves: seq<Hash>, sh: Shape, cb: Path, r: nat)
    requires leaves != [] && ShapeOfBlock(leaves, sh) && ValidShape(sh) && CoinbaseOf(leaves, cb) && 0 < r <= sh.height
    ensures var local := Subtree(leaves, sh.height, 0);
            && local != [] && local[0] == leaves[0] && r <= |cb|
            && forall k: nat | k < r :: SpineAt(cb, local[0], k) == SpineNode(local, k)
  {
    var local := Subtree(leaves, sh.height, 0);
    BlockHeight(leaves, sh);
    SpineOfSubtree0(leaves, sh.height, cb, 0);
    forall k: nat | k < r
      ensures SpineAt(cb, local[0], k) == SpineNode(local, k)
    {
      SpineOfSubtree0(leaves, sh.height, cb, k);
    }
  }

  /** The placed path of any subtree fits the block and keeps every delivered climb. */
  lemma PartWell(
    leaves: seq<Hash>, sh: Shape, placeholder: Hash, coinbase: Option<Path>, cx: Context, vs: seq<Path>, m: MergedStump)
    requires leaves != [] && ShapeOfBlock(leaves, sh) && ValidShape(sh) && sh.height > 0 && m.index < sh.count
    requires coinbase.Some? ==> CoinbaseOf(leaves, coinbase.value)
    requires cx.coinbase == coinbase && cx.coinbaseTxid == ExtractCoinbaseTxid(coinbase)
    requires RequiredHeight(sh, m.index) > 0 ==>
               SubtreeWell(DeliveredLeaves(leaves, sh.height, m.index, placeholder, coinbase), vs,
                           RequiredHeight(sh, m.index), m.index == 0 && coinbase.Some?)
    requires IsMergeOf(m.path, vs) && Consistent(vs)
    ensures var part := CorrectedStump(cx, m);
            && Fits(leaves, sh, part) && part.index == m.index
            && forall v, o: nat | v in vs && VariantClimbs(v, RequiredHeight(sh, m.index), o) :: LeafClimbs(PlacedPart(sh, part), o)
  {
    var local, r := Subtree(leaves, sh.height, m.index), RequiredHeight(sh, m.index);
    ShapeIsValid(leaves, sh, m.index);
    CeilLog2Least(|local|, r);
    if r == 0 {
      assert CorrectedStump(cx, m).path[..0] == [];
    } else if m.index == 0 && coinbase.Some? {
      SpineOfBlock(leaves, sh, coinbase.value, r);
      SwappedPart(local, placeholder, m.path, vs, r, coinbase.value);
    } else {
      MergedWell(local, m.path, vs, r, false);
    }
  }

  /** The merged delivery, corrected, fits the block, and each of its paths climbs from a leaf. */
  lemma PartsFit(
    leaves: seq<Hash>, sh: Shape, placeholder: Hash, coinbase: Option<Path>, cx: Context, kept: seq<Stump>,
    merged: seq<MergedStump>)
    requires leaves != [] && ShapeOfBlock(leaves, sh) && ValidShape(sh) && sh.height > 0
    requires coinbase.Some? ==> CoinbaseOf(leaves, coinbase.value)
    requires cx.coinbase == coinbase && cx.coinbaseTxid == ExtractCoinbaseTxid(coinbase)
    requires DeliveredWell(leaves, sh, placeholder, coinbase, kept)
    requires Mergeable(kept) && IsMergedDelivery(kept, merged)
    ensures AllFit(leaves, sh, CorrectedStumps(cx, merged)) && EachClimbs(leaves, sh, CorrectedStumps(cx, merged))
  {
    var parts := CorrectedStumps(cx, merged);
    forall part | part in parts
      ensures Fits(leaves, sh, part)
      ensures RequiredHeight(sh, part.index) > 0 ==> exists o: nat :: LeafClimbs(PlacedPart(sh, part), o)
    {
      var j :| 0 <= j < |parts| && parts[j] == part;
      var m := merged[j];
      assert m in merged && part == CorrectedStump(cx, m);
      PartOfDelivery(leaves, sh, placeholder, coinbase, cx, kept, merged, m);
      if RequiredHeight(sh, m.index) > 0 {
        var vs := VariantsOf(kept, m.index);
        var v, o: nat :| v in vs && VariantClimbs(v, RequiredHeight(sh, m.index), o);
        assert LeafClimbs(PlacedPart(sh, part), o);
      }
    }
  }

  lemma PartOfDelivery(
    leaves: seq<Hash>, sh: Shape, placeholder: Hash, coinbase: Option<Path>, cx: Context, kept: seq<Stump>,
    merged: seq<MergedStump>, m: MergedStump)
    requires leaves != [] && ShapeOfBlock(leaves, sh) && ValidShape(sh) && sh.height > 0
    requires coinbase.Some? ==> CoinbaseOf(leaves, coinbase.value)
    requires cx.coinbase == coinbase && cx.coinbaseTxid == ExtractCoinbaseTxid(coinbase)
    requires DeliveredWell(leaves, sh, placeholder, coinbase, kept)
    requires Mergeable(kept) && IsMergedDelivery(kept, merged) && m in merged
    ensures var part, vs := CorrectedStump(cx, m), VariantsOf(kept, m.index);
            && m.index < sh.count && Fits(leaves, sh, part) && part.index == m.index
            && (RequiredHeight(sh, m.index) > 0 ==>
                  exists v, o: nat | v in vs :: VariantClimbs(v, RequiredHeight(sh, m.index), o))
            && forall v, o: nat | v in vs && VariantClimbs(v, RequiredHeight(sh, m.index), o) :: LeafClimbs(PlacedPart(sh, part), o)
  {
    var vs := VariantsOf(kept, m.index);
    assert vs != [] && IsMergeOf(m.path, vs) && Consistent(vs);
    PartWell(leaves, sh, placeholder, coinbase, cx, vs, m);
  }

  /** A block and everything delivered for it, as BuildCompoundBUMP receives it. */
  ghost predicate BlockDelivery(
    leaves: seq<Hash>, h: nat, stumps: seq<Stump>, hashes: seq<Hash>, coinbase: Option<Path>, header: Option<Hash>)
  {
    && leaves != [] && h > 0 && |hashes| >= 2 && stumps != [] && stumps[0].data.Some?
    && DeliveredRoots(leaves, h, hashes, coinbase)
    && (coinbase.Some? ==> CoinbaseOf(leaves, coinbase.value))
    && (coinbase.None? ==> |stumps[0].data.value| == h)
    && HeaderDecides(leaves, h, CorrectedHashes(hashes, coinbase), header)
  }

  function BlockShape(leaves: seq<Hash>, h: nat): Shape
    requires Width(|leaves|, h) >= 2
  {
    Shape(h, Width(|leaves|, h), LiftOf(leaves, h, Width(|leaves|, h) - 1))
  }

  lemma MeasuredHeight(leaves: seq<Hash>, h: nat, first: Path, coinbase: Option<Path>)
    requires leaves != [] && h > 0 && Width(|leaves|, h) >= 2
    requires coinbase.Some? ==> |coinbase.value| == CeilLog2(|leaves|)
    requires coinbase.None? ==> |first| == h
    ensures ShapeOfBlock(leaves, BlockShape(leaves, h)) && ValidShape(BlockShape(leaves, h))
    ensures InternalHeight(first, coinbase, Width(|leaves|, h)) == h
  {
    var sh := BlockShape(leaves, h);
    BlockHeight(leaves, sh);
    ShapeIsValid(leaves, sh, 0);
  }

  /** The build works out the block's own measures. */
  lemma BuildMeasures(
    leaves: seq<Hash>, h: nat, stumps: seq<Stump>, hashes: seq<Hash>, coinbase: Option<Path>, header: Option<Hash>,
    r: BuildResult, lift: nat, merged: seq<MergedStump>)
    requires BlockDelivery(leaves, h, stumps, hashes, coinbase, header)
    requires IsBuild(r, stumps, CorrectedHashes(hashes, coinbase), coinbase, header, lift, merged)
    ensures var sh := BlockShape(leaves, h);
            && ShapeOfBlock(leaves, sh) && ValidShape(sh)
            && IsBuildWith(r, stumps, ContextFor(CorrectedHashes(hashes, coinbase), coinbase, sh), sh, merged)
  {
    var corrected, first := CorrectedHashes(hashes, coinbase), stumps[0].data.value;
    var sh := Shape(InternalHeight(first, coinbase, |corrected|), |corrected|, lift);
    BuildWithShape(r, stumps, corrected, coinbase, header, lift, merged, sh);
    ShapeFound(leaves, h, stumps, hashes, coinbase, header, sh);
  }

  /** The height the coinbase path or the first STUMP gives, and the derived lift, are the block's. */
  lemma ShapeFound(
    leaves: seq<Hash>, h: nat, stumps: seq<Stump>, hashes: seq<Hash>, coinbase: Option<Path>, header: Option<Hash>, sh: Shape)
    requires BlockDelivery(leaves, h, stumps, hashes, coinbase, header)
    requires sh.height == InternalHeight(stumps[0].data.value, coinbase, |hashes|) && sh.count == |hashes|
    requires IsDerivedLift(CorrectedHashes(hashes, coinbase), sh.height, header, sh.lift)
    ensures sh == BlockShape(leaves, h) && ShapeOfBlock(leaves, sh) && ValidShape(sh)
  {
    HeightFound(leaves, h, stumps, hashes, coinbase, header);
    LiftFound(leaves, h, hashes, coinbase, header, sh.lift);
    ShapeMeasured(leaves, h, sh);
  }

  lemma ShapeMeasured(leaves: seq<Hash>, h: nat, sh: Shape)
    requires Width(|leaves|, h) >= 2 && sh.height == h && sh.count == Width(|leaves|, h)
    requires sh.lift == LiftOf(leaves, h, sh.count - 1)
    ensures sh == BlockShape(leaves, h)
  {
  }

  lemma HeightFound(
    leaves: seq<Hash>, h: nat, stumps: seq<Stump>, hashes: seq<Hash>, coinbase: Option<Path>, header: Option<Hash>)
    requires BlockDelivery(leaves, h, stumps, hashes, coinbase, header)
    ensures ShapeOfBlock(leaves, BlockShape(leaves, h)) && ValidShape(BlockShape(leaves, h))
    ensures InternalHeight(stumps[0].data.value, coinbase, |hashes|) == h
  {
    MeasuredHeight(leaves, h, stumps[0].data.value, coinbase);
  }

  lemma BuildWithShape(
    r: BuildResult, stumps: seq<Stump>, hashes: seq<Hash>, coinbase: Option<Path>, header: Option<Hash>, lift: nat,
    merged: seq<MergedStump>, sh: Shape)
    requires |hashes| >= 2 && stumps != [] && stumps[0].data.Some?
    requires IsBuild(r, stumps, hashes, coinbase, header, lift, merged)
    requires sh == Shape(InternalHeight(stumps[0].data.value, coinbase, |hashes|), |hashes|, lift)
    ensures ValidShape(sh) && IsDerivedLift(hashes, sh.height, header, lift)
    ensures IsBuildWith(r, stumps, ContextFor(hashes, coinbase, sh), sh, merged)
  {
  }

  /** The lift derived from the corrected roots is the block's. */
  lemma LiftFound(leaves: seq<Hash>, h: nat, hashes: seq<Hash>, coinbase: Option<Path>, header: Option<Hash>, lift: nat)
    requires DeliveredRoots(leaves, h, hashes, coinbase) && |hashes| >= 2 && h > 0
    requires coinbase.Some? ==> CoinbaseOf(leaves, coinbase.value)
    requires HeaderDecides(leaves, h, CorrectedHashes(hashes, coinbase), header)
    requires IsDerivedLift(CorrectedHashes(hashes, coinbase), h, header, lift)
    ensures lift == LiftOf(leaves, h, |hashes| - 1)
  {
    RootsCorrected(leaves, h, hashes, coinbase);
    LiftDerived(leaves, h, CorrectedHashes(hashes, coinbase), header, lift);
  }

  /** A delivery whose kept variants are well delivered and do not disagree is built. */
  lemma BuildSucceeds(
    leaves: seq<Hash>, h: nat, placeholder: Hash, stumps: seq<Stump>, hashes: seq<Hash>, coinbase: Option<Path>,
    header: Option<Hash>, r: BuildResult, lift: nat, merged: seq<MergedStump>)
    requires BlockDelivery(leaves, h, stumps, hashes, coinbase, header)
    requires IsBuild(r, stumps, CorrectedHashes(hashes, coinbase), coinbase, header, lift, merged)
    requires ValidShape(BlockShape(leaves, h))
    requires var sh := BlockShape(leaves, h);
             var kept := Kept(ContextFor(CorrectedHashes(hashes, coinbase), coinbase, sh), stumps, stumps);
             DeliveredWell(leaves, sh, placeholder, coinbase, kept) && Mergeable(kept)
    ensures r.Built?
  {
    var sh := BlockShape(leaves, h);
    var cx := ContextFor(CorrectedHashes(hashes, coinbase), coinbase, sh);
    BuildMeasures(leaves, h, stumps, hashes, coinbase, header, r, lift, merged);
    forall m | m in merged
      ensures RequiredHeight(sh, m.index) <= |m.path|
    {
      PartOfDelivery(leaves, sh, placeholder, coinbase, cx, Kept(cx, stumps, stumps), merged, m);
    }
  }

  /** A STUMP was kept for a final subtree of a single leaf. */
  predicate FinalLeafDelivered(sh: Shape, kept: seq<Stump>)
    requires ValidShape(sh)
  {
    sh.lift == sh.height && VariantsOf(kept, sh.count - 1) != []
  }

  lemma FinalLeafMerged(sh: Shape, cx: Context, kept: seq<Stump>, merged: seq<MergedStump>, parts: seq<MergedStump>)
    requires ValidShape(sh) && parts == CorrectedStumps(cx, merged)
    requires VariantsOf(kept, sh.count - 1) != [] <==> exists m :: m in merged && m.index == sh.count - 1
    ensures FinalLeafPlaced(sh, parts) <==> FinalLeafDelivered(sh, kept)
  {
    MergedIndex(cx, merged, sh.count - 1);
  }

  lemma MergedIndex(cx: Context, merged: seq<MergedStump>, i: nat)
    ensures i in Indices(CorrectedStumps(cx, merged)) <==> exists m :: m in merged && m.index == i
  {
    SameIndices(cx, merged);
  }

  /** The same of the compound of a merged delivery. */
  lemma KeptProvesLeaf(
    leaves: seq<Hash>, sh: Shape, placeholder: Hash, cx: Context, kept: seq<Stump>, merged: seq<MergedStump>, path: Path,
    i: nat, v: Path, o: nat, g: nat)
    requires leaves != [] && ShapeOfBlock(leaves, sh) && ValidShape(sh) && sh.height > 0
    requires SubtreeRoots(leaves, sh.height, cx.subtreeHashes) && cx.coinbaseTxid == ExtractCoinbaseTxid(cx.coinbase)
    requires cx.coinbase.Some? ==> CoinbaseOf(leaves, cx.coinbase.value)
    requires DeliveredWell(leaves, sh, placeholder, cx.coinbase, kept)
    requires Mergeable(kept) && IsMergedDelivery(kept, merged) && IsCompound(path, cx, sh, merged)
    requires v in VariantsOf(kept, i) && VariantClimbs(v, RequiredHeight(sh, i), o) && g == Shl(i, sh.height) + o
    ensures g < |leaves|
    ensures FindLeafByOffset(path, 0, g).Some? && FindLeafByOffset(path, 0, g).value.hash == Some(leaves[g])
    ensures Fold(path, 0, g, leaves[g]) == if FinalLeafDelivered(sh, kept) then None else Some(Root(leaves))
  {
    PartsFit(leaves, sh, placeholder, cx.coinbase, cx, kept, merged);
    var m :| m in merged && m.index == i;
    PartOfDelivery(leaves, sh, placeholder, cx.coinbase, cx, kept, merged, m);
    var j :| 0 <= j < |merged| && merged[j] == m;
    var parts := CorrectedStumps(cx, merged);
    assert parts[j] in parts && parts[j] == CorrectedStump(cx, m);
    CompoundProvesLeaf(leaves, cx.subtreeHashes, sh, parts, path, parts[j], o, g);
    FinalLeafMerged(sh, cx, kept, merged, parts);
  }

  /**
   THE COMPOUND PROVES THE BLOCK. In the path BuildCompoundBUMP returns for a delivered block, every leaf from which a
   kept variant climbs its subtree is stored, and folds to the block's Merkle root exactly when no STUMP was delivered
   for a one-leaf final subtree; otherwise it does not fold at all.
   */
  lemma BuildProvesLeaf(
    leaves: seq<Hash>, h: nat, placeholder: Hash, stumps: seq<Stump>, hashes: seq<Hash>, coinbase: Option<Path>,
    header: Option<Hash>, r: BuildResult, lift: nat, merged: seq<MergedStump>, i: nat, v: Path, o: nat, g: nat)
    requires BlockDelivery(leaves, h, stumps, hashes, coinbase, header)
    requires IsBuild(r, stumps, CorrectedHashes(hashes, coinbase), coinbase, header, lift, merged) && r.Built?
    requires ValidShape(BlockShape(leaves, h))
    requires var sh := BlockShape(leaves, h);
             var kept := Kept(ContextFor(CorrectedHashes(hashes, coinbase), coinbase, sh), stumps, stumps);
             && DeliveredWell(leaves, sh, placeholder, coinbase, kept)
             && v in VariantsOf(kept, i) && VariantClimbs(v, RequiredHeight(sh, i), o)
    requires g == Shl(i, h) + o
    ensures g < |leaves|
    ensures FindLeafByOffset(r.path, 0, g).Some? && FindLeafByOffset(r.path, 0, g).value.hash == Some(leaves[g])
    ensures var sh := BlockShape(leaves, h);
            var kept := Kept(ContextFor(CorrectedHashes(hashes, coinbase), coinbase, sh), stumps, stumps);
            Fold(r.path, 0, g, leaves[g]) == if FinalLeafDelivered(sh, kept) then None else Some(Root(leaves))
  {
    var sh, corrected := BlockShape(leaves, h), CorrectedHashes(hashes, coinbase);
    var cx := ContextFor(corrected, coinbase, sh);
    BuildMeasures(leaves, h, stumps, hashes, coinbase, header, r, lift, merged);
    RootsCorrected(leaves, h, hashes, coinbase);
    KeptProvesLeaf(leaves, sh, placeholder, cx, Kept(cx, stumps, stumps), merged, r.path, i, v, o, g);
  }

  lemma KeptProvesNothing(
    leaves: seq<Hash>, sh: Shape, placeholder: Hash, cx: Context, kept: seq<Stump>, merged: seq<MergedStump>, path: Path,
    txid: Hash)
    requires leaves != [] && ShapeOfBlock(leaves, sh) && ValidShape(sh) && sh.height > 0
    requires SubtreeRoots(leaves, sh.height, cx.subtreeHashes) && cx.coinbaseTxid == ExtractCoinbaseTxid(cx.coinbase)
    requires cx.coinbase.Some? ==> CoinbaseOf(leaves, cx.coinbase.value)
    requires DeliveredWell(leaves, sh, placeholder, cx.coinbase, kept)
    requires Mergeable(kept) && IsMergedDelivery(kept, merged) && IsCompound(path, cx, sh, merged)
    requires FinalLeafDelivered(sh, kept)
    ensures ComputeRoot(path, txid) == None
  {
    var parts := CorrectedStumps(cx, merged);
    PartsFit(leaves, sh, placeholder, cx.coinbase, cx, kept, merged);
    FinalLeafMerged(sh, cx, kept, merged, parts);
    UnfilledFits(leaves, cx.subtreeHashes, sh, parts, Unfilled(cx.subtreeHashes, sh, parts));
    NothingProved(leaves, cx.subtreeHashes, sh, parts, path, txid);
  }

  /** Once a STUMP is delivered for a one-leaf final subtree, the compound that is built proves no transaction at all. */
  lemma BuildProvesNothing(
    leaves: seq<Hash>, h: nat, placeholder: Hash, stumps: seq<Stump>, hashes: seq<Hash>, coinbase: Option<Path>,
    header: Option<Hash>, r: BuildResult, lift: nat, merged: seq<MergedStump>, txid: Hash)
    requires BlockDelivery(leaves, h, stumps, hashes, coinbase, header)
    requires IsBuild(r, stumps, CorrectedHashes(hashes, coinbase), coinbase, header, lift, merged) && r.Built?
    requires ValidShape(BlockShape(leaves, h))
    requires var sh := BlockShape(leaves, h);
             var kept := Kept(ContextFor(CorrectedHashes(hashes, coinbase), coinbase, sh), stumps, stumps);
             DeliveredWell(leaves, sh, placeholder, coinbase, kept) && FinalLeafDelivered(sh, kept)
    ensures ComputeRoot(r.path, txid) == None
  {
    var sh, corrected := BlockShape(leaves, h), CorrectedHashes(hashes, coinbase);
    var cx := ContextFor(corrected, coinbase, sh);
    BuildMeasures(leaves, h, stumps, hashes, coinbase, header, r, lift, merged);
    RootsCorrected(leaves, h, hashes, coinbase);
    KeptProvesNothing(leaves, sh, placeholder, cx, Kept(cx, stumps, stumps), merged, r.path, txid);
  }
}
