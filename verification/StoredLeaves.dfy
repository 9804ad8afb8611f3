/**
 Which leaves the compound stores: those of the variants the filter keeps, no more and no fewer. A tracked leaf carried
 only by a variant that is dropped is lost; EightLeafBlock builds a block where one is.
 */
module StoredLeaves {
  import opened Prelude
  import opened MerkleTree
  import opened MerklePaths
  import opened FillHashes
  import opened Coinbase
  import opened Variants
  import opened Merging
  import opened VariantFilter
  import opened Compound
  import opened BuildCompound
  import opened BlockProof
  import opened DeliveredBlock
  import opened HeaderProof
  import opened DeliveredStumps

  // ----- the compound of agreeing STUMPs, whatever they store

  /** The merge of agreeing variants, corrected, fits the block. */
  lemma AgreeingFits(
    leaves: seq<Hash>, sh: Shape, placeholder: Hash, cx: Context, stumps: seq<Stump>, m: MergedStump)
    requires BlockKnown(leaves, sh, cx) && AllAgree(leaves, sh, placeholder, cx.coinbase, stumps)
    requires IsMergeOf(m.path, VariantsOf(stumps, m.index)) && VariantsOf(stumps, m.index) != []
    requires RequiredHeight(sh, m.index) <= |m.path|
    ensures Fits(leaves, sh, CorrectedStump(cx, m))
  {
    var vs, r := VariantsOf(stumps, m.index), RequiredHeight(sh, m.index);
    VariantAgrees(leaves, sh, placeholder, cx.coinbase, stumps, m.index, vs[0]);
    var delivered := DeliveredLeaves(leaves, sh.height, m.index, placeholder, cx.coinbase);
    forall v | v in vs
      ensures AgreesBelow(delivered, v, r) && (m.index == 0 && cx.coinbase.Some? ==> MarksOnLeaves([v]))
    {
      VariantAgrees(leaves, sh, placeholder, cx.coinbase, stumps, m.index, v);
    }
    MergeAgrees(delivered, m.path, vs, r);
    if m.index == 0 && cx.coinbase.Some? && r > 0 {
      MarksTogether(vs);
      MergedMarks(m.path, vs, r);
      SwappedFits(leaves, sh, placeholder, cx.coinbase.value, m.path, r);
    }
  }

  lemma SwappedFits(leaves: seq<Hash>, sh: Shape, placeholder: Hash, cb: Path, p: Path, r: nat)
    requires leaves != [] && ShapeOfBlock(leaves, sh) && ValidShape(sh) && sh.height > 0 && CoinbaseOf(leaves, cb)
    requires r == RequiredHeight(sh, 0) && 0 < r <= |p| && WellFormed(p[..r])
    requires Agrees(DeliveredLeaves(leaves, sh.height, 0, placeholder, Some(cb)), p[..r])
    requires forall k, e | 0 < k < r && e in p[k] && e.offset == 0 :: !e.tracked
    ensures var q := Corrected(p, leaves[0], Some(cb))[..r]; WellFormed(q) && Agrees(Subtree(leaves, sh.height, 0), q)
  {
    var local := Subtree(leaves, sh.height, 0);
    ShapeIsValid(leaves, sh, 0);
    SpineOfBlock(leaves, sh, cb, r);
    CorrectionAgrees(local, placeholder, p[..r], cb);
    CorrectedPrefix(p, local[0], cb, r);
  }

  /** All parts of a merged delivery of agreeing STUMPs that is tall enough fit. */
  lemma AllAgreeingFit(
    leaves: seq<Hash>, sh: Shape, placeholder: Hash, cx: Context, stumps: seq<Stump>, merged: seq<MergedStump>)
    requires BlockKnown(leaves, sh, cx) && AllAgree(leaves, sh, placeholder, cx.coinbase, stumps)
    requires IsMergedDelivery(stumps, merged) && TallEnough(sh, merged)
    ensures AllFit(leaves, sh, CorrectedStumps(cx, merged))
  {
    var parts := CorrectedStumps(cx, merged);
    forall part | part in parts
      ensures Fits(leaves, sh, part)
    {
      var j :| 0 <= j < |parts| && parts[j] == part;
      assert merged[j] in merged;
      AgreeingFits(leaves, sh, placeholder, cx, stumps, merged[j]);
    }
  }

  // ----- the compound's leaves

  /** Each placed element comes from one of the paths. */
  lemma {:induction false} PlacedFrom(sh: Shape, ms: seq<MergedStump>, k: nat, e: PathElement) returns (j: nat)
    requires ValidShape(sh) && e in PlacedLevel(sh, ms, k)
    ensures j < |ms| && e in StumpLevel(sh, ms[j], k)
  {
    var n := |ms| - 1;
    if e in StumpLevel(sh, ms[n], k) {
      j := n;
    } else {
      j := PlacedFrom(sh, ms[..n], k, e);
    }
  }

  /** Offset o of a subtree's level 0 lies under the subtree's slot. */
  lemma LeafInSlot(h: nat, i: nat, o: nat, g: nat)
    requires o < Shl(1, h) && g == Shl(i, h) + o
    ensures InSlot(h, i, 0, g)
  {
  }

  /** The path of subtree i is there, with leaf o. */
  predicate PlacesLeaf(m: MergedStump, i: nat, o: nat)
  {
    m.index == i && |m.path| > 0 && Lookup(m.path[0], o).Some?
  }

  lemma LeafOfStump(sh: Shape, m: MergedStump, o: nat, g: nat, e: PathElement)
    requires ValidShape(sh) && e in StumpLevel(sh, m, 0) && e.offset == g == Shl(m.index, sh.height) + o
    ensures PlacesLeaf(m, m.index, o)
  {
    assert StumpLevel(sh, m, 0) == Shifted(m.path[0], Shl(m.index, sh.height));
    UnshiftedSlot(m.path[0], Shl(m.index, sh.height), o, e);
  }

  /** A shifted element stood at its offset before the shift. */
  lemma UnshiftedSlot(s: seq<PathElement>, shift: nat, o: nat, e: PathElement)
    requires e in Shifted(s, shift) && e.offset == shift + o
    ensures Lookup(s, o).Some?
  {
    var x := UnshiftedAt(s, shift, e);
    assert s[x].offset == o;
    LookupPresent(s, s[x]);
  }

  lemma UnshiftedAt(s: seq<PathElement>, shift: nat, e: PathElement) returns (x: nat)
    requires e in Shifted(s, shift)
    ensures x < |s| && e == s[x].(offset := s[x].offset + shift)
  {
    var moved := Shifted(s, shift);
    x :| x < |moved| && moved[x] == e;
  }

  lemma PlacedUnderSlot(leaves: seq<Hash>, sh: Shape, m: MergedStump, i: nat, g: nat, e: PathElement)
    requires ShapeOfBlock(leaves, sh) && Fits(leaves, sh, m) && e in StumpLevel(sh, m, 0) && e.offset == g
    requires InSlot(sh.height, i, 0, g)
    ensures m.index == i
  {
    StumpLevelFits(leaves, sh, m, 0);
    SlotsApart(sh.height, i, m.index, 0, g);
  }

  /** A stored element under slot i, of a subtree that has levels, was placed for subtree i. */
  lemma LeafPlacedFor(
    leaves: seq<Hash>, hashes: seq<Hash>, sh: Shape, ms: seq<MergedStump>, i: nat, o: nat, g: nat, e: PathElement)
    returns (m: MergedStump)
    requires BlockInput(leaves, hashes, sh, ms) && sh.height > 0 && RequiredHeight(sh, i) > 0
    requires o < Shl(1, sh.height) && g == Shl(i, sh.height) + o
    requires e in UnfilledLevel(hashes, sh, ms, 0) && e.offset == g
    ensures m in ms && PlacesLeaf(m, i, o)
  {
    LeafInSlot(sh.height, i, o, g);
    NotALift(leaves, hashes, sh, ms, i, g, e);
    var j := PlacedFrom(sh, ms, 0, e);
    m := ms[j];
    PlacedUnderSlot(leaves, sh, m, i, g, e);
    LeafOfStump(sh, m, o, g, e);
  }

  lemma NotALift(leaves: seq<Hash>, hashes: seq<Hash>, sh: Shape, ms: seq<MergedStump>, i: nat, g: nat, e: PathElement)
    requires BlockInput(leaves, hashes, sh, ms) && sh.height > 0 && RequiredHeight(sh, i) > 0
    requires InSlot(sh.height, i, 0, g) && e in UnfilledLevel(hashes, sh, ms, 0) && e.offset == g
    ensures e in PlacedLevel(sh, ms, 0)
  {
    if e !in PlacedLevel(sh, ms, 0) {
      assert e in LiftLevel(sh, Indices(ms), 0);
      LiftAgrees(leaves, sh, 0);
      SlotsApart(sh.height, i, sh.count - 1, 0, g);
    }
  }

  lemma LowestLevel(path: Path, u: Path, h: nat, n: nat, g: nat)
    requires IsCompletion(path, u, h, n) && 0 < h && 0 < |u|
    ensures Lookup(path[0], g) == Lookup(u[0], g)
  {
    assert Lookup(path[0], g) == CompletedAt(u, h, n, 0, g);
  }

  /** The compound stores leaf o of subtree i exactly when the path placed for subtree i does. */
  lemma LeafStoredIfPlaced(
    leaves: seq<Hash>, hashes: seq<Hash>, sh: Shape, ms: seq<MergedStump>, path: Path, i: nat, o: nat, g: nat)
    requires BlockInput(leaves, hashes, sh, ms) && IsCompletion(path, Unfilled(hashes, sh, ms), sh.height, sh.count)
    requires sh.height > 0 && RequiredHeight(sh, i) > 0 && o < Shl(1, sh.height) && g == Shl(i, sh.height) + o
    ensures FindLeafByOffset(path, 0, g).Some? <==> exists m :: m in ms && PlacesLeaf(m, i, o)
  {
    LowestLevel(path, Unfilled(hashes, sh, ms), sh.height, sh.count, g);
    UnfilledLeaf(leaves, hashes, sh, ms, i, o, g);
  }

  lemma UnfilledLeaf(
    leaves: seq<Hash>, hashes: seq<Hash>, sh: Shape, ms: seq<MergedStump>, i: nat, o: nat, g: nat)
    requires BlockInput(leaves, hashes, sh, ms)
    requires sh.height > 0 && RequiredHeight(sh, i) > 0 && o < Shl(1, sh.height) && g == Shl(i, sh.height) + o
    ensures Lookup(UnfilledLevel(hashes, sh, ms, 0), g).Some? <==> exists m :: m in ms && PlacesLeaf(m, i, o)
  {
    var level := UnfilledLevel(hashes, sh, ms, 0);
    if m :| m in ms && PlacesLeaf(m, i, o) {
      PlacedLeaf(hashes, sh, ms, m, o, g);
    }
    if Lookup(level, g).Some? {
      var m := LeafPlacedFor(leaves, hashes, sh, ms, i, o, g, Lookup(level, g).value);
    }
  }

  lemma PlacedLeaf(hashes: seq<Hash>, sh: Shape, ms: seq<MergedStump>, m: MergedStump, o: nat, g: nat)
    requires ValidShape(sh) && m in ms && PlacesLeaf(m, m.index, o) && RequiredHeight(sh, m.index) > 0
    requires g == Shl(m.index, sh.height) + o
    ensures Lookup(UnfilledLevel(hashes, sh, ms, 0), g).Some?
  {
    PlacedSlot(hashes, sh, ms, m, 0, o, g);
  }

  // ----- back to what was delivered

  /** The correction swaps leaf 0's hash and touches no other leaf. */
  lemma CorrectionKeepsLeaves(cx: Context, m: MergedStump, i: nat, o: nat)
    requires DistinctLevels(m.path)
    ensures PlacesLeaf(CorrectedStump(cx, m), i, o) <==> PlacesLeaf(m, i, o)
  {
    if |m.path| > 0 && m.index == 0 && cx.coinbaseTxid.Some? {
      CorrectedSlot(m.path, cx.coinbaseTxid.value, cx.coinbase, 0, o);
    }
  }

  /** A STUMP of subtree i that carries leaf o. */
  predicate DeliversLeaf(st: Stump, i: nat, o: nat)
  {
    st.subtreeIndex == i && st.data.Some? && FindLeafByOffset(st.data.value, 0, o).Some?
  }

  lemma MergeHasLeaf(kept: seq<Stump>, m: MergedStump, o: nat)
    requires IsMergeOf(m.path, VariantsOf(kept, m.index)) && Consistent(VariantsOf(kept, m.index))
    ensures PlacesLeaf(m, m.index, o) <==> exists st :: st in kept && DeliversLeaf(st, m.index, o)
  {
    var vs := VariantsOf(kept, m.index);
    assert FindLeafByOffset(m.path, 0, o) == FoldSlot(vs, 0, o);
    if st :| st in kept && DeliversLeaf(st, m.index, o) {
      VariantOf(kept, st);
      FoldCharacterized(vs, 0, o, st.data.value);
    }
    if FoldSlot(vs, 0, o).Some? {
      var v := FoldSlotFrom(vs, 0, o);
      VariantFrom(kept, m.index, v);
      assert DeliversLeaf(Stump(m.index, Some(v)), m.index, o);
    }
  }

  /** The parts of a merged delivery place exactly the leaves the kept STUMPs deliver. */
  lemma PartsHaveLeaf(cx: Context, kept: seq<Stump>, merged: seq<MergedStump>, i: nat, o: nat)
    requires Mergeable(kept) && IsMergedDelivery(kept, merged)
    ensures (exists m :: m in CorrectedStumps(cx, merged) && PlacesLeaf(m, i, o)) <==>
            exists st :: st in kept && DeliversLeaf(st, i, o)
  {
    if st :| st in kept && DeliversLeaf(st, i, o) {
      var m := PartOfStump(cx, kept, merged, st, i, o);
    }
    if part :| part in CorrectedStumps(cx, merged) && PlacesLeaf(part, i, o) {
      var st := StumpOfPart(cx, kept, merged, part, i, o);
    }
  }

  lemma PartOfStump(cx: Context, kept: seq<Stump>, merged: seq<MergedStump>, st: Stump, i: nat, o: nat)
    returns (part: MergedStump)
    requires Mergeable(kept) && IsMergedDelivery(kept, merged) && st in kept && DeliversLeaf(st, i, o)
    ensures part in CorrectedStumps(cx, merged) && PlacesLeaf(part, i, o)
  {
    VariantOf(kept, st);
    var m :| m in merged && m.index == i;
    MergeHasLeaf(kept, m, o);
    CorrectionKeepsLeaves(cx, m, i, o);
    var j :| 0 <= j < |merged| && merged[j] == m;
    part := CorrectedStumps(cx, merged)[j];
  }

  lemma StumpOfPart(cx: Context, kept: seq<Stump>, merged: seq<MergedStump>, part: MergedStump, i: nat, o: nat)
    returns (st: Stump)
    requires Mergeable(kept) && IsMergedDelivery(kept, merged)
    requires part in CorrectedStumps(cx, merged) && PlacesLeaf(part, i, o)
    ensures st in kept && DeliversLeaf(st, i, o)
  {
    var j :| 0 <= j < |merged| && CorrectedStumps(cx, merged)[j] == part;
    var m := merged[j];
    assert m in merged && IsMergeOf(m.path, VariantsOf(kept, m.index));
    CorrectionKeepsLeaves(cx, m, i, o);
    MergeHasLeaf(kept, m, o);
    st :| st in kept && DeliversLeaf(st, i, o);
  }

  /** What the compound of a merged delivery stores. */
  lemma KeptLeafStored(
    leaves: seq<Hash>, sh: Shape, placeholder: Hash, cx: Context, kept: seq<Stump>, merged: seq<MergedStump>, path: Path,
    i: nat, o: nat, g: nat)
    requires BlockKnown(leaves, sh, cx) && AllAgree(leaves, sh, placeholder, cx.coinbase, kept)
    requires Mergeable(kept) && IsMergedDelivery(kept, merged) && TallEnough(sh, merged) && IsCompound(path, cx, sh, merged)
    requires RequiredHeight(sh, i) > 0 && o < Shl(1, sh.height) && g == Shl(i, sh.height) + o
    ensures FindLeafByOffset(path, 0, g).Some? <==> exists st :: st in kept && DeliversLeaf(st, i, o)
  {
    var parts := CorrectedStumps(cx, merged);
    AllAgreeingFit(leaves, sh, placeholder, cx, kept, merged);
    UnfilledFits(leaves, cx.subtreeHashes, sh, parts, Unfilled(cx.subtreeHashes, sh, parts));
    LeafStoredIfPlaced(leaves, cx.subtreeHashes, sh, parts, path, i, o, g);
    PartsHaveLeaf(cx, kept, merged, i, o);
  }

  /**
   THE COMPOUND'S LEAVES. From STUMPs that agree with the block, however incomplete, the path that is built stores a leaf
   of a subtree exactly when some STUMP that carries it is kept.
   */
  lemma LeafStoredExactly(
    leaves: seq<Hash>, h: nat, placeholder: Hash, stumps: seq<Stump>, hashes: seq<Hash>, coinbase: Option<Path>,
    header: Option<Hash>, r: BuildResult, lift: nat, merged: seq<MergedStump>, cx: Context, i: nat, o: nat, g: nat)
    requires BlockDelivery(leaves, h, stumps, hashes, coinbase, header) && ValidShape(BlockShape(leaves, h))
    requires IsBuild(r, stumps, CorrectedHashes(hashes, coinbase), coinbase, header, lift, merged) && r.Built?
    requires AllAgree(leaves, BlockShape(leaves, h), placeholder, coinbase, stumps)
    requires cx == ContextFor(CorrectedHashes(hashes, coinbase), coinbase, BlockShape(leaves, h))
    requires RequiredHeight(BlockShape(leaves, h), i) > 0 && o < Shl(1, h) && g == Shl(i, h) + o
    ensures FindLeafByOffset(r.path, 0, g).Some? <==>
            exists st :: st in stumps && DeliversLeaf(st, i, o) && Keeps(cx, stumps, st)
  {
    var sh, kept := BlockShape(leaves, h), Kept(cx, stumps, stumps);
    BuildMeasures(leaves, h, stumps, hashes, coinbase, header, r, lift, merged);
    RootsCorrected(leaves, h, hashes, coinbase);
    KeptMembers(cx, stumps, stumps);
    KeptLeafStored(leaves, sh, placeholder, cx, kept, merged, r.path, i, o, g);
  }
}
