/** BuildCompoundBUMP: from everything delivered for a block to its compound path. */
module BuildCompound {
  import opened Prelude
  import opened MerkleTree
  import opened MerklePaths
  import opened FillHashes
  import opened Coinbase
  import opened Merging
  import opened VariantFilter
  import opened Compound

  /** The delivered subtree roots, slot 0 replaced by the root over the real coinbase when that can be derived. */
  function CorrectedHashes(hashes: seq<Hash>, coinbase: Option<Path>): (r: seq<Hash>)
    ensures |r| == |hashes|
  {
    var root := Subtree0Root(coinbase, |hashes|);
    if |hashes| > 0 && root.Some? then hashes[0 := root.value] else hashes
  }

  /** The coinbase path is as tall as the block, so it settles the internal height; else the first STUMP does. */
  function InternalHeight(first: Path, coinbase: Option<Path>, count: nat): nat
  {
    var layer := CeilLog2(count);
    if coinbase.Some? && |coinbase.value| > layer then |coinbase.value| - layer else |first|
  }

  function TxidsOfAll(ms: seq<MergedStump>): seq<Hash>
  {
    if ms == [] then [] else TxidsOfAll(ms[..|ms| - 1]) + ms[|ms| - 1].txids
  }

  predicate TallEnough(sh: Shape, ms: seq<MergedStump>)
    requires ValidShape(sh)
  {
    forall m | m in ms :: RequiredHeight(sh, m.index) <= |m.path|
  }

  /** The compound of a block with the given measures and merged paths. */
  ghost predicate IsCompound(path: Path, cx: Context, sh: Shape, ms: seq<MergedStump>)
    requires ValidShape(sh)
  {
    var u := Unfilled(cx.subtreeHashes, sh, CorrectedStumps(cx, ms));
    |path| == |u| && (WellFormed(u) ==> IsCompletion(path, u, sh.height, sh.count))
  }

  /** What a build over at least two subtrees returns, for the lift it derived and the variants it merged. */
  ghost predicate IsBuild(
    r: BuildResult, stumps: seq<Stump>, hashes: seq<Hash>, coinbase: Option<Path>, header: Option<Hash>,
    lift: nat, merged: seq<MergedStump>)
    requires |hashes| >= 2 && stumps != []
  {
    if stumps[0].data.None? then
      r == NotBuilt(Unparseable(stumps[0].subtreeIndex))
    else
      var sh := Shape(InternalHeight(stumps[0].data.value, coinbase, |hashes|), |hashes|, lift);
      && IsDerivedLift(hashes, sh.height, header, lift) && ValidShape(sh)
      && IsBuildWith(r, stumps, ContextFor(hashes, coinbase, sh), sh, merged)
  }

  ghost predicate IsBuildWith(r: BuildResult, stumps: seq<Stump>, cx: Context, sh: Shape, merged: seq<MergedStump>)
    requires ValidShape(sh)
  {
    var kept := Kept(cx, stumps, stumps);
    && (Mergeable(kept) ==> IsMergedDelivery(kept, merged))
    && (r.Built? <==> Mergeable(kept) && TallEnough(sh, merged))
    && (r.Built? ==> r.txids == TxidsOfAll(merged) && IsCompound(r.path, cx, sh, merged))
    && (r.NotBuilt? ==> IsBuildError(r.error, kept, sh, merged))
  }

  /** The j-th merged path is the first that is too short for its subtree. */
  predicate ShortAt(sh: Shape, ms: seq<MergedStump>, j: nat, index: nat)
    requires ValidShape(sh)
  {
    && j < |ms| && ms[j].index == index && |ms[j].path| < RequiredHeight(sh, index)
    && TallEnough(sh, ms[..j])
  }

  /** Why a build over several subtrees fails: the first STUMP that cannot be merged, or the first path too short to place. */
  ghost predicate IsBuildError(e: BuildError, kept: seq<Stump>, sh: Shape, merged: seq<MergedStump>)
    requires ValidShape(sh)
  {
    match e
    case Unparseable(index) => MergeFails(kept, index, true)
    case Disagreement(index) => MergeFails(kept, index, false)
    case TooShort(index) => Mergeable(kept) && exists j: nat :: ShortAt(sh, merged, j, index)
    case _ => false
  }

  /** Why a build over at most one subtree fails. */
  ghost predicate IsSingleError(e: BuildError, stumps: seq<Stump>, hashes: seq<Hash>, merged: seq<MergedStump>)
  {
    match e
    case Unparseable(index) => MergeFails(stumps, index, true)
    case Disagreement(index) => MergeFails(stumps, index, false)
    case BadIndex(index) => Mergeable(stumps) && merged != [] && merged[0].index == index && index >= |hashes|
    case _ => false
  }

  /** What a build over at most one subtree returns. */
  ghost predicate IsSingleBuild(
    r: BuildResult, stumps: seq<Stump>, hashes: seq<Hash>, coinbase: Option<Path>, merged: seq<MergedStump>)
    requires |hashes| <= 1 && stumps != []
  {
    && (Mergeable(stumps) ==> IsMergedDelivery(stumps, merged) && merged != [])
    && (r.Built? <==> Mergeable(stumps) && merged[0].index < |hashes|)
    && (r.Built? ==> r.txids == merged[0].txids && IsSinglePath(r.path, merged[0].path, merged[0].index, coinbase))
    && (r.NotBuilt? ==> IsSingleError(r.error, stumps, hashes, merged))
  }

  method BuildCompoundBump(
    stumps: seq<Stump>, subtreeHashes: array<Hash>, coinbase: Option<Path>, headerMerkleRoot: Option<Hash>)
    returns (r: BuildResult, ghost lift: nat, ghost merged: seq<MergedStump>)
    modifies subtreeHashes
    ensures stumps == [] ==> r == NotBuilt(NoStumps) && subtreeHashes[..] == old(subtreeHashes[..])
    ensures stumps != [] ==> subtreeHashes[..] == CorrectedHashes(old(subtreeHashes[..]), coinbase)
    ensures DeliveredDistinct(stumps) && stumps != [] && subtreeHashes.Length >= 2 ==>
              IsBuild(r, stumps, subtreeHashes[..], coinbase, headerMerkleRoot, lift, merged)
    ensures DeliveredDistinct(stumps) && stumps != [] && subtreeHashes.Length <= 1 ==>
              IsSingleBuild(r, stumps, subtreeHashes[..], coinbase, merged)
  {
    lift, merged := 0, [];
    if |stumps| == 0 {
      return NotBuilt(NoStumps), lift, merged;
    }
    if ExtractCoinbaseTxid(coinbase).Some? && subtreeHashes.Length > 0 {
      var root := CorrectedSubtree0Root(coinbase, subtreeHashes.Length);
      if root.Some? {
        subtreeHashes[0] := root.value;
      }
    }
    assert subtreeHashes[..] == CorrectedHashes(old(subtreeHashes[..]), coinbase);
    if subtreeHashes.Length <= 1 {
      r, merged := BuildSingle(stumps, subtreeHashes[..], coinbase);
      return r, lift, merged;
    }
    if stumps[0].data == None {
      return NotBuilt(Unparseable(stumps[0].subtreeIndex)), lift, merged;
    }
    var hashes := subtreeHashes[..];
    var internalHeight := InternalHeight(stumps[0].data.value, coinbase, |hashes|);
    var liftLevels := DeriveFinalSubtreeLift(hashes, internalHeight, headerMerkleRoot);
    lift := liftLevels;
    var sh := Shape(internalHeight, |hashes|, liftLevels);
    r, merged := BuildWith(stumps, ContextFor(hashes, coinbase, sh), sh);
  }

  method BuildSingle(stumps: seq<Stump>, hashes: seq<Hash>, coinbase: Option<Path>)
    returns (r: BuildResult, ghost merged: seq<MergedStump>)
    requires |hashes| <= 1 && stumps != []
    ensures DeliveredDistinct(stumps) ==> IsSingleBuild(r, stumps, hashes, coinbase, merged)
  {
    var m := MergeStumpVariants(stumps);
    if m.ParseError? {
      return NotBuilt(Unparseable(m.index)), [];
    }
    if m.VariantsDisagree? {
      return NotBuilt(Disagreement(m.index)), [];
    }
    merged := m.stumps;
    var first := m.stumps[0];
    var full := AssembleFullPath(Some(first.path), first.index, hashes, coinbase);
    if full.NotAssembled? {
      return NotBuilt(full.error), merged;
    }
    return Built(full.path, first.txids), merged;
  }

  method BuildWith(stumps: seq<Stump>, cx: Context, sh: Shape) returns (r: BuildResult, ghost merged: seq<MergedStump>)
    requires ValidShape(sh)
    ensures DeliveredDistinct(stumps) ==> IsBuildWith(r, stumps, cx, sh, merged)
  {
    var kept := DropVariantsOffSubtreeRoot(cx, stumps);
    KeptMembers(cx, stumps, stumps);
    var m := MergeStumpVariants(kept);
    if m.ParseError? {
      return NotBuilt(Unparseable(m.index)), [];
    }
    if m.VariantsDisagree? {
      return NotBuilt(Disagreement(m.index)), [];
    }
    merged := m.stumps;
    CeilLog2Positive(sh.count);
    var compound := new MerklePath(seq(sh.height + CeilLog2(sh.count), _ => []));
    var ok, index, txids := PlaceAll(compound, cx, sh, m.stumps);
    if !ok {
      return NotBuilt(TooShort(index)), merged;
    }
    var have := set s | s in m.stumps :: s.index;
    FinishCompound(compound, cx, sh, m.stumps, have);
    return Built(compound.path, txids), merged;
  }

  /** Places every merged path; stops at the first that is too short for its subtree. */
  method PlaceAll(compound: MerklePath, cx: Context, sh: Shape, ms: seq<MergedStump>)
    returns (ok: bool, index: nat, txids: seq<Hash>)
    requires ValidShape(sh) && sh.height <= |compound.path|
    requires forall k | 0 <= k < |compound.path| :: compound.path[k] == []
    modifies compound
    ensures ok <==> TallEnough(sh, ms)
    ensures !ok ==> exists j: nat :: ShortAt(sh, ms, j, index)
    ensures ok ==> txids == TxidsOfAll(ms)
    ensures ok ==> |compound.path| == |old(compound.path)|
    ensures ok ==> forall k | 0 <= k < |compound.path| :: compound.path[k] == PlacedLevel(sh, CorrectedStumps(cx, ms), k)
  {
    ghost var levels := |compound.path|;
    index, txids := 0, [];
    for i := 0 to |ms|
      invariant |compound.path| == levels
      invariant TallEnough(sh, ms[..i]) && txids == TxidsOfAll(ms[..i])
      invariant forall k | 0 <= k < levels :: compound.path[k] == PlacedLevel(sh, CorrectedStumps(cx, ms[..i]), k)
    {
      var m := ms[i];
      assert ms[..i + 1][..i] == ms[..i] && ms[..i + 1][i] == m;
      if |m.path| < RequiredHeight(sh, m.index) {
        assert m in ms && ShortAt(sh, ms, i, m.index);
        return false, m.index, txids;
      }
      PlaceStump(compound, cx, sh, m);
      txids := txids + m.txids;
    }
    assert ms[..|ms|] == ms;
    ok := true;
  }

  /** Lifts, seeds and completes. */
  method FinishCompound(compound: MerklePath, cx: Context, sh: Shape, ghost ms: seq<MergedStump>, have: set<nat>)
    requires ValidShape(sh) && |compound.path| == sh.height + CeilLog2(sh.count) && sh.height < |compound.path|
    requires have == Indices(ms)
    requires forall k | 0 <= k < |compound.path| :: compound.path[k] == PlacedLevel(sh, CorrectedStumps(cx, ms), k)
    modifies compound
    ensures IsCompound(compound.path, cx, sh, ms)
  {
    PlaceLift(compound, sh, have);
    SeedRoots(compound, sh, cx.subtreeHashes, have);
    ghost var parts := CorrectedStumps(cx, ms);
    SameIndices(cx, ms);
    ghost var u := Unfilled(cx.subtreeHashes, sh, parts);
    forall k | 0 <= k < |u|
      ensures compound.path[k] == u[k]
    {
      assert UnfilledLevel(cx.subtreeHashes, sh, parts, k) == u[k];
      assert k != sh.height ==> PlacedLevel(sh, parts, k) + LiftLevel(sh, have, k) + [] == u[k];
    }
    assert compound.path == u;
    ComputeAndPadCompound(compound, sh.height, sh.count);
  }

  lemma SameIndices(cx: Context, ms: seq<MergedStump>)
    ensures Indices(CorrectedStumps(cx, ms)) == Indices(ms)
  {
    var parts := CorrectedStumps(cx, ms);
    forall i | i in Indices(ms)
      ensures i in Indices(parts)
    {
      var m :| m in ms && m.index == i;
      var j :| 0 <= j < |ms| && ms[j] == m;
      assert parts[j] in parts && parts[j].index == i;
    }
  }
}
