/** BuildCompoundBUMP for a block of one subtree, end to end. */
module SingleProof {
  import opened Prelude
  import opened MerkleTree
  import opened MerklePaths
  import opened FillHashes
  import opened Coverage
  import opened Coinbase
  import opened SingleSubtree
  import opened Variants
  import opened Merging
  import opened Compound
  import opened BuildCompound
  import opened BlockProof
  import opened HeaderProof

  lemma {:induction false} TallestIs(vs: seq<Path>, v: Path)
    requires v in vs && forall u | u in vs :: |u| <= |v|
    ensures Tallest(vs) == |v|
  {
    var most, last := vs[..|vs| - 1], vs[|vs| - 1];
    assert vs == most + [last];
    if v in most {
      TallestIs(most, v);
    } else {
      TallestBound(most, |v|);
    }
  }

  lemma {:induction false} TallestBound(vs: seq<Path>, h: nat)
    requires forall u | u in vs :: |u| <= h
    ensures Tallest(vs) <= h
  {
    if vs != [] {
      TallestBound(vs[..|vs| - 1], h);
    }
  }

  /** Below its own height, subtree 0's nodes are the block's. */
  lemma LeftmostAgrees(leaves: seq<Hash>, h: nat, p: Path)
    requires 0 < Width(|leaves|, h) && |p| <= h && Agrees(Subtree(leaves, h, 0), p)
    ensures Agrees(leaves, p)
  {
    forall k, e | 0 <= k < |p| && e in p[k]
      ensures ElementAgrees(leaves, k, e)
    {
      ShlPositive(h - k);
      ShiftedAgrees(leaves, h, 0, k, e, e.offset);
    }
  }

  /** Filling a path in keeps its leaves and stores its climbs. */
  lemma FillingKeepsLeaf(local: seq<Hash>, part: Path, f: Path, o: nat)
    requires Agrees(local, part) && LeafClimbs(part, o) && IsFilling(f, part)
    ensures Agrees(local, f) && Climbs(f, 0, o)
    ensures o < |local| && Lookup(f[0], o).Some? && Lookup(f[0], o).value.hash == Some(local[o])
  {
    CompletionAgrees(local, f, part, |part|, 0);
    ClimbStored(f, part, |part|, 0, 0, o);
    PaddingStep(part, |part|, 0, 0, o);
    assert Lookup(f[0], o) == CompletedAt(part, |part|, 0, 0, o);
    assert ElementAgrees(local, 0, Lookup(part[0], o).value);
  }

  /** A corrected subtree path, filled in and extended, folds every leaf it climbs from to the block's root. */
  lemma ExtendedProvesLeaf(leaves: seq<Hash>, h: nat, cb: Path, part: Path, f: Path, o: nat)
    requires CoinbaseOf(leaves, cb) && 0 < h <= |cb| && |part| == h && 0 < Width(|leaves|, h)
    requires Agrees(Subtree(leaves, h, 0), part) && LeafClimbs(part, o)
    requires IsFilling(f, part)
    ensures o < |leaves| && Lookup(f[0], o).Some? && Lookup(f[0], o).value.hash == Some(leaves[o])
    ensures Fold(Extended(f, cb, h), 0, o, leaves[o]) == Some(Root(leaves))
  {
    FillingKeepsLeaf(Subtree(leaves, h, 0), part, f, o);
    LeftmostAgrees(leaves, h, f);
    LeftmostLeaf(leaves, h, o);
    ExtensionReachesRoot(leaves, f, cb, o);
  }

  lemma LeftmostLeaf(leaves: seq<Hash>, h: nat, o: nat)
    requires 0 < Width(|leaves|, h) && o < |Subtree(leaves, h, 0)|
    ensures o < |leaves| && Subtree(leaves, h, 0)[o] == leaves[o] && Shr(o, h) == 0
  {
    SubtreeUnder(leaves, h, 0);
    ShlPositive(h);
    ShrOfShl(0, o, h);
  }

  /** The one-subtree block: with a coinbase path its tree may be taller than the subtree, without one it is the subtree. */
  ghost predicate SingleBlock(leaves: seq<Hash>, h: nat, coinbase: Option<Path>)
  {
    && leaves != [] && h > 0
    && (coinbase.Some? ==> CoinbaseOf(leaves, coinbase.value) && h <= |coinbase.value|)
    && (coinbase.None? ==> h == CeilLog2(|leaves|))
  }

  lemma SingleSpine(leaves: seq<Hash>, h: nat, cb: Path)
    requires CoinbaseOf(leaves, cb) && 0 < h <= |cb|
    ensures var local := Subtree(leaves, h, 0);
            && local != [] && local[0] == leaves[0]
            && forall k: nat | k < h :: SpineAt(cb, local[0], k) == SpineNode(local, k)
  {
    var local := Subtree(leaves, h, 0);
    SpineOfSubtree0(leaves, h, cb, 0);
    forall k: nat | k < h
      ensures SpineAt(cb, local[0], k) == SpineNode(local, k)
    {
      SpineOfSubtree0(leaves, h, cb, k);
    }
  }

  /** What the single build keeps of subtree 0's variants, which may differ in height. */
  lemma SinglePart(
    leaves: seq<Hash>, h: nat, placeholder: Hash, coinbase: Option<Path>, m: Path, vs: seq<Path>, v: Path, o: nat)
    requires SingleBlock(leaves, h, coinbase) && 0 < Width(|leaves|, h)
    requires SubtreeWell(DeliveredLeaves(leaves, h, 0, placeholder, coinbase), vs, h, coinbase.Some?)
    requires (forall u | u in vs :: |u| <= h) && IsMergeOf(m, vs) && Consistent(vs)
    requires v in vs && VariantClimbs(v, h, o)
    ensures |m| == h
    ensures var part := SwapCoinbase(m, 0, coinbase);
            WellFormed(part) && Agrees(Subtree(leaves, h, 0), part) && LeafClimbs(part, o)
  {
    var local := Subtree(leaves, h, 0);
    TallestIs(vs, v);
    SubtreeUnder(leaves, h, 0);
    assert m[..h] == m;
    if coinbase.Some? {
      SingleSpine(leaves, h, coinbase.value);
      SwappedPart(local, placeholder, m, vs, h, coinbase.value);
      assert Corrected(m, local[0], coinbase)[..h] == Corrected(m, local[0], coinbase);
    } else {
      MergedWell(local, m, vs, h, false);
    }
  }

  /** Without a coinbase path the filled subtree path is the block's. */
  lemma FilledProvesLeaf(leaves: seq<Hash>, h: nat, part: Path, f: Path, o: nat)
    requires leaves != [] && |part| == h == CeilLog2(|leaves|) && 0 < Width(|leaves|, h)
    requires Agrees(Subtree(leaves, h, 0), part) && LeafClimbs(part, o) && IsFilling(f, part)
    ensures o < |leaves| && Lookup(f[0], o).Some? && Lookup(f[0], o).value.hash == Some(leaves[o])
    ensures Fold(f, 0, o, leaves[o]) == Some(Root(leaves))
  {
    FillingKeepsLeaf(Subtree(leaves, h, 0), part, f, o);
    LeftmostAgrees(leaves, h, f);
    LeftmostLeaf(leaves, h, o);
    FoldReachesRoot(leaves, f, o);
  }

  /**
   THE ONE-SUBTREE BLOCK. With a coinbase path or without one, every leaf from which a delivered variant climbs the
   subtree is stored and folds to the block's Merkle root in the path that is returned.
   */
  lemma SingleBuildProvesLeaf(
    leaves: seq<Hash>, h: nat, placeholder: Hash, stumps: seq<Stump>, hashes: seq<Hash>, coinbase: Option<Path>,
    r: BuildResult, merged: seq<MergedStump>, v: Path, o: nat)
    requires SingleBlock(leaves, h, coinbase) && 0 < Width(|leaves|, h) && |hashes| == 1 && stumps != []
    requires IsSingleBuild(r, stumps, hashes, coinbase, merged) && r.Built?
    requires var vs := VariantsOf(stumps, 0);
             && SubtreeWell(DeliveredLeaves(leaves, h, 0, placeholder, coinbase), vs, h, coinbase.Some?)
             && (forall u | u in vs :: |u| <= h) && v in vs && VariantClimbs(v, h, o)
    ensures o < |leaves|
    ensures FindLeafByOffset(r.path, 0, o).Some? && FindLeafByOffset(r.path, 0, o).value.hash == Some(leaves[o])
    ensures Fold(r.path, 0, o, leaves[o]) == Some(Root(leaves))
  {
    var m := merged[0].path;
    assert merged[0] in merged;
    SinglePart(leaves, h, placeholder, coinbase, m, VariantsOf(stumps, 0), v, o);
    var part := SwapCoinbase(m, 0, coinbase);
    if coinbase.Some? {
      var f: Path :| IsFilling(f, part) && r.path == Extended(f, coinbase.value, h);
      ExtendedProvesLeaf(leaves, h, coinbase.value, part, f, o);
      ExtendedAbove(f, coinbase.value, h);
    } else {
      FilledProvesLeaf(leaves, h, part, r.path, o);
    }
  }
}
