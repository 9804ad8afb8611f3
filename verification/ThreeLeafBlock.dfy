/**
 A block of three leaves in subtrees of two, with both its STUMPs delivered. The final subtree is the single leaf c, its
 STUMP takes the place of its root in the subtree-root layer without filling it, and nothing in the block is proved.
 */
module ThreeLeafBlock {
  import opened Prelude
  import opened MerkleTree
  import opened MerklePaths
  import opened Variants
  import opened Merging
  import opened VariantFilter
  import opened Compound
  import opened BuildCompound
  import opened HeaderProof
  import opened DeliveredStumps
  import opened FourLeafBlock

  /** The STUMP of the one-leaf final subtree. */
  function LeafStump(c: Hash): Stump
  {
    Stump(1, Some([[PathElement(0, Some(c), false, true)]]))
  }

  lemma ThreeMeasures(leaves: seq<Hash>)
    requires |leaves| == 3
    ensures Width(3, 0) == 3 && Width(3, 1) == 2 && CeilLog2(2) == 1 && CeilLog2(1) == 0
    ensures Subtree(leaves, 1, 0) == leaves[0..2] && Subtree(leaves, 1, 1) == leaves[2..3]
    ensures LiftOf(leaves, 1, 1) == 1 && BlockShape(leaves, 1) == Shape(1, 2, 1)
  {
    assert Shl(0, 1) == 0 && Shl(1, 1) == 2 && Shl(2, 1) == 4;
  }

  lemma RootOfOne(c: Hash)
    ensures Root([c]) == c
  {
    assert CeilLog2(1) == 0;
  }

  lemma RootsOfThree(leaves: seq<Hash>, h: nat, hashes: seq<Hash>)
    requires |leaves| == 3 && h == 1 && hashes == [MerkleTreeParent(leaves[0], leaves[1]), leaves[2]]
    ensures SubtreeRoots(leaves, h, hashes)
  {
    ThreeMeasures(leaves);
    assert leaves[0..2] == [leaves[0], leaves[1]] && leaves[2..3] == [leaves[2]];
    RootOfTwo(leaves[0], leaves[1]);
    RootOfOne(leaves[2]);
  }

  /** The header tells a lifted final leaf from an unlifted one. */
  lemma LiftIsDecided(leaves: seq<Hash>, h: nat, hashes: seq<Hash>)
    requires |leaves| == 3 && h == 1 && SubtreeRoots(leaves, h, hashes) && |hashes| == 2 && LiftOf(leaves, h, 1) == 1
    requires MerkleTreeParent(hashes[0], hashes[1]) != Root(leaves)
    ensures HeaderDecides(leaves, h, hashes, Some(Root(leaves)))
  {
    RootOfTwo(hashes[0], hashes[1]);
    assert hashes[1 := Lift(hashes[1], 0)] == [hashes[0], hashes[1]];
    assert !Reproduces(hashes, h, Some(Root(leaves)), 0);
  }

  lemma ThreeDelivered(leaves: seq<Hash>, h: nat, stumps: seq<Stump>, hashes: seq<Hash>)
    requires |leaves| == 3 && h == 1 && hashes == [MerkleTreeParent(leaves[0], leaves[1]), leaves[2]]
    requires MerkleTreeParent(hashes[0], hashes[1]) != Root(leaves)
    requires stumps != [] && stumps[0].data.Some? && |stumps[0].data.value| == 1
    ensures BlockDelivery(leaves, h, stumps, hashes, None, Some(Root(leaves)))
  {
    ThreeMeasures(leaves);
    RootsOfThree(leaves, h, hashes);
    LiftIsDecided(leaves, h, hashes);
  }

  /** Both leaves of a pair are judged, and climb. */
  lemma PairJudged(a: Hash, b: Hash, v: Path)
    requires v == PairStump(0, a, b).data.value
    ensures JudgedClimb(v) && Distinct(v[0])
  {
    var s := v[0];
    LookupMember(s, s[0]);
    LookupMember(s, s[1]);
    LeafHashesExact(s, true, a);
    forall h | h in Judged(s)
      ensures FindLeafByHash(s, h).Some? && Climbs(v, 0, FindLeafByHash(s, h).value.offset)
    {
      JudgedIsLeaf(s, h);
    }
  }

  /** The measures of a block of two subtrees of height 1, the final one a single leaf, and no coinbase path. */
  ghost predicate LiftedPair(leaves: seq<Hash>, sh: Shape, cx: Context)
  {
    && sh == Shape(1, 2, 1) && Width(|leaves|, 1) == 2
    && cx.required == RequiredHeights(sh) && cx.coinbase.None? && cx.coinbaseTxid.None?
  }

  lemma PairIsSound(leaves: seq<Hash>, sh: Shape, x: Hash, cx: Context, a: Hash, b: Hash, st: Stump)
    requires LiftedPair(leaves, sh, cx) && Subtree(leaves, 1, 0) == [a, b] && st == PairStump(0, a, b)
    ensures StumpSound(leaves, sh, x, cx, st, true)
  {
    PairJudged(a, b, st.data.value);
    StoredIsServed(st.data.value);
    assert st.data.value[..1] == st.data.value;
    assert Width(2, 0) == 2 && Node([a, b], 0, 0) == a && Node([a, b], 0, 1) == b;
  }

  lemma LeafIsSound(leaves: seq<Hash>, sh: Shape, x: Hash, cx: Context, c: Hash, st: Stump)
    requires LiftedPair(leaves, sh, cx) && st == LeafStump(c)
    ensures StumpSound(leaves, sh, x, cx, st, true)
  {
  }

  lemma TwoVariants(p: Stump, q: Stump, i: nat)
    requires p.data.Some? && q.data.Some? && p.subtreeIndex == 0 && q.subtreeIndex == 1
    ensures VariantsOf([p, q], i) == if i == 0 then [p.data.value] else if i == 1 then [q.data.value] else []
  {
    assert [p, q][..1] == [p] && [p][..0] == [];
    assert VariantsOf([], i) == [];
    assert VariantsOf([p], i) == if i == 0 then [p.data.value] else [];
  }

  lemma TwoMerge(p: Stump, q: Stump)
    requires p.data.Some? && q.data.Some? && p.subtreeIndex == 0 && q.subtreeIndex == 1
    ensures Mergeable([p, q]) && VariantsOf([p, q], 1) != []
  {
    forall i: nat
      ensures Consistent(VariantsOf([p, q], i))
    {
      TwoVariants(p, q, i);
    }
    TwoVariants(p, q, 1);
  }

  lemma ThreeIsSound(leaves: seq<Hash>, h: nat, x: Hash, stumps: seq<Stump>, hashes: seq<Hash>)
    requires |leaves| == 3 && h == 1 && hashes == [MerkleTreeParent(leaves[0], leaves[1]), leaves[2]]
    requires MerkleTreeParent(hashes[0], hashes[1]) != Root(leaves)
    requires stumps == [PairStump(0, leaves[0], leaves[1]), LeafStump(leaves[2])]
    ensures SoundBlock(leaves, h, x, stumps, hashes, None, Some(Root(leaves)))
    ensures Mergeable(stumps) && FinalLeafDelivered(BlockShape(leaves, h), stumps) && DeliveredDistinct(stumps)
  {
    ThreeMeasures(leaves);
    ThreeDelivered(leaves, h, stumps, hashes);
    var cx := ContextFor(hashes, None, Shape(1, 2, 1));
    assert leaves[0..2] == [leaves[0], leaves[1]];
    PairIsSound(leaves, Shape(1, 2, 1), x, cx, leaves[0], leaves[1], stumps[0]);
    LeafIsSound(leaves, Shape(1, 2, 1), x, cx, leaves[2], stumps[1]);
    TwoMerge(stumps[0], stumps[1]);
  }

  lemma ThreeUnproved(
    leaves: seq<Hash>, h: nat, x: Hash, stumps: seq<Stump>, hashes: seq<Hash>, header: Option<Hash>, r: BuildResult,
    lift: nat, merged: seq<MergedStump>, txid: Hash)
    requires SoundBlock(leaves, h, x, stumps, hashes, None, header) && Mergeable(stumps)
    requires FinalLeafDelivered(BlockShape(leaves, h), stumps)
    requires IsBuild(r, stumps, CorrectedHashes(hashes, None), None, header, lift, merged)
    ensures r.Built? && ComputeRoot(r.path, txid) == None
  {
    var sh := BlockShape(leaves, h);
    SoundBuilt(leaves, h, x, stumps, hashes, None, header, r, lift, merged);
    SoundBlockKnown(leaves, h, x, stumps, hashes, None, header, sh, ContextFor(CorrectedHashes(hashes, None), None, sh));
    BuildProvesNothing(leaves, h, x, stumps, hashes, None, header, r, lift, merged, txid);
  }

  method BuildUnproved(
    leaves: seq<Hash>, ghost h: nat, ghost x: Hash, stumps: seq<Stump>, hashes: array<Hash>, header: Option<Hash>)
    returns (r: BuildResult)
    requires SoundBlock(leaves, h, x, stumps, hashes[..], None, header) && Mergeable(stumps) && DeliveredDistinct(stumps)
    requires FinalLeafDelivered(BlockShape(leaves, h), stumps)
    modifies hashes
    ensures r.Built? && forall txid :: ComputeRoot(r.path, txid) == None
  {
    ghost var was := hashes[..];
    ghost var lift, merged;
    r, lift, merged := BuildCompoundBump(stumps, hashes, None, header);
    ThreeUnproved(leaves, h, x, stumps, was, header, r, lift, merged, x);
    forall txid
      ensures ComputeRoot(r.path, txid) == None
    {
      ThreeUnproved(leaves, h, x, stumps, was, header, r, lift, merged, txid);
    }
  }

  /** Whatever the three leaves, as long as the header can tell the lift: the compound is built and proves no transaction. */
  method ProveNothing(leaves: seq<Hash>) returns (r: BuildResult)
    requires |leaves| == 3
    requires MerkleTreeParent(MerkleTreeParent(leaves[0], leaves[1]), leaves[2]) != Root(leaves)
    ensures r.Built? && forall txid :: ComputeRoot(r.path, txid) == None
  {
    var stumps := [PairStump(0, leaves[0], leaves[1]), LeafStump(leaves[2])];
    var left := MerkleTreeParent(leaves[0], leaves[1]);
    var hashes := new Hash[][left, leaves[2]];
    assert hashes[..] == [left, leaves[2]];
    var header := TopTreeRoot(leaves);
    ThreeIsSound(leaves, 1, leaves[0], stumps, hashes[..]);
    r := BuildUnproved(leaves, 1, leaves[0], stumps, hashes, Some(header));
  }
}
