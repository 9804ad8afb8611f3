/**
 The compound's theorem on whole blocks of four leaves in two subtrees, from one STUMP: subtree 1's alone, and subtree
 0's over a coinbase placeholder with a coinbase path and a header.
 */
module FourLeafBlock {
  import opened Prelude
  import opened MerkleTree
  import opened MerklePaths
  import opened FillHashes
  import opened Coverage
  import opened Variants
  import opened Merging
  import opened VariantFilter
  import opened Compound
  import opened BuildCompound
  import opened BlockProof
  import opened HeaderProof

  /** The STUMP of subtree i: its two leaves. */
  function PairStump(i: nat, left: Hash, right: Hash): Stump
  {
    Stump(i, Some([[PathElement(0, Some(left), false, true), PathElement(1, Some(right), false, true)]]))
  }

  /** The coinbase path: the real coinbase a, then the spine's siblings. */
  function CoinbasePath(a: Hash, b: Hash, c: Hash, d: Hash): Path
  {
    [[PathElement(0, Some(a), false, true), PathElement(1, Some(b), false, false)], [Computed(1, MerkleTreeParent(c, d))]]
  }

  lemma Measures(leaves: seq<Hash>)
    requires |leaves| == 4
    ensures Width(4, 1) == 2 && CeilLog2(4) == 2 && CeilLog2(2) == 1 && Shl(1, 1) == 2 && Shl(2, 1) == 4 && Shl(0, 1) == 0
    ensures Subtree(leaves, 1, 0) == leaves[0..2] && Subtree(leaves, 1, 1) == leaves[2..4]
    ensures LiftOf(leaves, 1, 1) == 0 && BlockShape(leaves, 1) == Shape(1, 2, 0)
  {
    assert Width(4, 0) == 4;
    assert CeilLog2(1) == 0;
  }

  lemma RootOfTwo(a: Hash, b: Hash)
    ensures Root([a, b]) == MerkleTreeParent(a, b)
  {
    assert CeilLog2(2) == 1 && Width(2, 0) == 2 && Width(2, 1) == 1;
    assert Node([a, b], 0, 0) == a && Node([a, b], 0, 1) == b;
  }

  // ----- one STUMP of two leaves

  lemma PairClimbs(v: Path)
    requires |v| == 1 && Lookup(v[0], 0).Some? && Lookup(v[0], 0).value.hash.Some?
    requires Lookup(v[0], 1).Some? && Lookup(v[0], 1).value.hash.Some?
    ensures LeafClimbs(v, 0) && LeafClimbs(v, 1)
  {
    PaddingStep(v, 1, 0, 0, 0);
    PaddingStep(v, 1, 0, 0, 1);
    assert ClimbTo(v, 1, 0, 1, 1, 0);
    assert ClimbTo(v, 1, 0, 0, 1, 0) && ClimbTo(v, 1, 0, 0, 1, 1);
  }

  /** A STUMP of one level that agrees with the subtree over `local` and climbs from either leaf. */
  ghost predicate IsPair(st: Stump, local: seq<Hash>, swapped: bool)
  {
    && st.subtreeIndex < 2 && st.data.Some? && |st.data.value| == 1 && DeliveredDistinct([st])
    && SubtreeWell(local, [st.data.value], 1, swapped)
    && VariantClimbs(st.data.value, 1, 0) && VariantClimbs(st.data.value, 1, 1)
  }

  lemma PairWell(i: nat, left: Hash, right: Hash, swapped: bool)
    requires i < 2
    ensures IsPair(PairStump(i, left, right), [left, right], swapped)
  {
    var v := PairStump(i, left, right).data.value;
    var s := v[0];
    assert s[1..] == [s[1]];
    assert Lookup([s[1]], 1) == Some(s[1]) && Lookup(s, 1) == Some(s[1]) && Lookup(s, 0) == Some(s[0]);
    assert v[..1] == v;
    assert Width(2, 0) == 2 && Node([left, right], 0, 0) == left && Node([left, right], 0, 1) == right;
    PairClimbs(v);
    assert v in [v] && VariantClimbs(v, 1, 0);
  }

  lemma KeepsOne(st: Stump, cx: Context)
    ensures Kept(cx, [st], [st]) == [st]
  {
    assert [st][..0] == [];
    assert Count([], st.subtreeIndex) == 0 && Count([st], st.subtreeIndex) == 1;
    assert Kept(cx, [st], []) == [];
  }

  lemma OneVariant(st: Stump, i: nat)
    requires st.data.Some?
    ensures VariantsOf([st], i) == if i == st.subtreeIndex then [st.data.value] else []
  {
    assert [st][..0] == [];
    assert VariantsOf([], i) == [];
  }

  lemma OneMerges(st: Stump)
    requires st.data.Some?
    ensures Mergeable([st])
  {
    forall i: nat
      ensures Consistent(VariantsOf([st], i))
    {
      OneVariant(st, i);
    }
  }

  /** One parsed variant merges to a path of its own height. */
  lemma OneIsTall(st: Stump, merged: seq<MergedStump>, m: MergedStump)
    requires st.data.Some? && IsMergedDelivery([st], merged) && m in merged
    ensures |m.path| == |st.data.value|
  {
    OneVariant(st, m.index);
    assert VariantsOf([st], m.index) != [];
    assert [st.data.value][..0] == [];
    assert Tallest([]) == 0;
  }

  lemma Builds(st: Stump, r: BuildResult, cx: Context, merged: seq<MergedStump>)
    requires st.data.Some? && |st.data.value| == 1 && IsBuildWith(r, [st], cx, Shape(1, 2, 0), merged)
    ensures r.Built?
  {
    KeepsOne(st, cx);
    OneMerges(st);
    forall m | m in merged
      ensures |m.path| == 1
    {
      OneIsTall(st, merged, m);
    }
  }

  /** Everything delivered for a block of four leaves, one of whose subtrees came as a pair. */
  ghost predicate PairDelivery(
    leaves: seq<Hash>, placeholder: Hash, st: Stump, hashes: seq<Hash>, coinbase: Option<Path>, header: Option<Hash>)
  {
    && BlockDelivery(leaves, 1, [st], hashes, coinbase, header) && DeliveredDistinct([st])
    && Width(|leaves|, 1) == 2 && BlockShape(leaves, 1) == Shape(1, 2, 0)
    && DeliveredWell(leaves, Shape(1, 2, 0), placeholder, coinbase, [st])
    && |st.data.value| == 1 && VariantClimbs(st.data.value, 1, 0) && VariantClimbs(st.data.value, 1, 1)
  }

  /** It is built, and proves either leaf of the pair. */
  lemma OneStumpProves(
    leaves: seq<Hash>, placeholder: Hash, st: Stump, hashes: seq<Hash>, coinbase: Option<Path>, header: Option<Hash>,
    r: BuildResult, lift: nat, merged: seq<MergedStump>, o: nat, g: nat)
    requires PairDelivery(leaves, placeholder, st, hashes, coinbase, header)
    requires VariantClimbs(st.data.value, 1, o) && g == Shl(st.subtreeIndex, 1) + o
    requires IsBuild(r, [st], CorrectedHashes(hashes, coinbase), coinbase, header, lift, merged)
    ensures r.Built? && g < |leaves| && Fold(r.path, 0, g, leaves[g]) == Some(Root(leaves))
  {
    PairBuilt(leaves, placeholder, st, hashes, coinbase, header, r, lift, merged);
    KeepsOne(st, ContextFor(CorrectedHashes(hashes, coinbase), coinbase, Shape(1, 2, 0)));
    OneVariant(st, st.subtreeIndex);
    ProvesFromKept(leaves, placeholder, [st], hashes, coinbase, header, r, lift, merged,
                   Shape(1, 2, 0), [st], st.subtreeIndex, st.data.value, o, g);
  }

  lemma ProvesFromKept(
    leaves: seq<Hash>, placeholder: Hash, stumps: seq<Stump>, hashes: seq<Hash>, coinbase: Option<Path>,
    header: Option<Hash>, r: BuildResult, lift: nat, merged: seq<MergedStump>, sh: Shape, kept: seq<Stump>, i: nat,
    v: Path, o: nat, g: nat)
    requires BlockDelivery(leaves, 1, stumps, hashes, coinbase, header)
    requires sh == BlockShape(leaves, 1) && ValidShape(sh) && sh.lift < sh.height
    requires IsBuild(r, stumps, CorrectedHashes(hashes, coinbase), coinbase, header, lift, merged) && r.Built?
    requires kept == Kept(ContextFor(CorrectedHashes(hashes, coinbase), coinbase, sh), stumps, stumps)
    requires DeliveredWell(leaves, sh, placeholder, coinbase, kept)
    requires v in VariantsOf(kept, i) && VariantClimbs(v, RequiredHeight(sh, i), o) && g == Shl(i, 1) + o
    ensures g < |leaves| && Fold(r.path, 0, g, leaves[g]) == Some(Root(leaves))
  {
    BuildProvesLeaf(leaves, 1, placeholder, stumps, hashes, coinbase, header, r, lift, merged, i, v, o, g);
  }

  lemma PairBuilt(
    leaves: seq<Hash>, placeholder: Hash, st: Stump, hashes: seq<Hash>, coinbase: Option<Path>, header: Option<Hash>,
    r: BuildResult, lift: nat, merged: seq<MergedStump>)
    requires PairDelivery(leaves, placeholder, st, hashes, coinbase, header)
    requires IsBuild(r, [st], CorrectedHashes(hashes, coinbase), coinbase, header, lift, merged)
    ensures r.Built?
  {
    BuildMeasures(leaves, 1, [st], hashes, coinbase, header, r, lift, merged);
    Builds(st, r, ContextFor(CorrectedHashes(hashes, coinbase), coinbase, Shape(1, 2, 0)), merged);
  }

  lemma OneStumpWell(leaves: seq<Hash>, placeholder: Hash, coinbase: Option<Path>, st: Stump)
    requires |leaves| == 4 && Width(4, 1) == 2 && st.data.Some? && st.subtreeIndex < 2
    requires SubtreeWell(DeliveredLeaves(leaves, 1, st.subtreeIndex, placeholder, coinbase), [st.data.value], 1,
                         st.subtreeIndex == 0 && coinbase.Some?)
    ensures DeliveredWell(leaves, Shape(1, 2, 0), placeholder, coinbase, [st])
  {
    OneVariant(st, 0);
    OneVariant(st, 1);
    forall i: nat | VariantsOf([st], i) != []
      ensures i == st.subtreeIndex
    {
      OneVariant(st, i);
    }
  }

  method BuildPair(
    leaves: seq<Hash>, ghost placeholder: Hash, st: Stump, hashes: array<Hash>, coinbase: Option<Path>, header: Option<Hash>,
    ghost g: nat, ghost g': nat)
    returns (r: BuildResult)
    requires PairDelivery(leaves, placeholder, st, hashes[..], coinbase, header)
    requires g == Shl(st.subtreeIndex, 1) && g' == Shl(st.subtreeIndex, 1) + 1
    modifies hashes
    ensures r.Built? && g < |leaves| && g' < |leaves|
    ensures Fold(r.path, 0, g, leaves[g]) == Some(Root(leaves)) && Fold(r.path, 0, g', leaves[g']) == Some(Root(leaves))
  {
    ghost var was := hashes[..];
    ghost var lift, merged;
    r, lift, merged := BuildCompoundBump([st], hashes, coinbase, header);
    OneStumpProves(leaves, placeholder, st, was, coinbase, header, r, lift, merged, 0, g);
    OneStumpProves(leaves, placeholder, st, was, coinbase, header, r, lift, merged, 1, g');
  }

  lemma PairIsDelivered(
    leaves: seq<Hash>, placeholder: Hash, st: Stump, hashes: seq<Hash>, coinbase: Option<Path>, header: Option<Hash>)
    requires |leaves| == 4 && Width(4, 1) == 2 && st.subtreeIndex < 2
    requires IsPair(st, DeliveredLeaves(leaves, 1, st.subtreeIndex, placeholder, coinbase),
                    st.subtreeIndex == 0 && coinbase.Some?)
    requires BlockDelivery(leaves, 1, [st], hashes, coinbase, header)
    ensures PairDelivery(leaves, placeholder, st, hashes, coinbase, header)
  {
    Measures(leaves);
    OneStumpWell(leaves, placeholder, coinbase, st);
  }

  // ----- subtree 1's STUMP alone

  lemma TailDelivered(a: Hash, b: Hash, c: Hash, d: Hash, st: Stump)
    requires st.data.Some? && |st.data.value| == 1
    ensures BlockDelivery([a, b, c, d], 1, [st], [MerkleTreeParent(a, b), MerkleTreeParent(c, d)], None, None)
  {
    var leaves := [a, b, c, d];
    Measures(leaves);
    assert leaves[0..2] == [a, b] && leaves[2..4] == [c, d];
    RootOfTwo(a, b);
    RootOfTwo(c, d);
  }

  /** Building from subtree 1's STUMP proves both its leaves, whatever the four hashes. */
  method ProveTail(a: Hash, b: Hash, c: Hash, d: Hash) returns (r: BuildResult)
    ensures r.Built?
    ensures Fold(r.path, 0, 2, c) == Some(Root([a, b, c, d])) && Fold(r.path, 0, 3, d) == Some(Root([a, b, c, d]))
  {
    var leaves, st := [a, b, c, d], PairStump(1, c, d);
    var left, right := MerkleTreeParent(a, b), MerkleTreeParent(c, d);
    var hashes := new Hash[][left, right];
    assert hashes[..] == [left, right];
    Measures(leaves);
    assert leaves[2..4] == [c, d];
    PairWell(1, c, d, false);
    TailDelivered(a, b, c, d, st);
    PairIsDelivered(leaves, a, st, hashes[..], None, None);
    r := BuildPair(leaves, a, st, hashes, None, None, 2, 3);
  }

  // ----- subtree 0's STUMP, with the coinbase to swap in

  lemma SpineFollowed(a: Hash, b: Hash, c: Hash, d: Hash)
    ensures CoinbaseOf([a, b, c, d], CoinbasePath(a, b, c, d))
  {
    var leaves, cb := [a, b, c, d], CoinbasePath(a, b, c, d);
    Measures(leaves);
    assert Width(4, 0) == 4;
    assert Node(leaves, 0, 0) == a && Node(leaves, 0, 1) == b && Node(leaves, 0, 2) == c && Node(leaves, 0, 3) == d;
    assert Node(leaves, 1, 1) == MerkleTreeParent(c, d);
    var bottom, top := cb[0], cb[1];
    assert bottom[1..] == [bottom[1]];
    assert Lookup([bottom[1]], 1) == Some(bottom[1]) && Lookup(bottom, 1) == Some(bottom[1]);
    assert Lookup(top, 1) == Some(top[0]);
  }

  lemma HeadDelivered(a: Hash, b: Hash, c: Hash, d: Hash, x: Hash, st: Stump, cb: Path)
    requires st.data.Some? && CoinbaseOf([a, b, c, d], cb)
    ensures BlockDelivery([a, b, c, d], 1, [st], [x, MerkleTreeParent(c, d)], Some(cb), Some(Root([a, b, c, d])))
  {
    var leaves := [a, b, c, d];
    Measures(leaves);
    assert leaves[2..4] == [c, d];
    RootOfTwo(c, d);
  }

  /** Building from subtree 0's placeholder STUMP proves the real coinbase and its neighbour, whatever the delivered root. */
  method ProveHead(a: Hash, b: Hash, c: Hash, d: Hash, p: Hash, x: Hash) returns (r: BuildResult)
    ensures r.Built?
    ensures Fold(r.path, 0, 0, a) == Some(Root([a, b, c, d])) && Fold(r.path, 0, 1, b) == Some(Root([a, b, c, d]))
  {
    var leaves, st, cb := [a, b, c, d], PairStump(0, p, b), CoinbasePath(a, b, c, d);
    var right := MerkleTreeParent(c, d);
    var hashes := new Hash[][x, right];
    assert hashes[..] == [x, right];
    var header := TopTreeRoot(leaves);
    SpineFollowed(a, b, c, d);
    r := BuildHead(leaves, a, b, c, d, p, x, st, hashes, cb, header);
  }

  method BuildHead(
    leaves: seq<Hash>, ghost a: Hash, ghost b: Hash, ghost c: Hash, ghost d: Hash, ghost p: Hash, ghost x: Hash,
    st: Stump, hashes: array<Hash>, cb: Path, header: Hash)
    returns (r: BuildResult)
    requires leaves == [a, b, c, d] && st == PairStump(0, p, b) && hashes[..] == [x, MerkleTreeParent(c, d)]
    requires CoinbaseOf(leaves, cb) && header == Root(leaves)
    modifies hashes
    ensures r.Built?
    ensures Fold(r.path, 0, 0, a) == Some(Root(leaves)) && Fold(r.path, 0, 1, b) == Some(Root(leaves))
  {
    HeadIsDelivered(leaves, a, b, c, d, p, x, st, cb, hashes[..]);
    assert Shl(st.subtreeIndex, 1) == 0;
    r := BuildPair(leaves, p, st, hashes, Some(cb), Some(header), 0, 1);
  }

  lemma HeadIsDelivered(
    leaves: seq<Hash>, a: Hash, b: Hash, c: Hash, d: Hash, p: Hash, x: Hash, st: Stump, cb: Path, hashes: seq<Hash>)
    requires leaves == [a, b, c, d] && st == PairStump(0, p, b) && hashes == [x, MerkleTreeParent(c, d)]
    requires CoinbaseOf(leaves, cb)
    ensures PairDelivery(leaves, p, st, hashes, Some(cb), Some(Root(leaves)))
  {
    Measures(leaves);
    assert leaves[0..2][0 := p] == [p, b];
    PairWell(0, p, b, true);
    HeadDelivered(a, b, c, d, x, st, cb);
    PairIsDelivered(leaves, p, st, hashes, Some(cb), Some(Root(leaves)));
  }
}
