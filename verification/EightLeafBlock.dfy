/**
 A block of eight leaves in two subtrees for which two services deliver subtree 0, both correctly, and a transaction one
 of them tracks is missing from the compound.
 */
module EightLeafBlock {
  import opened Prelude
  import opened MerkleTree
  import opened MerklePaths
  import opened Coinbase
  import opened Merging
  import opened VariantFilter
  import opened Compound
  import opened BuildCompound
  import opened BlockProof
  import opened HeaderProof
  import opened DeliveredStumps
  import opened StoredLeaves
  import opened FourLeafBlock

  function Leaf(o: nat, h: Hash, tracked: bool): PathElement
  {
    PathElement(o, Some(h), false, tracked)
  }

  /** All of subtree 0 over the placeholder x, with leaves 1 and 2 tracked. */
  function FullPath(x: Hash, b: Hash, c: Hash, d: Hash): Path
  {
    [[Leaf(0, x, false), Leaf(1, b, true), Leaf(2, c, true), Leaf(3, d, false)],
     [Computed(0, MerkleTreeParent(x, b)), Computed(1, MerkleTreeParent(c, d))]]
  }

  /** Only the climb from leaf 2, which is tracked. */
  function OneClimb(x: Hash, b: Hash, c: Hash, d: Hash): Path
  {
    [[Leaf(2, c, true), Leaf(3, d, false)], [Computed(0, MerkleTreeParent(x, b))]]
  }

  lemma FullSlots(x: Hash, b: Hash, c: Hash, d: Hash, p: Path)
    requires p == FullPath(x, b, c, d)
    ensures Lookup(p[0], 0) == Some(p[0][0]) && Lookup(p[0], 1) == Some(p[0][1])
    ensures Lookup(p[0], 2) == Some(p[0][2]) && Lookup(p[0], 3) == Some(p[0][3])
    ensures Lookup(p[1], 0) == Some(p[1][0]) && Lookup(p[1], 1) == Some(p[1][1])
    ensures DistinctLevels(p)
  {
    LookupMember(p[0], p[0][0]);
    LookupMember(p[0], p[0][1]);
    LookupMember(p[0], p[0][2]);
    LookupMember(p[0], p[0][3]);
    LookupMember(p[1], p[1][0]);
    LookupMember(p[1], p[1][1]);
  }

  lemma OneSlots(x: Hash, b: Hash, c: Hash, d: Hash, p: Path)
    requires p == OneClimb(x, b, c, d)
    ensures Lookup(p[0], 2) == Some(p[0][0]) && Lookup(p[0], 3) == Some(p[0][1]) && Lookup(p[1], 0) == Some(p[1][0])
    ensures Lookup(p[0], 0).None? && Lookup(p[0], 1).None?
    ensures DistinctLevels(p)
  {
    LookupMember(p[0], p[0][0]);
    LookupMember(p[0], p[0][1]);
    LookupMember(p[1], p[1][0]);
    LookupNone(p[0], 0);
    LookupNone(p[0], 1);
  }

  /** Both agree with the tree over the placeholder. */
  lemma BothAgree(x: Hash, b: Hash, c: Hash, d: Hash)
    ensures Agrees([x, b, c, d], FullPath(x, b, c, d)) && Agrees([x, b, c, d], OneClimb(x, b, c, d))
  {
    var leaves := [x, b, c, d];
    assert Width(4, 0) == 4 && Width(4, 1) == 2;
    assert Node(leaves, 0, 0) == x && Node(leaves, 0, 1) == b && Node(leaves, 0, 2) == c && Node(leaves, 0, 3) == d;
    assert Node(leaves, 1, 0) == MerkleTreeParent(x, b) && Node(leaves, 1, 1) == MerkleTreeParent(c, d);
  }

  lemma BothClimb(x: Hash, b: Hash, c: Hash, d: Hash)
    ensures Climbs(FullPath(x, b, c, d), 0, 1) && Climbs(FullPath(x, b, c, d), 0, 2) && Climbs(OneClimb(x, b, c, d), 0, 2)
  {
    FullSlots(x, b, c, d, FullPath(x, b, c, d));
    OneSlots(x, b, c, d, OneClimb(x, b, c, d));
  }

  // ----- what they are judged by

  /** Level 0 of the full path, once the coinbase a is swapped in. */
  lemma FullSwapped(x: Hash, a: Hash, b: Hash, c: Hash, d: Hash, coinbase: Option<Path>)
    ensures Corrected(FullPath(x, b, c, d), a, coinbase)[0] ==
            [Leaf(0, a, false), Leaf(1, b, true), Leaf(2, c, true), Leaf(3, d, false)]
  {
    FullSlots(x, b, c, d, FullPath(x, b, c, d));
  }

  lemma OneSwapped(x: Hash, a: Hash, b: Hash, c: Hash, d: Hash, coinbase: Option<Path>)
    ensures Corrected(OneClimb(x, b, c, d), a, coinbase)[0] == OneClimb(x, b, c, d)[0]
  {
    OneSlots(x, b, c, d, OneClimb(x, b, c, d));
  }

  lemma FullJudged(a: Hash, b: Hash, c: Hash, d: Hash, s: seq<PathElement>)
    requires s == [Leaf(0, a, false), Leaf(1, b, true), Leaf(2, c, true), Leaf(3, d, false)] && c != a && c != b
    ensures c in Judged(s) && FindLeafByHash(s, c) == Some(s[2])
  {
    assert s[2] in s;
    LeafHashesExact(s, true, c);
    assert s[1..] == [s[1], s[2], s[3]] && s[1..][1..] == [s[2], s[3]];
    assert FindLeafByHash(s[1..][1..], c) == Some(s[2]);
  }

  lemma OneJudged(c: Hash, d: Hash, s: seq<PathElement>, h: Hash)
    requires s == [Leaf(2, c, true), Leaf(3, d, false)]
    ensures c in Judged(s) && (h in Judged(s) ==> h == c) && FindLeafByHash(s, c) == Some(s[0])
  {
    assert s[0] in s;
    LeafHashesExact(s, true, c);
    LeafHashesExact(s, true, h);
  }

  // ----- the full path is dropped

  /**
   Two agreeing STUMPs of subtree 0. `full` carries leaf 0 and is judged by a leaf past leaf 1; `one` does not carry
   leaf 0 and was delivered with the climbs it is judged by.
   */
  ghost predicate TwoServices(leaves: seq<Hash>, sh: Shape, x: Hash, cx: Context, full: Stump, one: Stump)
    requires ValidShape(sh) && sh.count == Width(|leaves|, sh.height)
  {
    && IsHead(leaves, sh, x, cx, full) && IsHead(leaves, sh, x, cx, one)
    && Clears(full.data.value) && JudgedPast(SubtreePart(cx, full)[0])
    && !Clears(one.data.value) && JudgedDelivered(SubtreePart(cx, one)[0], one.data.value)
  }

  ghost predicate IsHead(leaves: seq<Hash>, sh: Shape, x: Hash, cx: Context, st: Stump)
    requires ValidShape(sh) && sh.count == Width(|leaves|, sh.height)
  {
    && StumpAgrees(leaves, sh, x, cx.coinbase, st) && st.subtreeIndex == 0
    && |st.data.value| == RequiredHeight(sh, 0) == cx.required(0) > 1
    && DistinctLevels(st.data.value)
  }

  predicate JudgedPast(s: seq<PathElement>)
  {
    exists h | h in Judged(s) :: FindLeafByHash(s, h).Some? && FindLeafByHash(s, h).value.offset > 1
  }

  predicate JudgedDelivered(s: seq<PathElement>, v: Path)
  {
    && Judged(s) != []
    && forall h | h in Judged(s) :: FindLeafByHash(s, h).Some? && Climbs(v, 0, FindLeafByHash(s, h).value.offset)
  }

  lemma OnlyOneMatches(leaves: seq<Hash>, sh: Shape, x: Hash, cx: Context, full: Stump, one: Stump)
    requires BlockKnown(leaves, sh, cx) && cx.coinbase.Some? && TwoServices(leaves, sh, x, cx, full, one)
    ensures !Matches(cx, full) && Matches(cx, one)
  {
    assert full.data.value[..RequiredHeight(sh, 0)] == full.data.value;
    assert one.data.value[..RequiredHeight(sh, 0)] == one.data.value;
    SwappedMatchesExactly(leaves, sh, x, cx, full);
    SwappedMatchesExactly(leaves, sh, x, cx, one);
  }

  lemma KeptOfTwo(cx: Context, full: Stump, one: Stump)
    requires full.subtreeIndex == one.subtreeIndex && !Matches(cx, full) && Matches(cx, one)
    ensures Kept(cx, [full, one], [full, one]) == [one]
  {
    var all := [full, one];
    assert all[..1] == [full] && [full][..0] == [];
    assert Count([], full.subtreeIndex) == 0 && Count([full], full.subtreeIndex) == 1 && Count(all, full.subtreeIndex) == 2;
    assert one in all;
    assert Kept(cx, all, []) == [] && Kept(cx, all, [full]) == [];
  }

  lemma MatchingIsSound(leaves: seq<Hash>, sh: Shape, x: Hash, cx: Context, st: Stump)
    requires BlockKnown(leaves, sh, cx) && IsHead(leaves, sh, x, cx, st) && Matches(cx, st)
    ensures StumpSound(leaves, sh, x, cx, st, true)
  {
    ShapeIsValid(leaves, sh, 0);
    PartAgrees(leaves, sh, x, cx, st);
    MatchesExactly(cx, st, Subtree(leaves, sh.height, 0));
    StoredIsServed(SubtreePart(cx, st));
  }

  lemma OneIsWell(leaves: seq<Hash>, sh: Shape, x: Hash, cx: Context, one: Stump)
    requires BlockKnown(leaves, sh, cx) && IsHead(leaves, sh, x, cx, one) && Matches(cx, one)
    ensures DeliveredWell(leaves, sh, x, cx.coinbase, [one]) && Mergeable([one])
  {
    MatchingIsSound(leaves, sh, x, cx, one);
    SoundDelivery(leaves, sh, x, cx, [one]);
    OneMerges(one);
  }

  lemma NoneKeptDelivers(cx: Context, stumps: seq<Stump>, full: Stump, one: Stump, o: nat)
    requires stumps == [full, one] && Kept(cx, stumps, stumps) == [one] && !DeliversLeaf(one, 0, o)
    ensures forall st | st in stumps && DeliversLeaf(st, 0, o) :: !Keeps(cx, stumps, st)
  {
    KeptMembers(cx, stumps, stumps);
    assert forall st | st in [one] :: st == one;
  }

  /** What no kept STUMP carries is not in the compound. */
  lemma LeafIsLost(
    leaves: seq<Hash>, h: nat, x: Hash, stumps: seq<Stump>, hashes: seq<Hash>, coinbase: Option<Path>, header: Option<Hash>,
    r: BuildResult, lift: nat, merged: seq<MergedStump>, sh: Shape, cx: Context, o: nat)
    requires BlockDelivery(leaves, h, stumps, hashes, coinbase, header) && sh == BlockShape(leaves, h) && ValidShape(sh)
    requires IsBuild(r, stumps, CorrectedHashes(hashes, coinbase), coinbase, header, lift, merged) && r.Built?
    requires cx == ContextFor(CorrectedHashes(hashes, coinbase), coinbase, sh)
    requires AllAgree(leaves, sh, x, coinbase, stumps) && RequiredHeight(sh, 0) > 0 && o < Shl(1, h)
    requires forall st | st in stumps && DeliversLeaf(st, 0, o) :: !Keeps(cx, stumps, st)
    ensures FindLeafByOffset(r.path, 0, o) == None
  {
    ShlPositive(h);
    LeafStoredExactly(leaves, h, x, stumps, hashes, coinbase, header, r, lift, merged, cx, 0, o, o);
  }

  lemma BuiltFromOne(
    leaves: seq<Hash>, h: nat, x: Hash, stumps: seq<Stump>, hashes: seq<Hash>, coinbase: Option<Path>, header: Option<Hash>,
    r: BuildResult, lift: nat, merged: seq<MergedStump>, sh: Shape, cx: Context, one: Stump)
    requires BlockDelivery(leaves, h, stumps, hashes, coinbase, header) && sh == BlockShape(leaves, h) && ValidShape(sh)
    requires IsBuild(r, stumps, CorrectedHashes(hashes, coinbase), coinbase, header, lift, merged)
    requires cx == ContextFor(CorrectedHashes(hashes, coinbase), coinbase, sh) && Kept(cx, stumps, stumps) == [one]
    requires BlockKnown(leaves, sh, cx) && IsHead(leaves, sh, x, cx, one) && Matches(cx, one)
    ensures r.Built?
  {
    OneIsWell(leaves, sh, x, cx, one);
    BuildSucceeds(leaves, h, x, stumps, hashes, coinbase, header, r, lift, merged);
  }

  lemma FilterDropsFull(
    leaves: seq<Hash>, sh: Shape, x: Hash, cx: Context, stumps: seq<Stump>, full: Stump, one: Stump, o: nat)
    requires BlockKnown(leaves, sh, cx) && cx.coinbase.Some? && TwoServices(leaves, sh, x, cx, full, one)
    requires stumps == [full, one] && !DeliversLeaf(one, 0, o)
    ensures Kept(cx, stumps, stumps) == [one] && IsHead(leaves, sh, x, cx, one) && Matches(cx, one)
    ensures AllAgree(leaves, sh, x, cx.coinbase, stumps) && RequiredHeight(sh, 0) > 0
    ensures forall st | st in stumps && DeliversLeaf(st, 0, o) :: !Keeps(cx, stumps, st)
  {
    OnlyOneMatches(leaves, sh, x, cx, full, one);
    KeptOfTwo(cx, full, one);
    NoneKeptDelivers(cx, stumps, full, one, o);
  }

  /** The compound is built, and what `full` alone carries is not in it. */
  lemma FullIsLost(
    leaves: seq<Hash>, h: nat, x: Hash, stumps: seq<Stump>, hashes: seq<Hash>, coinbase: Option<Path>, header: Option<Hash>,
    r: BuildResult, lift: nat, merged: seq<MergedStump>, sh: Shape, cx: Context, full: Stump, one: Stump, o: nat)
    requires BlockDelivery(leaves, h, stumps, hashes, coinbase, header) && sh == BlockShape(leaves, h) && ValidShape(sh)
    requires IsBuild(r, stumps, CorrectedHashes(hashes, coinbase), coinbase, header, lift, merged)
    requires cx == ContextFor(CorrectedHashes(hashes, coinbase), coinbase, sh) && coinbase.Some?
    requires BlockKnown(leaves, sh, cx) && TwoServices(leaves, sh, x, cx, full, one) && stumps == [full, one]
    requires o < Shl(1, h) && !DeliversLeaf(one, 0, o)
    ensures r.Built? && FindLeafByOffset(r.path, 0, o) == None
  {
    FilterDropsFull(leaves, sh, x, cx, stumps, full, one, o);
    BuiltFromOne(leaves, h, x, stumps, hashes, coinbase, header, r, lift, merged, sh, cx, one);
    LeafIsLost(leaves, h, x, stumps, hashes, coinbase, header, r, lift, merged, sh, cx, o);
  }

  // ----- the block

  /** A path over the placeholder subtree, as tall as it, is a STUMP of the block's head. */
  lemma PathIsHead(leaves: seq<Hash>, sh: Shape, cx: Context, x: Hash, local: seq<Hash>, v: Path, st: Stump)
    requires BlockKnown(leaves, sh, cx) && sh.height == 2 && cx.coinbase.Some? && st == Stump(0, Some(v))
    requires Subtree(leaves, 2, 0) == local && local != [] && Agrees(local[0 := x], v) && |v| == 2
    requires DistinctLevels(v) && forall e | e in v[1] :: !e.tracked
    ensures IsHead(leaves, sh, x, cx, st) && SubtreePart(cx, st)[0] == Corrected(v, local[0], cx.coinbase)[0]
  {
    SpineOfBlock(leaves, sh, cx.coinbase.value, 2);
  }

  lemma HeadsDelivered(
    leaves: seq<Hash>, sh: Shape, cx: Context, x: Hash, a: Hash, b: Hash, c: Hash, d: Hash, full: Stump, one: Stump)
    requires BlockKnown(leaves, sh, cx) && sh.height == 2 && cx.coinbase.Some? && c != a && c != b
    requires Subtree(leaves, 2, 0) == [a, b, c, d]
    requires full == Stump(0, Some(FullPath(x, b, c, d))) && one == Stump(0, Some(OneClimb(x, b, c, d)))
    ensures TwoServices(leaves, sh, x, cx, full, one) && !DeliversLeaf(one, 0, 1)
  {
    var f, o := FullPath(x, b, c, d), OneClimb(x, b, c, d);
    assert [a, b, c, d][0 := x] == [x, b, c, d];
    BothAgree(x, b, c, d);
    BothClimb(x, b, c, d);
    FullSlots(x, b, c, d, f);
    OneSlots(x, b, c, d, o);
    PathIsHead(leaves, sh, cx, x, [a, b, c, d], f, full);
    PathIsHead(leaves, sh, cx, x, [a, b, c, d], o, one);
    FullSwapped(x, a, b, c, d, cx.coinbase);
    OneSwapped(x, a, b, c, d, cx.coinbase);
    FullJudged(a, b, c, d, SubtreePart(cx, full)[0]);
    forall h | h in Judged(SubtreePart(cx, one)[0])
      ensures h == c
    {
      OneJudged(c, d, SubtreePart(cx, one)[0], h);
    }
    OneJudged(c, d, SubtreePart(cx, one)[0], c);
  }

  lemma EightMeasures(leaves: seq<Hash>)
    requires |leaves| == 8
    ensures Width(8, 0) == 8 && Width(8, 1) == 4 && Width(8, 2) == 2 && CeilLog2(8) == 3 && Shl(1, 2) == 4
    ensures Subtree(leaves, 2, 0) == leaves[0..4] && Subtree(leaves, 2, 1) == leaves[4..8]
    ensures LiftOf(leaves, 2, 1) == 0 && BlockShape(leaves, 2) == Shape(2, 2, 0)
  {
    assert CeilLog2(4) == 2 && CeilLog2(2) == 1 && CeilLog2(1) == 0;
    assert Shl(0, 2) == 0 && Shl(1, 1) == 2 && Shl(2, 2) == 8;
  }

  function RootOf(s: seq<Hash>): Hash
    requires |s| == 4
  {
    MerkleTreeParent(MerkleTreeParent(s[0], s[1]), MerkleTreeParent(s[2], s[3]))
  }

  lemma RootOfFour(s: seq<Hash>)
    requires |s| == 4
    ensures Root(s) == RootOf(s)
  {
    assert CeilLog2(4) == 2 && CeilLog2(2) == 1 && Width(4, 0) == 4 && Width(4, 1) == 2 && Width(4, 2) == 1;
    assert forall i | 0 <= i < 4 :: Node(s, 0, i) == s[i];
    assert Node(s, 1, 0) == MerkleTreeParent(s[0], s[1]) && Node(s, 1, 1) == MerkleTreeParent(s[2], s[3]);
  }

  /** The coinbase path of the block: its coinbase, and the siblings of the spine. */
  function Spine(leaves: seq<Hash>): Path
    requires |leaves| == 8
  {
    [[Leaf(0, leaves[0], true), Leaf(1, leaves[1], false)], [Computed(1, MerkleTreeParent(leaves[2], leaves[3]))],
     [Computed(1, RootOf(leaves[4..8]))]]
  }

  lemma EightWidths()
    ensures Width(8, 0) == 8 && Width(8, 1) == 4 && Width(8, 2) == 2
  {
  }

  lemma EightNodes(leaves: seq<Hash>)
    requires |leaves| == 8
    ensures Width(8, 0) == 8 && Width(8, 1) == 4 && Width(8, 2) == 2
    ensures Node(leaves, 0, 0) == leaves[0] && Node(leaves, 0, 1) == leaves[1]
    ensures Node(leaves, 1, 1) == MerkleTreeParent(leaves[2], leaves[3]) && Node(leaves, 2, 1) == RootOf(leaves[4..8])
  {
    assert forall i | 0 <= i < 8 :: Node(leaves, 0, i) == leaves[i];
    assert Node(leaves, 1, 2) == MerkleTreeParent(leaves[4], leaves[5]);
    assert Node(leaves, 1, 3) == MerkleTreeParent(leaves[6], leaves[7]);
  }

  lemma SpineAgrees(leaves: seq<Hash>, cb: Path)
    requires |leaves| == 8 && cb == Spine(leaves)
    ensures Agrees(leaves, cb)
  {
    EightWidths();
    EightNodes(leaves);
    assert ElementAgrees(leaves, 0, cb[0][0]) && ElementAgrees(leaves, 0, cb[0][1]);
    assert ElementAgrees(leaves, 1, cb[1][0]) && ElementAgrees(leaves, 2, cb[2][0]);
  }

  lemma SpineSiblings(leaves: seq<Hash>, cb: Path)
    requires |leaves| == 8 && cb == Spine(leaves)
    ensures forall k: nat | k < 3 :: SpineSibling(cb, k).Some?
  {
    LookupMember(cb[0], cb[0][1]);
    LookupMember(cb[1], cb[1][0]);
    LookupMember(cb[2], cb[2][0]);
  }

  lemma SpineIsCoinbase(leaves: seq<Hash>, cb: Path)
    requires |leaves| == 8 && cb == Spine(leaves)
    ensures CoinbaseOf(leaves, cb)
  {
    SpineAgrees(leaves, cb);
    SpineSiblings(leaves, cb);
    EightMeasures(leaves);
    assert FollowsSpine(leaves, cb, 3);
    assert CoinbaseLeaf(cb[0]) == Some(leaves[0]);
  }

  lemma UnliftedDelivery(leaves: seq<Hash>, h: nat, stumps: seq<Stump>, hashes: seq<Hash>, cb: Path)
    requires h > 0 && Width(|leaves|, h) == |hashes| == 2 && LiftOf(leaves, h, 1) == 0 && CoinbaseOf(leaves, cb)
    requires Subtree(leaves, h, 1) != [] && hashes[1] == Root(Subtree(leaves, h, 1))
    requires stumps != [] && stumps[0].data.Some?
    ensures BlockDelivery(leaves, h, stumps, hashes, Some(cb), None)
  {
  }

  lemma EightDelivered(leaves: seq<Hash>, h: nat, stumps: seq<Stump>, hashes: seq<Hash>, cb: Path)
    requires |leaves| == 8 && h == 2 && stumps != [] && stumps[0].data.Some? && cb == Spine(leaves)
    requires |hashes| == 2 && hashes[1] == RootOf(leaves[4..8])
    ensures BlockDelivery(leaves, h, stumps, hashes, Some(cb), None)
  {
    EightMeasures(leaves);
    SpineIsCoinbase(leaves, cb);
    RootOfFour(leaves[4..8]);
    UnliftedDelivery(leaves, h, stumps, hashes, cb);
  }

  /** A block of subtrees of height h whose subtree 0 two services delivered, only one of them leaf o. */
  ghost predicate LossyDelivery(
    leaves: seq<Hash>, h: nat, x: Hash, stumps: seq<Stump>, hashes: seq<Hash>, coinbase: Option<Path>, full: Stump, one: Stump,
    o: nat)
  {
    && BlockDelivery(leaves, h, stumps, hashes, coinbase, None) && ValidShape(BlockShape(leaves, h)) && coinbase.Some?
    && TwoServices(leaves, BlockShape(leaves, h), x,
                   ContextFor(CorrectedHashes(hashes, coinbase), coinbase, BlockShape(leaves, h)), full, one)
    && stumps == [full, one] && o < Shl(1, h) && !DeliversLeaf(one, 0, o)
  }

  lemma LossyLoses(
    leaves: seq<Hash>, h: nat, x: Hash, stumps: seq<Stump>, hashes: seq<Hash>, coinbase: Option<Path>, full: Stump, one: Stump,
    o: nat, r: BuildResult, lift: nat, merged: seq<MergedStump>)
    requires LossyDelivery(leaves, h, x, stumps, hashes, coinbase, full, one, o)
    requires IsBuild(r, stumps, CorrectedHashes(hashes, coinbase), coinbase, None, lift, merged)
    ensures r.Built? && FindLeafByOffset(r.path, 0, o) == None
  {
    var sh := BlockShape(leaves, h);
    var cx := ContextFor(CorrectedHashes(hashes, coinbase), coinbase, sh);
    DeliveryKnown(leaves, h, stumps, hashes, coinbase, None, sh, cx);
    FullIsLost(leaves, h, x, stumps, hashes, coinbase, None, r, lift, merged, sh, cx, full, one, o);
  }

  lemma HeadsAreLossy(
    leaves: seq<Hash>, h: nat, x: Hash, stumps: seq<Stump>, hashes: seq<Hash>, cb: Path, full: Stump, one: Stump, sh: Shape,
    a: Hash, b: Hash, c: Hash, d: Hash)
    requires BlockDelivery(leaves, h, stumps, hashes, Some(cb), None) && sh == BlockShape(leaves, h) && ValidShape(sh)
    requires h == 2 && Subtree(leaves, h, 0) == [a, b, c, d] && c != a && c != b && 1 < Shl(1, h)
    requires full == Stump(0, Some(FullPath(x, b, c, d))) && one == Stump(0, Some(OneClimb(x, b, c, d)))
    requires stumps == [full, one]
    ensures LossyDelivery(leaves, h, x, stumps, hashes, Some(cb), full, one, 1)
  {
    var cx := ContextFor(CorrectedHashes(hashes, Some(cb)), Some(cb), sh);
    DeliveryKnown(leaves, h, stumps, hashes, Some(cb), None, sh, cx);
    HeadsDelivered(leaves, sh, cx, x, a, b, c, d, full, one);
  }

  lemma EightIsLossy(
    leaves: seq<Hash>, h: nat, x: Hash, stumps: seq<Stump>, hashes: seq<Hash>, cb: Path, full: Stump, one: Stump)
    requires |leaves| == 8 && h == 2 && leaves[2] != leaves[0] && leaves[2] != leaves[1]
    requires cb == Spine(leaves) && |hashes| == 2 && hashes[1] == RootOf(leaves[4..8])
    requires full == Stump(0, Some(FullPath(x, leaves[1], leaves[2], leaves[3])))
    requires one == Stump(0, Some(OneClimb(x, leaves[1], leaves[2], leaves[3]))) && stumps == [full, one]
    ensures LossyDelivery(leaves, h, x, stumps, hashes, Some(cb), full, one, 1)
  {
    EightDelivered(leaves, h, stumps, hashes, cb);
    EightShape(leaves, h, Shape(2, 2, 0));
    FirstFour(leaves);
    HeadsAreLossy(leaves, h, x, stumps, hashes, cb, full, one, Shape(2, 2, 0), leaves[0], leaves[1], leaves[2], leaves[3]);
  }

  lemma EightShape(leaves: seq<Hash>, h: nat, sh: Shape)
    requires |leaves| == 8 && h == 2 && sh == Shape(2, 2, 0)
    ensures Width(8, h) == 2 && sh == BlockShape(leaves, h) && ValidShape(sh)
    ensures Subtree(leaves, h, 0) == leaves[0..4] && 1 < Shl(1, h)
  {
    EightMeasures(leaves);
  }

  lemma FirstFour(leaves: seq<Hash>)
    requires |leaves| >= 4
    ensures leaves[0..4] == [leaves[0], leaves[1], leaves[2], leaves[3]]
  {
  }

  lemma HeadsDistinct(x: Hash, b: Hash, c: Hash, d: Hash)
    ensures DeliveredDistinct([Stump(0, Some(FullPath(x, b, c, d))), Stump(0, Some(OneClimb(x, b, c, d)))])
  {
    FullSlots(x, b, c, d, FullPath(x, b, c, d));
    OneSlots(x, b, c, d, OneClimb(x, b, c, d));
  }

  method BuildLossy(
    ghost leaves: seq<Hash>, ghost h: nat, ghost x: Hash, stumps: seq<Stump>, hashes: array<Hash>, coinbase: Option<Path>,
    ghost full: Stump, ghost one: Stump, ghost o: nat)
    returns (r: BuildResult)
    requires LossyDelivery(leaves, h, x, stumps, hashes[..], coinbase, full, one, o) && DeliveredDistinct(stumps)
    modifies hashes
    ensures r.Built? && FindLeafByOffset(r.path, 0, o) == None
  {
    ghost var was := hashes[..];
    ghost var lift, merged;
    r, lift, merged := BuildCompoundBump(stumps, hashes, coinbase, None);
    LossyLoses(leaves, h, x, stumps, was, coinbase, full, one, o, r, lift, merged);
  }

  /**
   Both STUMPs agree with the block and climb from the leaves they track (BothAgree, BothClimb). The first tracks leaf 1. The
   filter drops it, because its other tracked leaf's climb needs the spine node the coinbase swap has cleared. The compound
   is built from the second alone and does not contain leaf 1.
   */
  method LoseTracked(leaves: seq<Hash>, x: Hash, y: Hash) returns (stumps: seq<Stump>, r: BuildResult)
    requires |leaves| == 8 && leaves[2] != leaves[0] && leaves[2] != leaves[1]
    ensures stumps == [Stump(0, Some(FullPath(x, leaves[1], leaves[2], leaves[3]))),
                       Stump(0, Some(OneClimb(x, leaves[1], leaves[2], leaves[3])))]
    ensures r.Built? && FindLeafByOffset(r.path, 0, 1) == None
  {
    var full := Stump(0, Some(FullPath(x, leaves[1], leaves[2], leaves[3])));
    var one := Stump(0, Some(OneClimb(x, leaves[1], leaves[2], leaves[3])));
    stumps := [full, one];
    var cb, right := Spine(leaves), RootOf(leaves[4..8]);
    var hashes := new Hash[][y, right];
    assert hashes[..] == [y, right];
    HeadsDistinct(x, leaves[1], leaves[2], leaves[3]);
    EightIsLossy(leaves, 2, x, stumps, hashes[..], cb, full, one);
    r := BuildLossy(leaves, 2, x, stumps, hashes, Some(cb), full, one, 1);
  }
}
