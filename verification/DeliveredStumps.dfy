/**
 BuildCompoundBUMP over everything that was delivered: which STUMPs match, and that STUMPs which agree with the block and
 climb from the leaves they are judged by are all kept, merged and proved, as long as the filter finds the climbs stored
 where it acts on its verdict.
 */
module DeliveredStumps {
  import opened Prelude
  import opened MerkleTree
  import opened MerklePaths
  import opened Coverage
  import opened Coinbase
  import opened Merging
  import opened VariantFilter
  import opened Compound
  import opened BuildCompound
  import opened BlockProof
  import opened DeliveredBlock
  import opened HeaderProof

  // ----- a delivered path and what the filter folds of it

  lemma {:induction false} StoredIsThere(p: Path, level: nat, index: nat)
    requires level <= |p| && Climbs(p, level, index)
    ensures ClimbTo(p, |p|, 0, level, |p|, index)
    decreases |p| - level
  {
    if level < |p| {
      StoredIsThere(p, level + 1, index / 2);
    }
  }

  /** The leaf a judged hash is folded from: the first that carries it. */
  function JudgedOffset(p: Path, h: Hash): nat
    requires |p| > 0 && h in Judged(p[0])
  {
    JudgedIsLeaf(p[0], h);
    FindLeafByHash(p[0], h).value.offset
  }

  /** The climb of every judged hash is there, each sibling stored or computable. */
  ghost predicate JudgedServed(p: Path)
    requires |p| > 0
  {
    Judged(p[0]) != [] && forall h | h in Judged(p[0]) :: ClimbTo(p, |p|, 0, 0, |p|, JudgedOffset(p, h))
  }

  lemma StoredIsServed(p: Path)
    requires |p| > 0 && JudgedClimb(p)
    ensures JudgedServed(p)
  {
    forall h | h in Judged(p[0])
      ensures ClimbTo(p, |p|, 0, 0, |p|, JudgedOffset(p, h))
    {
      StoredIsThere(p, 0, JudgedOffset(p, h));
    }
  }

  /** A judged leaf of a path that agrees with its subtree is a leaf of the subtree, stored with its hash. */
  lemma JudgedLeafThere(local: seq<Hash>, p: Path, h: Hash)
    requires |p| > 0 && Agrees(local, p) && h in Judged(p[0])
    requires ClimbTo(p, |p|, 0, 0, |p|, JudgedOffset(p, h))
    ensures var o := JudgedOffset(p, h); o < |local| && local[o] == h && LeafClimbs(p, o)
  {
    JudgedIsLeaf(p[0], h);
    var e := FindLeafByHash(p[0], h).value;
    assert ElementAgrees(local, 0, e);
    LookupPresent(p[0], e);
    assert ElementAgrees(local, 0, Lookup(p[0], e.offset).value);
  }

  // ----- one delivered STUMP

  /** A STUMP for a subtree of the block that agrees, over the subtree's levels, with the leaves it was built over. */
  ghost predicate StumpAgrees(leaves: seq<Hash>, sh: Shape, placeholder: Hash, coinbase: Option<Path>, st: Stump)
    requires ValidShape(sh) && sh.count == Width(|leaves|, sh.height)
  {
    && st.data.Some? && st.subtreeIndex < sh.count
    && AgreesBelow(DeliveredLeaves(leaves, sh.height, st.subtreeIndex, placeholder, coinbase), st.data.value,
                   RequiredHeight(sh, st.subtreeIndex))
    && (st.subtreeIndex == 0 && coinbase.Some? ==> MarksOnLeaves([st.data.value]))
  }

  ghost predicate AllAgree(leaves: seq<Hash>, sh: Shape, placeholder: Hash, coinbase: Option<Path>, stumps: seq<Stump>)
    requires ValidShape(sh) && sh.count == Width(|leaves|, sh.height)
  {
    forall st | st in stumps :: StumpAgrees(leaves, sh, placeholder, coinbase, st)
  }

  /**
   A STUMP as its service should build it: it agrees, has no offset twice in a level, and once the coinbase is swapped in
   climbs from the leaves it is judged by. In a sifted subtree, where the filter acts on its verdict, those climbs are
   stored. Of a one-leaf final subtree, which has no levels, no climb is asked.
   */
  ghost predicate StumpSound(leaves: seq<Hash>, sh: Shape, placeholder: Hash, cx: Context, st: Stump, sifted: bool)
    requires ValidShape(sh) && sh.count == Width(|leaves|, sh.height)
  {
    && StumpAgrees(leaves, sh, placeholder, cx.coinbase, st)
    && DistinctLevels(st.data.value)
    && (cx.required(st.subtreeIndex) > 0 ==>
          && cx.required(st.subtreeIndex) <= |st.data.value|
          && JudgedServed(SubtreePart(cx, st)) && (sifted ==> JudgedClimb(SubtreePart(cx, st))))
  }

  /** What is known of the block when its STUMPs are filtered. */
  ghost predicate BlockKnown(leaves: seq<Hash>, sh: Shape, cx: Context)
  {
    && leaves != [] && ShapeOfBlock(leaves, sh) && ValidShape(sh) && sh.height > 0
    && SubtreeRoots(leaves, sh.height, cx.subtreeHashes) && cx.required == RequiredHeights(sh)
    && cx.coinbaseTxid == ExtractCoinbaseTxid(cx.coinbase)
    && (cx.coinbase.Some? ==> CoinbaseOf(leaves, cx.coinbase.value))
  }

  lemma PlaceholderPart(leaves: seq<Hash>, sh: Shape, placeholder: Hash, cb: Path, v: Path, r: nat)
    requires leaves != [] && ShapeOfBlock(leaves, sh) && ValidShape(sh) && sh.height > 0 && CoinbaseOf(leaves, cb)
    requires r == RequiredHeight(sh, 0) && 0 < r <= |v| && DistinctLevels(v)
    requires AgreesBelow(DeliveredLeaves(leaves, sh.height, 0, placeholder, Some(cb)), v, r) && MarksOnLeaves([v])
    ensures var local := Subtree(leaves, sh.height, 0);
            local != [] && local[0] == leaves[0] && Correctable(local, placeholder, v[..r], cb)
  {
    SpineOfBlock(leaves, sh, cb, r);
    SoundPlaceholder(Subtree(leaves, sh.height, 0), placeholder, v, r);
  }

  lemma SoundPlaceholder(local: seq<Hash>, placeholder: Hash, v: Path, r: nat)
    requires local != [] && r <= |v| && DistinctLevels(v)
    requires AgreesBelow(local[0 := placeholder], v, r) && MarksOnLeaves([v])
    ensures PlaceholderStump(local, placeholder, v[..r])
  {
    assert v in [v];
  }

  /** The part the filter folds agrees with the real subtree. */
  lemma PartAgrees(leaves: seq<Hash>, sh: Shape, placeholder: Hash, cx: Context, st: Stump)
    requires BlockKnown(leaves, sh, cx) && StumpAgrees(leaves, sh, placeholder, cx.coinbase, st)
    requires DistinctLevels(st.data.value)
    requires 0 < RequiredHeight(sh, st.subtreeIndex) <= |st.data.value|
    ensures Agrees(Subtree(leaves, sh.height, st.subtreeIndex), SubtreePart(cx, st))
  {
    var v, r := st.data.value, RequiredHeight(sh, st.subtreeIndex);
    if st.subtreeIndex == 0 && cx.coinbase.Some? {
      var cb, local := cx.coinbase.value, Subtree(leaves, sh.height, 0);
      PlaceholderPart(leaves, sh, placeholder, cb, v, r);
      CorrectionAgrees(local, placeholder, v[..r], cb);
      CorrectedPrefix(v, local[0], cb, r);
    }
  }

  /**
   Where the coinbase is swapped in, an agreeing STUMP matches exactly when the climbs it is judged by were delivered and,
   if it carries leaf 0, start from leaf 0 or leaf 1: the filter does not recompute the spine that the swap clears.
   */
  lemma SwappedMatchesExactly(leaves: seq<Hash>, sh: Shape, placeholder: Hash, cx: Context, st: Stump)
    requires BlockKnown(leaves, sh, cx) && StumpAgrees(leaves, sh, placeholder, cx.coinbase, st)
    requires DistinctLevels(st.data.value)
    requires st.subtreeIndex == 0 && cx.coinbase.Some? && 1 < RequiredHeight(sh, 0) <= |st.data.value|
    ensures var v, r, p := st.data.value, RequiredHeight(sh, 0), SubtreePart(cx, st);
            Matches(cx, st) <==>
            && Judged(p[0]) != []
            && forall h | h in Judged(p[0]) ::
                 && FindLeafByHash(p[0], h).Some?
                 && var o := FindLeafByHash(p[0], h).value.offset; Climbs(v[..r], 0, o) && (Clears(v) ==> o <= 1)
  {
    var v, r, p := st.data.value, RequiredHeight(sh, 0), SubtreePart(cx, st);
    var local := Subtree(leaves, sh.height, 0);
    ShapeIsValid(leaves, sh, 0);
    PartAgrees(leaves, sh, placeholder, cx, st);
    MatchesExactly(cx, st, local);
    forall h | h in Judged(p[0]) && FindLeafByHash(p[0], h).Some?
      ensures var o := FindLeafByHash(p[0], h).value.offset;
              Climbs(p, 0, o) <==> Climbs(v[..r], 0, o) && (Clears(v) ==> o <= 1)
    {
      var e := FindLeafByHash(p[0], h).value;
      assert ElementAgrees(local, 0, e);
      SwappedStoredClimb(leaves, sh, cx, v, r, p, e.offset);
    }
  }

  lemma SwappedStoredClimb(leaves: seq<Hash>, sh: Shape, cx: Context, v: Path, r: nat, p: Path, o: nat)
    requires BlockKnown(leaves, sh, cx) && cx.coinbase.Some? && 0 < r == RequiredHeight(sh, 0) <= |v|
    requires DistinctLevels(v) && o < |Subtree(leaves, sh.height, 0)|
    requires p == CorrectedFor(cx, 0, v)[..r]
    ensures Climbs(p, 0, o) <==> Climbs(v[..r], 0, o) && (Clears(v) ==> o <= 1)
  {
    ShapeIsValid(leaves, sh, 0);
    CeilLog2Least(|Subtree(leaves, sh.height, 0)|, r);
    CorrectedPrefix(v, leaves[0], cx.coinbase.value, r);
    StoredClimbAfterCorrection(v[..r], leaves[0], cx.coinbase, o);
  }

  lemma SoundMatches(leaves: seq<Hash>, sh: Shape, placeholder: Hash, cx: Context, st: Stump)
    requires BlockKnown(leaves, sh, cx) && StumpSound(leaves, sh, placeholder, cx, st, true)
    requires RequiredHeight(sh, st.subtreeIndex) > 0
    ensures Matches(cx, st)
  {
    ShapeIsValid(leaves, sh, st.subtreeIndex);
    PartAgrees(leaves, sh, placeholder, cx, st);
    MatchesExactly(cx, st, Subtree(leaves, sh.height, st.subtreeIndex));
    NotLone(SubtreePart(cx, st));
  }

  /** A stored climb has a sibling at the leaves. */
  lemma NotLone(p: Path)
    requires |p| > 0 && JudgedClimb(p)
    ensures |p[0]| != 1
  {
    var h := Judged(p[0])[0];
    assert h in Judged(p[0]);
    var e := FindLeafByHash(p[0], h).value;
    var sibling := Lookup(p[0], Sibling(e.offset)).value;
    assert sibling in p[0] && e in p[0] && sibling != e;
  }

  /** Each judged leaf of a sound STUMP is a leaf of its subtree from which the delivered path climbs. */
  lemma JudgedLeafClimbs(
    leaves: seq<Hash>, sh: Shape, placeholder: Hash, cx: Context, st: Stump, sifted: bool, h: Hash, o: nat)
    requires BlockKnown(leaves, sh, cx) && StumpSound(leaves, sh, placeholder, cx, st, sifted)
    requires RequiredHeight(sh, st.subtreeIndex) > 0 && h in Judged(SubtreePart(cx, st)[0])
    requires o == JudgedOffset(SubtreePart(cx, st), h)
    ensures var v, r := st.data.value, RequiredHeight(sh, st.subtreeIndex);
            var local := Subtree(leaves, sh.height, st.subtreeIndex);
            && o < |local| && local[o] == h && VariantClimbs(v, r, o)
            && (st.subtreeIndex == 0 && cx.coinbase.Some? && Clears(v) ==> VariantClimbs(v, r, 0))
  {
    var i, v, r, part := st.subtreeIndex, st.data.value, RequiredHeight(sh, st.subtreeIndex), SubtreePart(cx, st);
    var local := Subtree(leaves, sh.height, i);
    PartAgrees(leaves, sh, placeholder, cx, st);
    JudgedLeafThere(local, part, h);
    if i == 0 && cx.coinbase.Some? {
      SwappedLeafClimbs(leaves, sh, placeholder, cx.coinbase.value, v, r, o);
    }
  }

  lemma SwappedLeafClimbs(leaves: seq<Hash>, sh: Shape, placeholder: Hash, cb: Path, v: Path, r: nat, o: nat)
    requires leaves != [] && ShapeOfBlock(leaves, sh) && ValidShape(sh) && sh.height > 0 && CoinbaseOf(leaves, cb)
    requires r == RequiredHeight(sh, 0) && 0 < r <= |v| && DistinctLevels(v)
    requires AgreesBelow(DeliveredLeaves(leaves, sh.height, 0, placeholder, Some(cb)), v, r) && MarksOnLeaves([v])
    requires o < |Subtree(leaves, sh.height, 0)|
    requires LeafClimbs(Corrected(v, leaves[0], Some(cb))[..r], o)
    ensures VariantClimbs(v, r, o) && (Clears(v) ==> VariantClimbs(v, r, 0))
  {
    var local := Subtree(leaves, sh.height, 0);
    PlaceholderPart(leaves, sh, placeholder, cb, v, r);
    CorrectedPrefix(v, local[0], cb, r);
    ShapeIsValid(leaves, sh, 0);
    CeilLog2Least(|local|, r);
    CorrectedClimbsExactly(local, placeholder, v[..r], cb, o);
  }

  // ----- the whole delivery

  /** The subtree has several variants and one of them matches, so the filter drops those that do not. */
  predicate Sifted(cx: Context, stumps: seq<Stump>, index: nat)
  {
    Count(stumps, index) >= 2 && AnyMatch(cx, stumps, index)
  }

  /** Every STUMP of the delivery is sound; those of a sifted subtree store their judged climbs. */
  ghost predicate AllSound(leaves: seq<Hash>, sh: Shape, placeholder: Hash, cx: Context, stumps: seq<Stump>)
    requires ValidShape(sh) && sh.count == Width(|leaves|, sh.height)
  {
    forall st | st in stumps :: StumpSound(leaves, sh, placeholder, cx, st, Sifted(cx, stumps, st.subtreeIndex))
  }

  /** Every sound STUMP is kept. */
  lemma SoundKept(leaves: seq<Hash>, sh: Shape, placeholder: Hash, cx: Context, stumps: seq<Stump>)
    requires BlockKnown(leaves, sh, cx) && AllSound(leaves, sh, placeholder, cx, stumps)
    ensures Kept(cx, stumps, stumps) == stumps
  {
    forall st | st in stumps
      ensures Keeps(cx, stumps, st)
    {
      if RequiredHeight(sh, st.subtreeIndex) > 0 && Sifted(cx, stumps, st.subtreeIndex) {
        SoundMatches(leaves, sh, placeholder, cx, st);
      }
    }
    NothingDroppedExactly(cx, stumps);
  }

  lemma {:induction false} VariantFrom(stumps: seq<Stump>, i: nat, v: Path)
    requires v in VariantsOf(stumps, i)
    ensures Stump(i, Some(v)) in stumps
  {
    var most, last := stumps[..|stumps| - 1], stumps[|stumps| - 1];
    if v in VariantsOf(most, i) {
      VariantFrom(most, i, v);
    } else {
      assert last == Stump(i, Some(v));
    }
  }

  lemma VariantAgrees(
    leaves: seq<Hash>, sh: Shape, placeholder: Hash, coinbase: Option<Path>, stumps: seq<Stump>, i: nat, v: Path)
    requires ValidShape(sh) && sh.count == Width(|leaves|, sh.height)
    requires AllAgree(leaves, sh, placeholder, coinbase, stumps) && v in VariantsOf(stumps, i)
    ensures StumpAgrees(leaves, sh, placeholder, coinbase, Stump(i, Some(v)))
  {
    VariantFrom(stumps, i, v);
  }

  lemma {:induction false} VariantOf(stumps: seq<Stump>, st: Stump)
    requires st in stumps && st.data.Some?
    ensures st.data.value in VariantsOf(stumps, st.subtreeIndex)
  {
    if st != stumps[|stumps| - 1] {
      assert st in stumps[..|stumps| - 1];
      VariantOf(stumps[..|stumps| - 1], st);
    }
  }

  /** Some judged leaf of each sound STUMP climbs, and leaf 0 too where the STUMP carries it and the coinbase is swapped in. */
  lemma SoundClimbs(leaves: seq<Hash>, sh: Shape, placeholder: Hash, cx: Context, st: Stump, sifted: bool) returns (o: nat)
    requires BlockKnown(leaves, sh, cx) && StumpSound(leaves, sh, placeholder, cx, st, sifted)
    requires RequiredHeight(sh, st.subtreeIndex) > 0
    ensures var v, r := st.data.value, RequiredHeight(sh, st.subtreeIndex);
            && VariantClimbs(v, r, o)
            && (st.subtreeIndex == 0 && cx.coinbase.Some? && Clears(v) ==> VariantClimbs(v, r, 0))
  {
    var part := SubtreePart(cx, st);
    var h := Judged(part[0])[0];
    assert h in Judged(part[0]);
    o := JudgedOffset(part, h);
    JudgedLeafClimbs(leaves, sh, placeholder, cx, st, sifted, h, o);
  }

  lemma VariantSound(leaves: seq<Hash>, sh: Shape, placeholder: Hash, cx: Context, stumps: seq<Stump>, i: nat, v: Path)
    requires ValidShape(sh) && sh.count == Width(|leaves|, sh.height)
    requires AllSound(leaves, sh, placeholder, cx, stumps) && v in VariantsOf(stumps, i)
    ensures StumpSound(leaves, sh, placeholder, cx, Stump(i, Some(v)), Sifted(cx, stumps, i))
  {
    VariantFrom(stumps, i, v);
  }

  lemma SoundSubtree(leaves: seq<Hash>, sh: Shape, placeholder: Hash, cx: Context, stumps: seq<Stump>, i: nat)
    requires BlockKnown(leaves, sh, cx) && AllSound(leaves, sh, placeholder, cx, stumps)
    requires VariantsOf(stumps, i) != [] && i < sh.count && RequiredHeight(sh, i) > 0
    ensures SubtreeWell(DeliveredLeaves(leaves, sh.height, i, placeholder, cx.coinbase), VariantsOf(stumps, i),
                        RequiredHeight(sh, i), i == 0 && cx.coinbase.Some?)
  {
    var vs, r := VariantsOf(stumps, i), RequiredHeight(sh, i);
    forall v | v in vs
      ensures AgreesBelow(DeliveredLeaves(leaves, sh.height, i, placeholder, cx.coinbase), v, r)
      ensures exists o: nat :: VariantClimbs(v, r, o)
      ensures i == 0 && cx.coinbase.Some? ==> MarksOnLeaves([v]) && (Clears(v) ==> VariantClimbs(v, r, 0))
    {
      VariantSound(leaves, sh, placeholder, cx, stumps, i, v);
      var o := SoundClimbs(leaves, sh, placeholder, cx, Stump(i, Some(v)), Sifted(cx, stumps, i));
    }
    assert vs[0] in vs;
    if i == 0 && cx.coinbase.Some? {
      MarksTogether(vs);
    }
  }

  lemma MarksTogether(vs: seq<Path>)
    requires forall v | v in vs :: MarksOnLeaves([v])
    ensures MarksOnLeaves(vs)
  {
    forall v: Path, k: nat, e: PathElement | v in vs && 0 < k < |v| && e in v[k] && e.offset == 0
      ensures !e.tracked
    {
      assert MarksOnLeaves([v]) && v in [v];
    }
  }

  /** A sound delivery is kept whole and is well delivered. */
  lemma SoundDelivery(leaves: seq<Hash>, sh: Shape, placeholder: Hash, cx: Context, stumps: seq<Stump>)
    requires BlockKnown(leaves, sh, cx) && AllSound(leaves, sh, placeholder, cx, stumps)
    ensures Kept(cx, stumps, stumps) == stumps && DeliveredWell(leaves, sh, placeholder, cx.coinbase, stumps)
  {
    SoundKept(leaves, sh, placeholder, cx, stumps);
    forall i: nat | VariantsOf(stumps, i) != []
      ensures i < sh.count
      ensures RequiredHeight(sh, i) > 0 ==>
                SubtreeWell(DeliveredLeaves(leaves, sh.height, i, placeholder, cx.coinbase), VariantsOf(stumps, i),
                            RequiredHeight(sh, i), i == 0 && cx.coinbase.Some?)
    {
      VariantSound(leaves, sh, placeholder, cx, stumps, i, VariantsOf(stumps, i)[0]);
      if RequiredHeight(sh, i) > 0 {
        SoundSubtree(leaves, sh, placeholder, cx, stumps, i);
      }
    }
  }

  /** What the build works out about the block, from what is delivered for it. */
  lemma DeliveryKnown(
    leaves: seq<Hash>, h: nat, stumps: seq<Stump>, hashes: seq<Hash>, coinbase: Option<Path>, header: Option<Hash>,
    sh: Shape, cx: Context)
    requires BlockDelivery(leaves, h, stumps, hashes, coinbase, header)
    requires sh == BlockShape(leaves, h) && ValidShape(sh) && cx == ContextFor(CorrectedHashes(hashes, coinbase), coinbase, sh)
    ensures BlockKnown(leaves, sh, cx)
  {
    HeightFound(leaves, h, stumps, hashes, coinbase, header);
    RootsCorrected(leaves, h, hashes, coinbase);
  }

  /** A block delivered with sound STUMPs. */
  ghost predicate SoundBlock(
    leaves: seq<Hash>, h: nat, placeholder: Hash, stumps: seq<Stump>, hashes: seq<Hash>, coinbase: Option<Path>,
    header: Option<Hash>)
  {
    && BlockDelivery(leaves, h, stumps, hashes, coinbase, header) && ValidShape(BlockShape(leaves, h))
    && AllSound(leaves, BlockShape(leaves, h), placeholder,
                ContextFor(CorrectedHashes(hashes, coinbase), coinbase, BlockShape(leaves, h)), stumps)
  }

  lemma SoundBlockKnown(
    leaves: seq<Hash>, h: nat, placeholder: Hash, stumps: seq<Stump>, hashes: seq<Hash>, coinbase: Option<Path>,
    header: Option<Hash>, sh: Shape, cx: Context)
    requires SoundBlock(leaves, h, placeholder, stumps, hashes, coinbase, header)
    requires sh == BlockShape(leaves, h) && cx == ContextFor(CorrectedHashes(hashes, coinbase), coinbase, sh)
    ensures BlockKnown(leaves, sh, cx) && Kept(cx, stumps, stumps) == stumps
    ensures DeliveredWell(leaves, sh, placeholder, coinbase, stumps)
  {
    DeliveryKnown(leaves, h, stumps, hashes, coinbase, header, sh, cx);
    SoundDelivery(leaves, sh, placeholder, cx, stumps);
  }

  /** It is built exactly when no two variants of a subtree disagree, which they can only above the subtree's levels. */
  lemma SoundBuilt(
    leaves: seq<Hash>, h: nat, placeholder: Hash, stumps: seq<Stump>, hashes: seq<Hash>, coinbase: Option<Path>,
    header: Option<Hash>, r: BuildResult, lift: nat, merged: seq<MergedStump>)
    requires SoundBlock(leaves, h, placeholder, stumps, hashes, coinbase, header)
    requires IsBuild(r, stumps, CorrectedHashes(hashes, coinbase), coinbase, header, lift, merged)
    ensures r.Built? <==> Mergeable(stumps)
  {
    var sh := BlockShape(leaves, h);
    var cx := ContextFor(CorrectedHashes(hashes, coinbase), coinbase, sh);
    SoundBlockKnown(leaves, h, placeholder, stumps, hashes, coinbase, header, sh, cx);
    if Mergeable(stumps) {
      BuildSucceeds(leaves, h, placeholder, stumps, hashes, coinbase, header, r, lift, merged);
    } else {
      BuildMeasures(leaves, h, stumps, hashes, coinbase, header, r, lift, merged);
    }
  }

  /** Whatever climbs a sound STUMP has, the compound proves. */
  lemma SoundLeafProved(
    leaves: seq<Hash>, h: nat, placeholder: Hash, stumps: seq<Stump>, hashes: seq<Hash>, coinbase: Option<Path>,
    header: Option<Hash>, r: BuildResult, lift: nat, merged: seq<MergedStump>, i: nat, v: Path, o: nat, g: nat)
    requires SoundBlock(leaves, h, placeholder, stumps, hashes, coinbase, header)
    requires IsBuild(r, stumps, CorrectedHashes(hashes, coinbase), coinbase, header, lift, merged) && r.Built?
    requires v in VariantsOf(stumps, i) && VariantClimbs(v, RequiredHeight(BlockShape(leaves, h), i), o)
    requires g == Shl(i, h) + o
    ensures g < |leaves|
    ensures FindLeafByOffset(r.path, 0, g).Some? && FindLeafByOffset(r.path, 0, g).value.hash == Some(leaves[g])
    ensures Fold(r.path, 0, g, leaves[g]) ==
            if FinalLeafDelivered(BlockShape(leaves, h), stumps) then None else Some(Root(leaves))
  {
    var sh := BlockShape(leaves, h);
    var cx := ContextFor(CorrectedHashes(hashes, coinbase), coinbase, sh);
    SoundBlockKnown(leaves, h, placeholder, stumps, hashes, coinbase, header, sh, cx);
    BuildProvesLeaf(leaves, h, placeholder, stumps, hashes, coinbase, header, r, lift, merged, i, v, o, g);
  }

  lemma JudgedLeafOfBlock(
    leaves: seq<Hash>, sh: Shape, placeholder: Hash, cx: Context, stumps: seq<Stump>, st: Stump, sifted: bool, txid: Hash,
    o: nat, g: nat)
    requires BlockKnown(leaves, sh, cx) && StumpSound(leaves, sh, placeholder, cx, st, sifted) && st in stumps
    requires RequiredHeight(sh, st.subtreeIndex) > 0 && txid in Judged(SubtreePart(cx, st)[0])
    requires o == JudgedOffset(SubtreePart(cx, st), txid) && g == Shl(st.subtreeIndex, sh.height) + o
    ensures g < |leaves| && leaves[g] == txid
    ensures st.data.value in VariantsOf(stumps, st.subtreeIndex)
    ensures VariantClimbs(st.data.value, RequiredHeight(sh, st.subtreeIndex), o)
  {
    JudgedLeafClimbs(leaves, sh, placeholder, cx, st, sifted, txid, o);
    VariantOf(stumps, st);
    LeafUnder(leaves, sh.height, st.subtreeIndex, o, g);
  }

  lemma LeafUnder(leaves: seq<Hash>, h: nat, i: nat, o: nat, g: nat)
    requires i < Width(|leaves|, h) && o < |Subtree(leaves, h, i)| && g == Shl(i, h) + o
    ensures g < |leaves| && leaves[g] == Subtree(leaves, h, i)[o]
  {
    SubtreeUnder(leaves, h, i);
  }

  /**
   EVERY SERVICE'S TRANSACTIONS ARE PROVED. Of a block delivered with sound STUMPs, from however many services, the path
   BuildCompoundBUMP returns stores every leaf any STUMP is judged by (its tracked leaves, or all its leaves if it marks
   none) and folds it to the block's Merkle root, unless a STUMP came for a one-leaf final subtree.
   */
  lemma EveryJudgedLeafProved(
    leaves: seq<Hash>, h: nat, placeholder: Hash, stumps: seq<Stump>, hashes: seq<Hash>, coinbase: Option<Path>,
    header: Option<Hash>, r: BuildResult, lift: nat, merged: seq<MergedStump>, st: Stump, txid: Hash, cx: Context, g: nat)
    requires SoundBlock(leaves, h, placeholder, stumps, hashes, coinbase, header)
    requires IsBuild(r, stumps, CorrectedHashes(hashes, coinbase), coinbase, header, lift, merged) && r.Built?
    requires cx == ContextFor(CorrectedHashes(hashes, coinbase), coinbase, BlockShape(leaves, h))
    requires st in stumps && RequiredHeight(BlockShape(leaves, h), st.subtreeIndex) > 0
    requires txid in Judged(SubtreePart(cx, st)[0])
    requires g == Shl(st.subtreeIndex, h) + JudgedOffset(SubtreePart(cx, st), txid)
    ensures g < |leaves| && leaves[g] == txid
    ensures FindLeafByOffset(r.path, 0, g).Some? && FindLeafByOffset(r.path, 0, g).value.hash == Some(txid)
    ensures Fold(r.path, 0, g, txid) ==
            if FinalLeafDelivered(BlockShape(leaves, h), stumps) then None else Some(Root(leaves))
  {
    var sh, o := BlockShape(leaves, h), JudgedOffset(SubtreePart(cx, st), txid);
    SoundBlockKnown(leaves, h, placeholder, stumps, hashes, coinbase, header, sh, cx);
    JudgedLeafOfBlock(leaves, sh, placeholder, cx, stumps, st, Sifted(cx, stumps, st.subtreeIndex), txid, o, g);
    SoundLeafProved(leaves, h, placeholder, stumps, hashes, coinbase, header, r, lift, merged,
                    st.subtreeIndex, st.data.value, o, g);
  }
}
