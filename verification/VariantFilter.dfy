/** Dropping the variants of a subtree that do not fold to its root, when some variant does. */
module VariantFilter {
  import opened Prelude
  import opened MerkleTree
  import opened MerklePaths
  import opened Coinbase
  import opened Merging

  /** The hashes of the leaves of `s`; with `trackedOnly`, of the tracked ones. */
  function LeafHashes(s: seq<PathElement>, trackedOnly: bool): seq<Hash>
  {
    if s == [] then []
    else
      var most, last := LeafHashes(s[..|s| - 1], trackedOnly), s[|s| - 1];
      if last.hash.Some? && (!trackedOnly || last.tracked) then most + [last.hash.value] else most
  }

  /** The leaves a variant is judged by: the tracked ones, or all when none is marked. */
  function Judged(s: seq<PathElement>): seq<Hash>
  {
    if LeafHashes(s, true) != [] then LeafHashes(s, true) else LeafHashes(s, false)
  }

  /** What the filter is given about the block. */
  datatype Context = Context(
    subtreeHashes: seq<Hash>, required: nat -> nat, coinbaseTxid: Option<Hash>, coinbase: Option<Path>)

  function CorrectedFor(cx: Context, index: nat, p: Path): (q: Path)
    ensures |q| == |p|
  {
    if index == 0 && cx.coinbaseTxid.Some? then Corrected(p, cx.coinbaseTxid.value, cx.coinbase) else p
  }

  /** Every judged leaf of the variant folds, over the subtree's own height, to the subtree's root. */
  predicate Matches(cx: Context, st: Stump)
  {
    var index := st.subtreeIndex;
    && index < |cx.subtreeHashes| && st.data.Some?
    && 0 < cx.required(index) <= |st.data.value|
    && var subtree := CorrectedFor(cx, index, st.data.value)[..cx.required(index)];
       && Judged(subtree[0]) != []
       && forall h | h in Judged(subtree[0]) :: ComputeRoot(subtree, h) == Some(cx.subtreeHashes[index])
  }

  method CollectLeaves(s: seq<PathElement>, trackedOnly: bool) returns (leaves: seq<Hash>)
    ensures leaves == LeafHashes(s, trackedOnly)
  {
    leaves := [];
    for i := 0 to |s|
      invariant leaves == LeafHashes(s[..i], trackedOnly)
    {
      assert s[..i + 1][..i] == s[..i];
      if s[i].hash.Some? && (!trackedOnly || s[i].tracked) {
        leaves := leaves + [s[i].hash.value];
      }
    }
    assert s[..|s|] == s;
  }

  method VariantFoldsToRoot(cx: Context, st: Stump) returns (r: bool)
    requires st.subtreeIndex < |cx.subtreeHashes|
    ensures r == Matches(cx, st)
  {
    var index := st.subtreeIndex;
    var height := cx.required(index);
    if st.data == None || height <= 0 || |st.data.value| < height {
      return false;
    }
    var copy := new MerklePath(st.data.value);
    if index == 0 && cx.coinbaseTxid.Some? {
      ApplyCoinbaseToStump(copy, cx.coinbaseTxid.value, cx.coinbase);
    }
    var subtree := copy.path[..height];
    var leaves := CollectLeaves(subtree[0], true);
    if |leaves| == 0 {
      leaves := CollectLeaves(subtree[0], false);
    }
    if |leaves| == 0 {
      return false;
    }
    for i := 0 to |leaves|
      invariant forall j | 0 <= j < i :: ComputeRoot(subtree, leaves[j]) == Some(cx.subtreeHashes[index])
    {
      if ComputeRoot(subtree, leaves[i]) != Some(cx.subtreeHashes[index]) {
        assert leaves[i] in Judged(subtree[0]);
        return false;
      }
    }
    return true;
  }

  // ----- the filter

  function Count(stumps: seq<Stump>, index: nat): nat
  {
    if stumps == [] then 0
    else Count(stumps[..|stumps| - 1], index) + (if stumps[|stumps| - 1].subtreeIndex == index then 1 else 0)
  }

  predicate AnyMatch(cx: Context, stumps: seq<Stump>, index: nat)
  {
    exists st | st in stumps :: st.subtreeIndex == index && Matches(cx, st)
  }

  /** A variant is dropped only when its subtree has several, one of them matches, and it does not. */
  predicate Keeps(cx: Context, stumps: seq<Stump>, st: Stump)
  {
    !(Count(stumps, st.subtreeIndex) >= 2 && AnyMatch(cx, stumps, st.subtreeIndex) && !Matches(cx, st))
  }

  function Kept(cx: Context, all: seq<Stump>, stumps: seq<Stump>): seq<Stump>
  {
    if stumps == [] then []
    else
      var most, last := Kept(cx, all, stumps[..|stumps| - 1]), stumps[|stumps| - 1];
      if Keeps(cx, all, last) then most + [last] else most
  }

  method CountVariants(stumps: seq<Stump>) returns (count: map<nat, nat>)
    ensures forall index: nat :: Count(stumps, index) == if index in count then count[index] else 0
  {
    count := map[];
    for i := 0 to |stumps|
      invariant forall index: nat :: Count(stumps[..i], index) == if index in count then count[index] else 0
    {
      assert stumps[..i + 1][..i] == stumps[..i];
      var index := stumps[i].subtreeIndex;
      count := count[index := (if index in count then count[index] else 0) + 1];
    }
    assert stumps[..|stumps|] == stumps;
  }

  method DropVariantsOffSubtreeRoot(cx: Context, stumps: seq<Stump>) returns (out: seq<Stump>)
    ensures out == Kept(cx, stumps, stumps)
  {
    var count: map<nat, nat> := CountVariants(stumps);
    var matches, anyMatch := MatchVariants(cx, stumps, count);
    out := [];
    for i := 0 to |stumps|
      invariant out == Kept(cx, stumps, stumps[..i])
    {
      var st := stumps[i];
      assert st in stumps && stumps[..i + 1][..i] == stumps[..i];
      if st.subtreeIndex in count && count[st.subtreeIndex] >= 2 && st.subtreeIndex in anyMatch && st !in matches {
        continue;
      }
      out := out + [st];
    }
    assert stumps[..|stumps|] == stumps;
  }

  /** Of the subtrees with several variants, the variants that match and the subtrees that have one. */
  method MatchVariants(cx: Context, stumps: seq<Stump>, count: map<nat, nat>)
    returns (matches: set<Stump>, anyMatch: set<nat>)
    requires forall index: nat :: Count(stumps, index) == if index in count then count[index] else 0
    ensures forall st | st in stumps && Count(stumps, st.subtreeIndex) >= 2 :: st in matches <==> Matches(cx, st)
    ensures forall index: nat | Count(stumps, index) >= 2 :: index in anyMatch <==> AnyMatch(cx, stumps, index)
  {
    matches, anyMatch := {}, {};
    for i := 0 to |stumps|
      invariant forall st | st in stumps[..i] && Count(stumps, st.subtreeIndex) >= 2 :: st in matches <==> Matches(cx, st)
      invariant forall st | st in matches :: Matches(cx, st)
      invariant forall index: nat | Count(stumps, index) >= 2 :: index in anyMatch <==> AnyMatch(cx, stumps[..i], index)
    {
      var st := stumps[i];
      AnyMatchStep(cx, stumps, i);
      if st.subtreeIndex !in count || count[st.subtreeIndex] < 2 || st.subtreeIndex >= |cx.subtreeHashes| {
        continue;
      }
      var folds := VariantFoldsToRoot(cx, st);
      if folds {
        matches := matches + {st};
        anyMatch := anyMatch + {st.subtreeIndex};
      }
    }
    assert stumps[..|stumps|] == stumps;
  }

  lemma AnyMatchStep(cx: Context, stumps: seq<Stump>, i: nat)
    requires i < |stumps|
    ensures stumps[..i + 1] == stumps[..i] + [stumps[i]]
    ensures forall index: nat :: AnyMatch(cx, stumps[..i + 1], index) <==>
              AnyMatch(cx, stumps[..i], index) || (stumps[i].subtreeIndex == index && Matches(cx, stumps[i]))
  {
    var front, next := stumps[..i], stumps[..i + 1];
    assert next == front + [stumps[i]];
    forall index: nat
      ensures AnyMatch(cx, next, index) <==>
              AnyMatch(cx, front, index) || (stumps[i].subtreeIndex == index && Matches(cx, stumps[i]))
    {
      assert stumps[i] in next && forall st | st in front :: st in next;
    }
  }

  // ----- what the filter guarantees

  lemma {:induction false} KeptMembers(cx: Context, all: seq<Stump>, stumps: seq<Stump>)
    ensures forall st :: st in Kept(cx, all, stumps) <==> st in stumps && Keeps(cx, all, st)
  {
    if stumps != [] {
      KeptMembers(cx, all, stumps[..|stumps| - 1]);
      assert stumps == stumps[..|stumps| - 1] + [stumps[|stumps| - 1]];
    }
  }

  /** No matching variant is dropped, no subtree loses all its variants, and where one matches only matching ones stay. */
  lemma FilterGuarantees(cx: Context, stumps: seq<Stump>, st: Stump)
    requires st in stumps
    ensures Matches(cx, st) ==> st in Kept(cx, stumps, stumps)
    ensures exists other :: other in Kept(cx, stumps, stumps) && other.subtreeIndex == st.subtreeIndex
    ensures Count(stumps, st.subtreeIndex) >= 2 && AnyMatch(cx, stumps, st.subtreeIndex) ==>
              (st in Kept(cx, stumps, stumps) <==> Matches(cx, st))
  {
    KeptMembers(cx, stumps, stumps);
    if !Keeps(cx, stumps, st) {
      var other :| other in stumps && other.subtreeIndex == st.subtreeIndex && Matches(cx, other);
      assert Keeps(cx, stumps, other);
    }
  }

  /** Nothing is dropped exactly when, in each subtree with several variants, all of them match or none does. */
  lemma NothingDroppedExactly(cx: Context, stumps: seq<Stump>)
    ensures Kept(cx, stumps, stumps) == stumps <==> forall st | st in stumps :: Keeps(cx, stumps, st)
  {
    KeptMembers(cx, stumps, stumps);
    if forall st | st in stumps :: Keeps(cx, stumps, st) {
      KeptAll(cx, stumps, stumps);
    }
  }

  lemma {:induction false} KeptAll(cx: Context, all: seq<Stump>, stumps: seq<Stump>)
    requires forall st | st in stumps :: Keeps(cx, all, st)
    ensures Kept(cx, all, stumps) == stumps
  {
    if stumps != [] {
      KeptAll(cx, all, stumps[..|stumps| - 1]);
      assert stumps[|stumps| - 1] in stumps && stumps == stumps[..|stumps| - 1] + [stumps[|stumps| - 1]];
    }
  }

  // ----- which variants match

  /** The levels of a variant that belong to its subtree, corrected for the coinbase: what the filter folds. */
  function SubtreePart(cx: Context, st: Stump): (p: Path)
    requires st.data.Some? && cx.required(st.subtreeIndex) <= |st.data.value|
    ensures |p| == cx.required(st.subtreeIndex)
  {
    CorrectedFor(cx, st.subtreeIndex, st.data.value)[..cx.required(st.subtreeIndex)]
  }

  /** The climb of every judged hash is stored, from the first leaf that carries it. */
  predicate JudgedClimb(p: Path)
    requires |p| > 0
  {
    && Judged(p[0]) != []
    && forall h | h in Judged(p[0]) ::
         FindLeafByHash(p[0], h).Some? && Climbs(p, 0, FindLeafByHash(p[0], h).value.offset)
  }

  /**
   A variant that agrees with its subtree matches exactly when every judged climb is stored. Only a lone leaf, which the
   root computation takes for the root itself, is judged by its hash instead.
   */
  lemma MatchesExactly(cx: Context, st: Stump, leaves: seq<Hash>)
    requires st.subtreeIndex < |cx.subtreeHashes| && st.data.Some? && leaves != []
    requires cx.required(st.subtreeIndex) == CeilLog2(|leaves|) && 0 < CeilLog2(|leaves|) <= |st.data.value|
    requires cx.subtreeHashes[st.subtreeIndex] == Root(leaves)
    requires Agrees(leaves, SubtreePart(cx, st))
    ensures var p := SubtreePart(cx, st);
            Matches(cx, st) <==> if |p| == 1 && |p[0]| == 1 then Judged(p[0]) == [Root(leaves)] else JudgedClimb(p)
  {
    var p := SubtreePart(cx, st);
    if |p| == 1 && |p[0]| == 1 {
      LoneLeaf(p);
    } else {
      forall h | h in Judged(p[0])
        ensures FindLeafByHash(p[0], h).Some?
        ensures ComputeRoot(p, h) == Some(Root(leaves)) <==> Climbs(p, 0, FindLeafByHash(p[0], h).value.offset)
      {
        JudgedFolds(leaves, p, h);
      }
    }
  }

  lemma LoneLeaf(p: Path)
    requires |p| == 1 && |p[0]| == 1
    ensures Judged(p[0]) == if p[0][0].hash.Some? then [p[0][0].hash.value] else []
    ensures forall h | h in Judged(p[0]) :: ComputeRoot(p, h) == Some(h)
  {
    assert p[0][..0] == [] && p[0][0] == p[0][|p[0]| - 1];
    assert LeafHashes([], true) == [] && LeafHashes([], false) == [];
  }

  lemma JudgedFolds(leaves: seq<Hash>, p: Path, h: Hash)
    requires leaves != [] && |p| == CeilLog2(|leaves|) && |p| > 0 && Agrees(leaves, p)
    requires !(|p| == 1 && |p[0]| == 1) && h in Judged(p[0])
    ensures FindLeafByHash(p[0], h).Some?
    ensures ComputeRoot(p, h) == Some(Root(leaves)) <==> Climbs(p, 0, FindLeafByHash(p[0], h).value.offset)
  {
    JudgedIsLeaf(p[0], h);
    var e := FindLeafByHash(p[0], h).value;
    assert ElementAgrees(leaves, 0, e);
    FoldAgrees(leaves, p, 0, e.offset, h);
    if Climbs(p, 0, e.offset) {
      FoldReachesRoot(leaves, p, e.offset);
    }
  }

  /** The hashes listed are exactly those of the leaves, or of the tracked leaves. */
  lemma {:induction false} LeafHashesExact(s: seq<PathElement>, trackedOnly: bool, h: Hash)
    ensures h in LeafHashes(s, trackedOnly) <==> exists e :: e in s && e.hash == Some(h) && (!trackedOnly || e.tracked)
  {
    if s != [] {
      LeafHashesExact(s[..|s| - 1], trackedOnly, h);
      assert s == s[..|s| - 1] + [s[|s| - 1]];
    }
  }

  lemma {:induction false} FindMember(s: seq<PathElement>, e: PathElement)
    requires e in s && e.hash.Some?
    ensures FindLeafByHash(s, e.hash.value).Some?
  {
    if s[0].hash != e.hash {
      FindMember(s[1..], e);
    }
  }

  lemma JudgedIsLeaf(s: seq<PathElement>, h: Hash)
    requires h in Judged(s)
    ensures FindLeafByHash(s, h).Some?
  {
    LeafHashesExact(s, LeafHashes(s, true) != [], h);
    var e :| e in s && e.hash == Some(h);
    FindMember(s, e);
  }
}
