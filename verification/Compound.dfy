/**
 Assembling the block's compound path from one path per subtree: shift each to its place in the block, represent the
 final subtree's lift, seed the subtree-root layer where nothing was delivered, and complete the tree.
 */
module Compound {
  import opened Prelude
  import opened MerkleTree
  import opened MerklePaths
  import opened FillHashes
  import opened BlockPadding
  import opened Coinbase
  import opened SingleSubtree
  import opened Merging
  import opened VariantFilter

  /** The block's measures: internal subtree height, number of subtrees, lift of the final one. */
  datatype Shape = Shape(height: nat, count: nat, lift: nat)

  predicate ValidShape(sh: Shape)
  {
    sh.count >= 2 && sh.lift <= sh.height
  }

  /** How many levels of a subtree's path belong to the subtree. */
  function RequiredHeight(sh: Shape, index: nat): nat
    requires ValidShape(sh)
  {
    if index == sh.count - 1 then sh.height - sh.lift else sh.height
  }

  function RequiredHeights(sh: Shape): nat -> nat
    requires ValidShape(sh)
  {
    index => RequiredHeight(sh, index)
  }

  // ----- the compound before it is completed

  function Shifted(s: seq<PathElement>, shift: nat): (r: seq<PathElement>)
    ensures |r| == |s| && forall i | 0 <= i < |s| :: r[i] == s[i].(offset := s[i].offset + shift)
  {
    seq(|s|, i requires 0 <= i < |s| => s[i].(offset := s[i].offset + shift))
  }

  /** What one subtree's path contributes to level k of the block. */
  function StumpLevel(sh: Shape, m: MergedStump, k: nat): seq<PathElement>
    requires ValidShape(sh)
  {
    if k < RequiredHeight(sh, m.index) && k < |m.path| then Shifted(m.path[k], Shl(m.index, sh.height - k)) else []
  }

  function PlacedLevel(sh: Shape, ms: seq<MergedStump>, k: nat): seq<PathElement>
    requires ValidShape(sh)
  {
    if ms == [] then [] else PlacedLevel(sh, ms[..|ms| - 1], k) + StumpLevel(sh, ms[|ms| - 1], k)
  }

  function Indices(ms: seq<MergedStump>): set<nat>
  {
    set m | m in ms :: m.index
  }

  /** The duplicate flags that lift the final subtree's root to the common height. */
  function LiftLevel(sh: Shape, have: set<nat>, k: nat): seq<PathElement>
    requires ValidShape(sh)
  {
    if sh.lift > 0 && sh.count - 1 in have && sh.height - sh.lift <= k < sh.height
    then [DuplicateAt(Shl(sh.count - 1, sh.height - k) + 1)]
    else []
  }

  /** The subtree roots of the first `count` slots for which nothing was delivered. */
  function Seeds(sh: Shape, hashes: seq<Hash>, have: set<nat>, count: nat): seq<PathElement>
    requires ValidShape(sh) && count <= |hashes|
  {
    if count == 0 then []
    else
      var i := count - 1;
      Seeds(sh, hashes, have, i) +
      (if i in have then [] else [Computed(i, Lift(hashes[i], if i == sh.count - 1 then sh.lift else 0))])
  }

  function UnfilledLevel(hashes: seq<Hash>, sh: Shape, ms: seq<MergedStump>, k: nat): seq<PathElement>
    requires ValidShape(sh)
  {
    PlacedLevel(sh, ms, k) + LiftLevel(sh, Indices(ms), k) +
    (if k == sh.height then Seeds(sh, hashes, Indices(ms), |hashes|) else [])
  }

  /** The compound of the (corrected) paths `ms`, before it is completed. */
  function Unfilled(hashes: seq<Hash>, sh: Shape, ms: seq<MergedStump>): (p: Path)
    requires ValidShape(sh)
    ensures |p| == sh.height + CeilLog2(sh.count)
    ensures forall k | 0 <= k < |p| :: p[k] == UnfilledLevel(hashes, sh, ms, k)
  {
    seq(sh.height + CeilLog2(sh.count), k requires 0 <= k < sh.height + CeilLog2(sh.count) => UnfilledLevel(hashes, sh, ms, k))
  }

  /** A merged path with its coinbase swapped in, if it is subtree 0's. */
  function CorrectedStump(cx: Context, m: MergedStump): MergedStump
  {
    m.(path := CorrectedFor(cx, m.index, m.path))
  }

  function CorrectedStumps(cx: Context, ms: seq<MergedStump>): (r: seq<MergedStump>)
    ensures |r| == |ms| && forall i | 0 <= i < |ms| :: r[i] == CorrectedStump(cx, ms[i])
  {
    if ms == [] then [] else CorrectedStumps(cx, ms[..|ms| - 1]) + [CorrectedStump(cx, ms[|ms| - 1])]
  }

  // ----- placing

  /** Only level `level` of a path changed. */
  ghost predicate OnlyLevel(after: Path, before: Path, level: nat)
  {
    |after| == |before| && forall k | 0 <= k < |before| && k != level :: after[k] == before[k]
  }

  /** Adds one level's elements at their block offsets. */
  method PlaceLevel(compound: MerklePath, level: nat, elems: seq<PathElement>, shift: nat)
    requires level < |compound.path|
    modifies compound
    ensures OnlyLevel(compound.path, old(compound.path), level)
    ensures compound.path[level] == old(compound.path)[level] + Shifted(elems, shift)
  {
    ghost var was := compound.path;
    assert was[level] + Shifted(elems, shift)[..0] == was[level];
    for i := 0 to |elems|
      invariant OnlyLevel(compound.path, was, level)
      invariant compound.path[level] == was[level] + Shifted(elems, shift)[..i]
    {
      AddLeaf(compound, level, elems[i].(offset := elems[i].offset + shift));
      assert Shifted(elems, shift)[..i + 1] == Shifted(elems, shift)[..i] + [Shifted(elems, shift)[i]];
    }
    assert Shifted(elems, shift)[..|elems|] == Shifted(elems, shift);
  }

  /** Places the levels of one subtree's path that belong to the subtree. */
  method PlaceStump(compound: MerklePath, cx: Context, sh: Shape, m: MergedStump)
    requires ValidShape(sh) && sh.height <= |compound.path| && RequiredHeight(sh, m.index) <= |m.path|
    modifies compound
    ensures |compound.path| == |old(compound.path)|
    ensures forall k | 0 <= k < |compound.path| :: compound.path[k] == old(compound.path)[k] + StumpLevel(sh, CorrectedStump(cx, m), k)
  {
    ghost var was := compound.path;
    var copy := new MerklePath(m.path);
    if m.index == 0 && cx.coinbaseTxid.Some? {
      ApplyCoinbaseToStump(copy, cx.coinbaseTxid.value, cx.coinbase);
    }
    assert copy.path == CorrectedFor(cx, m.index, m.path);
    for level := 0 to RequiredHeight(sh, m.index)
      invariant |compound.path| == |was| && copy.path == CorrectedFor(cx, m.index, m.path)
      invariant forall k | 0 <= k < level :: compound.path[k] == was[k] + StumpLevel(sh, CorrectedStump(cx, m), k)
      invariant forall k | level <= k < |was| :: compound.path[k] == was[k]
    {
      PlaceLevel(compound, level, copy.path[level], Shl(m.index, sh.height - level));
    }
  }

  method PlaceLift(compound: MerklePath, sh: Shape, have: set<nat>)
    requires ValidShape(sh) && sh.height <= |compound.path|
    modifies compound
    ensures |compound.path| == |old(compound.path)|
    ensures forall k | 0 <= k < |compound.path| :: compound.path[k] == old(compound.path)[k] + LiftLevel(sh, have, k)
  {
    ghost var was := compound.path;
    var finalIdx := sh.count - 1;
    if sh.lift > 0 && finalIdx in have {
      for level := sh.height - sh.lift to sh.height
        invariant |compound.path| == |was|
        invariant forall k | 0 <= k < level :: compound.path[k] == was[k] + LiftLevel(sh, have, k)
        invariant forall k | level <= k < |was| :: compound.path[k] == was[k]
      {
        AddLeaf(compound, level, DuplicateAt(Shl(finalIdx, sh.height - level) + 1));
      }
    }
  }

  method SeedRoots(compound: MerklePath, sh: Shape, hashes: seq<Hash>, have: set<nat>)
    requires ValidShape(sh) && sh.height < |compound.path|
    modifies compound
    ensures OnlyLevel(compound.path, old(compound.path), sh.height)
    ensures compound.path[sh.height] == old(compound.path)[sh.height] + Seeds(sh, hashes, have, |hashes|)
  {
    ghost var was := compound.path;
    assert was[sh.height] + [] == was[sh.height];
    for i := 0 to |hashes|
      invariant OnlyLevel(compound.path, was, sh.height)
      invariant compound.path[sh.height] == was[sh.height] + Seeds(sh, hashes, have, i)
    {
      assert forall s: seq<PathElement> {:trigger s + []} :: s + [] == s;
      if i in have {
        continue;
      }
      var hash := hashes[i];
      if i == sh.count - 1 {
        for k := 0 to sh.lift
          invariant hash == Lift(hashes[i], k)
        {
          hash := MerkleTreeParent(hash, hash);
        }
      }
      AddLeaf(compound, sh.height, Computed(i, hash));
    }
  }

  // ----- assembleFullPath

  datatype BuildError = NoStumps | BadIndex(index: nat) | Unparseable(index: nat) | Disagreement(index: nat) | TooShort(index: nat)

  datatype AssembleResult = Assembled(path: Path, txOffset: nat) | NotAssembled(error: BuildError)

  datatype BuildResult = Built(path: Path, txids: seq<Hash>) | NotBuilt(error: BuildError)

  /** The offset of the first tracked leaf, or 0. */
  function FirstTracked(s: seq<PathElement>): nat
  {
    if s == [] then 0 else if s[0].tracked then s[0].offset else FirstTracked(s[1..])
  }

  method FindTracked(path: Path, internalHeight: nat) returns (txOffset: nat)
    requires internalHeight <= |path|
    ensures txOffset == if internalHeight == 0 then 0 else FirstTracked(path[0])
  {
    txOffset := 0;
    if internalHeight > 0 {
      for i := 0 to |path[0]|
        invariant FirstTracked(path[0]) == FirstTracked(path[0][i..])
      {
        if path[0][i].tracked {
          return path[0][i].offset;
        }
      }
    }
  }

  function ContextFor(hashes: seq<Hash>, coinbase: Option<Path>, sh: Shape): Context
    requires ValidShape(sh)
  {
    Context(hashes, RequiredHeights(sh), ExtractCoinbaseTxid(coinbase), coinbase)
  }

  function SwapCoinbase(p: Path, index: nat, coinbase: Option<Path>): (q: Path)
    ensures |q| == |p|
  {
    var txid := ExtractCoinbaseTxid(coinbase);
    if index == 0 && txid.Some? then Corrected(p, txid.value, coinbase) else p
  }

  /** A one-subtree block's path: corrected, filled in, and extended to the coinbase path's height. */
  ghost predicate IsSinglePath(path: Path, p: Path, index: nat, coinbase: Option<Path>)
  {
    var q := SwapCoinbase(p, index, coinbase);
    WellFormed(q) ==>
      exists f: Path :: IsFilling(f, q) && path == (if coinbase.None? then f else Extended(f, coinbase.value, |p|))
  }

  /** One STUMP of a block of several subtrees, unlifted, before it is completed. */
  function UnfilledStump(p: Path, index: nat, hashes: seq<Hash>, coinbase: Option<Path>): Path
    requires |hashes| >= 2
  {
    Unfilled(hashes, Shape(|p|, |hashes|, 0), [MergedStump(index, SwapCoinbase(p, index, coinbase), [])])
  }

  /** The path of one STUMP, completed by the two helper passes, is the compound pass's. */
  ghost predicate IsStumpPath(path: Path, p: Path, index: nat, hashes: seq<Hash>, coinbase: Option<Path>)
    requires |hashes| >= 2
  {
    var u := UnfilledStump(p, index, hashes, coinbase);
    && |path| == |u|
    && (WellFormed(u) && InRange(u, |p|, |hashes|) ==> IsCompletion(path, u, |p|, |hashes|))
  }

  ghost predicate IsAssembly(r: AssembleResult, data: Option<Path>, index: nat, hashes: seq<Hash>, coinbase: Option<Path>)
  {
    if index >= |hashes| then
      r == NotAssembled(BadIndex(index))
    else if data.None? then
      r == NotAssembled(Unparseable(index))
    else
      && r.Assembled?
      && var p := data.value;
         var q := SwapCoinbase(p, index, coinbase);
         var shift := if |hashes| == 1 then 0 else Shl(index, |p|);
         && r.txOffset == (if |p| == 0 then 0 else FirstTracked(Shifted(q[0], shift)))
         && (|hashes| == 1 ==> IsSinglePath(r.path, p, index, coinbase))
         && (|hashes| >= 2 ==> IsStumpPath(r.path, p, index, hashes, coinbase))
  }

  method AssembleFullPath(data: Option<Path>, subtreeIndex: nat, subtreeHashes: seq<Hash>, coinbase: Option<Path>)
    returns (r: AssembleResult)
    ensures IsAssembly(r, data, subtreeIndex, subtreeHashes, coinbase)
  {
    if subtreeIndex >= |subtreeHashes| {
      return NotAssembled(BadIndex(subtreeIndex));
    }
    if data == None {
      return NotAssembled(Unparseable(subtreeIndex));
    }
    var path, txOffset;
    if |subtreeHashes| <= 1 {
      path, txOffset := AssembleSingle(data.value, subtreeIndex, coinbase);
    } else {
      path, txOffset := AssembleStump(data.value, subtreeIndex, subtreeHashes, coinbase);
    }
    return Assembled(path, txOffset);
  }

  /** The multi-subtree branch. */
  method AssembleStump(p: Path, index: nat, hashes: seq<Hash>, coinbase: Option<Path>)
    returns (path: Path, txOffset: nat)
    requires |hashes| >= 2
    ensures txOffset == if |p| == 0 then 0 else FirstTracked(Shifted(SwapCoinbase(p, index, coinbase)[0], Shl(index, |p|)))
    ensures IsStumpPath(path, p, index, hashes, coinbase)
  {
    var full;
    full, txOffset := LayOutStump(p, index, hashes, coinbase);
    ghost var u := full.path;
    ComputeMissingHashes(full);
    ghost var filled := full.path;
    PadAndComputeBlockLevel(full, |p|, |hashes|);
    if WellFormed(u) && InRange(u, |p|, |hashes|) {
      PassesAgree(u, filled, full.path, |p|, |hashes|);
    }
    path := full.path;
  }

  /** The STUMP's levels at their block offsets, and the other subtrees' roots. */
  method LayOutStump(p: Path, index: nat, hashes: seq<Hash>, coinbase: Option<Path>)
    returns (full: MerklePath, txOffset: nat)
    requires |hashes| >= 2
    ensures fresh(full) && full.path == UnfilledStump(p, index, hashes, coinbase)
    ensures txOffset == if |p| == 0 then 0 else FirstTracked(Shifted(SwapCoinbase(p, index, coinbase)[0], Shl(index, |p|)))
  {
    var sh := Shape(|p|, |hashes|, 0);
    var cx := ContextFor(hashes, coinbase, sh);
    var m := MergedStump(index, p, []);
    CeilLog2Positive(sh.count);
    full := new MerklePath(seq(sh.height + CeilLog2(sh.count), _ => []));
    PlaceStump(full, cx, sh, m);
    txOffset := FindTracked(full.path, |p|);
    assert |p| > 0 ==> full.path[0] == StumpLevel(sh, CorrectedStump(cx, m), 0);
    SeedRoots(full, sh, hashes, {index});
    OneStumpUnfilled(hashes, sh, CorrectedStump(cx, m), full.path);
  }

  lemma CeilLog2Positive(n: nat)
    requires n >= 2
    ensures CeilLog2(n) >= 1
  {
  }

  lemma OneStumpUnfilled(hashes: seq<Hash>, sh: Shape, m: MergedStump, path: Path)
    requires ValidShape(sh) && sh.lift == 0 && |path| == sh.height + CeilLog2(sh.count)
    requires forall k | 0 <= k < |path| && k != sh.height :: path[k] == [] + StumpLevel(sh, m, k)
    requires sh.height < |path|
    requires path[sh.height] == [] + StumpLevel(sh, m, sh.height) + Seeds(sh, hashes, {m.index}, |hashes|)
    ensures path == Unfilled(hashes, sh, [m])
  {
    assert Indices([m]) == {m.index};
    forall k | 0 <= k < |path|
      ensures path[k] == UnfilledLevel(hashes, sh, [m], k)
    {
      assert [m][..0] == [];
      assert PlacedLevel(sh, [], k) == [];
      assert PlacedLevel(sh, [m], k) == StumpLevel(sh, m, k);
    }
  }

  /** The single-subtree branch. */
  method AssembleSingle(p: Path, index: nat, coinbase: Option<Path>) returns (path: Path, txOffset: nat)
    ensures txOffset == if |p| == 0 then 0 else FirstTracked(Shifted(SwapCoinbase(p, index, coinbase)[0], 0))
    ensures IsSinglePath(path, p, index, coinbase)
  {
    var mp := new MerklePath(p);
    var txid := ExtractCoinbaseTxid(coinbase);
    if index == 0 && txid.Some? {
      ApplyCoinbaseToStump(mp, txid.value, coinbase);
    }
    ghost var q := mp.path;
    ComputeMissingHashes(mp);
    ghost var f := mp.path;
    assert WellFormed(q) ==> IsFilling(f, q);
    ExtendSubtreeToBlockRoot(mp, coinbase, |p|);
    path := mp.path;
    if coinbase.Some? {
      ExtendedAbove(f, coinbase.value, |p|);
    }
    assert |p| > 0 ==> Shifted(q[0], 0) == q[0];
    txOffset := FindTracked(path, |p|);
  }
}
