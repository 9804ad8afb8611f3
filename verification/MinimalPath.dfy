/**
 Per-transaction minimal paths: the extraction of one by linear scan, what it folds to, and AssembleBUMP, which cuts one
 from a single STUMP's assembled path.
 */
module MinimalPath {
  import opened Prelude
  import opened MerkleTree
  import opened MerklePaths
  import opened BlockPadding
  import opened Merging
  import opened Compound
  import opened BuildCompound

  function Stored(e: Option<PathElement>): seq<PathElement>
  {
    if e.Some? then [e.value] else []
  }

  /** Level `level` of the minimal path of leaf `o`: the leaf and its sibling at the bottom, the sibling above. */
  function MinimalLevel(p: Path, o: nat, level: nat): seq<PathElement>
    requires level < |p|
  {
    (if level == 0 then Stored(Lookup(p[0], o)) else []) + Stored(Lookup(p[level], Sibling(Shr(o, level))))
  }

  function Minimal(p: Path, o: nat): (r: Path)
    ensures |r| == |p| && forall k | 0 <= k < |p| :: r[k] == MinimalLevel(p, o, k)
  {
    seq(|p|, k requires 0 <= k < |p| => MinimalLevel(p, o, k))
  }

  method ExtractMinimalPath(fullPath: Path, txOffset: nat) returns (mp: MerklePath)
    ensures fresh(mp) && mp.path == Minimal(fullPath, txOffset)
  {
    mp := new MerklePath(seq(|fullPath|, _ => []));
    var offset := txOffset;
    for level := 0 to |fullPath|
      invariant |mp.path| == |fullPath| && offset == Shr(txOffset, level)
      invariant forall k | 0 <= k < level :: mp.path[k] == MinimalLevel(fullPath, txOffset, k)
      invariant forall k | level <= k < |fullPath| :: mp.path[k] == []
    {
      if level == 0 {
        var leaf := FindLeafByOffset(fullPath, level, offset);
        if leaf.Some? {
          AddLeaf(mp, level, leaf.value);
        }
      }
      var sibling := FindLeafByOffset(fullPath, level, Sibling(offset));
      if sibling.Some? {
        AddLeaf(mp, level, sibling.value);
      }
      offset := offset / 2;
    }
    assert mp.path == Minimal(fullPath, txOffset);
  }

  // ----- what a minimal path is worth

  /** At most two elements at the bottom and one above. */
  lemma MinimalIsSmall(p: Path, o: nat, k: nat)
    requires k < |p|
    ensures |Minimal(p, o)[k]| <= if k == 0 then 2 else 1
  {
  }

  /** The minimal path keeps the leaf and every sibling of its climb. */
  lemma MinimalSlots(p: Path, o: nat, k: nat)
    requires k < |p|
    ensures Lookup(Minimal(p, o)[k], Sibling(Shr(o, k))) == Lookup(p[k], Sibling(Shr(o, k)))
    ensures k == 0 ==> Lookup(Minimal(p, o)[0], o) == Lookup(p[0], o)
  {
    var leaf, sibling := Lookup(p[k], Shr(o, k)), Lookup(p[k], Sibling(Shr(o, k)));
    LookupConcat(if k == 0 then Stored(leaf) else [], Stored(sibling), Sibling(Shr(o, k)));
    LookupConcat(if k == 0 then Stored(leaf) else [], Stored(sibling), o);
  }

  /** Leaf o folds in its minimal path exactly as in the full one. */
  lemma {:induction false} MinimalFolds(p: Path, o: nat, level: nat, working: Hash)
    requires level <= |p|
    ensures Fold(Minimal(p, o), level, Shr(o, level), working) == Fold(p, level, Shr(o, level), working)
    decreases |p| - level
  {
    if level < |p| {
      MinimalSlots(p, o, level);
      match Lookup(p[level], Sibling(Shr(o, level)))
      case None =>
      case Some(e) =>
        if e.duplicate || e.hash.Some? {
          MinimalFolds(p, o, level + 1, FoldStep(Shr(o, level), working, e));
        }
    }
  }

  /** Extracting again at the same offset changes nothing. */
  lemma MinimalIdempotent(p: Path, o: nat)
    ensures Minimal(Minimal(p, o), o) == Minimal(p, o)
  {
    forall k | 0 <= k < |p|
      ensures MinimalLevel(Minimal(p, o), o, k) == MinimalLevel(p, o, k)
    {
      MinimalSlots(p, o, k);
      if k > 0 {
        MinimalSlots(p, o, 0);
      }
    }
  }

  /** Paths with the same slots have the same minimal paths. */
  lemma SameSlotsSameMinimal(p: Path, q: Path, o: nat)
    requires |p| == |q| && forall k: nat, i: nat | k < |p| :: Lookup(p[k], i) == Lookup(q[k], i)
    ensures Minimal(p, o) == Minimal(q, o)
  {
    forall k | 0 <= k < |p|
      ensures MinimalLevel(p, o, k) == MinimalLevel(q, o, k)
    {
    }
  }

  // ----- AssembleBUMP

  /** The minimal path of the STUMP's first tracked transaction, and its block offset. */
  method AssembleBump(data: Option<Path>, subtreeIndex: nat, subtreeHashes: seq<Hash>, coinbase: Option<Path>)
    returns (r: AssembleResult, ghost full: AssembleResult)
    ensures IsAssembly(full, data, subtreeIndex, subtreeHashes, coinbase)
    ensures r == if full.Assembled? then Assembled(Minimal(full.path, full.txOffset), full.txOffset) else full
  {
    var assembled := AssembleFullPath(data, subtreeIndex, subtreeHashes, coinbase);
    full := assembled;
    if assembled.NotAssembled? {
      return assembled, full;
    }
    var mp := ExtractMinimalPath(assembled.path, assembled.txOffset);
    return Assembled(mp.path, assembled.txOffset), full;
  }

  /**
   The per-STUMP assembler and the compound builder extract the same minimal path: the compound of one STUMP, unlifted,
   over the same subtree roots, has the slots of the assembled path.
   */
  lemma AssemblyMatchesCompound(
    p: Path, index: nat, hashes: seq<Hash>, coinbase: Option<Path>, txids: seq<Hash>, full: AssembleResult, compound: Path, o: nat)
    requires |hashes| >= 2 && index < |hashes|
    requires IsAssembly(full, Some(p), index, hashes, coinbase)
    requires var sh := Shape(|p|, |hashes|, 0);
             IsCompound(compound, ContextFor(hashes, coinbase, sh), sh, [MergedStump(index, p, txids)])
    requires var u := UnfilledStump(p, index, hashes, coinbase); WellFormed(u) && InRange(u, |p|, |hashes|)
    ensures full.Assembled? && Minimal(full.path, o) == Minimal(compound, o)
  {
    var sh := Shape(|p|, |hashes|, 0);
    var cx := ContextFor(hashes, coinbase, sh);
    var m := MergedStump(index, p, txids);
    var u := UnfilledStump(p, index, hashes, coinbase);
    assert CorrectedStumps(cx, [m]) == [CorrectedStump(cx, m)];
    SameUnfilled(hashes, sh, CorrectedStump(cx, m), MergedStump(index, SwapCoinbase(p, index, coinbase), []));
    SameSlotsSameMinimal(full.path, compound, o);
  }

  lemma SameUnfilled(hashes: seq<Hash>, sh: Shape, m: MergedStump, m': MergedStump)
    requires ValidShape(sh) && m.index == m'.index && m.path == m'.path
    ensures Unfilled(hashes, sh, [m]) == Unfilled(hashes, sh, [m'])
  {
    assert Indices([m]) == Indices([m']) == {m.index};
    forall k: nat
      ensures UnfilledLevel(hashes, sh, [m], k) == UnfilledLevel(hashes, sh, [m'], k)
    {
      assert [m][..0] == [] && [m'][..0] == [];
      assert PlacedLevel(sh, [], k) == [];
    }
  }
}
