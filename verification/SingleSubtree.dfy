/**
 A block with one subtree: its path is lifted from the subtree's root to the block's along the coinbase path, which
 occupies the same left spine.
 */
module SingleSubtree {
  import opened Prelude
  import opened MerkleTree
  import opened MerklePaths
  import opened Coinbase

  /** Spine siblings appended from `level` up, until one is missing or has no hash. */
  function Extended(p: Path, cb: Path, level: nat): Path
    decreases |cb| - level
  {
    if level >= |cb| then p
    else match SpineSibling(cb, level)
      case None => p
      case Some(e) =>
        if e.hash.None? then p
        else Extended(if FindLeafByOffset(p, level, 1).Some? then p else WithLeaf(p, level, Computed(1, e.hash.value)), cb, level + 1)
  }

  method ExtendSubtreeToBlockRoot(mp: MerklePath, coinbase: Option<Path>, internalHeight: nat)
    modifies mp
    ensures mp.path == if coinbase.None? then old(mp.path) else Extended(old(mp.path), coinbase.value, internalHeight)
  {
    if coinbase == None || |coinbase.value| <= internalHeight {
      return;
    }
    var cb := coinbase.value;
    ghost var p := mp.path;
    for level := internalHeight to |cb|
      invariant Extended(p, cb, internalHeight) == Extended(mp.path, cb, level)
    {
      var sib := FindLeafByOffset(cb, level, 1);
      if sib == None || sib.value.hash == None {
        return;
      }
      if FindLeafByOffset(mp.path, level, 1).Some? {
        continue;
      }
      AddLeaf(mp, level, PathElement(1, Some(sib.value.hash.value), false, false));
    }
  }

  lemma {:induction false} ExtendedAbove(p: Path, cb: Path, level: nat)
    ensures |p| <= |Extended(p, cb, level)|
    ensures forall k | 0 <= k < |p| && k < level :: Extended(p, cb, level)[k] == p[k]
    decreases |cb| - level
  {
    if level < |cb| && SpineSibling(cb, level).Some? && SpineSibling(cb, level).value.hash.Some? {
      var q := WithLeaf(p, level, Computed(1, SpineSibling(cb, level).value.hash.value));
      assert forall k | 0 <= k < |p| && k < level :: q[k] == Widened(p, level + 1)[..|p|][k];
      ExtendedAbove(p, cb, level + 1);
      ExtendedAbove(q, cb, level + 1);
    }
  }

  lemma {:induction false} ClimbsOneMore(p: Path, s: seq<PathElement>, level: nat, index: nat)
    requires level <= |p| && Climbs(p, level, index)
    requires Lookup(s, Sibling(Shr(index, |p| - level))).Some?
    ensures Climbs(p + [s], level, index)
    decreases |p| - level
  {
    if level < |p| {
      ShrStep(index, |p| - level);
      ClimbsOneMore(p, s, level + 1, index / 2);
    } else {
      assert (p + [s])[level] == s;
    }
  }

  lemma SpineStep(leaves: seq<Hash>, p: Path, cb: Path) returns (added: PathElement)
    requires FollowsSpine(leaves, cb, |cb|) && Agrees(leaves, p) && |p| < |cb|
    ensures added.offset == 1 && Agrees(leaves, p + [[added]])
    ensures Extended(p, cb, |p|) == Extended(p + [[added]], cb, |p| + 1)
  {
    SpineSiblingAgrees(leaves, cb, |cb|, |p|);
    added := Computed(1, SpineSibling(cb, |p|).value.hash.value);
    WithLeafAtEnd(p, added);
  }

  /** Extending an agreeing path reaches the coinbase path's height and keeps agreement and every spine-side climb. */
  lemma {:induction false} ExtensionKeeps(leaves: seq<Hash>, p: Path, cb: Path, o: nat)
    requires FollowsSpine(leaves, cb, |cb|) && Agrees(leaves, p) && |p| <= |cb|
    requires Climbs(p, 0, o) && Shr(o, |p|) == 0
    ensures var r := Extended(p, cb, |p|);
            |r| == |cb| && Agrees(leaves, r) && Climbs(r, 0, o)
    decreases |cb| - |p|
  {
    if |p| < |cb| {
      var added := SpineStep(leaves, p, cb);
      ClimbsOneMore(p, [added], 0, o);
      var q := p + [[added]];
      assert |q| == |p| + 1 && Shr(o, |q|) == 0;
      ExtensionKeeps(leaves, q, cb, o);
    }
  }

  /** In a one-subtree block every leaf whose climb the subtree path stores folds to the block's root. */
  lemma ExtensionReachesRoot(leaves: seq<Hash>, p: Path, cb: Path, o: nat)
    requires FollowsSpine(leaves, cb, |cb|) && |cb| == CeilLog2(|leaves|)
    requires Agrees(leaves, p) && |p| <= |cb|
    requires o < |leaves| && Shr(o, |p|) == 0 && Climbs(p, 0, o)
    ensures Fold(Extended(p, cb, |p|), 0, o, leaves[o]) == Some(Root(leaves))
  {
    ExtensionKeeps(leaves, p, cb, o);
    FoldReachesRoot(leaves, Extended(p, cb, |p|), o);
  }
}
