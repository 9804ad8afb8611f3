/**
 BRC-74 paths: per tree level, the elements a proof carries, and the fold that turns a leaf into a root.
 */
module MerklePaths {
  import opened Prelude
  import opened MerkleTree

  /** One stored node. `duplicate` is the BRC-74 flag: fold the working hash with itself here. */
  datatype PathElement = PathElement(offset: nat, hash: Option<Hash>, duplicate: bool, tracked: bool)

  type Path = seq<seq<PathElement>>

  /** The path under construction; helpers grow it in place. */
  class MerklePath {
    var path: Path

    constructor (path: Path)
      ensures this.path == path
    {
      this.path := path;
    }
  }

  /** A node the code computed itself. */
  function Computed(o: nat, h: Hash): PathElement
  {
    PathElement(o, Some(h), false, false)
  }

  function DuplicateAt(o: nat): PathElement
  {
    PathElement(o, None, true, false)
  }

  // ----- reading

  /** The first element at offset `o`. */
  function Lookup(s: seq<PathElement>, o: nat): (r: Option<PathElement>)
    ensures r.Some? ==> r.value in s && r.value.offset == o
  {
    if s == [] then None
    else if s[0].offset == o then Some(s[0])
    else Lookup(s[1..], o)
  }

  function FindLeafByOffset(p: Path, level: nat, offset: nat): Option<PathElement>
  {
    if level >= |p| then None else Lookup(p[level], offset)
  }

  predicate Distinct(s: seq<PathElement>)
  {
    forall i, j | 0 <= i < j < |s| :: s[i].offset != s[j].offset
  }

  /** No level repeats an offset. */
  predicate DistinctLevels(p: Path)
  {
    forall k | 0 <= k < |p| :: Distinct(p[k])
  }

  /** Offsets are unique within each level; no element carries both a hash and the duplicate flag. */
  predicate WellFormed(p: Path)
  {
    && DistinctLevels(p)
    && (forall k, e | 0 <= k < |p| && e in p[k] :: !(e.duplicate && e.hash.Some?))
  }

  lemma {:induction false} LookupNone(s: seq<PathElement>, o: nat)
    ensures Lookup(s, o).None? <==> forall e | e in s :: e.offset != o
  {
    if s != [] {
      LookupNone(s[1..], o);
      assert s == [s[0]] + s[1..];
    }
  }

  lemma {:induction false} LookupMember(s: seq<PathElement>, e: PathElement)
    requires Distinct(s) && e in s
    ensures Lookup(s, e.offset) == Some(e)
  {
    if s[0] != e {
      assert e in s[1..];
      LookupMember(s[1..], e);
    }
  }

  lemma {:induction false} LookupConcat(s: seq<PathElement>, t: seq<PathElement>, o: nat)
    ensures Lookup(s + t, o) == if Lookup(s, o).Some? then Lookup(s, o) else Lookup(t, o)
  {
    if s == [] {
      assert s + t == t;
    } else {
      assert (s + t)[1..] == s[1..] + t;
      LookupConcat(s[1..], t, o);
    }
  }

  lemma {:induction false} LookupUpdate(s: seq<PathElement>, i: nat, e: PathElement, o: nat)
    requires Distinct(s) && i < |s| && e.offset == s[i].offset
    ensures Distinct(s[i := e])
    ensures Lookup(s[i := e], o) == if o == e.offset then Some(e) else Lookup(s, o)
  {
    if i == 0 {
      assert s[0 := e][1..] == s[1..];
    } else {
      assert s[i := e][1..] == s[1..][i - 1 := e];
      LookupUpdate(s[1..], i - 1, e, o);
    }
  }

  lemma DistinctAppend(s: seq<PathElement>, e: PathElement)
    requires Distinct(s) && Lookup(s, e.offset).None?
    ensures Distinct(s + [e])
  {
    LookupNone(s, e.offset);
  }

  // ----- growing

  function Widened(p: Path, levels: nat): (r: Path)
    ensures |r| == if levels <= |p| then |p| else levels
    ensures r[..|p|] == p
    ensures forall k | |p| <= k < |r| :: r[k] == []
  {
    p + seq(if levels <= |p| then 0 else levels - |p|, _ => [])
  }

  function WithLeaf(p: Path, level: nat, e: PathElement): (r: Path)
    ensures level < |r|
  {
    var q := Widened(p, level + 1);
    q[level := q[level] + [e]]
  }

  lemma WithLeafAtEnd(p: Path, e: PathElement)
    ensures WithLeaf(p, |p|, e) == p + [[e]]
  {
    var q := Widened(p, |p| + 1);
    assert q == p + [[]];
    assert [] + [e] == [e];
    assert (p + [[]])[|p| := [e]] == p + [[e]];
  }

  method AddLeaf(mp: MerklePath, level: nat, elem: PathElement)
    modifies mp
    ensures mp.path == WithLeaf(old(mp.path), level, elem)
  {
    while level >= |mp.path|
      invariant old(mp.path) <= mp.path
      invariant |mp.path| <= |old(mp.path)| || |mp.path| <= level + 1
      invariant forall k | |old(mp.path)| <= k < |mp.path| :: mp.path[k] == []
      decreases level - |mp.path|
    {
      mp.path := mp.path + [[]];
    }
    assert mp.path == Widened(old(mp.path), level + 1);
    mp.path := mp.path[level := mp.path[level] + [elem]];
  }

  // ----- the BRC-74 root computation

  /** The node above `working`, which stands at `index`, given its sibling `e`: the flag wins, then parity orders. */
  function FoldStep(index: nat, working: Hash, e: PathElement): Hash
    requires e.duplicate || e.hash.Some?
  {
    if e.duplicate then MerkleTreeParent(working, working)
    else if index % 2 == 0 then MerkleTreeParent(working, e.hash.value)
    else MerkleTreeParent(e.hash.value, working)
  }

  /** Folds `working`, the node at `index` of `level`, up to the top of the path. */
  function Fold(p: Path, level: nat, index: nat, working: Hash): Option<Hash>
    requires level <= |p|
    decreases |p| - level
  {
    if level == |p| then Some(working)
    else match Lookup(p[level], Sibling(index))
      case None => None
      case Some(e) =>
        if !e.duplicate && e.hash.None? then None
        else Fold(p, level + 1, index / 2, FoldStep(index, working, e))
  }

  /** The first leaf carrying `txid`. */
  function FindLeafByHash(s: seq<PathElement>, txid: Hash): (r: Option<PathElement>)
    ensures r.Some? ==> r.value in s && r.value.hash == Some(txid)
  {
    if s == [] then None
    else if s[0].hash == Some(txid) then Some(s[0])
    else FindLeafByHash(s[1..], txid)
  }

  /** The root `txid` folds to; a one-transaction block's path is its own root. */
  function ComputeRoot(p: Path, txid: Hash): Option<Hash>
  {
    if |p| == 0 then None
    else match FindLeafByHash(p[0], txid)
      case None => None
      case Some(e) => if |p| == 1 && |p[0]| == 1 then Some(txid) else Fold(p, 0, e.offset, txid)
  }

  /** Every sibling of the climb from `index` of `level` is stored. */
  predicate Climbs(p: Path, level: nat, index: nat)
    requires level <= |p|
    decreases |p| - level
  {
    level == |p| || (Lookup(p[level], Sibling(index)).Some? && Climbs(p, level + 1, index / 2))
  }

  lemma {:induction false} FoldNeedsClimb(p: Path, level: nat, index: nat, working: Hash)
    requires level <= |p|
    ensures Fold(p, level, index, working).Some? ==> Climbs(p, level, index)
    decreases |p| - level
  {
    if level < |p| {
      match Lookup(p[level], Sibling(index))
      case None =>
      case Some(e) =>
        if e.duplicate || e.hash.Some? {
          FoldNeedsClimb(p, level + 1, index / 2, FoldStep(index, working, e));
        }
    }
  }

  /** A stored climb is stored from any level of it on. */
  lemma {:induction false} ClimbsOn(p: Path, level: nat, k: nat, index: nat)
    requires level <= k <= |p| && Climbs(p, level, index)
    ensures Climbs(p, k, Shr(index, k - level))
    decreases k - level
  {
    if level < k {
      ClimbsOn(p, level + 1, k, index / 2);
      ShrStep(index, k - level);
    }
  }

  // ----- agreement with a tree

  /** A hash element holds the tree's node; a duplicate stands right of the last node of an odd level. */
  predicate ElementAgrees(leaves: seq<Hash>, k: nat, e: PathElement)
  {
    var w := Width(|leaves|, k);
    if e.hash.Some? then !e.duplicate && e.offset < w && e.hash.value == Node(leaves, k, e.offset)
    else e.duplicate && e.offset == w && w % 2 == 1
  }

  predicate Agrees(leaves: seq<Hash>, p: Path)
  {
    forall k, e | 0 <= k < |p| && e in p[k] :: ElementAgrees(leaves, k, e)
  }

  lemma FoldStepAgrees(leaves: seq<Hash>, k: nat, index: nat, e: PathElement)
    requires index < Width(|leaves|, k)
    requires ElementAgrees(leaves, k, e) && e.offset == Sibling(index)
    ensures index / 2 < Width(|leaves|, k + 1)
    ensures FoldStep(index, Node(leaves, k, index), e) == Node(leaves, k + 1, index / 2)
  {
    var o := index / 2;
    if index % 2 == 0 {
      assert index == 2 * o;
    } else {
      assert index == 2 * o + 1 == RightChild(|leaves|, k, o);
    }
  }

  /** Folding an agreeing path succeeds exactly when the climb is stored, and lands on the tree's node. */
  lemma {:induction false} FoldAgrees(leaves: seq<Hash>, p: Path, level: nat, index: nat, working: Hash)
    requires Agrees(leaves, p) && level <= |p|
    requires index < Width(|leaves|, level) && working == Node(leaves, level, index)
    ensures Fold(p, level, index, working).Some? <==> Climbs(p, level, index)
    ensures Climbs(p, level, index) ==>
              var top := Shr(index, |p| - level);
              top < Width(|leaves|, |p|) && Fold(p, level, index, working) == Some(Node(leaves, |p|, top))
    decreases |p| - level
  {
    if level < |p| {
      match Lookup(p[level], Sibling(index))
      case None =>
      case Some(e) =>
        FoldStepAgrees(leaves, level, index, e);
        FoldAgrees(leaves, p, level + 1, index / 2, FoldStep(index, working, e));
        ShrStep(index, |p| - level);
    }
  }

  /** A path as tall as the block folds every leaf whose climb it stores to the block's root. */
  lemma FoldReachesRoot(leaves: seq<Hash>, p: Path, index: nat)
    requires leaves != [] && Agrees(leaves, p) && |p| == CeilLog2(|leaves|)
    requires index < |leaves|
    requires Climbs(p, 0, index)
    ensures Fold(p, 0, index, leaves[index]) == Some(Root(leaves))
  {
    FoldAgrees(leaves, p, 0, index, leaves[index]);
    RootIsTop(leaves, |p|, Shr(index, |p|));
  }
}
