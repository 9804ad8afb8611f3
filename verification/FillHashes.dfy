/**
 Filling in the nodes a path leaves out: the two quadratic passes of helpers.go and the one-pass,
 map-indexed version the compound builder uses, all specified by one function from slot to node.
 */
module FillHashes {
  import opened Prelude
  import opened MerkleTree
  import opened MerklePaths

  /** The parent hash two neighbouring slots determine, if they do. */
  function Combine(left: Option<PathElement>, right: Option<PathElement>): Option<Hash>
  {
    if left.None? || right.None? then None
    else if right.value.duplicate then SelfParent(left.value)
    else if left.value.duplicate then SelfParent(right.value)
    else if left.value.hash.None? || right.value.hash.None? then None
    else Some(MerkleTreeParent(left.value.hash.value, right.value.hash.value))
  }

  function SelfParent(e: PathElement): Option<Hash>
  {
    if e.hash.None? then None else Some(MerkleTreeParent(e.hash.value, e.hash.value))
  }

  function ComputedSlot(o: nat, h: Option<Hash>): Option<PathElement>
  {
    if h.None? then None else Some(Computed(o, h.value))
  }

  /** The slot at which level k is padded: right after an odd number of real nodes, below the top level. */
  predicate PadsAt(levels: nat, base: nat, n: nat, k: nat, o: nat)
  {
    base <= k && k + 1 < levels && Width(n, k - base) % 2 == 1 && o == Width(n, k - base)
  }

  /** A slot: what is stored there, or else what its children determine. */
  function Derive(stored: Option<PathElement>, o: nat, left: Option<PathElement>, right: Option<PathElement>)
    : Option<PathElement>
  {
    if stored.Some? then stored else ComputedSlot(o, Combine(left, right))
  }

  /**
   The node at slot (k, o) once everything below it is filled in: what the path stores there, or else what its
   children determine, or else the padding of a level at or above `base`, where the block has n nodes.
   */
  function CompletedAt(p: Path, base: nat, n: nat, k: nat, o: nat): Option<PathElement>
    requires k < |p|
    decreases k
  {
    var e := if k == 0 then Lookup(p[k], o)
             else Derive(Lookup(p[k], o), o, CompletedAt(p, base, n, k - 1, 2 * o), CompletedAt(p, base, n, k - 1, 2 * o + 1));
    if e.None? && PadsAt(|p|, base, n, k, o) then Some(DuplicateAt(o)) else e
  }

  /** The same before level k is padded. */
  function UnpaddedAt(p: Path, base: nat, n: nat, k: nat, o: nat): Option<PathElement>
    requires k < |p|
  {
    if k == 0 then Lookup(p[k], o)
    else Derive(Lookup(p[k], o), o, CompletedAt(p, base, n, k - 1, 2 * o), CompletedAt(p, base, n, k - 1, 2 * o + 1))
  }

  /** The same with no padding anywhere. */
  function FilledAt(p: Path, k: nat, o: nat): Option<PathElement>
    requires k < |p|
  {
    CompletedAt(p, |p|, 0, k, o)
  }

  /** `q` stores exactly the completed nodes of `p`. */
  ghost predicate IsCompletion(q: Path, p: Path, base: nat, n: nat)
  {
    WellFormed(q) && HasSlots(q, p, base, n)
  }

  ghost predicate HasSlots(q: Path, p: Path, base: nat, n: nat)
  {
    && |q| == |p|
    && forall k: nat, o: nat | k < |p| :: Lookup(q[k], o) == CompletedAt(p, base, n, k, o)
  }

  ghost predicate IsFilling(q: Path, p: Path)
  {
    IsCompletion(q, p, |p|, 0)
  }

  // ----- one level at a time

  /** The slot above `cur`, given that the level above already stores `above`. */
  function Target(cur: seq<PathElement>, above: seq<PathElement>, o: nat): Option<PathElement>
  {
    Derive(Lookup(above, o), o, Lookup(cur, 2 * o), Lookup(cur, 2 * o + 1))
  }

  /** Some element among the first i of `cur` carries a hash and has parent `o`. */
  ghost predicate Visited(cur: seq<PathElement>, i: nat, o: nat)
  {
    exists j | 0 <= j < i && j < |cur| :: cur[j].offset / 2 == o && cur[j].hash.Some?
  }

  /** After i elements, `next` has every slot whose parent was visited, and nothing wrong. */
  ghost predicate Progress(cur: seq<PathElement>, above: seq<PathElement>, i: nat, next: seq<PathElement>)
  {
    && Distinct(next)
    && above <= next
    && (forall e | e in next[|above|..] :: !e.duplicate)
    && forall o: nat :: SlotProgress(cur, above, i, next, o)
  }

  ghost predicate SlotProgress(cur: seq<PathElement>, above: seq<PathElement>, i: nat, next: seq<PathElement>, o: nat)
  {
    Lookup(next, o) == Target(cur, above, o) || (Lookup(next, o).None? && !Visited(cur, i, o))
  }

  ghost predicate Exclusive(s: seq<PathElement>)
  {
    Distinct(s) && forall e | e in s :: !(e.duplicate && e.hash.Some?)
  }

  lemma AboveStays(cur: seq<PathElement>, above: seq<PathElement>, i: nat, next: seq<PathElement>, o: nat)
    requires Progress(cur, above, i, next)
    ensures Lookup(above, o).Some? ==> Lookup(next, o) == Lookup(above, o)
    ensures SlotProgress(cur, above, i, next, o)
  {
    assert next == above + next[|above|..];
    LookupConcat(above, next[|above|..], o);
  }

  lemma VisitedElsewhere(cur: seq<PathElement>, i: nat, o: nat)
    requires i < |cur| && (cur[i].offset / 2 != o || cur[i].hash.None?)
    ensures Visited(cur, i + 1, o) ==> Visited(cur, i, o)
  {
  }

  /** An element whose parent is already there, or determines none, leaves the level alone. */
  lemma ProgressSkip(cur: seq<PathElement>, above: seq<PathElement>, i: nat, next: seq<PathElement>)
    requires i < |cur| && Progress(cur, above, i, next)
    requires var o := cur[i].offset / 2;
             || Lookup(next, o).Some?
             || cur[i].hash.None?
             || Combine(Lookup(cur, 2 * o), Lookup(cur, 2 * o + 1)).None?
    ensures Progress(cur, above, i + 1, next)
  {
    var done := i + 1;
    forall x: nat
      ensures SlotProgress(cur, above, done, next, x)
    {
      AboveStays(cur, above, i, next, x);
      if x != cur[i].offset / 2 || cur[i].hash.None? {
        VisitedElsewhere(cur, i, x);
      }
    }
  }

  /** An element that determines its parent puts it there. */
  lemma ProgressAdd(cur: seq<PathElement>, above: seq<PathElement>, i: nat, next: seq<PathElement>, h: Hash)
    requires i < |cur| && Progress(cur, above, i, next)
    requires var o := cur[i].offset / 2;
             Lookup(next, o).None? && Combine(Lookup(cur, 2 * o), Lookup(cur, 2 * o + 1)) == Some(h)
    ensures Progress(cur, above, i + 1, next + [Computed(cur[i].offset / 2, h)])
  {
    var e := Computed(cur[i].offset / 2, h);
    DistinctAppend(next, e);
    assert (next + [e])[|above|..] == next[|above|..] + [e];
    var done, grown := i + 1, next + [e];
    forall x: nat
      ensures SlotProgress(cur, above, done, grown, x)
    {
      SlotAdd(cur, above, i, next, e, x);
    }
  }

  lemma SlotAdd(cur: seq<PathElement>, above: seq<PathElement>, i: nat, next: seq<PathElement>, e: PathElement, x: nat)
    requires i < |cur| && e.offset == cur[i].offset / 2
    requires Progress(cur, above, i, next) && Lookup(next, e.offset).None?
    requires ComputedSlot(e.offset, Combine(Lookup(cur, 2 * e.offset), Lookup(cur, 2 * e.offset + 1))) == Some(e)
    ensures SlotProgress(cur, above, i + 1, next + [e], x)
  {
    LookupConcat(next, [e], x);
    AboveStays(cur, above, i, next, x);
    if x != e.offset {
      VisitedElsewhere(cur, i, x);
    }
  }

  /** Once all of `cur` is visited, every slot above holds its target. */
  lemma ProgressDone(cur: seq<PathElement>, above: seq<PathElement>, next: seq<PathElement>, o: nat)
    requires Exclusive(cur) && Progress(cur, above, |cur|, next)
    ensures Lookup(next, o) == Target(cur, above, o)
  {
    var left, right := Lookup(cur, 2 * o), Lookup(cur, 2 * o + 1);
    AboveStays(cur, above, |cur|, next, o);
    if Combine(left, right).Some? {
      var e := if left.value.hash.Some? then left.value else right.value;
      var j :| 0 <= j < |cur| && cur[j] == e;
      assert Visited(cur, |cur|, o);
    }
  }

  /** What an element and its sibling determine is what the slots 2o and 2o+1 determine. */
  lemma CombineOfPair(cur: seq<PathElement>, i: nat)
    requires Distinct(cur) && i < |cur|
    ensures var e := cur[i];
            var o := e.offset / 2;
            && Lookup(cur, e.offset) == Some(e)
            && (e.offset % 2 == 0 ==> e.offset == 2 * o && Sibling(e.offset) == 2 * o + 1)
            && (e.offset % 2 == 1 ==> e.offset == 2 * o + 1 && Sibling(e.offset) == 2 * o)
  {
    LookupMember(cur, cur[i]);
  }

  // ----- helpers.go

  /** Levels up to `level` are completed, the ones above it are as they were. */
  ghost predicate CompletedTo(q: Path, p: Path, base: nat, n: nat, level: nat)
  {
    && |q| == |p|
    && (forall k: nat | k < |p| :: Exclusive(q[k]))
    && (forall k: nat, o: nat | k < |p| && k <= level :: Lookup(q[k], o) == CompletedAt(p, base, n, k, o))
    && (forall k: nat | level < k < |p| :: q[k] == p[k])
  }

  /** Filling the level above a completed one completes it, unless it is padded. */
  lemma LevelDone(q: Path, p: Path, base: nat, n: nat, level: nat, next: seq<PathElement>)
    requires level + 1 < |p| && CompletedTo(q, p, base, n, level)
    requires Progress(q[level], p[level + 1], |q[level]|, next)
    ensures Exclusive(next)
    ensures forall o: nat :: Lookup(next, o) == UnpaddedAt(p, base, n, level + 1, o)
  {
    forall o: nat
      ensures Lookup(next, o) == UnpaddedAt(p, base, n, level + 1, o)
    {
      ProgressDone(q[level], p[level + 1], next, o);
    }
    forall e | e in next
      ensures !(e.duplicate && e.hash.Some?)
    {
      assert next == p[level + 1] + next[|p[level + 1]|..];
      assert q[level + 1] == p[level + 1];
    }
  }

  method ComputeMissingHashes(mp: MerklePath)
    modifies mp
    ensures |mp.path| == |old(mp.path)| && (|mp.path| > 0 ==> mp.path[0] == old(mp.path)[0])
    ensures WellFormed(old(mp.path)) ==> IsFilling(mp.path, old(mp.path))
  {
    ghost var p := mp.path;
    var level := 0;
    while level < |mp.path| - 1
      invariant 0 <= level && |mp.path| == |p| && (|p| > 0 ==> level < |p| && mp.path[0] == p[0])
      invariant WellFormed(p) && |p| > 0 ==> CompletedTo(mp.path, p, |p|, 0, level)
    {
      ghost var q := mp.path;
      FillLevelByScan(mp, level);
      if WellFormed(p) {
        LevelFilled(q, p, level, mp.path);
      }
      level := level + 1;
    }
    if WellFormed(p) && |p| > 0 {
      AllCompleted(mp.path, p, |p|, 0);
    }
  }

  /** One round of the scan. */
  lemma LevelFilled(q: Path, p: Path, level: nat, r: Path)
    requires level + 1 < |p| && CompletedTo(q, p, |p|, 0, level) && |r| == |q| && r == q[level + 1 := r[level + 1]]
    requires Exclusive(r[level]) && Distinct(q[level + 1]) ==> Progress(r[level], q[level + 1], |r[level]|, r[level + 1])
    ensures CompletedTo(r, p, |p|, 0, level + 1)
  {
    var next, k := r[level + 1], level + 1;
    LevelDone(q, p, |p|, 0, level, next);
    forall o: nat
      ensures Lookup(next, o) == CompletedAt(p, |p|, 0, k, o)
    {
      PaddingStep(p, |p|, 0, k, o);
    }
  }

  lemma AllCompleted(q: Path, p: Path, base: nat, n: nat)
    requires |p| > 0 && CompletedTo(q, p, base, n, |p| - 1)
    ensures IsCompletion(q, p, base, n)
  {
  }

  /** computeMissingHashes's inner loop: parents of `level` into `level + 1`, by scanning for offsets. */
  method FillLevelByScan(mp: MerklePath, level: nat)
    requires level + 1 < |mp.path|
    modifies mp
    ensures |mp.path| == |old(mp.path)| && mp.path == old(mp.path)[level + 1 := mp.path[level + 1]]
    ensures Exclusive(mp.path[level]) && Distinct(old(mp.path[level + 1])) ==>
              Progress(mp.path[level], old(mp.path[level + 1]), |mp.path[level]|, mp.path[level + 1])
  {
    ghost var q := mp.path;
    var cur := mp.path[level];
    ghost var above := mp.path[level + 1];
    ghost var proper := Exclusive(cur) && Distinct(above);
    for i := 0 to |cur|
      invariant |mp.path| == |q| && mp.path == q[level + 1 := mp.path[level + 1]]
      invariant proper ==> Progress(cur, above, i, mp.path[level + 1])
    {
      var elem := cur[i];
      var parentOffset := elem.offset / 2;
      var sibling := FindLeafByOffset(mp.path, level, Sibling(elem.offset));
      if proper {
        CombineOfPair(cur, i);
      }
      if elem.hash == None || FindLeafByOffset(mp.path, level + 1, parentOffset).Some?
         || sibling.None? || (!sibling.value.duplicate && sibling.value.hash == None) {
        if proper {
          ProgressSkip(cur, above, i, mp.path[level + 1]);
        }
        continue;
      }
      var parent :=
        if sibling.value.duplicate then MerkleTreeParent(elem.hash.value, elem.hash.value)
        else if elem.offset % 2 == 0 then MerkleTreeParent(elem.hash.value, sibling.value.hash.value)
        else MerkleTreeParent(sibling.value.hash.value, elem.hash.value);
      if proper {
        ProgressAdd(cur, above, i, mp.path[level + 1], parent);
      }
      AddLeaf(mp, level + 1, Computed(parentOffset, parent));
    }
  }

  function PaddedSlot(s: seq<PathElement>, realCount: nat, o: nat): Option<PathElement>
  {
    if Lookup(s, o).None? && realCount % 2 == 1 && o == realCount then Some(DuplicateAt(o)) else Lookup(s, o)
  }

  /** Bitcoin's padding at `level`, if the level is padded. */
  method PadLevel(mp: MerklePath, level: nat, realCount: nat)
    requires level < |mp.path|
    modifies mp
    ensures |mp.path| == |old(mp.path)| && mp.path == old(mp.path)[level := mp.path[level]]
    ensures Exclusive(old(mp.path[level])) ==> Exclusive(mp.path[level])
    ensures forall o: nat :: Lookup(mp.path[level], o) == PaddedSlot(old(mp.path[level]), realCount, o)
  {
    if realCount % 2 == 1 && FindLeafByOffset(mp.path, level, realCount).None? {
      ghost var was := mp.path[level];
      if Exclusive(was) {
        DistinctAppend(was, DuplicateAt(realCount));
      }
      AddLeaf(mp, level, DuplicateAt(realCount));
      LookupsAfter(was, DuplicateAt(realCount));
    }
  }

  /** Indexes a level by offset. */
  method IndexByOffset(s: seq<PathElement>) returns (idx: map<nat, PathElement>)
    ensures forall o: nat :: o in idx <==> Lookup(s, o).Some?
    ensures Distinct(s) ==> forall o: nat | o in idx :: Lookup(s, o) == Some(idx[o])
  {
    idx := map[];
    for i := 0 to |s|
      invariant forall o: nat :: (o in idx <==> Lookup(s[..i], o).Some?)
      invariant Distinct(s) ==> forall o: nat | o in idx :: Lookup(s[..i], o) == Some(idx[o])
    {
      assert s[..i + 1] == s[..i] + [s[i]];
      LookupsAfter(s[..i], s[i]);
      if Distinct(s) {
        LookupNone(s[..i], s[i].offset);
      }
      idx := idx[s[i].offset := s[i]];
    }
    assert s[..|s|] == s;
  }

  /** Slot (k, o) of q is p's, completed. */
  ghost predicate SlotDone(q: Path, p: Path, base: nat, n: nat, k: nat, o: nat)
    requires k < |p| == |q|
  {
    Lookup(q[k], o) == CompletedAt(p, base, n, k, o)
  }

  /** The same before level k is padded. */
  ghost predicate SlotUnpadded(q: Path, p: Path, base: nat, n: nat, k: nat, o: nat)
    requires k < |p| == |q|
  {
    Lookup(q[k], o) == UnpaddedAt(p, base, n, k, o)
  }

  /** Levels below `level` are completed, `level` itself is complete but for padding, the rest is as it was. */
  ghost predicate UnpaddedTo(q: Path, p: Path, base: nat, n: nat, level: nat)
    requires level < |p|
  {
    && |q| == |p|
    && (forall k: nat | k < |p| :: Exclusive(q[k]))
    && (forall k: nat, o: nat | k < level :: SlotDone(q, p, base, n, k, o))
    && (forall o: nat :: SlotUnpadded(q, p, base, n, level, o))
    && (forall k: nat | level < k < |p| :: q[k] == p[k])
  }

  lemma PadCompletes(q: Path, r: Path, p: Path, base: nat, n: nat, level: nat)
    requires base <= level && level + 1 < |p|
    requires UnpaddedTo(q, p, base, n, level)
    requires |r| == |q| && r == q[level := r[level]] && Exclusive(r[level])
    requires forall o: nat :: Lookup(r[level], o) == PaddedSlot(q[level], Width(n, level - base), o)
    ensures CompletedTo(r, p, base, n, level)
  {
    forall k: nat, o: nat | k < |p| && k <= level
      ensures Lookup(r[k], o) == CompletedAt(p, base, n, k, o)
    {
      if k == level {
        assert SlotUnpadded(q, p, base, n, level, o);
        PadSlot(q[level], r[level], p, base, n, level, o);
      } else {
        assert SlotDone(q, p, base, n, k, o);
      }
    }
  }

  lemma PadSlot(before: seq<PathElement>, after: seq<PathElement>, p: Path, base: nat, n: nat, level: nat, o: nat)
    requires base <= level && level + 1 < |p| && Lookup(before, o) == UnpaddedAt(p, base, n, level, o)
    requires Lookup(after, o) == PaddedSlot(before, Width(n, level - base), o)
    ensures Lookup(after, o) == CompletedAt(p, base, n, level, o)
  {
    PaddingStep(p, base, n, level, o);
  }

  lemma PaddingStep(p: Path, base: nat, n: nat, k: nat, o: nat)
    requires k < |p|
    ensures CompletedAt(p, base, n, k, o) ==
            if UnpaddedAt(p, base, n, k, o).None? && PadsAt(|p|, base, n, k, o) then Some(DuplicateAt(o))
            else UnpaddedAt(p, base, n, k, o)
  {
  }

  /** One round of the compound pass: pads a level of the block, then computes the level above it. */
  method CompleteLevel(
    mp: MerklePath, level: nat, subtreeRootLayer: nat, count: nat, ghost p: Path, ghost n: nat, ghost proper: bool)
    returns (realCount: nat)
    requires level + 1 < |mp.path| == |p|
    requires count == if level <= subtreeRootLayer then n else Width(n, level - subtreeRootLayer)
    requires proper ==> UnpaddedTo(mp.path, p, subtreeRootLayer, n, level)
    modifies mp
    ensures |mp.path| == |p|
    ensures realCount == if level + 1 <= subtreeRootLayer then n else Width(n, level + 1 - subtreeRootLayer)
    ensures proper ==> UnpaddedTo(mp.path, p, subtreeRootLayer, n, level + 1)
  {
    realCount := count;
    if level >= subtreeRootLayer {
      ghost var before := mp.path;
      PadLevel(mp, level, realCount);
      if proper {
        PadCompletes(before, mp.path, p, subtreeRootLayer, n, level);
      }
      if realCount % 2 == 1 {
        realCount := realCount + 1;
      }
    }
    ghost var q := mp.path;
    if proper && level < subtreeRootLayer {
      NeverPadded(q, p, subtreeRootLayer, n, level);
    }
    FillLevelAbove(mp, level);
    if proper {
      LevelAboveDone(q, mp.path, p, subtreeRootLayer, n, level);
    }
    if level >= subtreeRootLayer {
      realCount := realCount / 2;
    }
  }

  /** Below the subtree-root layer nothing is padded. */
  lemma NeverPadded(q: Path, p: Path, base: nat, n: nat, level: nat)
    requires level < base && level < |p| && UnpaddedTo(q, p, base, n, level)
    ensures CompletedTo(q, p, base, n, level)
  {
    forall k: nat, o: nat | k < |p| && k <= level
      ensures Lookup(q[k], o) == CompletedAt(p, base, n, k, o)
    {
      if k == level {
        assert SlotUnpadded(q, p, base, n, level, o);
        PaddingStep(p, base, n, level, o);
      } else {
        assert SlotDone(q, p, base, n, k, o);
      }
    }
  }

  /** Filling the level above a completed one completes it but for its padding. */
  lemma LevelAboveDone(q: Path, r: Path, p: Path, base: nat, n: nat, level: nat)
    requires level + 1 < |p| && CompletedTo(q, p, base, n, level) && |r| == |q| && r == q[level + 1 := r[level + 1]]
    requires Exclusive(r[level]) && Distinct(q[level + 1]) ==> Progress(r[level], q[level + 1], |r[level]|, r[level + 1])
    ensures UnpaddedTo(r, p, base, n, level + 1)
  {
    LevelDone(q, p, base, n, level, r[level + 1]);
  }

  /** The one-pass, map-indexed fill with padding at and above the subtree-root layer. */
  method ComputeAndPadCompound(mp: MerklePath, subtreeRootLayer: nat, numSubtrees: nat)
    modifies mp
    ensures |mp.path| == |old(mp.path)|
    ensures WellFormed(old(mp.path)) ==> IsCompletion(mp.path, old(mp.path), subtreeRootLayer, numSubtrees)
  {
    ghost var p := mp.path;
    ghost var proper := WellFormed(p) && |p| > 0;
    CompleteLevels(mp, subtreeRootLayer, numSubtrees, proper);
    if proper {
      TopUnpadded(mp.path, p, subtreeRootLayer, numSubtrees);
    }
  }

  method CompleteLevels(mp: MerklePath, subtreeRootLayer: nat, numSubtrees: nat, ghost proper: bool)
    requires proper ==> WellFormed(mp.path) && |mp.path| > 0
    modifies mp
    ensures |mp.path| == |old(mp.path)|
    ensures proper ==> UnpaddedTo(mp.path, old(mp.path), subtreeRootLayer, numSubtrees, |mp.path| - 1)
  {
    ghost var p := mp.path;
    ghost var base, n := subtreeRootLayer, numSubtrees;
    var realCount := numSubtrees;
    var level := 0;
    while level < |mp.path| - 1
      invariant 0 <= level && |mp.path| == |p| && (|p| > 0 ==> level < |p|)
      invariant realCount == if level <= base then n else Width(n, level - base)
      invariant proper ==> UnpaddedTo(mp.path, p, base, n, level)
    {
      realCount := CompleteLevel(mp, level, subtreeRootLayer, realCount, p, n, proper);
      level := level + 1;
    }
  }

  /** The top level is not padded. */
  lemma TopUnpadded(q: Path, p: Path, base: nat, n: nat)
    requires |p| > 0 && UnpaddedTo(q, p, base, n, |p| - 1)
    ensures IsCompletion(q, p, base, n)
  {
    var top := |p| - 1;
    forall k: nat, o: nat | k < |p|
      ensures Lookup(q[k], o) == CompletedAt(p, base, n, k, o)
    {
      if k == top {
        assert SlotUnpadded(q, p, base, n, top, o);
        TopSlotDone(p, base, n, o);
      } else {
        assert SlotDone(q, p, base, n, k, o);
      }
    }
  }

  lemma TopSlotDone(p: Path, base: nat, n: nat, o: nat)
    requires |p| > 0
    ensures UnpaddedAt(p, base, n, |p| - 1, o) == CompletedAt(p, base, n, |p| - 1, o)
  {
    PaddingStep(p, base, n, |p| - 1, o);
  }

  /** The parent of an element and its sibling, as the compound pass decides it. */
  function ParentOf(elem: PathElement, sibling: PathElement): Option<Hash>
  {
    if sibling.duplicate then SelfParent(elem)
    else if elem.duplicate then SelfParent(sibling)
    else if elem.hash.None? || sibling.hash.None? then None
    else if elem.offset % 2 == 0 then Some(MerkleTreeParent(elem.hash.value, sibling.hash.value))
    else Some(MerkleTreeParent(sibling.hash.value, elem.hash.value))
  }

  lemma ParentOfPair(cur: seq<PathElement>, i: nat)
    requires Exclusive(cur) && i < |cur|
    requires Lookup(cur, Sibling(cur[i].offset)).Some?
    ensures var o := cur[i].offset / 2;
            ParentOf(cur[i], Lookup(cur, Sibling(cur[i].offset)).value) == Combine(Lookup(cur, 2 * o), Lookup(cur, 2 * o + 1))
  {
    CombineOfPair(cur, i);
    var sibling := Lookup(cur, Sibling(cur[i].offset)).value;
    assert cur[i] in cur && sibling in cur;
    ParentOfElements(cur[i], sibling);
  }

  /** Whichever of a pair comes first, the parent is the same. */
  lemma ParentOfElements(elem: PathElement, sibling: PathElement)
    requires !(elem.duplicate && elem.hash.Some?) && !(sibling.duplicate && sibling.hash.Some?)
    ensures ParentOf(elem, sibling) ==
            if elem.offset % 2 == 0 then Combine(Some(elem), Some(sibling)) else Combine(Some(sibling), Some(elem))
  {
  }

  lemma LookupsAfter(s: seq<PathElement>, e: PathElement)
    ensures forall o: nat :: Lookup(s + [e], o) == if Lookup(s, o).None? && o == e.offset then Some(e) else Lookup(s, o)
  {
    var t := s + [e];
    forall o: nat
      ensures Lookup(t, o) == if Lookup(s, o).None? && o == e.offset then Some(e) else Lookup(s, o)
    {
      LookupConcat(s, [e], o);
    }
  }

  /** computeAndPadCompound's inner loop: parents of `level` into `level + 1`, by offset map. */
  method FillLevelAbove(mp: MerklePath, level: nat)
    requires level + 1 < |mp.path|
    modifies mp
    ensures |mp.path| == |old(mp.path)| && mp.path == old(mp.path)[level + 1 := mp.path[level + 1]]
    ensures Exclusive(mp.path[level]) && Distinct(old(mp.path[level + 1])) ==>
              Progress(mp.path[level], old(mp.path[level + 1]), |mp.path[level]|, mp.path[level + 1])
  {
    ghost var q := mp.path;
    var cur := mp.path[level];
    ghost var above := mp.path[level + 1];
    ghost var proper := Exclusive(cur) && Distinct(above);
    var idx := IndexByOffset(cur);
    var parents := IndexByOffset(mp.path[level + 1]);
    var present := parents.Keys;
    for i := 0 to |cur|
      invariant |mp.path| == |q| && mp.path == q[level + 1 := mp.path[level + 1]]
      invariant proper ==> Progress(cur, above, i, mp.path[level + 1])
      invariant forall o: nat :: o in present <==> Lookup(mp.path[level + 1], o).Some?
    {
      present := FillParent(mp, level, cur, i, idx, present, above, proper);
    }
  }

  /** The parent of one element, if it is not there yet and its pair determines one. */
  method FillParent(
    mp: MerklePath, level: nat, cur: seq<PathElement>, i: nat, idx: map<nat, PathElement>, present: set<nat>,
    ghost above: seq<PathElement>, ghost proper: bool)
    returns (present': set<nat>)
    requires level + 1 < |mp.path| && i < |cur|
    requires forall o: nat :: o in idx <==> Lookup(cur, o).Some?
    requires Distinct(cur) ==> forall o: nat | o in idx :: Lookup(cur, o) == Some(idx[o])
    requires forall o: nat :: o in present <==> Lookup(mp.path[level + 1], o).Some?
    requires proper ==> Exclusive(cur) && Progress(cur, above, i, mp.path[level + 1])
    modifies mp
    ensures |mp.path| == |old(mp.path)| && mp.path == old(mp.path)[level + 1 := mp.path[level + 1]]
    ensures forall o: nat :: o in present' <==> Lookup(mp.path[level + 1], o).Some?
    ensures proper ==> Progress(cur, above, i + 1, mp.path[level + 1])
  {
    present' := present;
    var elem := cur[i];
    ghost var next := mp.path[level + 1];
    var parentOffset := elem.offset / 2;
    var so := Sibling(elem.offset);
    if proper {
      CombineOfPair(cur, i);
    }
    if parentOffset in present || so !in idx {
      if proper {
        ProgressSkip(cur, above, i, next);
      }
      return;
    }
    var parent := ParentOf(elem, idx[so]);
    if proper {
      ParentOfPair(cur, i);
    }
    if parent == None {
      if proper {
        ProgressSkip(cur, above, i, next);
      }
      return;
    }
    if proper {
      ProgressAdd(cur, above, i, next, parent.value);
    }
    AddLeaf(mp, level + 1, Computed(parentOffset, parent.value));
    present' := present + {parentOffset};
    LookupsAfter(next, Computed(parentOffset, parent.value));
  }
}
