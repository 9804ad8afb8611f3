/**
 The second helpers.go pass, and the proof that the two passes and the single compound pass agree slot for slot.
 */
module BlockPadding {
  import opened Prelude
  import opened MerkleTree
  import opened MerklePaths
  import opened FillHashes

  /** The node at slot (k, o) after padAndComputeBlockLevel: it computes only the block's real parents. */
  function PadPassAt(q: Path, from: nat, n: nat, k: nat, o: nat): Option<PathElement>
    requires k < |q|
    decreases k
  {
    var e := if k <= from || o >= Width(n, k - from) then Lookup(q[k], o)
             else Derive(Lookup(q[k], o), o, PadPassAt(q, from, n, k - 1, 2 * o), PadPassAt(q, from, n, k - 1, 2 * o + 1));
    if e.None? && PadsAt(|q|, from, n, k, o) then Some(DuplicateAt(o)) else e
  }

  function PadPassRaw(q: Path, from: nat, n: nat, k: nat, o: nat): Option<PathElement>
    requires k < |q|
  {
    if k <= from || o >= Width(n, k - from) then Lookup(q[k], o)
    else Derive(Lookup(q[k], o), o, PadPassAt(q, from, n, k - 1, 2 * o), PadPassAt(q, from, n, k - 1, 2 * o + 1))
  }

  ghost predicate IsPadPass(r: Path, q: Path, from: nat, n: nat)
  {
    && |r| == |q| && WellFormed(r)
    && forall k: nat, o: nat | k < |q| :: Lookup(r[k], o) == PadPassAt(q, from, n, k, o)
  }

  /** Everything below `level` is final, `level` lacks only its padding, the rest is as it was. */
  ghost predicate PassedTo(r: Path, q: Path, from: nat, n: nat, level: nat)
    requires level < |q|
  {
    && |r| == |q|
    && (forall k: nat | k < |q| :: Exclusive(r[k]))
    && (forall k: nat, o: nat | k < |q| && k < level :: Lookup(r[k], o) == PadPassAt(q, from, n, k, o))
    && (forall o: nat :: Lookup(r[level], o) == PadPassRaw(q, from, n, level, o))
    && (forall k: nat | level < k < |q| :: r[k] == q[k])
  }

  /** One round of the pass: pads a level and computes the parents of its pairs. */
  method PadAndComputeLevel(mp: MerklePath, level: nat, count: nat, ghost q: Path, ghost from: nat, ghost n: nat)
    returns (parents: nat)
    requires from <= level && level + 1 < |mp.path| == |q| && count == Width(n, level - from)
    requires WellFormed(q) ==> PassedTo(mp.path, q, from, n, level)
    modifies mp
    ensures |mp.path| == |q| && parents == Width(n, level + 1 - from)
    ensures WellFormed(q) ==> PassedTo(mp.path, q, from, n, level + 1)
  {
    ghost var before := mp.path;
    var realCount := count;
    PadLevel(mp, level, realCount);
    if realCount % 2 == 1 {
      realCount := realCount + 1;
    }
    parents := realCount / 2;
    ghost var padded := mp.path;
    ComputeParents(mp, level, parents);
    if WellFormed(q) {
      PassLevel(before, padded, mp.path, q, from, n, level);
    }
  }

  method PadAndComputeBlockLevel(mp: MerklePath, fromLevel: nat, realNodes: nat)
    modifies mp
    ensures |mp.path| == |old(mp.path)|
    ensures WellFormed(old(mp.path)) ==> IsPadPass(mp.path, old(mp.path), fromLevel, realNodes)
  {
    ghost var q := mp.path;
    var realCount := realNodes;
    var level := fromLevel;
    if WellFormed(q) {
      UntouchedBelow(q, fromLevel, realNodes);
    }
    while level < |mp.path| - 1
      invariant fromLevel <= level && |mp.path| == |q| && (fromLevel < |q| ==> level < |q|)
      invariant realCount == Width(realNodes, level - fromLevel)
      invariant WellFormed(q) && fromLevel < |q| ==> PassedTo(mp.path, q, fromLevel, realNodes, level)
      invariant fromLevel >= |q| ==> mp.path == q
    {
      realCount := PadAndComputeLevel(mp, level, realCount, q, fromLevel, realNodes);
      level := level + 1;
    }
    if WellFormed(q) && fromLevel < |q| {
      PassDone(mp.path, q, fromLevel, realNodes);
    }
  }

  /** The top level gets no padding, so the pass is done when it is reached. */
  lemma PassDone(r: Path, q: Path, from: nat, n: nat)
    requires |q| > 0 && PassedTo(r, q, from, n, |q| - 1)
    ensures IsPadPass(r, q, from, n)
  {
    var top := |q| - 1;
    forall k: nat, o: nat | k < |q|
      ensures Lookup(r[k], o) == PadPassAt(q, from, n, k, o)
    {
      if k == top {
        assert Lookup(r[top], o) == PadPassRaw(q, from, n, top, o);
        TopOfPass(q, from, n, o);
      }
    }
  }

  lemma TopOfPass(q: Path, from: nat, n: nat, o: nat)
    requires |q| > 0
    ensures PadPassRaw(q, from, n, |q| - 1, o) == PadPassAt(q, from, n, |q| - 1, o)
  {
  }

  lemma {:induction false} UntouchedBelow(q: Path, from: nat, n: nat)
    requires WellFormed(q)
    ensures forall k: nat, o: nat | k < |q| && k < from :: Lookup(q[k], o) == PadPassAt(q, from, n, k, o)
    ensures from < |q| ==> PassedTo(q, q, from, n, from)
  {
    if from < |q| {
      forall o: nat
        ensures Lookup(q[from], o) == PadPassRaw(q, from, n, from, o)
      {
      }
    }
  }

  ghost predicate ParentsComputed(cur: seq<PathElement>, above: seq<PathElement>, count: nat, next: seq<PathElement>)
  {
    forall o: nat :: Lookup(next, o) == if o < count then Target(cur, above, o) else Lookup(above, o)
  }

  /** Parents 0..parentCount of `level`, skipping those already stored. */
  method ComputeParents(mp: MerklePath, level: nat, parentCount: nat)
    requires level + 1 < |mp.path|
    modifies mp
    ensures |mp.path| == |old(mp.path)| && mp.path == old(mp.path)[level + 1 := mp.path[level + 1]]
    ensures Exclusive(old(mp.path[level + 1])) ==> Exclusive(mp.path[level + 1])
    ensures ParentsComputed(mp.path[level], old(mp.path[level + 1]), parentCount, mp.path[level + 1])
  {
    ghost var was := mp.path;
    ghost var cur, above := was[level], was[level + 1];
    for i := 0 to parentCount
      invariant |mp.path| == |was| && mp.path == was[level + 1 := mp.path[level + 1]]
      invariant Exclusive(above) ==> Exclusive(mp.path[level + 1])
      invariant ParentsComputed(cur, above, i, mp.path[level + 1])
    {
      if FindLeafByOffset(mp.path, level + 1, i).Some? {
        continue;
      }
      var left := FindLeafByOffset(mp.path, level, 2 * i);
      var right := FindLeafByOffset(mp.path, level, 2 * i + 1);
      if left == None || right == None {
        continue;
      }
      var parent: Hash;
      if right.value.duplicate {
        if left.value.hash == None {
          continue;
        }
        parent := MerkleTreeParent(left.value.hash.value, left.value.hash.value);
      } else if left.value.duplicate {
        if right.value.hash == None {
          continue;
        }
        parent := MerkleTreeParent(right.value.hash.value, right.value.hash.value);
      } else {
        if left.value.hash == None || right.value.hash == None {
          continue;
        }
        parent := MerkleTreeParent(left.value.hash.value, right.value.hash.value);
      }
      assert Target(cur, above, i) == Some(Computed(i, parent));
      if Exclusive(above) {
        DistinctAppend(mp.path[level + 1], Computed(i, parent));
      }
      LookupsAfter(mp.path[level + 1], Computed(i, parent));
      AddLeaf(mp, level + 1, Computed(i, parent));
    }
  }

  /** One round of the pass: pad the level, then compute its real parents. */
  lemma PassLevel(before: Path, padded: Path, after: Path, q: Path, from: nat, n: nat, level: nat)
    requires from <= level && level + 1 < |q|
    requires PassedTo(before, q, from, n, level)
    requires |padded| == |q| && padded == before[level := padded[level]] && Exclusive(padded[level])
    requires forall o: nat :: Lookup(padded[level], o) == PaddedSlot(before[level], Width(n, level - from), o)
    requires |after| == |q| && after == padded[level + 1 := after[level + 1]] && Exclusive(after[level + 1])
    requires ParentsComputed(padded[level], q[level + 1], Width(n, level + 1 - from), after[level + 1])
    ensures PassedTo(after, q, from, n, level + 1)
  {
    forall o: nat
      ensures Lookup(padded[level], o) == PadPassAt(q, from, n, level, o)
    {
    }
  }

  // ----- the two passes are the one pass

  /** One past the last slot level k may hold: the padded width of the block at that level. */
  function Bound(base: nat, n: nat, k: nat): nat
    decreases base - k
  {
    if k < base then 2 * Bound(base, n, k + 1) else 2 * Width(n, k - base + 1)
  }

  ghost predicate InRange(p: Path, base: nat, n: nat)
  {
    forall k, e | 0 <= k < |p| && e in p[k] :: e.offset < Bound(base, n, k)
  }

  lemma {:induction false} CompletedInRange(p: Path, base: nat, n: nat, k: nat, o: nat)
    requires k < |p| && InRange(p, base, n)
    ensures CompletedAt(p, base, n, k, o).Some? ==> o < Bound(base, n, k)
    ensures k > base && UnpaddedAt(p, base, n, k, o).Some? && Lookup(p[k], o).None? ==> o < Width(n, k - base)
  {
    if k > 0 {
      CompletedInRange(p, base, n, k - 1, 2 * o);
    }
    SlotInRange(p, base, n, k, o);
  }

  /** A slot is in range if its left child is. */
  lemma SlotInRange(p: Path, base: nat, n: nat, k: nat, o: nat)
    requires k < |p| && InRange(p, base, n)
    requires k > 0 && CompletedAt(p, base, n, k - 1, 2 * o).Some? ==> 2 * o < Bound(base, n, k - 1)
    ensures CompletedAt(p, base, n, k, o).Some? ==> o < Bound(base, n, k)
    ensures k > base && UnpaddedAt(p, base, n, k, o).Some? && Lookup(p[k], o).None? ==> o < Width(n, k - base)
  {
    PaddingStep(p, base, n, k, o);
    StoredInRange(p, base, n, k, o);
    if k > 0 {
      InRangeAbove(base, n, k, o);
    }
  }

  lemma StoredInRange(p: Path, base: nat, n: nat, k: nat, o: nat)
    requires k < |p| && InRange(p, base, n)
    ensures Lookup(p[k], o).Some? ==> o < Bound(base, n, k)
  {
  }

  /** A parent whose left child is in range is in range. */
  lemma InRangeAbove(base: nat, n: nat, k: nat, o: nat)
    requires k > 0
    ensures 2 * o < Bound(base, n, k - 1) ==> o < Bound(base, n, k) && (k > base ==> o < Width(n, k - base))
  {
  }

  /** Padding only adds nodes: what is filled without it is filled the same with it. */
  lemma {:induction false} PaddingKeepsFilled(p: Path, base: nat, n: nat, k: nat, o: nat)
    requires k < |p|
    ensures FilledAt(p, k, o).Some? ==> CompletedAt(p, base, n, k, o) == FilledAt(p, k, o)
    ensures k < base ==> CompletedAt(p, base, n, k, o) == FilledAt(p, k, o)
    ensures k == base ==> UnpaddedAt(p, base, n, k, o) == FilledAt(p, k, o)
  {
    if k > 0 && Lookup(p[k], o).None? {
      PaddingKeepsFilled(p, base, n, k - 1, 2 * o);
      PaddingKeepsFilled(p, base, n, k - 1, 2 * o + 1);
    }
  }

  /** Slot (k, o) of q is p's, filled in. */
  ghost predicate SlotFilled(q: Path, p: Path, k: nat, o: nat)
    requires k < |p| == |q|
  {
    Lookup(q[k], o) == FilledAt(p, k, o)
  }

  ghost predicate SlotsFilled(q: Path, p: Path)
  {
    |q| == |p| && forall k: nat, o: nat | k < |p| :: SlotFilled(q, p, k, o)
  }

  /** Filling first and padding after gives the slot the single compound pass gives. */
  lemma {:induction false} TwoPassesAreOne(p: Path, q: Path, base: nat, n: nat, k: nat, o: nat)
    requires k < |p| && SlotsFilled(q, p) && InRange(p, base, n)
    ensures PadPassAt(q, base, n, k, o) == CompletedAt(p, base, n, k, o)
    decreases k, 1
  {
    assert SlotFilled(q, p, k, o);
    if k <= base || FilledAt(p, k, o).Some? {
      SameWhereFilled(p, q, base, n, k, o);
    } else {
      TwoPassesAbove(p, q, base, n, k, o);
    }
  }

  lemma {:induction false} TwoPassesAbove(p: Path, q: Path, base: nat, n: nat, k: nat, o: nat)
    requires base < k < |p| && SlotsFilled(q, p) && InRange(p, base, n) && FilledAt(p, k, o).None?
    ensures PadPassAt(q, base, n, k, o) == CompletedAt(p, base, n, k, o)
    decreases k, 0
  {
    assert SlotFilled(q, p, k, o);
    TwoPassesAreOne(p, q, base, n, k - 1, 2 * o);
    TwoPassesAreOne(p, q, base, n, k - 1, 2 * o + 1);
    CompletedInRange(p, base, n, k, o);
    SameStep(p, q, base, n, k, o);
  }

  lemma SameWhereFilled(p: Path, q: Path, base: nat, n: nat, k: nat, o: nat)
    requires k < |p| == |q| && SlotFilled(q, p, k, o)
    requires k <= base || FilledAt(p, k, o).Some?
    ensures PadPassAt(q, base, n, k, o) == CompletedAt(p, base, n, k, o)
  {
    PaddingKeepsFilled(p, base, n, k, o);
    PaddingStep(p, base, n, k, o);
  }

  lemma SameStep(p: Path, q: Path, base: nat, n: nat, k: nat, o: nat)
    requires base < k < |p| == |q| && SlotFilled(q, p, k, o) && FilledAt(p, k, o).None?
    requires PadPassAt(q, base, n, k - 1, 2 * o) == CompletedAt(p, base, n, k - 1, 2 * o)
    requires PadPassAt(q, base, n, k - 1, 2 * o + 1) == CompletedAt(p, base, n, k - 1, 2 * o + 1)
    requires UnpaddedAt(p, base, n, k, o).Some? && Lookup(p[k], o).None? ==> o < Width(n, k - base)
    ensures PadPassAt(q, base, n, k, o) == CompletedAt(p, base, n, k, o)
  {
    PaddingStep(p, base, n, k, o);
  }

  /** computeMissingHashes then padAndComputeBlockLevel, against computeAndPadCompound, on a whole path. */
  lemma PassesAgree(p: Path, q: Path, r: Path, base: nat, n: nat)
    requires IsFilling(q, p) && IsPadPass(r, q, base, n) && InRange(p, base, n)
    ensures IsCompletion(r, p, base, n)
  {
    forall k: nat, o: nat | k < |p|
      ensures SlotFilled(q, p, k, o)
    {
    }
    forall k: nat, o: nat | k < |p|
      ensures Lookup(r[k], o) == CompletedAt(p, base, n, k, o)
    {
      TwoPassesAreOne(p, q, base, n, k, o);
    }
  }
}
