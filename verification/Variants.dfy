/**
 Several merkle services may each deliver a STUMP for one subtree. Their paths are merged slot by slot; a slot two
 variants disagree on is an error.
 */
module Variants {
  import opened Prelude
  import opened MerklePaths

  // ----- one slot

  /** Both carry a hash here, and not the same one. */
  predicate Disagree(a: Option<PathElement>, b: Option<PathElement>)
  {
    a.Some? && b.Some? && a.value.hash.Some? && b.value.hash.Some? && a.value.hash != b.value.hash
  }

  /** The reconciled element: a hash beats a duplicate marker, and a tracked mark is kept from either side. */
  function Reconciled(have: PathElement, e: PathElement): PathElement
  {
    var kept := if have.hash.None? && e.hash.Some? then have.(hash := e.hash, duplicate := false) else have;
    kept.(tracked := have.tracked || e.tracked)
  }

  function MergedSlot(a: Option<PathElement>, b: Option<PathElement>): Option<PathElement>
  {
    if a.None? then b else if b.None? then a else Some(Reconciled(a.value, b.value))
  }

  // ----- one level

  predicate LevelsDisagree(dst: seq<PathElement>, src: seq<PathElement>)
  {
    exists e | e in src :: Disagree(Lookup(dst, e.offset), Some(e))
  }

  ghost predicate IsMergedLevel(merged: seq<PathElement>, dst: seq<PathElement>, src: seq<PathElement>)
  {
    Distinct(merged) && forall o: nat :: Lookup(merged, o) == MergedSlot(Lookup(dst, o), Lookup(src, o))
  }

  /** `existing` is the position of every offset of `cur`. */
  ghost predicate Positions(existing: map<nat, nat>, cur: seq<PathElement>)
  {
    && (forall o | o in existing :: existing[o] < |cur| && cur[existing[o]].offset == o)
    && (forall i | 0 <= i < |cur| :: cur[i].offset in existing && existing[cur[i].offset] == i)
  }

  lemma PositionsLookup(existing: map<nat, nat>, cur: seq<PathElement>, o: nat)
    requires Positions(existing, cur)
    ensures Distinct(cur)
    ensures Lookup(cur, o) == if o in existing then Some(cur[existing[o]]) else None
  {
    if o in existing {
      LookupMember(cur, cur[existing[o]]);
    } else {
      LookupNone(cur, o);
    }
  }

  method IndexPositions(s: seq<PathElement>) returns (existing: map<nat, nat>)
    ensures forall o | o in existing :: existing[o] < |s|
    ensures Distinct(s) ==> Positions(existing, s)
  {
    existing := map[];
    for i := 0 to |s|
      invariant forall o | o in existing :: existing[o] < i
      invariant Distinct(s) ==> Positions(existing, s[..i])
    {
      existing := existing[s[i].offset := i];
    }
    assert s[..|s|] == s;
  }

  /** `src` is merged into `merged` so far, without disagreement. */
  ghost predicate MergingLevel(
    existing: map<nat, nat>, merged: seq<PathElement>, dst: seq<PathElement>, src: seq<PathElement>)
  {
    Positions(existing, merged) && IsMergedLevel(merged, dst, src) && !LevelsDisagree(dst, src)
  }

  /** Merges one level into another; levels that repeat an offset are merged too, but nothing is promised of them. */
  method MergeLevel(dst: seq<PathElement>, src: seq<PathElement>) returns (ok: bool, merged: seq<PathElement>)
    ensures Distinct(dst) && Distinct(src) ==> (ok <==> !LevelsDisagree(dst, src))
    ensures Distinct(dst) && Distinct(src) && ok ==> IsMergedLevel(merged, dst, src)
  {
    var existing: map<nat, nat> := IndexPositions(dst);
    merged := dst;
    ghost var proper := Distinct(dst) && Distinct(src);
    for i := 0 to |src|
      invariant forall o | o in existing :: existing[o] < |merged|
      invariant proper ==> MergingLevel(existing, merged, dst, src[..i])
    {
      ok, existing, merged := MergeElement(existing, merged, src[i], dst, src, i, proper);
      if !ok {
        return;
      }
    }
    assert src[..|src|] == src;
    ok := true;
  }

  /** Merges one element. */
  method MergeElement(
    existing: map<nat, nat>, merged: seq<PathElement>, e: PathElement, ghost dst: seq<PathElement>,
    ghost src: seq<PathElement>, ghost i: nat, ghost proper: bool)
    returns (ok: bool, existing': map<nat, nat>, merged': seq<PathElement>)
    requires i < |src| && e == src[i] && forall o | o in existing :: existing[o] < |merged|
    requires proper ==> Distinct(src) && MergingLevel(existing, merged, dst, src[..i])
    ensures forall o | o in existing' :: existing'[o] < |merged'|
    ensures proper && ok ==> MergingLevel(existing', merged', dst, src[..i + 1])
    ensures proper && !ok ==> LevelsDisagree(dst, src)
  {
    ok, existing', merged' := true, existing, merged;
    if proper {
      PositionsLookup(existing, merged, e.offset);
      NotYetSeen(merged, dst, src, i);
    }
    if e.offset !in existing {
      if proper {
        AppendSlot(merged, dst, src, i);
      }
      existing' := existing[e.offset := |merged|];
      merged' := merged + [e];
      return;
    }
    var at := existing[e.offset];
    var have := merged[at];
    if have.hash.Some? && e.hash.Some? && have.hash != e.hash {
      ok := false;
      return;
    }
    if proper {
      UpdateSlot(merged, dst, src, i, at);
    }
    merged' := merged[at := Reconciled(have, e)];
  }

  /** The next source element meets exactly what the destination held at its offset. */
  lemma NotYetSeen(merged: seq<PathElement>, dst: seq<PathElement>, src: seq<PathElement>, i: nat)
    requires Distinct(src) && i < |src| && IsMergedLevel(merged, dst, src[..i])
    ensures Lookup(merged, src[i].offset) == Lookup(dst, src[i].offset)
    ensures src[..i + 1] == src[..i] + [src[i]]
    ensures LevelsDisagree(dst, src[..i + 1]) <==>
            LevelsDisagree(dst, src[..i]) || Disagree(Lookup(dst, src[i].offset), Some(src[i]))
    ensures Disagree(Lookup(dst, src[i].offset), Some(src[i])) ==> LevelsDisagree(dst, src)
  {
    LookupNone(src[..i], src[i].offset);
    assert src[i] in src;
    var front, next := src[..i], src[..i + 1];
    assert next == front + [src[i]];
    assert forall e :: e in next <==> e in front || e == src[i];
  }

  lemma AppendSlot(merged: seq<PathElement>, dst: seq<PathElement>, src: seq<PathElement>, i: nat)
    requires Distinct(src) && i < |src| && IsMergedLevel(merged, dst, src[..i])
    requires Lookup(merged, src[i].offset).None?
    ensures IsMergedLevel(merged + [src[i]], dst, src[..i + 1])
  {
    DistinctAppend(merged, src[i]);
    assert src[..i + 1] == src[..i] + [src[i]];
    var grown, next := merged + [src[i]], src[..i + 1];
    forall o: nat
      ensures Lookup(grown, o) == MergedSlot(Lookup(dst, o), Lookup(next, o))
    {
      LookupConcat(merged, [src[i]], o);
      LookupConcat(src[..i], [src[i]], o);
    }
  }

  lemma UpdateSlot(merged: seq<PathElement>, dst: seq<PathElement>, src: seq<PathElement>, i: nat, at: nat)
    requires Distinct(src) && i < |src| && IsMergedLevel(merged, dst, src[..i])
    requires at < |merged| && merged[at].offset == src[i].offset
    requires Lookup(merged, src[i].offset) == Lookup(dst, src[i].offset) == Some(merged[at])
    ensures IsMergedLevel(merged[at := Reconciled(merged[at], src[i])], dst, src[..i + 1])
  {
    assert src[..i + 1] == src[..i] + [src[i]];
    var e := Reconciled(merged[at], src[i]);
    var updated, next := merged[at := e], src[..i + 1];
    LookupNone(src[..i], src[i].offset);
    forall o: nat
      ensures Lookup(updated, o) == MergedSlot(Lookup(dst, o), Lookup(next, o))
    {
      LookupUpdate(merged, at, e, o);
      LookupConcat(src[..i], [src[i]], o);
    }
  }

  // ----- levels are kept sorted by offset

  predicate Ascending(s: seq<PathElement>)
  {
    forall i, j | 0 <= i < j < |s| :: s[i].offset <= s[j].offset
  }

  function Insert(s: seq<PathElement>, e: PathElement): seq<PathElement>
  {
    if s == [] || e.offset <= s[0].offset then [e] + s else [s[0]] + Insert(s[1..], e)
  }

  /** The level sorted by offset. */
  function SortedByOffset(s: seq<PathElement>): seq<PathElement>
  {
    if s == [] then [] else Insert(SortedByOffset(s[1..]), s[0])
  }

  lemma {:induction false} InsertAscends(s: seq<PathElement>, e: PathElement)
    requires Ascending(s)
    ensures Ascending(Insert(s, e)) && forall x | x in Insert(s, e) :: x == e || x in s
  {
    if s != [] && e.offset > s[0].offset {
      InsertAscends(s[1..], e);
      assert forall x | x in Insert(s[1..], e) :: x.offset >= s[0].offset;
      assert forall j | 0 < j < |Insert(s, e)| :: Insert(s, e)[j] == Insert(s[1..], e)[j - 1];
    } else {
      assert ([e] + s)[1..] == s;
    }
  }

  lemma {:induction false} InsertLookup(s: seq<PathElement>, e: PathElement, o: nat)
    requires Lookup(s, e.offset).None?
    ensures Lookup(Insert(s, e), o) == if o == e.offset then Some(e) else Lookup(s, o)
  {
    if s != [] && e.offset > s[0].offset {
      InsertLookup(s[1..], e, o);
    } else {
      assert ([e] + s)[1..] == s;
    }
  }

  lemma {:induction false} InsertDistinct(s: seq<PathElement>, e: PathElement)
    requires Distinct(s) && Ascending(s) && Lookup(s, e.offset).None?
    ensures Distinct(Insert(s, e))
  {
    LookupNone(s, e.offset);
    if s != [] && e.offset > s[0].offset {
      InsertDistinct(s[1..], e);
      InsertAscends(s[1..], e);
      assert forall x | x in Insert(s[1..], e) :: x.offset != s[0].offset;
    }
  }

  lemma InsertSlots(s: seq<PathElement>, e: PathElement, o: nat)
    requires Ascending(s) && Distinct(s) && Lookup(s, e.offset).None?
    ensures Ascending(Insert(s, e)) && Distinct(Insert(s, e))
    ensures Lookup(Insert(s, e), o) == if o == e.offset then Some(e) else Lookup(s, o)
  {
    InsertAscends(s, e);
    InsertDistinct(s, e);
    InsertLookup(s, e, o);
  }

  /** Sorting a level keeps every slot. */
  lemma {:induction false} SortedSlots(s: seq<PathElement>, o: nat)
    requires Distinct(s)
    ensures Ascending(SortedByOffset(s)) && Distinct(SortedByOffset(s))
    ensures Lookup(SortedByOffset(s), o) == Lookup(s, o)
  {
    if s != [] {
      SortedSlots(s[1..], s[0].offset);
      SortedSlots(s[1..], o);
      LookupNone(s[1..], s[0].offset);
      InsertSlots(SortedByOffset(s[1..]), s[0], o);
    }
  }

  // ----- whole paths

  /** `dst` and `src` carry different hashes at some slot. */
  ghost predicate PathsDisagree(dst: Path, src: Path)
  {
    exists k: nat, o: nat :: Disagree(FindLeafByOffset(dst, k, o), FindLeafByOffset(src, k, o))
  }

  ghost predicate IsUnion(merged: Path, dst: Path, src: Path)
  {
    && |merged| == (if |dst| < |src| then |src| else |dst|)
    && DistinctLevels(merged)
    && forall k: nat, o: nat ::
         FindLeafByOffset(merged, k, o) == MergedSlot(FindLeafByOffset(dst, k, o), FindLeafByOffset(src, k, o))
  }

  lemma LevelDisagreement(dst: seq<PathElement>, src: seq<PathElement>)
    requires Distinct(src)
    ensures LevelsDisagree(dst, src) <==> exists o: nat :: Disagree(Lookup(dst, o), Lookup(src, o))
  {
    if LevelsDisagree(dst, src) {
      var e :| e in src && Disagree(Lookup(dst, e.offset), Some(e));
      LookupMember(src, e);
      assert Disagree(Lookup(dst, e.offset), Lookup(src, e.offset));
    }
    if o: nat :| Disagree(Lookup(dst, o), Lookup(src, o)) {
      assert Lookup(src, o).value in src;
    }
  }

  /** Levels below `level` are merged, the rest of `dst` is untouched. */
  ghost predicate UnionTo(cur: Path, dst: Path, src: Path, level: nat)
    requires level <= |src|
  {
    && |cur| == (if |dst| < level then level else |dst|)
    && DistinctLevels(cur)
    && (forall k: nat, o: nat | k < level ::
          Lookup(cur[k], o) == MergedSlot(FindLeafByOffset(dst, k, o), FindLeafByOffset(src, k, o)))
    && (forall k: nat, o: nat | k < level :: !Disagree(FindLeafByOffset(dst, k, o), FindLeafByOffset(src, k, o)))
    && (forall k | level <= k < |dst| :: cur[k] == dst[k])
  }

  /** Adds every element of `src` that `dst` lacks, reconciling the slots they share. */
  method UnionMerklePath(dst: MerklePath, src: Path) returns (ok: bool)
    modifies dst
    ensures DistinctLevels(old(dst.path)) && DistinctLevels(src) ==> (ok <==> !PathsDisagree(old(dst.path), src))
    ensures DistinctLevels(old(dst.path)) && DistinctLevels(src) && ok ==> IsUnion(dst.path, old(dst.path), src)
  {
    ghost var was := dst.path;
    ghost var proper := DistinctLevels(dst.path) && DistinctLevels(src);
    for level := 0 to |src|
      invariant |dst.path| >= level
      invariant proper ==> UnionTo(dst.path, was, src, level)
    {
      if level >= |dst.path| {
        dst.path := dst.path + [[]];
      }
      ghost var before := dst.path;
      var levelOk, merged := MergeLevel(dst.path[level], src[level]);
      if !levelOk {
        if proper {
          DisagreementFound(before[level], was, src, level);
        }
        return false;
      }
      dst.path := dst.path[level := SortedByOffset(merged)];
      if proper {
        LevelDisagreement(before[level], src[level]);
        UnionStep(before, merged, was, src, level);
      }
    }
    assert proper ==> forall k: nat, o: nat :: !Disagree(FindLeafByOffset(was, k, o), FindLeafByOffset(src, k, o));
    return true;
  }

  lemma DisagreementFound(level: seq<PathElement>, was: Path, src: Path, k: nat)
    requires k < |src| && Distinct(src[k]) && LevelsDisagree(level, src[k]) && level == (if k < |was| then was[k] else [])
    ensures PathsDisagree(was, src)
  {
    LevelDisagreement(level, src[k]);
    var o: nat :| Disagree(Lookup(level, o), Lookup(src[k], o));
    assert Disagree(FindLeafByOffset(was, k, o), FindLeafByOffset(src, k, o));
  }

  lemma UnionStep(before: Path, merged: seq<PathElement>, was: Path, src: Path, level: nat)
    requires level < |src| && |before| == (if |was| <= level then level + 1 else |was|)
    requires DistinctLevels(before)
    requires forall k: nat, o: nat | k < level ::
               Lookup(before[k], o) == MergedSlot(FindLeafByOffset(was, k, o), FindLeafByOffset(src, k, o))
    requires forall k: nat, o: nat | k < level :: !Disagree(FindLeafByOffset(was, k, o), FindLeafByOffset(src, k, o))
    requires forall k | level <= k < |was| :: before[k] == was[k]
    requires level >= |was| ==> before[level] == []
    requires IsMergedLevel(merged, before[level], src[level])
    requires forall o: nat :: !Disagree(Lookup(before[level], o), Lookup(src[level], o))
    ensures UnionTo(before[level := SortedByOffset(merged)], was, src, level + 1)
  {
    var after := before[level := SortedByOffset(merged)];
    SortedSlots(merged, 0);
    forall k: nat, o: nat | k < level + 1
      ensures Lookup(after[k], o) == MergedSlot(FindLeafByOffset(was, k, o), FindLeafByOffset(src, k, o))
      ensures !Disagree(FindLeafByOffset(was, k, o), FindLeafByOffset(src, k, o))
    {
      if k == level {
        SortedSlots(merged, o);
      }
    }
  }

  // ----- all variants of a subtree

  /** The slot after merging the variants one after the other. */
  function FoldSlot(vs: seq<Path>, k: nat, o: nat): Option<PathElement>
  {
    if vs == [] then None
    else MergedSlot(FoldSlot(vs[..|vs| - 1], k, o), FindLeafByOffset(vs[|vs| - 1], k, o))
  }

  /** No two variants carry different hashes at one slot. */
  ghost predicate Consistent(vs: seq<Path>)
  {
    forall v, w, k: nat, o: nat | v in vs && w in vs :: !Disagree(FindLeafByOffset(v, k, o), FindLeafByOffset(w, k, o))
  }

  ghost predicate IsMergeOf(m: Path, vs: seq<Path>)
  {
    && DistinctLevels(m)
    && |m| == Tallest(vs) && (forall v | v in vs :: |v| <= |m|)
    && forall k: nat, o: nat :: FindLeafByOffset(m, k, o) == FoldSlot(vs, k, o)
  }

  function Tallest(vs: seq<Path>): nat
  {
    if vs == [] then 0
    else
      var most, last := Tallest(vs[..|vs| - 1]), |vs[|vs| - 1]|;
      if most < last then last else most
  }

  /** The merged slot's hash is some variant's. */
  lemma {:induction false} FoldHashFrom(vs: seq<Path>, k: nat, o: nat) returns (v: Path)
    requires FoldSlot(vs, k, o).Some? && FoldSlot(vs, k, o).value.hash.Some?
    ensures v in vs && FindLeafByOffset(v, k, o).Some?
    ensures FindLeafByOffset(v, k, o).value.hash == FoldSlot(vs, k, o).value.hash
  {
    var most, last := vs[..|vs| - 1], vs[|vs| - 1];
    if FoldSlot(most, k, o).Some? && FoldSlot(most, k, o).value.hash.Some? {
      v := FoldHashFrom(most, k, o);
    } else {
      v := last;
    }
  }

  /** What the merged slot holds, said without reference to order. */
  lemma {:induction false} FoldCharacterized(vs: seq<Path>, k: nat, o: nat, v: Path)
    requires Consistent(vs) && v in vs && FindLeafByOffset(v, k, o).Some?
    ensures FoldSlot(vs, k, o).Some?
    ensures var e, m := FindLeafByOffset(v, k, o).value, FoldSlot(vs, k, o).value;
            && m.offset == o
            && (e.tracked ==> m.tracked)
            && (e.hash.Some? ==> m.hash == e.hash)
  {
    var most, last := vs[..|vs| - 1], vs[|vs| - 1];
    assert vs == most + [last];
    if v in most {
      FoldCharacterized(most, k, o, v);
    }
    var below := FoldSlot(most, k, o);
    if below.Some? {
      FoldOffset(most, k, o);
      if below.value.hash.Some? {
        var u := FoldHashFrom(most, k, o);
        assert !Disagree(FindLeafByOffset(u, k, o), FindLeafByOffset(v, k, o));
      }
    }
  }

  lemma {:induction false} FoldOffset(vs: seq<Path>, k: nat, o: nat)
    ensures FoldSlot(vs, k, o).Some? ==> FoldSlot(vs, k, o).value.offset == o
  {
    if vs != [] {
      FoldOffset(vs[..|vs| - 1], k, o);
    }
  }

  /** A further variant can be merged exactly when it keeps the set consistent. */
  lemma ConsistentStep(m: Path, vs: seq<Path>, v: Path)
    requires IsMergeOf(m, vs) && Consistent(vs)
    ensures Consistent(vs + [v]) <==> !PathsDisagree(m, v)
  {
    if !Consistent(vs + [v]) {
      var a, b, k: nat, o: nat :| a in vs + [v] && b in vs + [v] && Disagree(FindLeafByOffset(a, k, o), FindLeafByOffset(b, k, o));
      var u := if a in vs then a else b;
      assert u in vs;
      FoldCharacterized(vs, k, o, u);
      assert Disagree(FindLeafByOffset(m, k, o), FindLeafByOffset(v, k, o));
    }
    if k: nat, o: nat :| Disagree(FindLeafByOffset(m, k, o), FindLeafByOffset(v, k, o)) {
      var u := FoldHashFrom(vs, k, o);
      assert u in vs + [v] && v in vs + [v];
      assert Disagree(FindLeafByOffset(u, k, o), FindLeafByOffset(v, k, o));
    }
  }
}
