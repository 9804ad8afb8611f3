/** Merging delivered STUMPs into one path per subtree, in the order the subtrees are first seen. */
module Merging {
  import opened Prelude
  import opened MerkleTree
  import opened MerklePaths
  import opened Coverage
  import opened Variants

  /** A delivered STUMP. `data` is its parsed path, or None when the bytes do not parse. */
  datatype Stump = Stump(subtreeIndex: nat, data: Option<Path>)

  datatype MergedStump = MergedStump(index: nat, path: Path, txids: seq<Hash>)

  datatype MergeResult = Merged(stumps: seq<MergedStump>) | ParseError(index: nat) | VariantsDisagree(index: nat)

  /** The parsed variants of subtree `index`, in delivery order. */
  function VariantsOf(stumps: seq<Stump>, index: nat): seq<Path>
  {
    if stumps == [] then []
    else
      var most, last := VariantsOf(stumps[..|stumps| - 1], index), stumps[|stumps| - 1];
      if last.subtreeIndex == index && last.data.Some? then most + [last.data.value] else most
  }

  /** The subtree indices, in the order first seen. */
  function FirstSeen(stumps: seq<Stump>): seq<nat>
  {
    if stumps == [] then []
    else
      var most, last := FirstSeen(stumps[..|stumps| - 1]), stumps[|stumps| - 1];
      if last.subtreeIndex in most then most else most + [last.subtreeIndex]
  }

  /** The level-0 hashes, without repeats, in order. */
  function Level0Hashes(s: seq<PathElement>): seq<Hash>
  {
    if s == [] then []
    else
      var most, last := Level0Hashes(s[..|s| - 1]), s[|s| - 1];
      if last.hash.None? || last.hash.value in most then most else most + [last.hash.value]
  }

  function TxidsOf(path: Path): seq<Hash>
  {
    if |path| == 0 then [] else Level0Hashes(path[0])
  }

  /** Exactly the level-0 hashes, each once. */
  lemma {:induction false} Level0HashesExact(s: seq<PathElement>)
    ensures forall h :: h in Level0Hashes(s) <==> exists e :: e in s && e.hash == Some(h)
    ensures forall i, j | 0 <= i < j < |Level0Hashes(s)| :: Level0Hashes(s)[i] != Level0Hashes(s)[j]
  {
    if s != [] {
      Level0HashesExact(s[..|s| - 1]);
      assert s == s[..|s| - 1] + [s[|s| - 1]];
    }
  }

  method Level0Txids(path: Path) returns (out: seq<Hash>)
    ensures out == TxidsOf(path)
  {
    if |path| == 0 {
      return [];
    }
    var seen: set<Hash> := {};
    out := [];
    for i := 0 to |path[0]|
      invariant out == Level0Hashes(path[0][..i])
      invariant forall h :: h in seen <==> h in out
    {
      var leaf := path[0][i];
      assert path[0][..i + 1][..i] == path[0][..i];
      if leaf.hash == None || leaf.hash.value in seen {
        continue;
      }
      seen := seen + {leaf.hash.value};
      out := out + [leaf.hash.value];
    }
    assert path[0][..|path[0]|] == path[0];
  }

  ghost predicate DeliveredDistinct(stumps: seq<Stump>)
  {
    forall st | st in stumps && st.data.Some? :: DistinctLevels(st.data.value)
  }

  /** Everything parses, and no subtree's variants disagree. */
  ghost predicate Mergeable(stumps: seq<Stump>)
  {
    (forall st | st in stumps :: st.data.Some?) && forall index: nat :: Consistent(VariantsOf(stumps, index))
  }

  /** The variants merged so far, by subtree. */
  ghost predicate MergedSoFar(stumps: seq<Stump>, byIndex: map<nat, Path>, order: seq<nat>)
  {
    OrderedSoFar(stumps, byIndex, order) && PathsSoFar(stumps, byIndex)
  }

  /** The subtrees seen so far, in the order they were first seen. */
  ghost predicate OrderedSoFar(stumps: seq<Stump>, byIndex: map<nat, Path>, order: seq<nat>)
  {
    && (forall st | st in stumps :: st.data.Some?)
    && order == FirstSeen(stumps)
    && (forall i, j | 0 <= i < j < |order| :: order[i] != order[j])
    && (forall index: nat :: index in order <==> index in byIndex)
  }

  /** Each of them with the merge of its variants, which agree. */
  ghost predicate PathsSoFar(stumps: seq<Stump>, byIndex: map<nat, Path>)
  {
    forall index: nat :: PathSoFar(byIndex, VariantsOf(stumps, index), index)
  }

  ghost predicate PathSoFar(byIndex: map<nat, Path>, vs: seq<Path>, index: nat)
  {
    Consistent(vs) && (index in byIndex <==> vs != []) && (index in byIndex ==> IsMergeOf(byIndex[index], vs))
  }

  ghost predicate IsMergedDelivery(stumps: seq<Stump>, merged: seq<MergedStump>)
  {
    && |merged| == |FirstSeen(stumps)| && (forall i | 0 <= i < |merged| :: merged[i].index == FirstSeen(stumps)[i])
    && (forall i, j | 0 <= i < j < |merged| :: merged[i].index != merged[j].index)
    && (forall index: nat :: VariantsOf(stumps, index) != [] <==> exists m :: m in merged && m.index == index)
    && (forall m | m in merged :: IsMergeOf(m.path, VariantsOf(stumps, m.index)))
    && (forall m | m in merged :: m.txids == TxidsOf(m.path))
  }

  /** What precedes STUMP i merges, and it is of subtree `index` and does not parse, or disagrees with what precedes it. */
  ghost predicate FailsAt(stumps: seq<Stump>, i: nat, index: nat, unparseable: bool)
  {
    && i < |stumps| && stumps[i].subtreeIndex == index && Mergeable(stumps[..i])
    && (if unparseable then stumps[i].data.None?
        else stumps[i].data.Some? && !Consistent(VariantsOf(stumps[..i + 1], index)))
  }

  ghost predicate MergeFails(stumps: seq<Stump>, index: nat, unparseable: bool)
  {
    exists i: nat :: FailsAt(stumps, i, index, unparseable)
  }

  /** What merging returns: the merged delivery, or the first STUMP that does not parse or disagrees. */
  ghost predicate IsMergeResult(stumps: seq<Stump>, r: MergeResult)
  {
    match r
    case Merged(ms) => Mergeable(stumps) && IsMergedDelivery(stumps, ms)
    case ParseError(index) => !Mergeable(stumps) && MergeFails(stumps, index, true)
    case VariantsDisagree(index) => !Mergeable(stumps) && MergeFails(stumps, index, false)
  }

  method MergeStumpVariants(stumps: seq<Stump>) returns (r: MergeResult)
    ensures DeliveredDistinct(stumps) ==> IsMergeResult(stumps, r)
    ensures r.Merged? && stumps != [] ==> r.stumps != []
  {
    var byIndex: map<nat, Path> := map[];
    var order: seq<nat> := [];
    ghost var proper := DeliveredDistinct(stumps);
    for i := 0 to |stumps|
      invariant forall index: nat :: index in order <==> index in byIndex
      invariant i > 0 ==> order != []
      invariant proper ==> MergedSoFar(stumps[..i], byIndex, order)
    {
      var st := stumps[i];
      assert stumps[..i + 1] == stumps[..i] + [st];
      if st.data == None {
        assert st in stumps && (proper ==> FailsAt(stumps, i, st.subtreeIndex, true));
        return ParseError(st.subtreeIndex);
      }
      var ok;
      ok, byIndex, order := MergeOne(stumps[..i], byIndex, order, st, proper);
      if !ok {
        if proper {
          StaysInconsistent(stumps, i + 1, st.subtreeIndex);
        }
        assert proper ==> FailsAt(stumps, i, st.subtreeIndex, false);
        return VariantsDisagree(st.subtreeIndex);
      }
    }
    assert stumps[..|stumps|] == stumps;
    var out := ListMerged(byIndex, order);
    if proper {
      ListingIsDelivery(stumps, byIndex, order, out);
    }
    return Merged(out);
  }

  /** Merges one more STUMP into the paths gathered so far. */
  method MergeOne(ghost done: seq<Stump>, byIndex: map<nat, Path>, order: seq<nat>, st: Stump, ghost proper: bool)
    returns (ok: bool, byIndex': map<nat, Path>, order': seq<nat>)
    requires st.data.Some? && forall index: nat :: index in order <==> index in byIndex
    requires proper ==> MergedSoFar(done, byIndex, order) && DeliveredDistinct(done + [st])
    ensures order' != [] && forall index: nat :: index in order' <==> index in byIndex'
    ensures proper && ok ==> MergedSoFar(done + [st], byIndex', order')
    ensures proper && !ok ==> !Consistent(VariantsOf(done + [st], st.subtreeIndex))
  {
    var path := st.data.value;
    if st.subtreeIndex !in byIndex {
      if proper {
        FirstVariant(done, byIndex, order, st, done + [st]);
      }
      ok, byIndex', order' := true, byIndex[st.subtreeIndex := path], order + [st.subtreeIndex];
      assert forall index: nat :: index in order' <==> index in order || index == st.subtreeIndex;
      return;
    }
    var g := new MerklePath(byIndex[st.subtreeIndex]);
    ok := UnionMerklePath(g, path);
    byIndex', order' := byIndex[st.subtreeIndex := g.path], order;
    if proper {
      UnionStepped(done, byIndex, order, st, done + [st], ok, g.path);
    }
  }

  /** What a union says of the STUMPs merged so far and the next one. */
  lemma UnionStepped(
    done: seq<Stump>, byIndex: map<nat, Path>, order: seq<nat>, st: Stump, next: seq<Stump>, ok: bool, union: Path)
    requires MergedSoFar(done, byIndex, order) && st.data.Some? && st.subtreeIndex in byIndex
    requires next == done + [st] && DeliveredDistinct(next)
    requires DistinctLevels(byIndex[st.subtreeIndex]) && DistinctLevels(st.data.value) ==>
               && (ok <==> !PathsDisagree(byIndex[st.subtreeIndex], st.data.value))
               && (ok ==> IsUnion(union, byIndex[st.subtreeIndex], st.data.value))
    ensures ok ==> MergedSoFar(next, byIndex[st.subtreeIndex := union], order)
    ensures !ok ==> !Consistent(VariantsOf(next, st.subtreeIndex))
  {
    var vs := VariantsOf(done, st.subtreeIndex);
    assert st in next && PathSoFar(byIndex, vs, st.subtreeIndex);
    ConsistentStep(byIndex[st.subtreeIndex], vs, st.data.value);
    if ok {
      FurtherVariant(done, byIndex, order, st, next, union);
    } else {
      VariantsStep(done, st, next);
    }
  }

  method ListMerged(byIndex: map<nat, Path>, order: seq<nat>) returns (out: seq<MergedStump>)
    requires forall i | 0 <= i < |order| :: order[i] in byIndex
    ensures IsListing(byIndex, order, out)
  {
    out := [];
    for i := 0 to |order|
      invariant |out| == i
      invariant forall j | 0 <= j < i :: out[j].index == order[j] && out[j].path == byIndex[order[j]]
      invariant forall j | 0 <= j < i :: out[j].txids == TxidsOf(out[j].path)
    {
      var txids := Level0Txids(byIndex[order[i]]);
      out := out + [MergedStump(order[i], byIndex[order[i]], txids)];
    }
  }

  ghost predicate IsListing(byIndex: map<nat, Path>, order: seq<nat>, out: seq<MergedStump>)
  {
    && |out| == |order|
    && forall j | 0 <= j < |out| ::
         out[j].index == order[j] && order[j] in byIndex && out[j].path == byIndex[order[j]] && out[j].txids == TxidsOf(out[j].path)
  }

  lemma ListingIsDelivery(stumps: seq<Stump>, byIndex: map<nat, Path>, order: seq<nat>, out: seq<MergedStump>)
    requires MergedSoFar(stumps, byIndex, order) && IsListing(byIndex, order, out)
    ensures IsMergedDelivery(stumps, out)
  {
    forall index: nat
      ensures VariantsOf(stumps, index) != [] <==> exists m :: m in out && m.index == index
    {
      assert PathSoFar(byIndex, VariantsOf(stumps, index), index);
      if index in order {
        var j :| 0 <= j < |order| && order[j] == index;
        assert out[j] in out;
      }
    }
    forall m | m in out
      ensures IsMergeOf(m.path, VariantsOf(stumps, m.index)) && m.txids == TxidsOf(m.path)
    {
      assert PathSoFar(byIndex, VariantsOf(stumps, m.index), m.index);
    }
  }

  lemma SingleVariant(v: Path)
    requires DistinctLevels(v)
    ensures IsMergeOf(v, [v]) && Consistent([v])
  {
    forall k: nat, o: nat
      ensures FindLeafByOffset(v, k, o) == FoldSlot([v], k, o)
    {
      assert [v][..0] == [];
      assert FoldSlot([], k, o) == None;
    }
  }

  lemma FirstVariant(done: seq<Stump>, byIndex: map<nat, Path>, order: seq<nat>, st: Stump, next: seq<Stump>)
    requires MergedSoFar(done, byIndex, order) && st.data.Some? && st.subtreeIndex !in byIndex
    requires next == done + [st] && DeliveredDistinct(next)
    ensures MergedSoFar(next, byIndex[st.subtreeIndex := st.data.value], order + [st.subtreeIndex])
  {
    var byIndex' := byIndex[st.subtreeIndex := st.data.value];
    VariantsStep(done, st, next);
    assert st in next;
    SingleVariant(st.data.value);
    forall index: nat
      ensures PathSoFar(byIndex', VariantsOf(next, index), index)
    {
      assert PathSoFar(byIndex, VariantsOf(done, index), index);
      assert [] + [st.data.value] == [st.data.value];
    }
    FirstSeenNow(done, byIndex, order, st, next, byIndex');
  }

  lemma FirstSeenNow(
    done: seq<Stump>, byIndex: map<nat, Path>, order: seq<nat>, st: Stump, next: seq<Stump>, byIndex': map<nat, Path>)
    requires OrderedSoFar(done, byIndex, order) && st.data.Some? && st.subtreeIndex !in byIndex && next == done + [st]
    requires byIndex'.Keys == byIndex.Keys + {st.subtreeIndex}
    ensures OrderedSoFar(next, byIndex', order + [st.subtreeIndex])
  {
    VariantsStep(done, st, next);
    var order' := order + [st.subtreeIndex];
    assert forall index: nat :: index in order' <==> index in order || index == st.subtreeIndex;
  }

  lemma VariantsStep(done: seq<Stump>, st: Stump, next: seq<Stump>)
    requires next == done + [st]
    ensures FirstSeen(next) ==
            if st.subtreeIndex in FirstSeen(done) then FirstSeen(done) else FirstSeen(done) + [st.subtreeIndex]
    ensures forall index: nat :: VariantsOf(next, index) ==
              if st.subtreeIndex == index && st.data.Some? then VariantsOf(done, index) + [st.data.value]
              else VariantsOf(done, index)
  {
    assert next[..|next| - 1] == done;
  }

  lemma FurtherVariant(
    done: seq<Stump>, byIndex: map<nat, Path>, order: seq<nat>, st: Stump, next: seq<Stump>, union: Path)
    requires MergedSoFar(done, byIndex, order) && st.data.Some? && st.subtreeIndex in byIndex
    requires next == done + [st]
    requires IsUnion(union, byIndex[st.subtreeIndex], st.data.value)
    requires Consistent(VariantsOf(done, st.subtreeIndex) + [st.data.value])
    ensures MergedSoFar(next, byIndex[st.subtreeIndex := union], order)
  {
    var byIndex' := byIndex[st.subtreeIndex := union];
    forall index: nat
      ensures PathSoFar(byIndex', VariantsOf(next, index), index)
    {
      assert PathSoFar(byIndex, VariantsOf(done, index), index);
      FurtherPath(done, byIndex, st, next, union, index);
    }
    VariantsStep(done, st, next);
  }

  lemma FurtherPath(done: seq<Stump>, byIndex: map<nat, Path>, st: Stump, next: seq<Stump>, union: Path, index: nat)
    requires PathSoFar(byIndex, VariantsOf(done, index), index) && st.data.Some? && st.subtreeIndex in byIndex
    requires next == done + [st]
    requires IsUnion(union, byIndex[st.subtreeIndex], st.data.value)
    requires Consistent(VariantsOf(done, st.subtreeIndex) + [st.data.value])
    ensures PathSoFar(byIndex[st.subtreeIndex := union], VariantsOf(next, index), index)
  {
    VariantsStep(done, st, next);
    if index == st.subtreeIndex {
      UnionMerges(byIndex[index], VariantsOf(done, index), st.data.value, union);
    }
  }

  lemma UnionMerges(m: Path, vs: seq<Path>, v: Path, union: Path)
    requires IsMergeOf(m, vs) && IsUnion(union, m, v)
    ensures IsMergeOf(union, vs + [v])
  {
    var all := vs + [v];
    assert all[..|all| - 1] == vs;
    forall k: nat, o: nat
      ensures FindLeafByOffset(union, k, o) == FoldSlot(all, k, o)
    {
    }
  }

  lemma {:induction false} StaysInconsistent(stumps: seq<Stump>, i: nat, index: nat)
    requires i <= |stumps| && !Consistent(VariantsOf(stumps[..i], index))
    ensures !Consistent(VariantsOf(stumps, index))
    decreases |stumps| - i
  {
    if i < |stumps| {
      var now, later := VariantsOf(stumps[..i], index), VariantsOf(stumps[..i + 1], index);
      VariantsStep(stumps[..i], stumps[i], stumps[..i + 1]);
      assert forall v | v in now :: v in later;
      StaysInconsistent(stumps, i + 1, index);
    } else {
      assert stumps[..i] == stumps;
    }
  }

  // ----- what a merge means

  lemma {:induction false} FoldSlotFrom(vs: seq<Path>, k: nat, o: nat) returns (v: Path)
    requires FoldSlot(vs, k, o).Some?
    ensures v in vs && FindLeafByOffset(v, k, o).Some?
  {
    if FindLeafByOffset(vs[|vs| - 1], k, o).Some? {
      v := vs[|vs| - 1];
    } else {
      v := FoldSlotFrom(vs[..|vs| - 1], k, o);
    }
  }

  lemma {:induction false} FoldTrackedFrom(vs: seq<Path>, k: nat, o: nat) returns (v: Path)
    requires FoldSlot(vs, k, o).Some? && FoldSlot(vs, k, o).value.tracked
    ensures v in vs && FindLeafByOffset(v, k, o).Some? && FindLeafByOffset(v, k, o).value.tracked
  {
    var last := FindLeafByOffset(vs[|vs| - 1], k, o);
    if last.Some? && last.value.tracked {
      v := vs[|vs| - 1];
    } else {
      v := FoldTrackedFrom(vs[..|vs| - 1], k, o);
    }
  }

  /** Every element carries a hash or the duplicate flag, and not both. */
  ghost predicate Definite(vs: seq<Path>)
  {
    forall v, k: nat, o: nat | v in vs && FindLeafByOffset(v, k, o).Some? ::
      FindLeafByOffset(v, k, o).value.hash.Some? <==> !FindLeafByOffset(v, k, o).value.duplicate
  }

  lemma {:induction false} FoldDefinite(vs: seq<Path>, k: nat, o: nat)
    requires Definite(vs)
    ensures FoldSlot(vs, k, o).Some? ==> (FoldSlot(vs, k, o).value.hash.Some? <==> !FoldSlot(vs, k, o).value.duplicate)
  {
    if vs != [] {
      assert forall v | v in vs[..|vs| - 1] :: v in vs;
      FoldDefinite(vs[..|vs| - 1], k, o);
      assert vs[|vs| - 1] in vs;
    }
  }

  /** The merged slots do not depend on the order, or the repetition, in which the variants arrived. */
  lemma MergeOrderIndependent(vs: seq<Path>, ws: seq<Path>, k: nat, o: nat)
    requires forall v :: v in vs <==> v in ws
    requires Consistent(vs) && Definite(vs)
    ensures FoldSlot(vs, k, o) == FoldSlot(ws, k, o)
  {
    FoldDefinite(vs, k, o);
    FoldDefinite(ws, k, o);
    if FoldSlot(vs, k, o).Some? {
      SlotWithin(vs, ws, k, o);
    }
    if FoldSlot(ws, k, o).Some? {
      SlotWithin(ws, vs, k, o);
    }
  }

  lemma SlotWithin(vs: seq<Path>, ws: seq<Path>, k: nat, o: nat)
    requires forall v | v in vs :: v in ws
    requires Consistent(ws) && FoldSlot(vs, k, o).Some?
    ensures FoldSlot(ws, k, o).Some?
    ensures var a, b := FoldSlot(vs, k, o).value, FoldSlot(ws, k, o).value;
            && a.offset == b.offset == o
            && (a.tracked ==> b.tracked)
            && (a.hash.Some? ==> b.hash == a.hash)
  {
    FoldOffset(vs, k, o);
    var v := FoldSlotFrom(vs, k, o);
    FoldCharacterized(ws, k, o, v);
    if FoldSlot(vs, k, o).value.tracked {
      var t := FoldTrackedFrom(vs, k, o);
      FoldCharacterized(ws, k, o, t);
    }
    if FoldSlot(vs, k, o).value.hash.Some? {
      var h := FoldHashFrom(vs, k, o);
      FoldCharacterized(ws, k, o, h);
    }
  }

  // ----- merging keeps agreement and climbs

  /** The first h levels, of a path that has them. */
  ghost predicate AgreesBelow(leaves: seq<Hash>, p: Path, h: nat)
  {
    forall k, e | 0 <= k < |p| && k < h && e in p[k] :: ElementAgrees(leaves, k, e)
  }

  lemma {:induction false} FoldSlotAgrees(leaves: seq<Hash>, vs: seq<Path>, h: nat, k: nat, o: nat)
    requires k < h && forall v | v in vs :: AgreesBelow(leaves, v, h)
    ensures SlotAgrees(leaves, k, o, FoldSlot(vs, k, o))
  {
    if vs != [] {
      var most, last := vs[..|vs| - 1], vs[|vs| - 1];
      assert last in vs && forall v | v in most :: v in vs;
      FoldSlotAgrees(leaves, most, h, k, o);
    }
  }

  /** Variants of one tree never disagree. */
  lemma AgreeingAreConsistent(leaves: seq<Hash>, vs: seq<Path>)
    requires forall v | v in vs :: Agrees(leaves, v)
    ensures Consistent(vs)
  {
  }

  lemma MergeAgrees(leaves: seq<Hash>, m: Path, vs: seq<Path>, h: nat)
    requires IsMergeOf(m, vs) && h <= |m|
    requires forall v | v in vs :: AgreesBelow(leaves, v, h)
    ensures Agrees(leaves, m[..h]) && WellFormed(m[..h])
  {
    forall k, e | 0 <= k < h && e in m[k]
      ensures ElementAgrees(leaves, k, e)
    {
      LookupMember(m[k], e);
      assert FindLeafByOffset(m, k, e.offset) == FoldSlot(vs, k, e.offset);
      FoldSlotAgrees(leaves, vs, h, k, e.offset);
    }
  }

  lemma MergeIncludes(m: Path, vs: seq<Path>, v: Path, h: nat)
    requires IsMergeOf(m, vs) && Consistent(vs) && v in vs && h <= |v| <= |m|
    ensures Includes(m[..h], v[..h], h, 0)
  {
    forall k: nat, x: nat | k < h
      ensures SlotIncluded(m[..h], v[..h], h, 0, k, x)
    {
      if Lookup(v[k], x).Some? {
        ShlPositive(h - k);
        FoldCharacterized(vs, k, x, v);
        assert FindLeafByOffset(m, k, x) == FoldSlot(vs, k, x);
      }
    }
  }

  /** A leaf whose climb some variant has keeps it in the merged path. */
  lemma MergeKeepsClimb(leaves: seq<Hash>, m: Path, vs: seq<Path>, v: Path, h: nat, o: nat)
    requires IsMergeOf(m, vs) && Consistent(vs) && v in vs && h <= |v|
    requires forall u | u in vs :: AgreesBelow(leaves, u, h)
    requires 1 <= |leaves| <= Shl(1, h)
    requires ClimbTo(v[..h], h, 0, 0, h, o)
    ensures h <= |m| && ClimbTo(m[..h], h, 0, 0, h, o)
  {
    assert |v| <= |m|;
    MergeAgrees(leaves, m, vs, h);
    MergeIncludes(m, vs, v, h);
    SamePathClimb(leaves, v[..h], m[..h], h, o);
  }

  lemma SamePathClimb(leaves: seq<Hash>, p: Path, q: Path, h: nat, o: nat)
    requires |p| == |q| == h && 1 <= |leaves| <= Shl(1, h)
    requires Agrees(leaves, p) && Agrees(leaves, q) && Includes(q, p, h, 0)
    requires ClimbTo(p, h, 0, 0, h, o)
    ensures ClimbTo(q, h, 0, 0, h, o)
  {
    ShlPositive(h);
    ClimbCarriesOver(leaves, leaves, p, q, h, 0, h, 0, 0, o, o);
  }
}
