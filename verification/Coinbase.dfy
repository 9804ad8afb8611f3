/**
 The coinbase correction. Subtree 0 is delivered over a placeholder leaf; the coinbase path holds the real one and
 climbs the block's left spine. This swaps the leaf, repairs or clears the stale spine nodes above it, and derives
 the real subtree root from the same spine.
 */
module Coinbase {
  import opened Prelude
  import opened MerkleTree
  import opened MerklePaths
  import opened FillHashes
  import opened Coverage

  // ----- the spine

  /** The sibling of the spine at `level`: always offset 1. */
  function SpineSibling(cb: Path, level: nat): Option<PathElement>
  {
    FindLeafByOffset(cb, level, 1)
  }

  /** The node the walk holds at `level`, as long as every sibling below carries a hash. */
  function SpineAt(cb: Path, txid: Hash, level: nat): Option<Hash>
  {
    if level == 0 then Some(txid)
    else
      var below, sibling := SpineAt(cb, txid, level - 1), SpineSibling(cb, level - 1);
      if below.None? || sibling.None? || sibling.value.hash.None? then None
      else Some(MerkleTreeParent(below.value, sibling.value.hash.value))
  }

  /** The coinbase leaf: the first level-0 element at offset 0 that has a hash. */
  function CoinbaseLeaf(s: seq<PathElement>): Option<Hash>
  {
    if s == [] then None
    else if s[0].offset == 0 && s[0].hash.Some? then s[0].hash
    else CoinbaseLeaf(s[1..])
  }

  function ExtractCoinbaseTxid(coinbase: Option<Path>): Option<Hash>
  {
    if coinbase.None? || |coinbase.value| == 0 then None else CoinbaseLeaf(coinbase.value[0])
  }

  // ----- applyCoinbaseToSTUMP

  predicate OnSpine(e: PathElement, skipTracked: bool)
  {
    e.offset == 0 && !(skipTracked && e.tracked)
  }

  /** Where the first spine element is, or past the end. */
  function SpineIndex(s: seq<PathElement>, skipTracked: bool): (i: nat)
    ensures i <= |s|
    ensures i < |s| ==> OnSpine(s[i], skipTracked)
    ensures forall j | 0 <= j < i :: !OnSpine(s[j], skipTracked)
  {
    if s == [] || OnSpine(s[0], skipTracked) then 0 else 1 + SpineIndex(s[1..], skipTracked)
  }

  /** The first element at offset 0 takes hash h; with `skipTracked`, the first untracked one. */
  function WithSpineHash(s: seq<PathElement>, h: Hash, skipTracked: bool): seq<PathElement>
  {
    var i := SpineIndex(s, skipTracked);
    if i < |s| then s[i := s[i].(hash := Some(h))] else s
  }

  /** Everything but offset 0. */
  function OffSpine(s: seq<PathElement>): seq<PathElement>
  {
    if s == [] then []
    else if s[|s| - 1].offset != 0 then OffSpine(s[..|s| - 1]) + [s[|s| - 1]]
    else OffSpine(s[..|s| - 1])
  }

  /** Level k after the clear-and-recompute branch. */
  function ClearedLevel(p: Path, txid: Hash, k: nat): seq<PathElement>
    requires k < |p|
  {
    if k == 0 then WithSpineHash(p[0], txid, false) else OffSpine(p[k])
  }

  /** Level k after the walk-the-coinbase-path branch. */
  function WalkedLevel(p: Path, txid: Hash, cb: Path, k: nat): seq<PathElement>
    requires k < |p|
  {
    var spine := SpineAt(cb, txid, k);
    if k < |cb| && spine.Some? then WithSpineHash(p[k], spine.value, true) else p[k]
  }

  function CorrectedLevel(p: Path, txid: Hash, coinbase: Option<Path>, k: nat): seq<PathElement>
    requires k < |p|
  {
    if Lookup(p[0], 0).Some? then ClearedLevel(p, txid, k)
    else if coinbase.None? then p[k]
    else WalkedLevel(p, txid, coinbase.value, k)
  }

  /** The corrected STUMP. */
  function Corrected(p: Path, txid: Hash, coinbase: Option<Path>): (r: Path)
    ensures |r| == |p|
  {
    seq(|p|, k requires 0 <= k < |p| => CorrectedLevel(p, txid, coinbase, k))
  }

  method PlaceSpineHash(s: seq<PathElement>, h: Hash, skipTracked: bool) returns (r: seq<PathElement>)
    ensures r == WithSpineHash(s, h, skipTracked)
  {
    for i := 0 to |s|
      invariant forall j | 0 <= j < i :: !OnSpine(s[j], skipTracked)
    {
      if s[i].offset == 0 && !(skipTracked && s[i].tracked) {
        return s[i := s[i].(hash := Some(h))];
      }
    }
    return s;
  }

  method ApplyCoinbaseToStump(mp: MerklePath, coinbaseTxid: Hash, coinbase: Option<Path>)
    modifies mp
    ensures mp.path == Corrected(old(mp.path), coinbaseTxid, coinbase)
  {
    ghost var p := mp.path;
    if |mp.path| == 0 {
      return;
    }
    if Lookup(mp.path[0], 0).Some? {
      var level0 := PlaceSpineHash(mp.path[0], coinbaseTxid, false);
      mp.path := mp.path[0 := level0];
      for level := 1 to |mp.path|
        invariant |mp.path| == |p|
        invariant forall k | 0 <= k < level :: mp.path[k] == ClearedLevel(p, coinbaseTxid, k)
        invariant forall k | level <= k < |p| :: mp.path[k] == p[k]
      {
        var filtered := [];
        for i := 0 to |mp.path[level]|
          invariant filtered == OffSpine(mp.path[level][..i])
        {
          var elem := mp.path[level][i];
          assert mp.path[level][..i + 1][..i] == mp.path[level][..i];
          if elem.offset != 0 {
            filtered := filtered + [elem];
          }
        }
        assert mp.path[level][..|mp.path[level]|] == mp.path[level];
        mp.path := mp.path[level := filtered];
      }
      return;
    }
    if coinbase == None {
      return;
    }
    var cb := coinbase.value;
    var currentHash := coinbaseTxid;
    var level := 0;
    while level < |mp.path| && level < |cb|
      invariant 0 <= level && |mp.path| == |p|
      invariant level < |p| && level < |cb| ==> SpineAt(cb, coinbaseTxid, level) == Some(currentHash)
      invariant forall k | 0 <= k < level && k < |p| :: mp.path[k] == WalkedLevel(p, coinbaseTxid, cb, k)
      invariant forall k | level <= k < |p| :: mp.path[k] == p[k]
    {
      var placed := PlaceSpineHash(mp.path[level], currentHash, true);
      mp.path := mp.path[level := placed];
      var sibling := FindLeafByOffset(cb, level, 1);
      level := level + 1;
      if sibling == None || sibling.value.hash == None {
        break;
      }
      currentHash := MerkleTreeParent(currentHash, sibling.value.hash.value);
    }
    forall k | level <= k < |p|
      ensures mp.path[k] == WalkedLevel(p, coinbaseTxid, cb, k)
    {
      if k < |cb| {
        SpineEnds(cb, coinbaseTxid, level, k);
      }
    }
  }

  /** A walk that has stopped holds nothing further up. */
  lemma {:induction false} SpineEnds(cb: Path, txid: Hash, j: nat, k: nat)
    requires j <= k && SpineAt(cb, txid, j).None?
    ensures SpineAt(cb, txid, k).None?
  {
    if j < k {
      SpineEnds(cb, txid, j, k - 1);
    }
  }

  // ----- what the correction does, slot by slot

  lemma LookupSpineHash(s: seq<PathElement>, h: Hash, skipTracked: bool, o: nat)
    requires Distinct(s)
    ensures Distinct(WithSpineHash(s, h, skipTracked))
    ensures Lookup(WithSpineHash(s, h, skipTracked), o) ==
            if o == 0 && Lookup(s, 0).Some? && OnSpine(Lookup(s, 0).value, skipTracked)
            then Some(Lookup(s, 0).value.(hash := Some(h)))
            else Lookup(s, o)
  {
    var i := SpineIndex(s, skipTracked);
    if i < |s| {
      LookupUpdate(s, i, s[i].(hash := Some(h)), o);
      LookupMember(s, s[i]);
    } else if Lookup(s, 0).Some? {
      var j :| 0 <= j < |s| && s[j] == Lookup(s, 0).value;
      assert !OnSpine(s[j], skipTracked);
    }
  }

  lemma {:induction false} OffSpineMembers(s: seq<PathElement>)
    requires Distinct(s)
    ensures Distinct(OffSpine(s)) && forall e | e in OffSpine(s) :: e in s
  {
    if s != [] {
      var most, last := s[..|s| - 1], s[|s| - 1];
      OffSpineMembers(most);
      LookupNone(OffSpine(most), last.offset);
      DistinctAppend(OffSpine(most), last);
    }
  }

  lemma {:induction false} LookupOffSpine(s: seq<PathElement>, o: nat)
    ensures Lookup(OffSpine(s), o) == if o == 0 then None else Lookup(s, o)
  {
    if s != [] {
      var most, last := s[..|s| - 1], s[|s| - 1];
      assert s == most + [last];
      LookupOffSpine(most, o);
      LookupConcat(most, [last], o);
      LookupConcat(OffSpine(most), [last], o);
    }
  }

  /** The STUMP was delivered with leaf 0 itself, so the spine is cleared for recomputation. */
  predicate Clears(p: Path)
  {
    |p| > 0 && Lookup(p[0], 0).Some?
  }

  /** The node the walk has for level k, if it gets there. */
  function SpineHash(coinbase: Option<Path>, txid: Hash, k: nat): Option<Hash>
  {
    if coinbase.None? || k >= |coinbase.value| then None else SpineAt(coinbase.value, txid, k)
  }

  /**
   Off the spine nothing changes. A STUMP with leaf 0 gets the txid there and loses its spine; otherwise each untracked
   spine node takes the walk's hash as far as the walk gets, and the rest is kept.
   */
  lemma CorrectedSlot(p: Path, txid: Hash, coinbase: Option<Path>, k: nat, o: nat)
    requires k < |p| && Distinct(p[k])
    ensures Distinct(Corrected(p, txid, coinbase)[k])
    ensures Lookup(Corrected(p, txid, coinbase)[k], o) ==
            var was := Lookup(p[k], o);
            if o > 0 then was
            else if Clears(p) then (if k == 0 then Some(was.value.(hash := Some(txid))) else None)
            else if was.None? || was.value.tracked || SpineHash(coinbase, txid, k).None? then was
            else Some(was.value.(hash := SpineHash(coinbase, txid, k)))
  {
    if Clears(p) {
      if k == 0 {
        LookupSpineHash(p[0], txid, false, o);
      } else {
        LookupOffSpine(p[k], o);
        OffSpineMembers(p[k]);
      }
    } else if SpineHash(coinbase, txid, k).Some? {
      LookupSpineHash(p[k], SpineHash(coinbase, txid, k).value, true, o);
    }
  }

  // ----- the real tree and the placeholder tree

  /** Changing leaf 0 changes only the left spine. */
  lemma {:induction false} NodeOffSpine(leaves: seq<Hash>, x: Hash, k: nat, i: nat)
    requires leaves != [] && 0 < i < Width(|leaves|, k)
    ensures Node(leaves[0 := x], k, i) == Node(leaves, k, i)
  {
    if k > 0 {
      NodeOffSpine(leaves, x, k - 1, 2 * i);
      NodeOffSpine(leaves, x, k - 1, RightChild(|leaves|, k - 1, i));
    }
  }

  /** The coinbase path follows the tree's spine through level `top`. */
  ghost predicate FollowsSpine(leaves: seq<Hash>, cb: Path, top: nat)
  {
    && leaves != [] && Agrees(leaves, cb) && top <= |cb|
    && forall k: nat | k < top :: Width(|leaves|, k) >= 2 && SpineSibling(cb, k).Some?
  }

  lemma SpineSiblingAgrees(leaves: seq<Hash>, cb: Path, top: nat, k: nat)
    requires FollowsSpine(leaves, cb, top) && k < top
    ensures 1 < Width(|leaves|, k)
    ensures SpineSibling(cb, k).Some? && SpineSibling(cb, k).value.hash == Some(Node(leaves, k, 1))
  {
    assert Width(|leaves|, k) >= 2 && SpineSibling(cb, k).Some?;
    assert ElementAgrees(leaves, k, SpineSibling(cb, k).value);
  }

  lemma {:induction false} SpineIsTree(leaves: seq<Hash>, cb: Path, top: nat, k: nat)
    requires FollowsSpine(leaves, cb, top) && k <= top
    ensures 0 < Width(|leaves|, k) && SpineAt(cb, leaves[0], k) == Some(Node(leaves, k, 0))
  {
    if k > 0 {
      SpineIsTree(leaves, cb, top, k - 1);
      SpineSiblingAgrees(leaves, cb, top, k - 1);
      SpineParent(leaves, k - 1);
    }
  }

  /** A STUMP over the placeholder tree, with tracked marks only on leaves. */
  ghost predicate PlaceholderStump(leaves: seq<Hash>, placeholder: Hash, p: Path)
  {
    && leaves != [] && WellFormed(p) && Agrees(leaves[0 := placeholder], p)
    && forall k, e | 0 < k < |p| && e in p[k] && e.offset == 0 :: !e.tracked
  }

  /** A STUMP that agrees with the placeholder tree is corrected, in either branch, to one that agrees with the real one. */
  lemma CorrectionAgrees(leaves: seq<Hash>, placeholder: Hash, p: Path, cb: Path)
    requires PlaceholderStump(leaves, placeholder, p)
    requires |p| <= |cb| && forall k: nat | k < |p| :: SpineAt(cb, leaves[0], k) == SpineNode(leaves, k)
    ensures WellFormed(Corrected(p, leaves[0], Some(cb))) && Agrees(leaves, Corrected(p, leaves[0], Some(cb)))
  {
    var q := Corrected(p, leaves[0], Some(cb));
    forall k: nat | k < |p|
      ensures Distinct(q[k])
      ensures forall e | e in q[k] :: ElementAgrees(leaves, k, e)
    {
      WidthPositive(|leaves|, k);
      CorrectedSlot(p, leaves[0], Some(cb), k, 0);
      forall e | e in q[k]
        ensures ElementAgrees(leaves, k, e)
      {
        LookupMember(q[k], e);
        ElementCorrected(leaves, placeholder, p, cb, k, e);
      }
    }
  }

  function SpineNode(leaves: seq<Hash>, k: nat): Option<Hash>
  {
    if 0 < Width(|leaves|, k) then Some(Node(leaves, k, 0)) else None
  }

  lemma {:induction false} WidthPositive(n: nat, k: nat)
    requires n > 0
    ensures Width(n, k) > 0
  {
    if k > 0 {
      WidthPositive(n, k - 1);
    }
  }

  lemma ElementCorrected(leaves: seq<Hash>, placeholder: Hash, p: Path, cb: Path, k: nat, e: PathElement)
    requires PlaceholderStump(leaves, placeholder, p) && k < |p| <= |cb|
    requires Width(|leaves|, k) > 0 && SpineAt(cb, leaves[0], k) == SpineNode(leaves, k)
    requires Lookup(Corrected(p, leaves[0], Some(cb))[k], e.offset) == Some(e)
    ensures ElementAgrees(leaves, k, e)
  {
    CorrectedSlot(p, leaves[0], Some(cb), k, e.offset);
    var was := Lookup(p[k], e.offset).value;
    assert ElementAgrees(leaves[0 := placeholder], k, was);
    if 0 < e.offset < Width(|leaves|, k) {
      NodeOffSpine(leaves, placeholder, k, e.offset);
    }
  }

  // ----- which climbs survive

  /** Every sibling of the spine below level k is stored or computable. */
  ghost predicate SpineOpen(p: Path, k: nat)
    requires k <= |p|
  {
    forall j: nat | j < k :: FilledAt(p, j, 1).Some?
  }

  lemma {:induction false} FilledOffSpine(p: Path, q: Path, k: nat, o: nat)
    requires |p| == |q| && k < |p| && o > 0
    requires forall j: nat, i: nat | j < |p| && i > 0 :: Lookup(q[j], i) == Lookup(p[j], i)
    ensures FilledAt(q, k, o) == FilledAt(p, k, o)
  {
    if k > 0 {
      FilledOffSpine(p, q, k - 1, 2 * o);
      FilledOffSpine(p, q, k - 1, 2 * o + 1);
    }
  }

  /** A cleared spine is recomputed exactly as far as its siblings reach. */
  lemma {:induction false} SpineRefilled(leaves: seq<Hash>, q: Path, k: nat)
    requires k < |q| && Agrees(leaves, q) && leaves != []
    requires Lookup(q[0], 0).Some? && forall j: nat | 0 < j < |q| :: Lookup(q[j], 0).None?
    ensures FilledAt(q, k, 0).Some? <==> SpineOpen(q, k)
  {
    if k > 0 {
      SpineRefilled(leaves, q, k - 1);
      WidthPositive(|leaves|, k);
      CompletedAgrees(leaves, q, |q|, 0, k - 1, 0);
      CompletedAgrees(leaves, q, |q|, 0, k - 1, 1);
      CombineAgrees(leaves, k - 1, 0, FilledAt(q, k - 1, 0), FilledAt(q, k - 1, 1));
    }
  }

  /** A rewritten spine is filled exactly where the delivered one was. */
  lemma {:induction false} SpineRewritten(leaves: seq<Hash>, placeholder: Hash, p: Path, q: Path, k: nat)
    requires leaves != [] && |p| == |q| && k < |p|
    requires Agrees(leaves[0 := placeholder], p) && Agrees(leaves, q)
    requires forall j: nat, i: nat | j < |p| && i > 0 :: Lookup(q[j], i) == Lookup(p[j], i)
    requires forall j: nat | j < |p| :: Lookup(q[j], 0).Some? <==> Lookup(p[j], 0).Some?
    ensures FilledAt(q, k, 0).Some? <==> FilledAt(p, k, 0).Some?
  {
    if k > 0 {
      SpineRewritten(leaves, placeholder, p, q, k - 1);
      FilledOffSpine(p, q, k - 1, 1);
      WidthPositive(|leaves|, k);
      CompletedAgrees(leaves, q, |q|, 0, k - 1, 0);
      CompletedAgrees(leaves, q, |q|, 0, k - 1, 1);
      CombineAgrees(leaves, k - 1, 0, FilledAt(q, k - 1, 0), FilledAt(q, k - 1, 1));
      var delivered := leaves[0 := placeholder];
      CompletedAgrees(delivered, p, |p|, 0, k - 1, 0);
      CompletedAgrees(delivered, p, |p|, 0, k - 1, 1);
      CombineAgrees(delivered, k - 1, 0, FilledAt(p, k - 1, 0), FilledAt(p, k - 1, 1));
    }
  }

  /** The inputs of a correction: a placeholder STUMP, and a coinbase path that follows the real spine over it. */
  ghost predicate Correctable(leaves: seq<Hash>, placeholder: Hash, p: Path, cb: Path)
  {
    && PlaceholderStump(leaves, placeholder, p)
    && |p| <= |cb|
    && forall k: nat | k < |p| :: SpineAt(cb, leaves[0], k) == SpineNode(leaves, k)
  }

  /** Which slots are available after the correction. */
  lemma CorrectedFilled(leaves: seq<Hash>, placeholder: Hash, p: Path, cb: Path, k: nat, o: nat)
    requires Correctable(leaves, placeholder, p, cb) && k < |p|
    ensures var q := Corrected(p, leaves[0], Some(cb));
            FilledAt(q, k, o).Some? <==> if o == 0 && Clears(p) then SpineOpen(p, k) else FilledAt(p, k, o).Some?
  {
    var q := Corrected(p, leaves[0], Some(cb));
    CorrectionAgrees(leaves, placeholder, p, cb);
    CorrectedSlots(leaves, placeholder, p, cb);
    if o > 0 {
      FilledOffSpine(p, q, k, o);
    } else if Clears(p) {
      SpineRefilled(leaves, q, k);
      forall j: nat | j < k
        ensures FilledAt(q, j, 1) == FilledAt(p, j, 1)
      {
        FilledOffSpine(p, q, j, 1);
      }
    } else {
      SpineRewritten(leaves, placeholder, p, q, k);
    }
  }

  lemma CorrectedSlots(leaves: seq<Hash>, placeholder: Hash, p: Path, cb: Path)
    requires Correctable(leaves, placeholder, p, cb)
    ensures var q := Corrected(p, leaves[0], Some(cb));
            && (forall j: nat, i: nat | j < |p| && i > 0 :: Lookup(q[j], i) == Lookup(p[j], i))
            && (Clears(p) ==> Lookup(q[0], 0).Some? && forall j: nat | 0 < j < |p| :: Lookup(q[j], 0).None?)
            && (!Clears(p) ==> forall j: nat | j < |p| :: Lookup(q[j], 0).Some? <==> Lookup(p[j], 0).Some?)
  {
    var q := Corrected(p, leaves[0], Some(cb));
    forall j: nat, i: nat | j < |p|
      ensures i > 0 ==> Lookup(q[j], i) == Lookup(p[j], i)
      ensures i == 0 && Clears(p) ==> (Lookup(q[j], i).Some? <==> j == 0)
      ensures i == 0 && !Clears(p) ==> (Lookup(q[j], i).Some? <==> Lookup(p[j], i).Some?)
    {
      WidthPositive(|leaves|, j);
      assert SpineAt(cb, leaves[0], j) == SpineNode(leaves, j);
      CorrectedSlot(p, leaves[0], Some(cb), j, i);
    }
  }

  /** Where the climb from `index` passes beside the spine, the spine can be recomputed that far. */
  ghost predicate SpineServes(p: Path, level: nat, index: nat)
    requires level <= |p|
    decreases |p| - level
  {
    level == |p| || ((index == 1 ==> SpineOpen(p, level)) && SpineServes(p, level + 1, index / 2))
  }

  /**
   A delivered climb survives a walked correction always, and a cleared one exactly when the spine node it folds with
   can be recomputed from the delivered leaves.
   */
  lemma {:induction false} ClimbAfterCorrection(
    leaves: seq<Hash>, placeholder: Hash, p: Path, cb: Path, level: nat, index: nat)
    requires Correctable(leaves, placeholder, p, cb) && level <= |p|
    requires ClimbTo(p, |p|, 0, level, |p|, index)
    ensures ClimbTo(Corrected(p, leaves[0], Some(cb)), |p|, 0, level, |p|, index) <==>
            (!Clears(p) || SpineServes(p, level, index))
    decreases |p| - level
  {
    if level < |p| {
      CorrectedFilled(leaves, placeholder, p, cb, level, Sibling(index));
      ClimbAfterCorrection(leaves, placeholder, p, cb, level + 1, index / 2);
    }
  }

  /** A STUMP that also carries leaf 0's own climb loses no climb. */
  lemma {:induction false} SpineClimbServes(p: Path, level: nat, index: nat)
    requires level <= |p| && ClimbTo(p, |p|, 0, 0, |p|, 0)
    ensures SpineServes(p, level, index)
    decreases |p| - level
  {
    if level < |p| {
      SpineClimbOpens(p, 0, level);
      SpineClimbServes(p, level + 1, index / 2);
    }
  }

  lemma {:induction false} SpineClimbOpens(p: Path, level: nat, k: nat)
    requires level <= k <= |p| && ClimbTo(p, |p|, 0, level, |p|, 0)
    ensures forall j: nat | level <= j < k :: FilledAt(p, j, 1).Some?
    decreases k - level
  {
    if level < k {
      SpineClimbOpens(p, level + 1, k);
    }
  }

  /** With leaf 0 there, the spine is available as far as its siblings are. */
  lemma {:induction false} SpineOpenFilled(leaves: seq<Hash>, p: Path, k: nat)
    requires k < |p| && leaves != [] && Agrees(leaves, p) && Clears(p) && SpineOpen(p, k)
    ensures FilledAt(p, k, 0).Some?
  {
    if k > 0 {
      assert FilledAt(p, k - 1, 1).Some?;
      SpineOpenFilled(leaves, p, k - 1);
      WidthPositive(|leaves|, k);
      ParentFilled(leaves, p, |p|, 0, k - 1, 0);
    }
  }

  /** The correction makes no slot available that was not. */
  lemma CorrectedFillsNoMore(leaves: seq<Hash>, placeholder: Hash, p: Path, cb: Path, k: nat, o: nat)
    requires Correctable(leaves, placeholder, p, cb) && k < |p|
    requires FilledAt(Corrected(p, leaves[0], Some(cb)), k, o).Some?
    ensures FilledAt(p, k, o).Some?
    ensures o == 0 && Clears(p) ==> SpineOpen(p, k)
  {
    CorrectedFilled(leaves, placeholder, p, cb, k, o);
    if o == 0 && Clears(p) {
      SpineOpenFilled(leaves[0 := placeholder], p, k);
    }
  }

  /** Nor any climb. */
  lemma CorrectedClimbsNoMore(leaves: seq<Hash>, placeholder: Hash, p: Path, cb: Path, q: Path, index: nat)
    requires Correctable(leaves, placeholder, p, cb) && q == Corrected(p, leaves[0], Some(cb))
    requires ClimbTo(q, |p|, 0, 0, |p|, index)
    ensures ClimbTo(p, |p|, 0, 0, |p|, index)
  {
    forall k: nat, o: nat | k < |p| && FilledAt(q, k, o).Some?
      ensures FilledAt(p, k, o).Some?
    {
      CorrectedFillsNoMore(leaves, placeholder, p, cb, k, o);
    }
    ClimbsWhereFilled(q, p, 0, index);
  }

  lemma {:induction false} ClimbsWhereFilled(q: Path, p: Path, level: nat, index: nat)
    requires level <= |p| == |q| && ClimbTo(q, |p|, 0, level, |p|, index)
    requires forall k: nat, o: nat | k < |p| && FilledAt(q, k, o).Some? :: FilledAt(p, k, o).Some?
    ensures ClimbTo(p, |p|, 0, level, |p|, index)
    decreases |p| - level
  {
    if level < |p| {
      assert FilledAt(q, level, Sibling(index)).Some?;
      assert FilledAt(p, level, Sibling(index)).Some?;
      ClimbsWhereFilled(q, p, level + 1, index / 2);
    }
  }

  /** The node stands at `index` of `level` and climbs to the top, after the correction. */
  ghost predicate Survives(leaves: seq<Hash>, p: Path, q: Path, level: nat, index: nat)
    requires level <= |p| == |q|
  {
    && index < Width(|leaves|, level) && index < Shl(1, |p| - level)
    && (level < |p| ==> FilledAt(q, level, index).Some?) && ClimbTo(q, |p|, 0, level, |p|, index)
  }

  lemma SurvivesUp(leaves: seq<Hash>, p: Path, q: Path, level: nat, index: nat)
    requires level < |p| == |q| && Agrees(leaves, q) && Survives(leaves, p, q, level, index)
    ensures Survives(leaves, p, q, level + 1, index / 2)
  {
    if level + 1 < |p| {
      PairFilled(leaves, q, |q|, 0, level, index);
    }
  }

  /** A climb that survives the clearing of the spine needs every sibling of the spine, so leaf 0 climbs too. */
  lemma {:induction false} SurvivorOpensSpine(
    leaves: seq<Hash>, placeholder: Hash, p: Path, cb: Path, q: Path, level: nat, index: nat)
    requires Correctable(leaves, placeholder, p, cb) && Clears(p) && q == Corrected(p, leaves[0], Some(cb))
    requires level <= |p| && Survives(leaves, p, q, level, index)
    ensures OpenFrom(p, if index > 0 then 0 else level)
    decreases |p| - level
  {
    if level < |p| {
      CorrectionAgrees(leaves, placeholder, p, cb);
      SurvivesUp(leaves, p, q, level, index);
      SurvivorOpensSpine(leaves, placeholder, p, cb, q, level + 1, index / 2);
      SurvivorBeside(leaves, placeholder, p, cb, q, level, index);
      OpenFurther(p, level, index);
    }
  }

  /** Every sibling of the spine from `level` up is available. */
  ghost predicate OpenFrom(p: Path, level: nat)
  {
    forall j: nat | level <= j < |p| :: FilledAt(p, j, 1).Some?
  }

  /** On the spine or beside it, the climb needs the spine's sibling; beside it, also those below. */
  lemma SurvivorBeside(leaves: seq<Hash>, placeholder: Hash, p: Path, cb: Path, q: Path, level: nat, index: nat)
    requires Correctable(leaves, placeholder, p, cb) && Clears(p) && q == Corrected(p, leaves[0], Some(cb))
    requires level < |p| && FilledAt(q, level, index).Some? && FilledAt(q, level, Sibling(index)).Some?
    ensures index <= 1 ==> FilledAt(p, level, 1).Some?
    ensures index == 1 ==> SpineOpen(p, level)
  {
    CorrectedFillsNoMore(leaves, placeholder, p, cb, level, index);
    CorrectedFillsNoMore(leaves, placeholder, p, cb, level, Sibling(index));
  }

  lemma OpenFurther(p: Path, level: nat, index: nat)
    requires level < |p| && OpenFrom(p, if index / 2 > 0 then 0 else level + 1)
    requires index <= 1 ==> FilledAt(p, level, 1).Some?
    requires index == 1 ==> SpineOpen(p, level)
    ensures OpenFrom(p, if index > 0 then 0 else level)
  {
  }

  lemma {:induction false} OpenSpineClimbs(p: Path, level: nat)
    requires level <= |p| && OpenFrom(p, 0)
    ensures ClimbTo(p, |p|, 0, level, |p|, 0)
    decreases |p| - level
  {
    if level < |p| {
      assert FilledAt(p, level, 1).Some?;
      OpenSpineClimbs(p, level + 1);
    }
  }

  // ----- which stored climbs stay stored

  lemma {:induction false} StoredAboveLeaves(p: Path, txid: Hash, coinbase: Option<Path>, level: nat, index: nat)
    requires DistinctLevels(p) && 0 < level <= |p| && index < Shl(1, |p| - level)
    ensures Climbs(Corrected(p, txid, coinbase), level, index) <==>
            Climbs(p, level, index) && (Clears(p) ==> index == 0)
    decreases |p| - level
  {
    if level < |p| {
      CorrectedSlot(p, txid, coinbase, level, Sibling(index));
      StoredAboveLeaves(p, txid, coinbase, level + 1, index / 2);
    }
  }

  /** Without recomputation, a climb outlives the clearing of the spine only if it starts from leaf 0 or leaf 1. */
  lemma StoredClimbAfterCorrection(p: Path, txid: Hash, coinbase: Option<Path>, o: nat)
    requires DistinctLevels(p) && |p| > 0 && o < Shl(1, |p|)
    ensures Climbs(Corrected(p, txid, coinbase), 0, o) <==> Climbs(p, 0, o) && (Clears(p) ==> o <= 1)
  {
    CorrectedSlot(p, txid, coinbase, 0, Sibling(o));
    StoredAboveLeaves(p, txid, coinbase, 1, o / 2);
  }

  // ----- correctedSubtree0Root

  /** The fold of the spine, honouring duplicate siblings. */
  function SpineFold(cb: Path, working: Hash, level: nat, top: nat): Option<Hash>
    requires level <= top
    decreases top - level
  {
    if level == top then Some(working)
    else match SpineSibling(cb, level)
      case None => None
      case Some(e) =>
        if !e.duplicate && e.hash.None? then None
        else SpineFold(cb, FoldStep(0, working, e), level + 1, top)
  }

  /** The root of the subtree under the spine's node at the internal height the coinbase path implies. */
  function Subtree0Root(coinbase: Option<Path>, numSubtrees: nat): Option<Hash>
  {
    var layer, txid := CeilLog2(numSubtrees), ExtractCoinbaseTxid(coinbase);
    if txid.None? || |coinbase.value| <= layer then None
    else SpineFold(coinbase.value, txid.value, 0, |coinbase.value| - layer)
  }

  method CorrectedSubtree0Root(coinbase: Option<Path>, numSubtrees: nat) returns (root: Option<Hash>)
    ensures root == Subtree0Root(coinbase, numSubtrees)
  {
    if coinbase == None || |coinbase.value| == 0 {
      return None;
    }
    var cb := coinbase.value;
    var internalHeight := |cb| - CeilLog2(numSubtrees);
    if internalHeight <= 0 {
      return None;
    }
    var leaf := CoinbaseLeaf(cb[0]);
    if leaf == None {
      return None;
    }
    var working := leaf.value;
    for level := 0 to internalHeight
      invariant SpineFold(cb, leaf.value, 0, internalHeight) == SpineFold(cb, working, level, internalHeight)
    {
      var sibling := FindLeafByOffset(cb, level, 1);
      if sibling == None {
        return None;
      }
      if sibling.value.duplicate {
        working := MerkleTreeParent(working, working);
      } else if sibling.value.hash.Some? {
        working := MerkleTreeParent(working, sibling.value.hash.value);
      } else {
        return None;
      }
    }
    return Some(working);
  }

  lemma {:induction false} SpineFoldIsTree(leaves: seq<Hash>, cb: Path, top: nat, level: nat, working: Hash)
    requires FollowsSpine(leaves, cb, top) && level <= top
    requires 0 < Width(|leaves|, level) && working == Node(leaves, level, 0)
    ensures 0 < Width(|leaves|, top) && SpineFold(cb, working, level, top) == Some(Node(leaves, top, 0))
    decreases top - level
  {
    if level < top {
      var e := SpineSibling(cb, level).value;
      FoldStepAgrees(leaves, level, 0, e);
      SpineFoldIsTree(leaves, cb, top, level + 1, FoldStep(0, working, e));
    }
  }
}
