/** The cached index over a compound path, and its agreement with the linear scan. */
module CompoundIndexing {
  import opened Prelude
  import opened MerkleTree
  import opened MerklePaths
  import opened Variants
  import opened MinimalPath

  /** Finds the transaction by scanning the leaves, then extracts. */
  method ExtractMinimalPathForTx(compound: Path, txid: Hash) returns (r: Option<Path>)
    ensures r == ScanResult(compound, txid)
  {
    if |compound| == 0 {
      return None;
    }
    for i := 0 to |compound[0]|
      invariant FindLeafByHash(compound[0], txid) == FindLeafByHash(compound[0][i..], txid)
    {
      if compound[0][i].hash == Some(txid) {
        var mp := ExtractMinimalPath(compound, compound[0][i].offset);
        return Some(mp.path);
      }
    }
    return None;
  }

  /** The minimal path of the first leaf that carries `txid`. */
  function ScanResult(compound: Path, txid: Hash): Option<Path>
  {
    var leaf := if |compound| == 0 then None else FindLeafByHash(compound[0], txid);
    if leaf.None? then None else Some(Minimal(compound, leaf.value.offset))
  }

  /** The offset of each hash's last leaf. */
  function TxOffsets(s: seq<PathElement>): map<Hash, nat>
  {
    if s == [] then map[]
    else
      var most, last := TxOffsets(s[..|s| - 1]), s[|s| - 1];
      if last.hash.Some? then most[last.hash.value := last.offset] else most
  }

  /** The minimal path of the last leaf that carries `txid`, over the indexed levels. */
  function IndexResult(txOffsets: map<Hash, nat>, levels: Path, txid: Hash): Option<Path>
  {
    if txid in txOffsets then Some(Minimal(levels, txOffsets[txid])) else None
  }

  class CompoundIndex {
    var txOffsets: map<Hash, nat>
    var levels: Path

    /** Every level is sorted by offset. */
    ghost predicate Valid()
      reads this
    {
      forall k | 0 <= k < |levels| :: Ascending(levels[k])
    }

    constructor (compound: Path)
      ensures Valid()
      ensures txOffsets == if |compound| == 0 then map[] else TxOffsets(compound[0])
      ensures |levels| == |compound| && forall k | 0 <= k < |compound| :: levels[k] == SortedByOffset(compound[k])
    {
      var offsets: map<Hash, nat> := map[];
      if |compound| > 0 {
        for i := 0 to |compound[0]|
          invariant offsets == TxOffsets(compound[0][..i])
        {
          var leaf := compound[0][i];
          assert compound[0][..i + 1][..i] == compound[0][..i];
          if leaf.hash.Some? {
            offsets := offsets[leaf.hash.value := leaf.offset];
          }
        }
        assert compound[0][..|compound[0]|] == compound[0];
      }
      var sorted: Path := [];
      for level := 0 to |compound|
        invariant |sorted| == level
        invariant forall k | 0 <= k < level :: sorted[k] == SortedByOffset(compound[k]) && Ascending(sorted[k])
      {
        SortedAscends(compound[level]);
        sorted := sorted + [SortedByOffset(compound[level])];
      }
      txOffsets := offsets;
      levels := sorted;
    }

    /** Binary search for the first element at or after `offset`. */
    method LeafAt(level: nat, offset: nat) returns (e: Option<PathElement>)
      requires Valid()
      ensures e == FindLeafByOffset(levels, level, offset)
    {
      if level >= |levels| {
        return None;
      }
      var elems := levels[level];
      var lo, hi := 0, |elems|;
      while lo < hi
        invariant 0 <= lo <= hi <= |elems|
        invariant forall i | 0 <= i < lo :: elems[i].offset < offset
        invariant forall i | hi <= i < |elems| :: elems[i].offset >= offset
      {
        var mid := (lo + hi) / 2;
        if elems[mid].offset < offset {
          lo := mid + 1;
        } else {
          hi := mid;
        }
      }
      FirstAtOrAfter(elems, lo, offset);
      if lo < |elems| && elems[lo].offset == offset {
        return Some(elems[lo]);
      }
      return None;
    }

    method MinimalPathOf(txid: Hash) returns (r: Option<Path>)
      requires Valid()
      ensures r == IndexResult(txOffsets, levels, txid)
    {
      if txid !in txOffsets {
        return None;
      }
      var txOffset := txOffsets[txid];
      var mp := new MerklePath(seq(|levels|, _ => []));
      var offset := txOffset;
      for level := 0 to |levels|
        invariant |mp.path| == |levels| && offset == Shr(txOffset, level)
        invariant forall k | 0 <= k < level :: mp.path[k] == MinimalLevel(levels, txOffset, k)
        invariant forall k | level <= k < |levels| :: mp.path[k] == []
      {
        if level == 0 {
          var leaf := LeafAt(0, offset);
          if leaf.Some? {
            AddLeaf(mp, 0, leaf.value);
          }
        }
        var sibling := LeafAt(level, Sibling(offset));
        if sibling.Some? {
          AddLeaf(mp, level, sibling.value);
        }
        offset := offset / 2;
      }
      assert mp.path == Minimal(levels, txOffset);
      return Some(mp.path);
    }
  }

  lemma {:induction false} SortedAscends(s: seq<PathElement>)
    ensures Ascending(SortedByOffset(s))
  {
    if s != [] {
      SortedAscends(s[1..]);
      InsertAscends(SortedByOffset(s[1..]), s[0]);
    }
  }

  /** In a sorted level the search position is where the scan stops. */
  lemma {:induction false} FirstAtOrAfter(s: seq<PathElement>, at: nat, offset: nat)
    requires at <= |s| && (forall i | 0 <= i < at :: s[i].offset < offset)
    requires forall i | at <= i < |s| :: s[i].offset >= offset
    requires Ascending(s)
    ensures Lookup(s, offset) == if at < |s| && s[at].offset == offset then Some(s[at]) else None
  {
    if at > 0 {
      FirstAtOrAfter(s[1..], at - 1, offset);
    } else if s != [] && s[0].offset != offset {
      LookupNone(s, offset);
    }
  }

  /** The last leaf that carries `txid`. */
  function LastLeafByHash(s: seq<PathElement>, txid: Hash): (r: Option<PathElement>)
    ensures r.Some? ==> r.value in s && r.value.hash == Some(txid)
  {
    if s == [] then None
    else if s[|s| - 1].hash == Some(txid) then Some(s[|s| - 1])
    else LastLeafByHash(s[..|s| - 1], txid)
  }

  lemma {:induction false} TxOffsetsLast(s: seq<PathElement>, txid: Hash)
    ensures txid in TxOffsets(s) <==> LastLeafByHash(s, txid).Some?
    ensures txid in TxOffsets(s) ==> TxOffsets(s)[txid] == LastLeafByHash(s, txid).value.offset
  {
    if s != [] {
      TxOffsetsLast(s[..|s| - 1], txid);
    }
  }

  lemma {:induction false} FirstIffMember(s: seq<PathElement>, txid: Hash)
    ensures FindLeafByHash(s, txid).Some? <==> exists e :: e in s && e.hash == Some(txid)
  {
    if s != [] {
      FirstIffMember(s[1..], txid);
      assert s == [s[0]] + s[1..];
    }
  }

  lemma {:induction false} LastIffMember(s: seq<PathElement>, txid: Hash)
    ensures LastLeafByHash(s, txid).Some? <==> exists e :: e in s && e.hash == Some(txid)
  {
    if s != [] {
      LastIffMember(s[..|s| - 1], txid);
      assert s == s[..|s| - 1] + [s[|s| - 1]];
    }
  }

  /** The leaves carry distinct hashes. */
  predicate DistinctHashes(s: seq<PathElement>)
  {
    forall i, j | 0 <= i < j < |s| && s[i].hash.Some? :: s[i].hash != s[j].hash
  }

  /** What the index holds for a path: its levels sorted, its leaves by hash. */
  ghost predicate Indexes(txOffsets: map<Hash, nat>, levels: Path, compound: Path)
  {
    && txOffsets == (if |compound| == 0 then map[] else TxOffsets(compound[0]))
    && |levels| == |compound| && forall k | 0 <= k < |compound| :: levels[k] == SortedByOffset(compound[k])
  }

  lemma SortedMinimal(levels: Path, compound: Path, o: nat)
    requires DistinctLevels(compound)
    requires |levels| == |compound| && forall k | 0 <= k < |compound| :: levels[k] == SortedByOffset(compound[k])
    ensures Minimal(levels, o) == Minimal(compound, o)
  {
    forall k: nat, i: nat | k < |compound|
      ensures Lookup(levels[k], i) == Lookup(compound[k], i)
    {
      SortedSlots(compound[k], i);
    }
    SameSlotsSameMinimal(levels, compound, o);
  }

  /** Index and scan agree on a transaction exactly when its first and last leaf are the same slot. */
  lemma IndexAgreesExactly(txOffsets: map<Hash, nat>, levels: Path, compound: Path, txid: Hash)
    requires Indexes(txOffsets, levels, compound) && DistinctLevels(compound)
    ensures IndexResult(txOffsets, levels, txid) == ScanResult(compound, txid) <==>
            |compound| == 0
            || FindLeafByHash(compound[0], txid) == LastLeafByHash(compound[0], txid)
  {
    if |compound| > 0 {
      var leaves := compound[0];
      TxOffsetsLast(leaves, txid);
      FirstIffMember(leaves, txid);
      LastIffMember(leaves, txid);
      if txid in txOffsets {
        var first, last := FindLeafByHash(leaves, txid).value, LastLeafByHash(leaves, txid).value;
        SortedMinimal(levels, compound, last.offset);
        LookupMember(leaves, first);
        LookupMember(leaves, last);
        if first.offset != last.offset {
          assert Minimal(compound, first.offset)[0][0] == first && Minimal(compound, last.offset)[0][0] == last;
        }
      }
    }
  }

  /** With distinct leaf hashes the index answers every transaction, present or absent, as the scan does. */
  lemma IndexMatchesScan(txOffsets: map<Hash, nat>, levels: Path, compound: Path, txid: Hash)
    requires Indexes(txOffsets, levels, compound) && DistinctLevels(compound)
    requires |compound| > 0 ==> DistinctHashes(compound[0])
    ensures IndexResult(txOffsets, levels, txid) == ScanResult(compound, txid)
  {
    IndexAgreesExactly(txOffsets, levels, compound, txid);
    if |compound| > 0 {
      FirstIffMember(compound[0], txid);
      LastIffMember(compound[0], txid);
      if FindLeafByHash(compound[0], txid).Some? {
        SameLeaf(compound[0], FindLeafByHash(compound[0], txid).value, LastLeafByHash(compound[0], txid).value);
      }
    }
  }

  lemma SameLeaf(s: seq<PathElement>, e: PathElement, f: PathElement)
    requires DistinctHashes(s) && e in s && f in s && e.hash.Some? && e.hash == f.hash
    ensures e == f
  {
    var i :| 0 <= i < |s| && s[i] == e;
    var j :| 0 <= j < |s| && s[j] == f;
    assert i == j || e == f;
  }

  /** Two leaves with one hash: the scan takes the first, the index the last. */
  lemma RepeatedHashDiffers(h: Hash, levels: Path, txOffsets: map<Hash, nat>)
    requires var compound := [[Computed(0, h), Computed(1, h)]]; Indexes(txOffsets, levels, compound)
    ensures var compound := [[Computed(0, h), Computed(1, h)]];
            IndexResult(txOffsets, levels, h) != ScanResult(compound, h)
  {
    var leaves := [Computed(0, h), Computed(1, h)];
    assert Distinct(leaves);
    assert FindLeafByHash(leaves, h) == Some(leaves[0]);
    assert LastLeafByHash(leaves, h) == Some(leaves[1]);
    IndexAgreesExactly(txOffsets, levels, [leaves], h);
  }
}
