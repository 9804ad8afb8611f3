/** Dependency families of a submitted batch, and the partition key each of them shares. */
module Families {
  import opened UnionFind

  // ----- the order of txids

  /** Lexicographic order. */
  predicate Less(a: string, b: string)
  {
    b != [] && (a == [] || a[0] < b[0] || (a[0] == b[0] && Less(a[1..], b[1..])))
  }

  lemma {:induction false} LessTotal(a: string, b: string)
    ensures !(Less(a, b) && Less(b, a))
    ensures Less(a, b) || Less(b, a) || a == b
  {
    if a != [] && b != [] {
      LessTotal(a[1..], b[1..]);
      assert a == [a[0]] + a[1..] && b == [b[0]] + b[1..];
    }
  }

  lemma {:induction false} LessTransitive(a: string, b: string, c: string)
    requires Less(a, b) && Less(b, c)
    ensures Less(a, c)
  {
    if a != [] && b != [] && c != [] && a[0] == b[0] == c[0] {
      LessTransitive(a[1..], b[1..], c[1..]);
    }
  }

  // ----- families

  /** One transaction of a submitted body: its txid and the source txids of its inputs. */
  datatype Parsed = Parsed(txid: string, inputs: seq<string>)

  /** Some transaction x of the batch spends y; empty and self references do not count. */
  ghost predicate Spends(batch: seq<Parsed>, x: string, y: string)
  {
    y != "" && y != x && exists p :: p in batch && p.txid == x && y in p.inputs
  }

  ghost predicate InBatch(batch: seq<Parsed>, x: string)
  {
    exists p :: p in batch && p.txid == x
  }

  ghost predicate Linked(batch: seq<Parsed>, x: string, y: string)
  {
    InBatch(batch, x) && InBatch(batch, y) && (Spends(batch, x, y) || Spends(batch, y, x))
  }

  /** `chain` goes from x to y through in-batch spends, in either direction. */
  ghost predicate IsChain(batch: seq<Parsed>, x: string, chain: seq<string>, y: string)
    decreases |chain|
  {
    if chain == [] then x == y else Linked(batch, x, chain[0]) && IsChain(batch, chain[0], chain[1..], y)
  }

  ghost predicate Connected(batch: seq<Parsed>, x: string, y: string)
  {
    exists chain :: IsChain(batch, x, chain, y)
  }

  lemma {:induction false} ChainJoin(batch: seq<Parsed>, x: string, c: seq<string>, y: string, d: seq<string>, z: string)
    requires IsChain(batch, x, c, y) && IsChain(batch, y, d, z)
    ensures IsChain(batch, x, c + d, z)
    decreases |c|
  {
    if c == [] {
      assert c + d == d;
    } else {
      ChainJoin(batch, c[0], c[1..], y, d, z);
      assert (c + d)[1..] == c[1..] + d;
    }
  }

  lemma ConnectedTransitive(batch: seq<Parsed>, x: string, y: string, z: string)
    requires Connected(batch, x, y) && Connected(batch, y, z)
    ensures Connected(batch, x, z)
  {
    var c :| IsChain(batch, x, c, y);
    var d :| IsChain(batch, y, d, z);
    ChainJoin(batch, x, c, y, d, z);
  }

  lemma LinkedConnects(batch: seq<Parsed>, x: string, y: string)
    requires x == y || Linked(batch, x, y)
    ensures Connected(batch, x, y)
  {
    assert IsChain(batch, y, [], y);
    if x == y {
      assert IsChain(batch, x, [], y);
    } else {
      assert [y][1..] == [];
      assert IsChain(batch, x, [y], y);
    }
  }

  lemma {:induction false} ChainBack(batch: seq<Parsed>, x: string, c: seq<string>, y: string)
    requires IsChain(batch, x, c, y)
    ensures Connected(batch, y, x)
    decreases |c|
  {
    if c == [] {
      LinkedConnects(batch, y, x);
    } else {
      ChainBack(batch, c[0], c[1..], y);
      LinkedConnects(batch, c[0], x);
      ConnectedTransitive(batch, y, c[0], x);
    }
  }

  lemma ConnectedSymmetric(batch: seq<Parsed>, x: string, y: string)
    requires Connected(batch, x, y)
    ensures Connected(batch, y, x)
  {
    var c :| IsChain(batch, x, c, y);
    ChainBack(batch, x, c, y);
  }

  /** k is the smallest txid of x's family. */
  ghost predicate IsFamilyKey(batch: seq<Parsed>, x: string, k: string)
  {
    InBatch(batch, k) && Connected(batch, x, k) && forall y | InBatch(batch, y) && Connected(batch, x, y) :: !Less(y, k)
  }

  /** Two transactions of a batch share a key exactly when they are of one family. */
  lemma SameKeyIffConnected(batch: seq<Parsed>, x: string, k: string, y: string, l: string)
    requires IsFamilyKey(batch, x, k) && IsFamilyKey(batch, y, l)
    ensures k == l <==> Connected(batch, x, y)
  {
    if k == l {
      ConnectedSymmetric(batch, y, k);
      ConnectedTransitive(batch, x, k, y);
    }
    if Connected(batch, x, y) {
      ConnectedSymmetric(batch, x, y);
      ConnectedTransitive(batch, x, y, l);
      ConnectedTransitive(batch, y, x, k);
      LessTotal(k, l);
    }
  }

  /** The key depends only on which transactions the batch holds, not on their order or repetition. */
  lemma KeyUnchangedByOrder(batch: seq<Parsed>, other: seq<Parsed>, x: string, k: string)
    requires forall p :: p in batch <==> p in other
    requires IsFamilyKey(batch, x, k)
    ensures IsFamilyKey(other, x, k)
  {
    forall y
      ensures InBatch(batch, y) <==> InBatch(other, y)
      ensures Connected(batch, x, y) <==> Connected(other, x, y)
    {
      if Connected(batch, x, y) {
        var c :| IsChain(batch, x, c, y);
        ChainInOther(batch, other, x, c, y);
      }
      if Connected(other, x, y) {
        var c :| IsChain(other, x, c, y);
        ChainInOther(other, batch, x, c, y);
      }
    }
  }

  lemma {:induction false} ChainInOther(batch: seq<Parsed>, other: seq<Parsed>, x: string, c: seq<string>, y: string)
    requires forall p | p in batch :: p in other
    requires IsChain(batch, x, c, y)
    ensures IsChain(other, x, c, y)
    decreases |c|
  {
    if c != [] {
      LinkedInOther(batch, other, x, c[0]);
      ChainInOther(batch, other, c[0], c[1..], y);
    }
  }

  lemma LinkedInOther(batch: seq<Parsed>, other: seq<Parsed>, x: string, y: string)
    requires (forall p | p in batch :: p in other) && Linked(batch, x, y)
    ensures Linked(other, x, y)
  {
    var p :| p in batch && p.txid == x;
    var q :| q in batch && q.txid == y;
    assert p in other && q in other;
    if Spends(batch, x, y) {
      var s :| s in batch && s.txid == x && y in s.inputs;
      assert s in other;
    } else {
      var s :| s in batch && s.txid == y && x in s.inputs;
      assert s in other;
    }
  }

  // ----- computing the keys

  /** First occurrence of each txid. */
  ghost predicate IsIndex(txids: seq<string>, index: map<string, nat>)
  {
    && (forall id :: id in index <==> id in txids)
    && forall id | id in index :: index[id] < |txids| && txids[index[id]] == id && id !in txids[..index[id]]
  }

  method IndexTxids(txids: seq<string>) returns (index: map<string, nat>)
    ensures IsIndex(txids, index)
  {
    index := map[];
    for i := 0 to |txids|
      invariant IsIndex(txids[..i], index)
    {
      var before := txids[..i];
      assert txids[..i + 1] == before + [txids[i]];
      if txids[i] !in index {
        index := index[txids[i] := i];
        assert (before + [txids[i]])[..i] == before;
      }
      forall id | id in index
        ensures txids[..i + 1][..index[id]] == before[..index[id]]
      {
      }
    }
    assert txids[..|txids|] == txids;
  }

  function InputsAt(inputs: seq<seq<string>>, i: nat): seq<string>
  {
    if i < |inputs| then inputs[i] else []
  }

  function BatchOf(txids: seq<string>, inputs: seq<seq<string>>): (batch: seq<Parsed>)
    ensures |batch| == |txids|
    ensures forall i | 0 <= i < |txids| :: batch[i] == Parsed(txids[i], InputsAt(inputs, i))
  {
    seq(|txids|, i requires 0 <= i < |txids| => Parsed(txids[i], InputsAt(inputs, i)))
  }

  ghost predicate OneFamily(batch: seq<Parsed>, i: nat, j: nat)
    requires i < |batch| && j < |batch|
  {
    Connected(batch, batch[i].txid, batch[j].txid)
  }

  /** Positions in one part are of one family. */
  ghost predicate Sound(batch: seq<Parsed>, rep: seq<nat>)
  {
    |rep| == |batch| &&
    forall i: nat, j: nat | i < |rep| && j < |rep| && rep[i] == rep[j] :: OneFamily(batch, i, j)
  }

  lemma JoinStaysSound(batch: seq<Parsed>, before: seq<nat>, after: seq<nat>, a: nat, b: nat)
    requires Sound(batch, before) && JoinedBy(before, after, a, b)
    requires batch[a].txid == batch[b].txid || Linked(batch, batch[a].txid, batch[b].txid)
    ensures Sound(batch, after)
  {
    var x, y := batch[a].txid, batch[b].txid;
    LinkedConnects(batch, x, y);
    ConnectedSymmetric(batch, x, y);
    forall i: nat, j: nat | i < |after| && j < |after| && after[i] == after[j]
      ensures OneFamily(batch, i, j)
    {
      assert before[i] == before[a] ==> OneFamily(batch, i, a) && OneFamily(batch, a, i);
      assert before[i] == before[b] ==> OneFamily(batch, i, b) && OneFamily(batch, b, i);
      assert before[j] == before[a] ==> OneFamily(batch, a, j);
      assert before[j] == before[b] ==> OneFamily(batch, b, j);
      if before[i] == before[a] && before[j] == before[b] {
        ConnectedTransitive(batch, batch[i].txid, x, y);
        ConnectedTransitive(batch, batch[i].txid, y, batch[j].txid);
      } else if before[i] == before[b] && before[j] == before[a] {
        ConnectedTransitive(batch, batch[i].txid, y, x);
        ConnectedTransitive(batch, batch[i].txid, x, batch[j].txid);
      }
    }
  }

  /** The inputs of `p` up to `m` that name a transaction of the batch lead to its part. */
  ghost predicate Followed(rep: seq<nat>, index: map<string, nat>, p: Parsed, i: nat, m: nat)
  {
    && i < |rep| && m <= |p.inputs|
    && forall l | 0 <= l < m && p.inputs[l] != "" && p.inputs[l] != p.txid && p.inputs[l] in index ::
         index[p.inputs[l]] < |rep| && rep[i] == rep[index[p.inputs[l]]]
  }

  ghost predicate FollowedTo(rep: seq<nat>, index: map<string, nat>, batch: seq<Parsed>, i: nat)
  {
    i <= |batch| && forall k: nat | k < i :: Followed(rep, index, batch[k], k, |batch[k].inputs|)
  }

  lemma StillFollowed(before: seq<nat>, after: seq<nat>, a: nat, b: nat, index: map<string, nat>, p: Parsed, i: nat, m: nat)
    requires JoinedBy(before, after, a, b) && Followed(before, index, p, i, m)
    ensures Followed(after, index, p, i, m)
  {
  }

  method UnionInputs(forest: Forest, index: map<string, nat>, batch: seq<Parsed>, i: nat)
    requires forest.Valid() && forest.parent.Length == |batch| && i < |batch|
    requires forall id | id in index :: index[id] < |batch| && batch[index[id]].txid == id
    requires Joined(batch, forest.rep, index, i, 0)
    modifies forest, forest.parent, forest.size
    ensures forest.Valid() && Joined(batch, forest.rep, index, i, |batch[i].inputs|)
  {
    var ins := batch[i].inputs;
    for m := 0 to |ins|
      invariant forest.Valid() && Joined(batch, forest.rep, index, i, m)
    {
      var src := ins[m];
      if src == "" || src == batch[i].txid {
        InputSkipped(batch, forest.rep, index, i, m);
        continue;
      }
      if src in index {
        ghost var before := forest.rep;
        forest.Union(i, index[src]);
        InputFollowed(batch, before, forest.rep, index, i, m);
      } else {
        InputSkipped(batch, forest.rep, index, i, m);
      }
    }
  }

  /** The transactions before i, and i's inputs before m, are joined with what they spend, and nothing else is. */
  ghost predicate Joined(batch: seq<Parsed>, rep: seq<nat>, index: map<string, nat>, i: nat, m: nat)
  {
    && Sound(batch, rep) && FollowedTo(rep, index, batch, i)
    && (m > 0 ==> i < |batch| && Followed(rep, index, batch[i], i, m))
  }

  lemma InputSkipped(batch: seq<Parsed>, rep: seq<nat>, index: map<string, nat>, i: nat, m: nat)
    requires i < |batch| && m < |batch[i].inputs| && Joined(batch, rep, index, i, m)
    requires var src := batch[i].inputs[m]; src == "" || src == batch[i].txid || src !in index
    ensures Joined(batch, rep, index, i, m + 1)
  {
  }

  /** Joining a transaction with the one its input names keeps everything followed so far. */
  lemma InputFollowed(batch: seq<Parsed>, before: seq<nat>, after: seq<nat>, index: map<string, nat>, i: nat, m: nat)
    requires i < |batch| && m < |batch[i].inputs| && Joined(batch, before, index, i, m)
    requires var src := batch[i].inputs[m];
             && src != "" && src != batch[i].txid && src in index
             && index[src] < |batch| && batch[index[src]].txid == src && JoinedBy(before, after, i, index[src])
    ensures Joined(batch, after, index, i, m + 1)
  {
    var j := index[batch[i].inputs[m]];
    LinkedByInput(batch, i, j, m);
    JoinStaysSound(batch, before, after, i, j);
    forall k: nat | k < i
      ensures Followed(after, index, batch[k], k, |batch[k].inputs|)
    {
      StillFollowed(before, after, i, j, index, batch[k], k, |batch[k].inputs|);
    }
    StillFollowed(before, after, i, j, index, batch[i], i, m);
  }

  lemma LinkedByInput(batch: seq<Parsed>, i: nat, j: nat, m: nat)
    requires i < |batch| && j < |batch| && m < |batch[i].inputs|
    requires batch[i].inputs[m] == batch[j].txid && batch[j].txid != "" && batch[j].txid != batch[i].txid
    ensures Linked(batch, batch[i].txid, batch[j].txid)
  {
    assert batch[i] in batch && batch[j] in batch && batch[j].txid in batch[i].inputs;
  }

  lemma InputsDone(batch: seq<Parsed>, rep: seq<nat>, index: map<string, nat>, i: nat)
    requires i < |batch| && Joined(batch, rep, index, i, |batch[i].inputs|)
    ensures Joined(batch, rep, index, i + 1, 0)
  {
  }

  /** The positions before i are in one part with the first occurrence of their txid. */
  ghost predicate DuplicatesJoined(batch: seq<Parsed>, rep: seq<nat>, index: map<string, nat>, i: nat)
  {
    && i <= |batch| == |rep|
    && forall k: nat | k < i :: batch[k].txid in index && index[batch[k].txid] < |rep| && rep[k] == rep[index[batch[k].txid]]
  }

  /** Joining a repeated txid with its first occurrence keeps everything joined so far. */
  lemma DuplicateJoined(batch: seq<Parsed>, before: seq<nat>, after: seq<nat>, index: map<string, nat>, i: nat)
    requires Joined(batch, before, index, |batch|, 0) && DuplicatesJoined(batch, before, index, i) && i < |batch|
    requires var id := batch[i].txid;
             id in index && index[id] < |batch| && batch[index[id]].txid == id && JoinedBy(before, after, i, index[id])
    ensures Joined(batch, after, index, |batch|, 0) && DuplicatesJoined(batch, after, index, i + 1)
  {
    var j := index[batch[i].txid];
    JoinStaysSound(batch, before, after, i, j);
    forall k: nat | k < |batch|
      ensures Followed(after, index, batch[k], k, |batch[k].inputs|)
    {
      StillFollowed(before, after, i, j, index, batch[k], k, |batch[k].inputs|);
    }
  }

  /** One part per family. */
  ghost predicate PartsAreFamilies(batch: seq<Parsed>, rep: seq<nat>)
  {
    |rep| == |batch| &&
    forall i: nat, j: nat | i < |rep| && j < |rep| :: OneFamily(batch, i, j) <==> rep[i] == rep[j]
  }

  lemma SpenderWithSource(batch: seq<Parsed>, rep: seq<nat>, index: map<string, nat>, i: nat, j: nat)
    requires Joined(batch, rep, index, |batch|, 0) && DuplicatesJoined(batch, rep, index, |batch|)
    requires i < |batch| && j < |batch| && Spends(batch, batch[i].txid, batch[j].txid)
    ensures rep[i] == rep[j]
  {
    var x, y := batch[i].txid, batch[j].txid;
    var p :| p in batch && p.txid == x && y in p.inputs;
    var k: nat :| k < |batch| && batch[k] == p;
    var l :| 0 <= l < |p.inputs| && p.inputs[l] == y;
    assert Followed(rep, index, batch[k], k, |batch[k].inputs|);
  }

  lemma {:induction false} ChainInOnePart(
    batch: seq<Parsed>, rep: seq<nat>, index: map<string, nat>, i: nat, c: seq<string>, j: nat)
    requires Joined(batch, rep, index, |batch|, 0) && DuplicatesJoined(batch, rep, index, |batch|)
    requires i < |batch| && j < |batch| && IsChain(batch, batch[i].txid, c, batch[j].txid)
    ensures rep[i] == rep[j]
    decreases |c|
  {
    if c != [] {
      var p :| p in batch && p.txid == c[0];
      var k: nat :| k < |batch| && batch[k] == p;
      if Spends(batch, batch[i].txid, c[0]) {
        SpenderWithSource(batch, rep, index, i, k);
      } else {
        SpenderWithSource(batch, rep, index, k, i);
      }
      ChainInOnePart(batch, rep, index, k, c[1..], j);
    }
  }

  lemma JoinedIsFamilies(batch: seq<Parsed>, rep: seq<nat>, index: map<string, nat>)
    requires Joined(batch, rep, index, |batch|, 0) && DuplicatesJoined(batch, rep, index, |batch|)
    ensures PartsAreFamilies(batch, rep)
  {
    forall i: nat, j: nat | i < |rep| && j < |rep| && OneFamily(batch, i, j)
      ensures rep[i] == rep[j]
    {
      var c :| IsChain(batch, batch[i].txid, c, batch[j].txid);
      ChainInOnePart(batch, rep, index, i, c, j);
    }
  }

  /** Every transaction of the batch is indexed, at a position of its txid. */
  ghost predicate Indexed(batch: seq<Parsed>, index: map<string, nat>)
  {
    && (forall i | 0 <= i < |batch| :: batch[i].txid in index)
    && forall id | id in index :: index[id] < |batch| && batch[index[id]].txid == id
  }

  lemma IndexOfBatch(txids: seq<string>, batch: seq<Parsed>, index: map<string, nat>)
    requires IsIndex(txids, index) && |batch| == |txids| && forall i | 0 <= i < |batch| :: batch[i].txid == txids[i]
    ensures Indexed(batch, index)
  {
    assert forall i | 0 <= i < |batch| :: txids[i] in txids;
  }

  method JoinFamilies(forest: Forest, index: map<string, nat>, batch: seq<Parsed>)
    requires forest.Valid() && forest.parent.Length == |batch| && (forall i | 0 <= i < |batch| :: forest.rep[i] == i)
    requires Indexed(batch, index)
    modifies forest, forest.parent, forest.size
    ensures forest.Valid() && PartsAreFamilies(batch, forest.rep)
  {
    forall i: nat | i < |batch|
      ensures OneFamily(batch, i, i)
    {
      LinkedConnects(batch, batch[i].txid, batch[i].txid);
    }
    for i := 0 to |batch|
      invariant forest.Valid() && Joined(batch, forest.rep, index, i, 0)
    {
      UnionInputs(forest, index, batch, i);
      InputsDone(batch, forest.rep, index, i);
    }
    UnionDuplicates(forest, index, batch);
    JoinedIsFamilies(batch, forest.rep, index);
  }

  method UnionDuplicates(forest: Forest, index: map<string, nat>, batch: seq<Parsed>)
    requires forest.Valid() && forest.parent.Length == |batch| && Joined(batch, forest.rep, index, |batch|, 0)
    requires Indexed(batch, index)
    modifies forest, forest.parent, forest.size
    ensures forest.Valid() && Joined(batch, forest.rep, index, |batch|, 0)
    ensures DuplicatesJoined(batch, forest.rep, index, |batch|)
  {
    for i := 0 to |batch|
      invariant forest.Valid() && Joined(batch, forest.rep, index, |batch|, 0)
      invariant DuplicatesJoined(batch, forest.rep, index, i)
    {
      var first := index[batch[i].txid];
      if first != i {
        ghost var before := forest.rep;
        forest.Union(i, first);
        DuplicateJoined(batch, before, forest.rep, index, i);
      }
    }
  }

  // ----- the keys

  /** The smallest txid of each part met before position i. */
  ghost predicate IsSmallest(rep: seq<nat>, txids: seq<string>, i: nat, keyOf: map<nat, string>)
  {
    && i <= |rep| == |txids|
    && (forall k | 0 <= k < i :: rep[k] in keyOf && !Less(txids[k], keyOf[rep[k]]))
    && forall r | r in keyOf :: exists k :: 0 <= k < i && rep[k] == r && txids[k] == keyOf[r]
  }

  lemma SmallestStep(rep: seq<nat>, txids: seq<string>, i: nat, keyOf: map<nat, string>, next: map<nat, string>)
    requires i < |rep| && IsSmallest(rep, txids, i, keyOf)
    requires next == if rep[i] !in keyOf || Less(txids[i], keyOf[rep[i]]) then keyOf[rep[i] := txids[i]] else keyOf
    ensures IsSmallest(rep, txids, i + 1, next)
  {
    LessTotal(txids[i], txids[i]);
    forall k | 0 <= k < i
      ensures rep[k] in next && !Less(txids[k], next[rep[k]])
    {
      if rep[k] == rep[i] && next != keyOf && Less(txids[k], txids[i]) {
        LessTransitive(txids[k], txids[i], keyOf[rep[i]]);
      }
    }
    forall r | r in next
      ensures exists k :: 0 <= k < i + 1 && rep[k] == r && txids[k] == next[r]
    {
      if r in keyOf && next[r] == keyOf[r] {
        var k :| 0 <= k < i && rep[k] == r && txids[k] == keyOf[r];
      } else {
        assert rep[i] == r && txids[i] == next[r];
      }
    }
  }

  lemma SmallestIsKey(batch: seq<Parsed>, rep: seq<nat>, txids: seq<string>, keyOf: map<nat, string>, i: nat)
    requires PartsAreFamilies(batch, rep) && IsSmallest(rep, txids, |rep|, keyOf) && i < |rep|
    requires forall k | 0 <= k < |batch| :: batch[k].txid == txids[k]
    ensures IsFamilyKey(batch, txids[i], keyOf[rep[i]])
  {
    var k :| 0 <= k < |rep| && rep[k] == rep[i] && txids[k] == keyOf[rep[i]];
    assert batch[k] in batch && OneFamily(batch, i, k);
    forall y | InBatch(batch, y) && Connected(batch, txids[i], y)
      ensures !Less(y, keyOf[rep[i]])
    {
      var p :| p in batch && p.txid == y;
      var j :| 0 <= j < |batch| && batch[j] == p;
      assert OneFamily(batch, i, j);
    }
  }

  method SmallestTxids(forest: Forest, txids: seq<string>) returns (keyOf: map<nat, string>)
    requires forest.Valid() && forest.parent.Length == |txids|
    modifies forest.parent
    ensures forest.Valid() && IsSmallest(forest.rep, txids, |txids|, keyOf)
  {
    keyOf := map[];
    for i := 0 to |txids|
      invariant forest.Valid() && IsSmallest(forest.rep, txids, i, keyOf)
    {
      var r, _ := forest.Find(i);
      ghost var before := keyOf;
      if r !in keyOf || Less(txids[i], keyOf[r]) {
        keyOf := keyOf[r := txids[i]];
      }
      SmallestStep(forest.rep, txids, i, before, keyOf);
    }
  }

  /** Every transaction gets its family's smallest txid. */
  method FamilyPartitionKeys(txids: seq<string>, inputs: seq<seq<string>>) returns (keys: seq<string>)
    requires |txids| == 0 || forall i, src | |txids| <= i < |inputs| && src in inputs[i] :: src == ""
    ensures |keys| == |txids|
    ensures forall i | 0 <= i < |txids| :: IsFamilyKey(BatchOf(txids, inputs), txids[i], keys[i])
  {
    keys := [];
    if |txids| == 0 {
      return;
    }
    var batch := BatchOf(txids, inputs);
    var index := IndexTxids(txids);
    IndexOfBatch(txids, batch, index);
    var forest := new Forest(|txids|);
    JoinFamilies(forest, index, batch);
    var keyOf := SmallestTxids(forest, txids);
    keys := KeyEach(forest, txids, keyOf);
    forall i | 0 <= i < |txids|
      ensures IsFamilyKey(batch, txids[i], keys[i])
    {
      SmallestIsKey(batch, forest.rep, txids, keyOf, i);
    }
  }

  method KeyEach(forest: Forest, txids: seq<string>, keyOf: map<nat, string>) returns (keys: seq<string>)
    requires forest.Valid() && forest.parent.Length == |txids|
    requires forall k | 0 <= k < |txids| :: forest.rep[k] in keyOf
    modifies forest.parent
    ensures |keys| == |txids| && forall i | 0 <= i < |txids| :: keys[i] == keyOf[forest.rep[i]]
  {
    keys := [];
    for i := 0 to |txids|
      invariant forest.Valid() && |keys| == i
      invariant forall k | 0 <= k < i :: keys[k] == keyOf[forest.rep[k]]
    {
      var r, _ := forest.Find(i);
      keys := keys + [keyOf[r]];
    }
  }

  // ----- keys by txid, and the messages published

  /** Where x first occurs, or |parsed|. */
  function FirstIndex(parsed: seq<Parsed>, x: string): (i: nat)
    ensures i <= |parsed| && (i < |parsed| ==> parsed[i].txid == x)
  {
    if parsed == [] then 0 else if parsed[0].txid == x then 0 else 1 + FirstIndex(parsed[1..], x)
  }

  lemma {:induction false} FirstIndexLeast(parsed: seq<Parsed>, x: string, i: nat)
    requires i < |parsed| && parsed[i].txid == x
    ensures FirstIndex(parsed, x) <= i
  {
    if parsed[0].txid != x {
      FirstIndexLeast(parsed[1..], x, i - 1);
    }
  }

  /** Each txid that first occurs before i, with the key and inputs of that occurrence. */
  ghost predicate KeyedTo(
    parsed: seq<Parsed>, keys: seq<string>, i: nat, keyByTxid: map<string, string>, inputsByTxid: map<string, seq<string>>)
  {
    && i <= |parsed| == |keys| && keyByTxid.Keys == inputsByTxid.Keys
    && (forall x :: x in keyByTxid.Keys <==> FirstIndex(parsed, x) < i)
    && forall x | x in keyByTxid.Keys ::
         var k := FirstIndex(parsed, x);
         k < |parsed| && keyByTxid[x] == keys[k] && inputsByTxid[x] == parsed[k].inputs
  }

  /** Every submitted txid, and no other, is keyed by its family and carries the inputs of its first occurrence. */
  ghost predicate KeyedByTxid(parsed: seq<Parsed>, keyByTxid: map<string, string>, inputsByTxid: map<string, seq<string>>)
  {
    && keyByTxid.Keys == inputsByTxid.Keys && (forall x :: x in keyByTxid.Keys <==> FirstIndex(parsed, x) < |parsed|)
    && forall x | x in keyByTxid.Keys ::
         && IsFamilyKey(parsed, x, keyByTxid[x])
         && FirstIndex(parsed, x) < |parsed| && inputsByTxid[x] == parsed[FirstIndex(parsed, x)].inputs
  }

  lemma KeyedAll(parsed: seq<Parsed>, keys: seq<string>, keyByTxid: map<string, string>, inputsByTxid: map<string, seq<string>>)
    requires KeyedTo(parsed, keys, |parsed|, keyByTxid, inputsByTxid)
    requires forall i | 0 <= i < |parsed| :: IsFamilyKey(parsed, parsed[i].txid, keys[i])
    ensures KeyedByTxid(parsed, keyByTxid, inputsByTxid)
  {
    forall x | x in keyByTxid.Keys
      ensures IsFamilyKey(parsed, x, keyByTxid[x])
    {
      var i := FirstIndex(parsed, x);
      assert IsFamilyKey(parsed, parsed[i].txid, keys[i]);
    }
  }

  lemma FirstIndexInBatch(parsed: seq<Parsed>, x: string)
    ensures FirstIndex(parsed, x) < |parsed| <==> InBatch(parsed, x)
  {
    if InBatch(parsed, x) {
      var p :| p in parsed && p.txid == x;
      var i :| 0 <= i < |parsed| && parsed[i] == p;
      FirstIndexLeast(parsed, x, i);
    }
    if FirstIndex(parsed, x) < |parsed| {
      assert parsed[FirstIndex(parsed, x)] in parsed;
    }
  }

  method FamilyKeysBySubmittedTxid(parsed: seq<Parsed>)
    returns (keyByTxid: map<string, string>, inputsByTxid: map<string, seq<string>>)
    ensures KeyedByTxid(parsed, keyByTxid, inputsByTxid)
  {
    var txids := seq(|parsed|, i requires 0 <= i < |parsed| => parsed[i].txid);
    var inputs := seq(|parsed|, i requires 0 <= i < |parsed| => parsed[i].inputs);
    var keys := FamilyPartitionKeys(txids, inputs);
    assert BatchOf(txids, inputs) == parsed;
    keyByTxid, inputsByTxid := KeyFirst(parsed, keys);
    KeyedAll(parsed, keys, keyByTxid, inputsByTxid);
  }

  method KeyFirst(parsed: seq<Parsed>, keys: seq<string>)
    returns (keyByTxid: map<string, string>, inputsByTxid: map<string, seq<string>>)
    requires |keys| == |parsed|
    ensures KeyedTo(parsed, keys, |parsed|, keyByTxid, inputsByTxid)
  {
    keyByTxid, inputsByTxid := map[], map[];
    for i := 0 to |parsed|
      invariant KeyedTo(parsed, keys, i, keyByTxid, inputsByTxid)
    {
      var p := parsed[i];
      FirstIndexLeast(parsed, p.txid, i);
      if p.txid in keyByTxid {
        continue;
      }
      keyByTxid := keyByTxid[p.txid := keys[i]];
      inputsByTxid := inputsByTxid[p.txid := p.inputs];
    }
  }
}
