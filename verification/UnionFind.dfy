/** Disjoint sets over 0..n, joined by size and searched with path halving. */
module UnionFind {
  import opened Prelude

  /** How many positions have representative r. */
  function Members(rep: seq<nat>, r: nat): (c: nat)
    ensures c <= |rep|
  {
    if rep == [] then 0 else Members(rep[..|rep| - 1], r) + (if rep[|rep| - 1] == r then 1 else 0)
  }

  /** Position i's parent leads, by a strictly larger rank, towards its representative. */
  ghost predicate LeadsAt(parent: seq<nat>, rep: seq<nat>, rank: seq<nat>, i: nat)
    requires |rep| == |rank| == |parent| && i < |parent|
  {
    && parent[i] < |parent| && rep[i] < |parent|
    && rep[parent[i]] == rep[i] && parent[rep[i]] == rep[i]
    && (if parent[i] == i then rep[i] == i else rank[i] < rank[parent[i]])
    && rank[i] <= rank[rep[i]]
  }

  ghost predicate Leads(parent: seq<nat>, rep: seq<nat>, rank: seq<nat>)
  {
    && |rep| == |rank| == |parent|
    && (forall i | 0 <= i < |parent| :: parent[i] < |parent| && rep[i] < |parent|)
    && forall i: nat | i < |parent| :: LeadsAt(parent, rep, rank, i)
  }

  /** A root of rank k stands for at least 2^k positions, and its size counts them. */
  ghost predicate Sized(parent: seq<nat>, size: seq<nat>, rep: seq<nat>, rank: seq<nat>)
  {
    && |rep| == |rank| == |size| == |parent|
    && forall r | 0 <= r < |parent| && parent[r] == r :: Shl(1, rank[r]) <= size[r] == Members(rep, r)
  }

  /** The partition after joining a's part with b's. */
  ghost predicate JoinedBy(before: seq<nat>, after: seq<nat>, a: nat, b: nat)
  {
    && |after| == |before| && a < |before| && b < |before|
    && forall i, j | 0 <= i < |before| && 0 <= j < |before| ::
         after[i] == after[j] <==>
         (before[i] == before[j]
          || (before[i] == before[a] && before[j] == before[b])
          || (before[i] == before[b] && before[j] == before[a]))
  }

  lemma HalvingKeeps(parent: seq<nat>, rep: seq<nat>, rank: seq<nat>, i: nat)
    requires Leads(parent, rep, rank) && i < |parent| && parent[i] != i
    ensures var g := parent[parent[i]];
            && Leads(parent[i := g], rep, rank) && rep[g] == rep[i] && rank[i] < rank[g] && g != i
            && forall r | 0 <= r < |parent| :: parent[i := g][r] == r <==> parent[r] == r
  {
    var p := parent[i];
    assert LeadsAt(parent, rep, rank, i) && LeadsAt(parent, rep, rank, p);
    assert p != i && parent[p] != p ==> rank[i] < rank[p] < rank[parent[p]];
    var parent' := parent[i := parent[p]];
    forall j: nat | j < |parent|
      ensures LeadsAt(parent', rep, rank, j)
    {
      assert LeadsAt(parent, rep, rank, j);
    }
  }

  /** How far i's rank is below its root's. */
  ghost function Below(rep: seq<nat>, rank: seq<nat>, i: nat): int
    requires i < |rep| == |rank| && rep[i] < |rep|
  {
    var top: int := rank[rep[i]];
    top - rank[i]
  }

  /** The parents after path halving from i: every node visited points at its former grandparent. */
  ghost function Halved(parent: seq<nat>, rep: seq<nat>, rank: seq<nat>, i: nat): (r: seq<nat>)
    requires Leads(parent, rep, rank) && i < |parent|
    ensures |r| == |parent|
    decreases Below(rep, rank, i)
  {
    if parent[i] == i then parent
    else
      HalvingKeeps(parent, rep, rank, i);
      var g := parent[parent[i]];
      assert LeadsAt(parent[i := g], rep, rank, g);
      Halved(parent[i := g], rep, rank, g)
  }

  /** How many parents lie between i and its root. */
  ghost function Depth(parent: seq<nat>, rep: seq<nat>, rank: seq<nat>, i: nat): nat
    requires Leads(parent, rep, rank) && i < |parent|
    decreases Below(rep, rank, i)
  {
    assert LeadsAt(parent, rep, rank, i);
    if parent[i] == i then 0
    else
      assert LeadsAt(parent, rep, rank, parent[i]);
      1 + Depth(parent, rep, rank, parent[i])
  }

  lemma {:induction false} HalvedAbove(parent: seq<nat>, rep: seq<nat>, rank: seq<nat>, i: nat)
    requires Leads(parent, rep, rank) && i < |parent|
    ensures var after := Halved(parent, rep, rank, i);
            Leads(after, rep, rank) && forall j | 0 <= j < |parent| && rank[j] < rank[i] :: after[j] == parent[j]
    decreases Below(rep, rank, i)
  {
    if parent[i] != i {
      HalvingKeeps(parent, rep, rank, i);
      var g := parent[parent[i]];
      assert LeadsAt(parent[i := g], rep, rank, g);
      HalvedAbove(parent[i := g], rep, rank, g);
    }
  }

  lemma {:induction false} DepthAbove(parent: seq<nat>, other: seq<nat>, rep: seq<nat>, rank: seq<nat>, i: nat)
    requires Leads(parent, rep, rank) && Leads(other, rep, rank) && i < |parent| == |other|
    requires forall j | 0 <= j < |parent| && rank[i] <= rank[j] :: other[j] == parent[j]
    ensures Depth(other, rep, rank, i) == Depth(parent, rep, rank, i)
    decreases Below(rep, rank, i)
  {
    assert LeadsAt(parent, rep, rank, i);
    if parent[i] != i {
      assert LeadsAt(parent, rep, rank, parent[i]);
      DepthAbove(parent, other, rep, rank, parent[i]);
    }
  }

  /** Path halving halves the depth of the node it starts from. */
  lemma {:induction false} HalvingHalves(parent: seq<nat>, rep: seq<nat>, rank: seq<nat>, i: nat)
    requires Leads(parent, rep, rank) && i < |parent|
    ensures Leads(Halved(parent, rep, rank, i), rep, rank)
    ensures Depth(Halved(parent, rep, rank, i), rep, rank, i) == (Depth(parent, rep, rank, i) + 1) / 2
    decreases Below(rep, rank, i)
  {
    HalvedAbove(parent, rep, rank, i);
    if parent[i] != i {
      HalvingKeeps(parent, rep, rank, i);
      var p, g := parent[i], parent[parent[i]];
      var half := parent[i := g];
      assert LeadsAt(parent, rep, rank, p) && LeadsAt(half, rep, rank, g);
      HalvingHalves(half, rep, rank, g);
      HalvedAbove(half, rep, rank, g);
      DepthAbove(parent, half, rep, rank, g);
      assert Halved(half, rep, rank, g)[i] == g;
    }
  }

  /** The representatives after `loser`'s part is put under `winner`. */
  function Redirected(rep: seq<nat>, winner: nat, loser: nat): (r: seq<nat>)
    ensures |r| == |rep|
    ensures forall i | 0 <= i < |rep| :: r[i] == if rep[i] == loser then winner else rep[i]
  {
    if rep == [] then []
    else
      var last := rep[|rep| - 1];
      Redirected(rep[..|rep| - 1], winner, loser) + [if last == loser then winner else last]
  }

  lemma {:induction false} RedirectedMembers(rep: seq<nat>, winner: nat, loser: nat, r: nat)
    requires winner != loser
    ensures Members(Redirected(rep, winner, loser), r) ==
            if r == winner then Members(rep, winner) + Members(rep, loser)
            else if r == loser then 0
            else Members(rep, r)
  {
    if rep != [] {
      RedirectedMembers(rep[..|rep| - 1], winner, loser, r);
      var after := Redirected(rep, winner, loser);
      assert after[..|after| - 1] == Redirected(rep[..|rep| - 1], winner, loser);
    }
  }

  lemma RedirectedJoins(rep: seq<nat>, winner: nat, loser: nat, a: nat, b: nat)
    requires a < |rep| && b < |rep| && winner != loser
    requires (rep[a] == winner && rep[b] == loser) || (rep[a] == loser && rep[b] == winner)
    ensures JoinedBy(rep, Redirected(rep, winner, loser), a, b)
  {
  }

  /** The ranks after `loser` is put under `winner`. */
  function Raised(rank: seq<nat>, winner: nat, loser: nat): seq<nat>
    requires winner < |rank| && loser < |rank|
  {
    if rank[winner] <= rank[loser] then rank[winner := rank[loser] + 1] else rank
  }

  lemma JoiningLeads(parent: seq<nat>, rep: seq<nat>, rank: seq<nat>, winner: nat, loser: nat)
    requires Leads(parent, rep, rank)
    requires winner < |parent| && loser < |parent| && winner != loser && parent[winner] == winner && parent[loser] == loser
    ensures Leads(parent[loser := winner], Redirected(rep, winner, loser), Raised(rank, winner, loser))
  {
    var parent', rep', rank' := parent[loser := winner], Redirected(rep, winner, loser), Raised(rank, winner, loser);
    assert LeadsAt(parent, rep, rank, winner) && LeadsAt(parent, rep, rank, loser);
    forall j: nat | j < |parent|
      ensures LeadsAt(parent', rep', rank', j)
    {
      assert LeadsAt(parent, rep, rank, j);
    }
  }

  lemma JoiningSized(parent: seq<nat>, size: seq<nat>, rep: seq<nat>, rank: seq<nat>, winner: nat, loser: nat)
    requires Sized(parent, size, rep, rank)
    requires winner < |parent| && loser < |parent| && winner != loser && parent[winner] == winner && parent[loser] == loser
    requires size[loser] <= size[winner]
    ensures Sized(parent[loser := winner], size[winner := size[winner] + size[loser]],
                  Redirected(rep, winner, loser), Raised(rank, winner, loser))
  {
    forall r: nat | r < |parent|
      ensures Members(Redirected(rep, winner, loser), r) ==
              if r == winner then Members(rep, winner) + Members(rep, loser)
              else if r == loser then 0
              else Members(rep, r)
    {
      RedirectedMembers(rep, winner, loser, r);
    }
  }

  class Forest {
    const parent: array<nat>
    const size: array<nat>
    ghost var rep: seq<nat>
    ghost var rank: seq<nat>

    ghost predicate Valid()
      reads this, parent, size
    {
      && parent != size
      && Leads(parent[..], rep, rank)
      && Sized(parent[..], size[..], rep, rank)
    }

    /** Every position on its own. */
    constructor (n: nat)
      ensures Valid() && fresh(parent) && fresh(size) && parent.Length == n
      ensures forall i | 0 <= i < n :: rep[i] == i
    {
      parent := new nat[n](i => i);
      size := new nat[n](_ => 1);
      rep := seq(n, i => i);
      rank := seq(n, _ => 0);
      new;
      forall r: nat | r < n
        ensures Members(rep, r) == 1
      {
        IdentityMembers(rep, n, r);
        assert rep[..n] == rep;
      }
    }

    /** The representative of `start`, in at most log2(n) steps. */
    method Find(start: nat) returns (root: nat, ghost steps: nat)
      requires Valid() && start < parent.Length
      modifies parent
      ensures Valid() && root < parent.Length && root == rep[start]
      ensures parent[..] == Halved(old(parent[..]), rep, rank, start)
      ensures Shl(1, steps) <= parent.Length
    {
      var i: nat := start;
      assert LeadsAt(parent[..], rep, rank, start);
      steps := 0;
      while parent[i] != i
        invariant Valid() && i < parent.Length && rep[i] == rep[start]
        invariant Halved(parent[..], rep, rank, i) == Halved(old(parent[..]), rep, rank, start)
        invariant steps + rank[start] <= rank[i] <= rank[rep[start]]
        decreases rank[rep[start]] - rank[i]
      {
        HalvingKeeps(parent[..], rep, rank, i);
        assert LeadsAt(parent[..], rep, rank, parent[parent[i]]);
        ghost var before := parent[..];
        parent[i] := parent[parent[i]];
        assert parent[..] == before[i := before[before[i]]];
        i := parent[i];
        steps := steps + 1;
      }
      root := i;
      assert LeadsAt(parent[..], rep, rank, root);
      PowersGrow(steps, rank[root]);
    }

    method Union(a: nat, b: nat)
      requires Valid() && a < parent.Length && b < parent.Length
      modifies this, parent, size
      ensures Valid() && JoinedBy(old(rep), rep, a, b)
    {
      var ra, _ := Find(a);
      var rb, _ := Find(b);
      if ra == rb {
        return;
      }
      assert LeadsAt(parent[..], rep, rank, a) && LeadsAt(parent[..], rep, rank, b);
      if size[ra] < size[rb] {
        ra, rb := rb, ra;
      }
      RedirectedJoins(rep, ra, rb, a, b);
      Attach(ra, rb);
    }

    /** Puts the root `loser` under the root `winner`. */
    method Attach(winner: nat, loser: nat)
      requires Valid() && winner < parent.Length && loser < parent.Length && winner != loser
      requires parent[winner] == winner && parent[loser] == loser && size[loser] <= size[winner]
      modifies this, parent, size
      ensures Valid() && rep == Redirected(old(rep), winner, loser)
    {
      ghost var parents, sizes := parent[..], size[..];
      parent[loser] := winner;
      size[winner] := size[winner] + size[loser];
      Joining(parents, sizes, rep, rank, winner, loser, parent[..], size[..]);
      rep, rank := Redirected(rep, winner, loser), Raised(rank, winner, loser);
    }
  }

  lemma Joining(parent: seq<nat>, size: seq<nat>, rep: seq<nat>, rank: seq<nat>, winner: nat, loser: nat,
                parent': seq<nat>, size': seq<nat>)
    requires Leads(parent, rep, rank) && Sized(parent, size, rep, rank)
    requires winner < |parent| && loser < |parent| && winner != loser && parent[winner] == winner && parent[loser] == loser
    requires size[loser] <= size[winner]
    requires parent' == parent[loser := winner] && size' == size[winner := size[winner] + size[loser]]
    ensures var rep', rank' := Redirected(rep, winner, loser), Raised(rank, winner, loser);
            Leads(parent', rep', rank') && Sized(parent', size', rep', rank')
  {
    JoiningLeads(parent, rep, rank, winner, loser);
    JoiningSized(parent, size, rep, rank, winner, loser);
  }

  lemma {:induction false} IdentityMembers(rep: seq<nat>, n: nat, r: nat)
    requires n <= |rep| && forall i | 0 <= i < n :: rep[i] == i
    ensures Members(rep[..n], r) == if r < n then 1 else 0
  {
    if n > 0 {
      IdentityMembers(rep, n - 1, r);
      assert rep[..n][..n - 1] == rep[..n - 1];
    }
  }
}
