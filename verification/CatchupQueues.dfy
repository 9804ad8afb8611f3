/** The bounded, deduplicated queue of registrations an endpoint still owes. */
module CatchupQueues {

  datatype Registration = Registration(txid: string, callbackUrl: string, callbackToken: string)

  datatype Queue = Queue(
    max: int, order: seq<string>, byTxid: map<string, Registration>, inflight: int, dropped: nat, overflowed: bool)

  /** Order and map hold the same distinct txids, and no more than the bound. */
  ghost predicate Sound(q: Queue)
  {
    && (forall i, j | 0 <= i < j < |q.order| :: q.order[i] != q.order[j])
    && (forall t :: t in q.order <==> t in q.byTxid)
    && (forall t | t in q.byTxid :: q.byTxid[t].txid == t)
    && |q.order| <= Bound(q.max)
    && (q.dropped > 0 ==> q.overflowed)
  }

  function Bound(max: int): nat
  {
    if max < 1 then 1 else max
  }

  /** One eviction. */
  function WithoutOldest(q: Queue): Queue
    requires |q.order| > 0
  {
    q.(order := q.order[1..], byTxid := q.byTxid - {q.order[0]}, dropped := q.dropped + 1, overflowed := true)
  }

  /** The oldest entries go until there is room for one more. */
  function Evicted(q: Queue): Queue
    decreases |q.order|
  {
    if |q.order| >= q.max && |q.order| > 0 then
      Evicted(WithoutOldest(q))
    else q
  }

  function Added(q: Queue, reg: Registration): Queue
  {
    if reg.txid in q.byTxid then q.(byTxid := q.byTxid[reg.txid := reg])
    else
      var room := Evicted(q);
      room.(order := room.order + [reg.txid], byTxid := room.byTxid[reg.txid := reg])
  }

  function FrontOf(q: Queue, n: nat): nat
  {
    if n > |q.order| then |q.order| else n
  }

  function Without(byTxid: map<string, Registration>, ts: seq<string>): map<string, Registration>
  {
    if ts == [] then byTxid else Without(byTxid, ts[..|ts| - 1]) - {ts[|ts| - 1]}
  }

  function Taken(q: Queue, n: nat): Queue
  {
    var k := FrontOf(q, n);
    q.(order := q.order[k..], byTxid := Without(q.byTxid, q.order[..k]), inflight := q.inflight + k)
  }

  /** The registrations that leave with the front. */
  function TakenFrom(q: Queue, n: nat): (out: seq<Registration>)
    requires forall t | t in q.order :: t in q.byTxid
    ensures |out| == FrontOf(q, n)
  {
    seq(FrontOf(q, n), i requires 0 <= i < FrontOf(q, n) => q.byTxid[q.order[i]])
  }

  function Settled(q: Queue, n: nat): Queue
  {
    q.(inflight := q.inflight - n)
  }

  predicate Fires(q: Queue)
  {
    q.overflowed && |q.order| + q.inflight <= 0
  }

  function Drained(q: Queue): Queue
  {
    if Fires(q) then q.(overflowed := false, dropped := 0) else q
  }

  // ----- what the operations keep

  lemma EvictFirst(q: Queue)
    requires Sound(q) && |q.order| > 0
    ensures Sound(WithoutOldest(q))
  {
    var r := WithoutOldest(q);
    forall t
      ensures t in r.order <==> t in r.byTxid
    {
      assert q.order == [q.order[0]] + q.order[1..];
    }
  }

  /** Eviction leaves room. */
  lemma {:induction false} EvictedSound(q: Queue)
    requires Sound(q)
    ensures Sound(Evicted(q)) && |Evicted(q).order| < Bound(q.max)
    decreases |q.order|
  {
    if |q.order| >= q.max && |q.order| > 0 {
      EvictFirst(q);
      EvictedSound(WithoutOldest(q));
    }
  }

  /** It drops from the front only, counts what it drops, and sets the flag if it drops anything. */
  lemma {:induction false} EvictedKeeps(q: Queue)
    ensures var r := Evicted(q);
            && r.max == q.max && r.inflight == q.inflight && (q.overflowed ==> r.overflowed)
            && |r.order| <= |q.order| && (|r.order| < |q.order| ==> r.overflowed)
            && r.order == q.order[|q.order| - |r.order|..]
            && r.dropped == q.dropped + |q.order| - |r.order|
    decreases |q.order|
  {
    if |q.order| >= q.max && |q.order| > 0 {
      var next, r := WithoutOldest(q), Evicted(q);
      EvictedKeeps(next);
      assert next.order[|next.order| - |r.order|..] == q.order[|q.order| - |r.order|..];
    }
  }

  /** A queued registration is queued afterwards; what it pushed out is dropped with the flag set. */
  lemma AddedKeeps(q: Queue, reg: Registration)
    requires Sound(q)
    ensures var r := Added(q, reg);
            && Sound(r) && r.max == q.max && r.inflight == q.inflight && (q.overflowed ==> r.overflowed)
            && reg.txid in r.order && r.byTxid[reg.txid] == reg
            && (forall t | t in q.order :: t in r.order || r.overflowed)
            && (forall t | t in r.order && t != reg.txid :: t in q.order && r.byTxid[t] == q.byTxid[t])
            && r.dropped - q.dropped == |q.order| + (if reg.txid in q.order then 0 else 1) - |r.order|
  {
    if reg.txid !in q.byTxid {
      EvictedSound(q);
      EvictedKeeps(q);
      EvictedRegistrations(q);
      AddedToRoom(q, Evicted(q), reg);
    }
  }

  lemma AddedToRoom(q: Queue, room: Queue, reg: Registration)
    requires Sound(q) && Sound(room) && reg.txid !in q.byTxid && |room.order| < Bound(q.max) && room.max == q.max
    requires |room.order| <= |q.order| && (|room.order| < |q.order| ==> room.overflowed)
    requires room.order == q.order[|q.order| - |room.order|..]
    ensures var r := room.(order := room.order + [reg.txid], byTxid := room.byTxid[reg.txid := reg]);
            Sound(r) && reg.txid !in q.order && forall t | t in q.order :: t in r.order || r.overflowed
  {
    assert q.order == q.order[..|q.order| - |room.order|] + room.order;
  }

  lemma {:induction false} EvictedRegistrations(q: Queue)
    requires Sound(q)
    ensures forall t | t in Evicted(q).byTxid :: t in q.byTxid && Evicted(q).byTxid[t] == q.byTxid[t]
    decreases |q.order|
  {
    if |q.order| >= q.max && |q.order| > 0 {
      EvictFirst(q);
      EvictedRegistrations(WithoutOldest(q));
    }
  }

  /** Taking splits the queue: the front is out and counted in flight, the rest stays. */
  lemma TakenKeeps(q: Queue, n: nat)
    requires Sound(q)
    ensures var r, k := Taken(q, n), FrontOf(q, n);
            && Sound(r) && r.max == q.max && r.overflowed == q.overflowed
            && |r.order| + r.inflight == |q.order| + q.inflight
            && forall t | t in q.order :: t in r.order || t in q.order[..k]
  {
    var r, k := Taken(q, n), FrontOf(q, n);
    WithoutKeeps(q.byTxid, q.order[..k]);
    forall t
      ensures t in q.order <==> t in q.order[..k] || t in r.order
      ensures !(t in q.order[..k] && t in r.order)
    {
      SplitMember(q.order, k, t);
    }
  }

  lemma SplitMember(s: seq<string>, k: nat, t: string)
    requires k <= |s| && forall i, j | 0 <= i < j < |s| :: s[i] != s[j]
    ensures t in s <==> t in s[..k] || t in s[k..]
    ensures !(t in s[..k] && t in s[k..])
  {
    assert s == s[..k] + s[k..];
  }

  lemma {:induction false} WithoutKeeps(byTxid: map<string, Registration>, ts: seq<string>)
    ensures forall t :: t in Without(byTxid, ts) <==> t in byTxid && t !in ts
    ensures forall t | t in Without(byTxid, ts) :: Without(byTxid, ts)[t] == byTxid[t]
  {
    if ts != [] {
      WithoutKeeps(byTxid, ts[..|ts| - 1]);
    }
  }

  /** The next entry is still mapped while those before it are being taken out. */
  lemma NextOut(q: Queue, i: nat)
    requires Sound(q) && i < |q.order|
    ensures q.order[i] in Without(q.byTxid, q.order[..i]) && q.order[i] in q.byTxid
    ensures Without(q.byTxid, q.order[..i])[q.order[i]] == q.byTxid[q.order[i]]
    ensures Without(q.byTxid, q.order[..i + 1]) == Without(q.byTxid, q.order[..i]) - {q.order[i]}
    ensures TakenFrom(q, i + 1) == TakenFrom(q, i) + [q.byTxid[q.order[i]]]
  {
    assert q.order[i] in q.order;
    WithoutKeeps(q.byTxid, q.order[..i]);
    WithoutOneMore(q.byTxid, q.order, i);
    TakenOneMore(q, i);
  }

  lemma WithoutOneMore(byTxid: map<string, Registration>, order: seq<string>, i: nat)
    requires i < |order|
    ensures Without(byTxid, order[..i + 1]) == Without(byTxid, order[..i]) - {order[i]}
  {
    assert order[..i + 1][..i] == order[..i];
  }

  lemma TakenOneMore(q: Queue, i: nat)
    requires (forall t | t in q.order :: t in q.byTxid) && i < |q.order| && q.order[i] in q.byTxid
    ensures TakenFrom(q, i + 1) == TakenFrom(q, i) + [q.byTxid[q.order[i]]]
  {
  }

  // ----- the queue as it is updated in place

  class CatchupQueue {
    const max: int
    var order: seq<string>
    var byTxid: map<string, Registration>
    var inflight: int
    var dropped: nat
    var overflowed: bool

    function View(): Queue
      reads this
    {
      Queue(max, order, byTxid, inflight, dropped, overflowed)
    }

    constructor (capacity: int)
      ensures View() == Queue(capacity, [], map[], 0, 0, false) && Sound(View())
    {
      max, order, byTxid, inflight, dropped, overflowed := capacity, [], map[], 0, 0, false;
    }

    /** Queues reg in place of an older entry for the same txid, dropping the oldest entries when full. */
    method Add(reg: Registration)
      requires Sound(View())
      modifies this
      ensures Sound(View()) && View() == Added(old(View()), reg)
    {
      AddedKeeps(View(), reg);
      Insert(reg);
    }

    method Insert(reg: Registration)
      modifies this
      ensures View() == Added(old(View()), reg)
    {
      if reg.txid in byTxid {
        byTxid := byTxid[reg.txid := reg];
        return;
      }
      while |order| >= max && |order| > 0
        invariant Evicted(View()) == Evicted(old(View()))
        decreases |order|
      {
        var oldest := order[0];
        order := order[1..];
        byTxid := byTxid - {oldest};
        dropped := dropped + 1;
        overflowed := true;
      }
      order := order + [reg.txid];
      byTxid := byTxid[reg.txid := reg];
    }

    /** Removes up to n entries from the front; they stay counted until settled. */
    method Take(n: nat) returns (out: seq<Registration>)
      requires Sound(View())
      modifies this
      ensures Sound(View()) && View() == Taken(old(View()), n) && out == TakenFrom(old(View()), n)
    {
      TakenKeeps(View(), n);
      var k := if n > |order| then |order| else n;
      out := MoveOut(k);
      order := order[k..];
      inflight := inflight + |out|;
    }

    method MoveOut(k: nat) returns (out: seq<Registration>)
      requires Sound(View()) && k <= |order|
      modifies this`byTxid
      ensures byTxid == Without(old(byTxid), order[..k]) && out == TakenFrom(old(View()), k)
    {
      out := [];
      ghost var q := View();
      for i := 0 to k
        invariant byTxid == Without(q.byTxid, order[..i]) && out == TakenFrom(q, i)
      {
        NextOut(q, i);
        out := out + [byTxid[order[i]]];
        byTxid := byTxid - {order[i]};
      }
    }

    method Settle(n: nat)
      modifies this
      ensures View() == Settled(old(View()), n)
    {
      inflight := inflight - n;
    }

    /** How many registrations are owed: queued plus taken but unsettled. */
    method Len() returns (n: int)
      ensures n == |order| + inflight
    {
      n := |order| + inflight;
    }

    /** Reports and clears the overflow flag once nothing is queued or in flight. */
    method DrainedAfterOverflow() returns (n: nat, fired: bool)
      modifies this
      ensures fired == Fires(old(View())) && n == (if fired then old(dropped) else 0)
      ensures View() == Drained(old(View()))
    {
      if !overflowed || |order| + inflight > 0 {
        return 0, false;
      }
      n, fired := dropped, true;
      overflowed, dropped := false, 0;
    }
  }
}
