/** No registration is lost silently, over every interleaving of the pool's steps. */
module PoolProof {
  import opened Prelude
  import opened CatchupQueues
  import opened Verdicts
  import opened Pool

  function WorkerAt(s: State, w: nat): Worker
  {
    if w < |s.workers| then s.workers[w] else Idle
  }

  /** What endpoint e or worker w accounted for is still accounted for by one of them. */
  ghost predicate Keeps(s: State, s': State, w: nat, e: nat, t: string)
    requires e < |s.endpoints| == |s'.endpoints|
  {
    Accounts(s.endpoints[e], t) || Holds(WorkerAt(s, w), e, t) ==>
      Accounts(s'.endpoints[e], t) || Holds(WorkerAt(s', w), e, t)
  }

  /** The step changes worker w only, keeps what is accounted for, and forgets no acknowledgement. */
  ghost predicate Steady(s: State, s': State, w: nat)
  {
    && |s'.endpoints| == |s.endpoints| && |s'.workers| == |s.workers|
    && (forall v: nat | v < |s.workers| && v != w :: s'.workers[v] == s.workers[v])
    && (forall e: nat | e < |s.endpoints| :: s.endpoints[e].acked <= s'.endpoints[e].acked)
    && forall e: nat, t | e < |s.endpoints| :: Keeps(s, s', w, e, t)
  }

  /** Coverage is stable. */
  lemma CoveredStays(s: State, s': State, w: nat, e: nat, t: string)
    requires Steady(s, s', w) && e < |s.endpoints| && Covered(s, e, t)
    ensures Covered(s', e, t)
  {
    assert Keeps(s, s', w, e, t);
    if !Accounts(s.endpoints[e], t) {
      var v: nat :| v < |s.workers| && Holds(s.workers[v], e, t);
      if v != w {
        assert Holds(s'.workers[v], e, t);
      }
    }
  }

  lemma PassedStays(s: State, s': State, w: nat, k: Worker)
    requires Steady(s, s', w) && k.Queueing? && PassedCovered(s, k)
    ensures PassedCovered(s', k)
  {
    forall e: nat, j: nat | e < |s.endpoints| && j < |k.regs| && (e < k.e || (e == k.e && j < k.j)) && Accepted(k.asked, k.answers, j)
      ensures Covered(s', e, k.regs[j].txid)
    {
      CoveredStays(s, s', w, e, k.regs[j].txid);
    }
  }

  lemma WorkerStays(s: State, s': State, w: nat, k: Worker)
    requires Steady(s, s', w) && WorkerSound(s, k)
    ensures WorkerSound(s', k)
  {
    if k.Queueing? {
      PassedStays(s, s', w, k);
    }
  }

  /** The endpoints stay sound, and each queue's in-flight count changes with worker w's. */
  ghost predicate EndpointsKept(s: State, s': State, w: nat)
  {
    && |s'.endpoints| == |s.endpoints|
    && forall e: nat | e < |s.endpoints| :: EndpointSound(s'.endpoints[e], s.threshold) && InflightKept(s, s', w, e)
  }

  ghost predicate InflightKept(s: State, s': State, w: nat, e: nat)
    requires e < |s.endpoints| == |s'.endpoints|
  {
    s'.endpoints[e].queue.inflight ==
    s.endpoints[e].queue.inflight - Unsettled(WorkerAt(s, w), e) + Unsettled(WorkerAt(s', w), e)
  }

  /** A steady step that leaves its worker sound keeps the invariant. */
  lemma SteadyKeepsInv(s: State, s': State, w: nat)
    requires Inv(s) && Steady(s, s', w) && EndpointsKept(s, s', w)
    requires s'.registered == s.registered && s'.threshold == s.threshold
    requires WorkerSound(s', WorkerAt(s', w))
    ensures Inv(s')
  {
    forall v: nat | v < |s'.workers|
      ensures WorkerSound(s', s'.workers[v])
    {
      if v != w {
        WorkerStays(s, s', w, s.workers[v]);
      }
    }
    forall e: nat | e < |s'.endpoints|
      ensures s'.endpoints[e].queue.inflight == AllUnsettled(s'.workers, e)
    {
      if w < |s.workers| {
        UnsettledUpdate(s.workers, w, s'.workers[w], e);
        assert s.workers[w := s'.workers[w]] == s'.workers;
      } else {
        assert s.workers == s'.workers;
      }
    }
    forall t, e: nat | t in s'.registered && e < |s'.endpoints|
      ensures Covered(s', e, t)
    {
      CoveredStays(s, s', w, e, t);
    }
  }

  // ----- one endpoint

  /** The endpoint stays sound and accounts for all it accounted for. */
  ghost predicate Grows(ep: Endpoint, ep': Endpoint, threshold: int)
  {
    && EndpointSound(ep', threshold) && ep.acked <= ep'.acked
    && forall t | Accounts(ep, t) :: Accounts(ep', t)
  }

  lemma OwedGrows(ep: Endpoint, reg: Registration, threshold: int)
    requires EndpointSound(ep, threshold)
    ensures Grows(ep, WithOwed(ep, reg), threshold) && Accounts(WithOwed(ep, reg), reg.txid)
    ensures WithOwed(ep, reg).queue.inflight == ep.queue.inflight
  {
    AddedKeeps(ep.queue, reg);
  }

  lemma HandledGrows(ep: Endpoint, reg: Registration, reply: Answer, threshold: int)
    requires EndpointSound(ep, threshold) && (reply.None? ==> reg.txid in ep.acked)
    ensures Grows(ep, WithHandled(ep, reg, reply), threshold) && Accounts(WithHandled(ep, reg, reply), reg.txid)
    ensures WithHandled(ep, reg, reply).queue.inflight == ep.queue.inflight
  {
    if reply.Some? && !PermanentRejection(reply.value) {
      OwedGrows(ep, reg, threshold);
    }
  }

  /** Only endpoint e0 changes; what it gives up the worker holds, and what the worker gives up e0 accounts for. */
  lemma OneEndpoint(s: State, s': State, w: nat, e0: nat)
    requires Inv(s) && |s'.endpoints| == |s.endpoints| && |s'.workers| == |s.workers|
    requires forall v: nat | v < |s.workers| && v != w :: s'.workers[v] == s.workers[v]
    requires forall e: nat | e < |s.endpoints| && e != e0 :: s'.endpoints[e] == s.endpoints[e]
    requires e0 < |s.endpoints| ==>
               && EndpointSound(s'.endpoints[e0], s.threshold) && s.endpoints[e0].acked <= s'.endpoints[e0].acked
               && forall t | Accounts(s.endpoints[e0], t) :: Accounts(s'.endpoints[e0], t) || Holds(WorkerAt(s', w), e0, t)
    requires forall e: nat, t | e < |s.endpoints| && Holds(WorkerAt(s, w), e, t) ::
               Holds(WorkerAt(s', w), e, t) || (e == e0 && Accounts(s'.endpoints[e], t))
    requires forall e: nat | e < |s.endpoints| :: InflightKept(s, s', w, e)
    ensures Steady(s, s', w) && EndpointsKept(s, s', w)
  {
    forall e: nat, t | e < |s.endpoints|
      ensures Keeps(s, s', w, e, t)
    {
    }
    forall e: nat | e < |s.endpoints|
      ensures EndpointSound(s'.endpoints[e], s.threshold)
    {
      assert EndpointSound(s.endpoints[e], s.threshold);
    }
  }

  // ----- the steps

  /** A step of the worker alone, neither of whose places holds entries. */
  lemma WorkerOnly(s: State, w: nat, x: Worker)
    requires Inv(s) && w < |s.workers| && !s.workers[w].Catchup? && !x.Catchup?
    requires WorkerSound(s, x)
    ensures Inv(WithWorker(s, w, x))
  {
    var s' := WithWorker(s, w, x);
    OneEndpoint(s, s', w, |s.endpoints|);
    WorkerStays(s, s', w, x);
    SteadyKeepsInv(s, s', w);
  }

  lemma EndpointOnly(s: State, e: nat, ep: Endpoint)
    requires Inv(s) && e < |s.endpoints| && Grows(s.endpoints[e], ep, s.threshold)
    requires ep.queue.inflight == s.endpoints[e].queue.inflight
    ensures Inv(WithEndpoint(s, e, ep))
  {
    var s' := WithEndpoint(s, e, ep);
    OneEndpoint(s, s', |s.workers|, e);
    SteadyKeepsInv(s, s', |s.workers|);
  }

  lemma ReplyKeeps(s: State, w: nat, e: nat, j: nat, answer: Answer)
    requires Inv(s) && Enabled(s, Reply(w, e, j, answer))
    ensures Inv(Apply(s, Reply(w, e, j, answer)))
  {
    var s' := Apply(s, Reply(w, e, j, answer));
    assert WorkerSound(s, s.workers[w]) && EndpointSound(s.endpoints[e], s.threshold);
    OneEndpoint(s, s', w, e);
    SteadyKeepsInv(s, s', w);
  }

  lemma QueueNextSteady(s: State, w: nat)
    requires Inv(s) && Enabled(s, QueueNext(w))
    ensures var s', k := Apply(s, QueueNext(w)), s.workers[w];
            && Steady(s, s', w) && EndpointsKept(s, s', w)
            && (Accepted(k.asked, k.answers, k.j) ==> Covered(s', k.e, k.regs[k.j].txid))
  {
    var s', k := Apply(s, QueueNext(w)), s.workers[w];
    assert WorkerSound(s, k) && EndpointSound(s.endpoints[k.e], s.threshold);
    OwedGrows(s.endpoints[k.e], k.regs[k.j], s.threshold);
    OneEndpoint(s, s', w, k.e);
    assert Accepted(k.asked, k.answers, k.j) ==> Accounts(s'.endpoints[k.e], k.regs[k.j].txid);
  }

  lemma QueueNextKeeps(s: State, w: nat)
    requires Inv(s) && Enabled(s, QueueNext(w))
    ensures Inv(Apply(s, QueueNext(w)))
  {
    var s', k := Apply(s, QueueNext(w)), s.workers[w];
    assert WorkerSound(s, k);
    QueueNextSteady(s, w);
    PassedStays(s, s', w, k);
    PassedOneMore(s', k);
    SteadyKeepsInv(s, s', w);
  }

  lemma PassedOneMore(s: State, k: Worker)
    requires k.Queueing? && k.j < |k.regs| && k.e < |s.endpoints| && PassedCovered(s, k)
    requires Accepted(k.asked, k.answers, k.j) ==> Covered(s, k.e, k.regs[k.j].txid)
    ensures PassedCovered(s, Advanced(k))
  {
  }

  /** A registration is reported only once it is covered at every endpoint. */
  lemma ReportKeeps(s: State, w: nat)
    requires Inv(s) && Enabled(s, Report(w))
    ensures Inv(Apply(s, Report(w)))
  {
    var k := s.workers[w];
    assert WorkerSound(s, k);
    WorkerOnly(s, w, Idle);
    var idle, s' := WithWorker(s, w, Idle), Apply(s, Report(w));
    OneEndpoint(s, idle, w, |s.endpoints|);
    forall t, e: nat | t in s'.registered && e < |s'.endpoints|
      ensures Covered(idle, e, t)
    {
      if t !in s.registered {
        var j: nat :| j < |k.regs| && Accepted(k.asked, k.answers, j) && k.regs[j].txid == t;
        assert Covered(s, e, t);
        CoveredStays(s, idle, w, e, t);
      }
    }
    SameButRegistered(idle, s');
  }

  lemma SameButRegistered(s: State, s': State)
    requires Inv(s) && s' == s.(registered := s'.registered)
    requires forall t, e: nat | t in s'.registered && e < |s.endpoints| :: Covered(s, e, t)
    ensures Inv(s')
  {
    forall t, e: nat | e < |s.endpoints| && Covered(s, e, t)
      ensures Covered(s', e, t)
    {
    }
    forall w: nat | w < |s.workers|
      ensures WorkerSound(s', s'.workers[w])
    {
      assert WorkerSound(s, s.workers[w]);
    }
  }

  /** Taken entries pass from the queue to the worker. */
  lemma TakeKeeps(s: State, w: nat, e: nat, n: nat, draining: bool)
    requires Inv(s) && Enabled(s, TakeCatchup(w, e, n, draining))
    ensures Inv(Apply(s, TakeCatchup(w, e, n, draining)))
  {
    var s', ep := Apply(s, TakeCatchup(w, e, n, draining)), s.endpoints[e];
    assert EndpointSound(ep, s.threshold);
    TakenKeeps(ep.queue, n);
    forall t | Accounts(ep, t)
      ensures Accounts(s'.endpoints[e], t) || Holds(WorkerAt(s', w), e, t)
    {
      if t in ep.queue.order {
        TakenHeld(ep.queue, n, s'.workers[w], e, t);
      }
    }
    OneEndpoint(s, s', w, e);
    SteadyKeepsInv(s, s', w);
  }

  lemma TakenHeld(q: Queue, n: nat, k: Worker, e: nat, t: string)
    requires Sound(q) && t in q.order
    requires TakenFrom(q, n) != [] ==> k.Catchup? && k.e == e && k.handled == 0 && k.taken == TakenFrom(q, n)
    ensures t in Taken(q, n).order || Holds(k, e, t)
  {
    TakenKeeps(q, n);
    if t !in Taken(q, n).order {
      var i :| 0 <= i < FrontOf(q, n) && q.order[i] == t;
      assert TakenFrom(q, n)[i].txid == t;
      assert k.taken[i].txid == t;
    }
  }

  lemma ReplyCatchupKeeps(s: State, w: nat, i: nat, answer: Answer)
    requires Inv(s) && Enabled(s, ReplyCatchup(w, i, answer))
    ensures Inv(Apply(s, ReplyCatchup(w, i, answer)))
  {
    var s', k := Apply(s, ReplyCatchup(w, i, answer)), s.workers[w];
    assert WorkerSound(s, k) && EndpointSound(s.endpoints[k.e], s.threshold);
    forall e: nat, t | e < |s.endpoints| && Holds(k, e, t)
      ensures Holds(s'.workers[w], e, t)
    {
      var m: nat :| k.handled <= m < |k.taken| && k.taken[m].txid == t;
      assert s'.workers[w].taken[m].txid == t;
    }
    OneEndpoint(s, s', w, k.e);
    SteadyKeepsInv(s, s', w);
  }

  /** Handling one entry leaves the worker holding all the others. */
  lemma StillHeld(k: Worker, k': Worker, e: nat, t: string)
    requires k.Catchup? && k'.Catchup? && k.handled < |k.taken| && k'.handled == k.handled + 1
    requires k'.e == k.e && k'.taken == k.taken && Holds(k, e, t)
    ensures e == k.e && (Holds(k', e, t) || t == k.taken[k.handled].txid)
  {
    var m: nat :| k.handled <= m < |k.taken| && k.taken[m].txid == t;
    assert m > k.handled ==> k'.taken[m].txid == t;
  }

  /** A handled entry passes from the worker to what the endpoint accounts for. */
  lemma HandleNextKeeps(s: State, w: nat)
    requires Inv(s) && Enabled(s, HandleNext(w))
    ensures Inv(Apply(s, HandleNext(w)))
  {
    var s', k := Apply(s, HandleNext(w)), s.workers[w];
    var ep := s.endpoints[k.e];
    assert WorkerSound(s, k) && EndpointSound(ep, s.threshold);
    HandledGrows(ep, k.taken[k.handled], k.replies[k.handled], s.threshold);
    forall e: nat, t | e < |s.endpoints| && Holds(k, e, t)
      ensures Holds(s'.workers[w], e, t) || (e == k.e && Accounts(s'.endpoints[e], t))
    {
      StillHeld(k, s'.workers[w], e, t);
    }
    OneEndpoint(s, s', w, k.e);
    SteadyKeepsInv(s, s', w);
  }

  lemma SettleKeeps(s: State, w: nat)
    requires Inv(s) && Enabled(s, SettleCatchup(w))
    ensures Inv(Apply(s, SettleCatchup(w)))
  {
    var s', k := Apply(s, SettleCatchup(w)), s.workers[w];
    assert WorkerSound(s, k) && EndpointSound(s.endpoints[k.e], s.threshold);
    OneEndpoint(s, s', w, k.e);
    SteadyKeepsInv(s, s', w);
  }

  lemma CheckKeeps(s: State, w: nat)
    requires Inv(s) && Enabled(s, CheckOverflow(w))
    ensures Inv(Apply(s, CheckOverflow(w)))
  {
    var s', e := Apply(s, CheckOverflow(w)), s.workers[w].e;
    assert EndpointSound(s.endpoints[e], s.threshold);
    OneEndpoint(s, s', w, e);
    SteadyKeepsInv(s, s', w);
  }

  lemma BatchStepKeeps(s: State, a: Action)
    requires Inv(s) && Enabled(s, a) && (a.StartBatch? || a.Choose? || a.BeginAsking? || a.Merge?)
    ensures Inv(Apply(s, a))
  {
    var k := s.workers[a.w];
    assert WorkerSound(s, k);
    WorkerOnly(s, a.w, Apply(s, a).workers[a.w]);
  }

  lemma EndpointStepKeeps(s: State, a: Action)
    requires Inv(s) && Enabled(s, a) && (a.Record? || a.CloseBreaker? || a.Owe? || a.Acknowledge?)
    ensures Inv(Apply(s, a))
  {
    var ep := s.endpoints[a.e];
    assert EndpointSound(ep, s.threshold);
    if a.Owe? {
      OwedGrows(ep, a.reg, s.threshold);
    }
    EndpointOnly(s, a.e, Apply(s, a).endpoints[a.e]);
  }

  /** Every step keeps the invariant. */
  lemma StepKeepsInv(s: State, a: Action)
    requires Inv(s) && Enabled(s, a)
    ensures Inv(Apply(s, a))
  {
    match a
    case Reply(w, e, j, answer) => ReplyKeeps(s, w, e, j, answer);
    case QueueNext(w) => QueueNextKeeps(s, w);
    case Report(w) => ReportKeeps(s, w);
    case TakeCatchup(w, e, n, draining) => TakeKeeps(s, w, e, n, draining);
    case ReplyCatchup(w, i, answer) => ReplyCatchupKeeps(s, w, i, answer);
    case HandleNext(w) => HandleNextKeeps(s, w);
    case SettleCatchup(w) => SettleKeeps(s, w);
    case CheckOverflow(w) => CheckKeeps(s, w);
    case Record(_, _, _) => EndpointStepKeeps(s, a);
    case CloseBreaker(_) => EndpointStepKeeps(s, a);
    case Owe(_, _) => EndpointStepKeeps(s, a);
    case Acknowledge(_, _) => EndpointStepKeeps(s, a);
    case _ => BatchStepKeeps(s, a);
  }

  // ----- over whole runs

  lemma InitialInv(s: State)
    requires Initial(s)
    ensures Inv(s)
  {
    forall e: nat | e < |s.endpoints|
      ensures AllUnsettled(s.workers, e) == 0
    {
      NoneUnsettled(s.workers, e);
    }
  }

  lemma {:induction false} NoneUnsettled(workers: seq<Worker>, e: nat)
    requires forall w | 0 <= w < |workers| :: workers[w].Idle?
    ensures AllUnsettled(workers, e) == 0
  {
    if workers != [] {
      NoneUnsettled(workers[..|workers| - 1], e);
    }
  }

  lemma {:induction false} RunInv(run: seq<State>, i: nat)
    requires IsRun(run) && i < |run|
    ensures Inv(run[i])
  {
    if i == 0 {
      InitialInv(run[0]);
    } else {
      RunInv(run, i - 1);
      assert Next(run[i - 1], run[i]);
      var a :| Enabled(run[i - 1], a) && run[i] == Apply(run[i - 1], a);
      StepKeepsInv(run[i - 1], a);
    }
  }

  /**
   NO SILENT LOSS. At every moment of every run, each endpoint accounts for each txid the pool reported registered: it
   acknowledged it, rejected it for good, owes it (queued or in flight), or dropped it with the overflow flag still set
   or a resync fired; and its queue holds distinct txids, within its bound.
   */
  lemma NeverLostSilently(run: seq<State>, i: nat)
    requires IsRun(run) && i < |run|
    ensures NoSilentLoss(run[i])
    ensures forall e: nat | e < |run[i].endpoints| :: EndpointSound(run[i].endpoints[e], run[i].threshold)
  {
    RunInv(run, i);
  }

  lemma {:induction false} NothingUnsettled(workers: seq<Worker>, e: nat, w: nat)
    requires AllUnsettled(workers, e) == 0 && w < |workers|
    ensures Unsettled(workers[w], e) == 0
  {
    if w < |workers| - 1 {
      NothingUnsettled(workers[..|workers| - 1], e, w);
    }
  }

  /** The flag is cleared only with nothing queued and nothing in flight, and the resync covers all that was lost. */
  lemma FlagClearedByResync(s: State, a: Action, e: nat)
    requires Inv(s) && Enabled(s, a) && e < |s.endpoints|
    requires s.endpoints[e].queue.overflowed && !Apply(s, a).endpoints[e].queue.overflowed
    ensures s.endpoints[e].queue.order == []
    ensures forall w: nat | w < |s.workers| :: Unsettled(s.workers[w], e) == 0
    ensures Apply(s, a).endpoints[e].lost == {} && s.endpoints[e].lost <= Apply(s, a).endpoints[e].resynced
  {
    var ep := s.endpoints[e];
    assert EndpointSound(ep, s.threshold);
    FlagKept(s, a, e);
    forall w: nat | w < |s.workers|
      ensures Unsettled(s.workers[w], e) == 0
    {
      NothingUnsettled(s.workers, e, w);
    }
  }

  lemma AddedFlag(q: Queue, reg: Registration)
    requires Sound(q) && q.overflowed
    ensures Added(q, reg).overflowed
  {
    AddedKeeps(q, reg);
  }

  /** No other step clears the flag. */
  lemma FlagKept(s: State, a: Action, e: nat)
    requires Inv(s) && Enabled(s, a) && e < |s.endpoints| && s.endpoints[e].queue.overflowed
    ensures Apply(s, a).endpoints[e].queue.overflowed || (a.CheckOverflow? && s.workers[a.w].e == e && Fires(s.endpoints[e].queue))
  {
    assert EndpointSound(s.endpoints[e], s.threshold);
    if a.QueueNext? && s.workers[a.w].e == e {
      AddedFlag(s.endpoints[e].queue, s.workers[a.w].regs[s.workers[a.w].j]);
    } else if a.HandleNext? && s.workers[a.w].e == e {
      AddedFlag(s.endpoints[e].queue, s.workers[a.w].taken[s.workers[a.w].handled]);
    } else if a.Owe? && a.e == e {
      AddedFlag(s.endpoints[e].queue, a.reg);
    }
  }

  // ----- a batch's verdict

  /** What the merge is given for registration j: the asked endpoints' answers, then one error per skipped endpoint. */
  function Answered(asked: seq<bool>, answers: map<(nat, nat), Answer>, j: nat): seq<Answer>
  {
    if asked == [] then []
    else
      var e := |asked| - 1;
      Answered(asked[..e], answers, j) + (if asked[e] && (e, j) in answers then [answers[(e, j)]] else [])
  }

  function Skipped(asked: seq<bool>): seq<Answer>
  {
    if asked == [] then []
    else Skipped(asked[..|asked| - 1]) + (if asked[|asked| - 1] then [] else [Some(NO_HEALTHY_ENDPOINTS)])
  }

  lemma {:induction false} AnsweredNil(asked: seq<bool>, answers: map<(nat, nat), Answer>, j: nat)
    ensures None in Answered(asked, answers, j) <==> Accepted(asked, answers, j)
  {
    if asked != [] {
      var e := |asked| - 1;
      AnsweredNil(asked[..e], answers, j);
      if Accepted(asked, answers, j) {
        var d: nat :| d < |asked| && asked[d] && (d, j) in answers && answers[(d, j)] == None;
        assert d < e ==> asked[..e][d];
      }
      if Accepted(asked[..e], answers, j) {
        var d: nat :| d < e && asked[..e][d] && (d, j) in answers && answers[(d, j)] == None;
        assert asked[d];
      }
    }
  }

  lemma {:induction false} SkippedNeverNil(asked: seq<bool>)
    ensures None !in Skipped(asked)
  {
    if asked != [] {
      SkippedNeverNil(asked[..|asked| - 1]);
    }
  }

  /** The pool answers nil for exactly the registrations some asked endpoint accepted. */
  lemma VerdictIsAcceptance(ctxDone: bool, asked: seq<bool>, answers: map<(nat, nat), Answer>, j: nat, out: Answer)
    requires IsMerged(ctxDone, Answered(asked, answers, j) + Skipped(asked), out)
    requires Answered(asked, answers, j) + Skipped(asked) != []
    ensures out == None <==> Accepted(asked, answers, j)
  {
    AnsweredNil(asked, answers, j);
    SkippedNeverNil(asked);
  }
}
