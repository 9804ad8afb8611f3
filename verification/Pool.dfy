/**
 The registration pool as a state machine: batches, catch-up drains, trial watches, direct endpoint calls and breaker
 changes interleave, one atomic step at a time, and the endpoints answer whatever they like.
 */
module Pool {
  import opened Prelude
  import opened CatchupQueues
  import opened Verdicts

  type Answer = Option<CallError>

  /**
   One endpoint. Besides queue and breaker it carries what has happened there: the txids it acknowledged, those it
   rejected for good during catch-up, those its queue dropped since the last resync, and those a resync was fired for.
   */
  datatype Endpoint = Endpoint(
    queue: Queue, breaker: Breaker,
    acked: set<string>, rejected: set<string>, lost: set<string>, resynced: set<string>)

  /** Where one goroutine of the pool stands. */
  datatype Worker =
    | Idle
      // a batch: reading the breakers, waiting for answers, queueing what was missed
    | Choosing(regs: seq<Registration>, asked: seq<bool>)
    | Asking(regs: seq<Registration>, asked: seq<bool>, answers: map<(nat, nat), Answer>)
    | Queueing(regs: seq<Registration>, asked: seq<bool>, answers: map<(nat, nat), Answer>, e: nat, j: nat)
      // a drain or a trial watch: waiting for answers and handling them, then checking for an overflow
    | Catchup(e: nat, taken: seq<Registration>, replies: map<nat, Answer>, handled: nat, draining: bool)
    | Checking(e: nat)

  datatype State = State(endpoints: seq<Endpoint>, workers: seq<Worker>, registered: set<string>, threshold: int)

  // ----- steps

  datatype Action =
    | StartBatch(w: nat, regs: seq<Registration>)
    | Choose(w: nat)
    | BeginAsking(w: nat)
    | Reply(w: nat, e: nat, j: nat, answer: Answer)
    | Merge(w: nat)
    | QueueNext(w: nat)
    | Report(w: nat)
    | TakeCatchup(w: nat, e: nat, n: nat, draining: bool)
    | ReplyCatchup(w: nat, i: nat, answer: Answer)
    | HandleNext(w: nat)
    | SettleCatchup(w: nat)
    | CheckOverflow(w: nat)
    | Record(e: nat, ctxDone: bool, answer: Answer)
    | CloseBreaker(e: nat)
    | Owe(e: nat, reg: Registration)
    | Acknowledge(e: nat, txid: string)

  /** Some asked endpoint accepted registration j. */
  predicate Accepted(asked: seq<bool>, answers: map<(nat, nat), Answer>, j: nat)
  {
    exists e: nat | e < |asked| :: asked[e] && (e, j) in answers && answers[(e, j)] == None
  }

  /** Every asked endpoint has answered every registration. */
  predicate AllAnswered(regs: seq<Registration>, asked: seq<bool>, answers: map<(nat, nat), Answer>)
  {
    forall e: nat, j: nat | e < |asked| && asked[e] && j < |regs| :: (e, j) in answers
  }

  /** Queueing at endpoint e: what the queue drops to make room is lost, under the overflow flag. */
  function WithOwed(ep: Endpoint, reg: Registration): Endpoint
  {
    var q := Added(ep.queue, reg);
    ep.(queue := q, lost := ep.lost + (set t | t in ep.queue.order && t !in q.order))
  }

  function WithAcked(ep: Endpoint, txid: string): Endpoint
  {
    ep.(acked := ep.acked + {txid})
  }

  /** Clearing the flag fires the resync hook for everything that was lost. */
  function WithChecked(ep: Endpoint): Endpoint
  {
    if Fires(ep.queue) then ep.(queue := Drained(ep.queue), resynced := ep.resynced + ep.lost, lost := {}) else ep
  }

  /** A catch-up entry: acknowledged, rejected for good, or queued again. */
  function WithHandled(ep: Endpoint, reg: Registration, reply: Answer): Endpoint
  {
    match reply
    case None => ep
    case Some(err) =>
      if PermanentRejection(err) then ep.(rejected := ep.rejected + {reg.txid}) else WithOwed(ep, reg)
  }

  predicate Enabled(s: State, a: Action)
  {
    match a
    case StartBatch(w, regs) => w < |s.workers| && s.workers[w].Idle? && regs != []
    case Choose(w) => w < |s.workers| && s.workers[w].Choosing? && |s.workers[w].asked| < |s.endpoints|
    case BeginAsking(w) => w < |s.workers| && s.workers[w].Choosing? && |s.workers[w].asked| == |s.endpoints|
    case Reply(w, e, j, _) =>
      && w < |s.workers| && s.workers[w].Asking? && e < |s.endpoints| && e < |s.workers[w].asked| && s.workers[w].asked[e]
      && j < |s.workers[w].regs| && (e, j) !in s.workers[w].answers
    case Merge(w) =>
      && w < |s.workers| && s.workers[w].Asking?
      && AllAnswered(s.workers[w].regs, s.workers[w].asked, s.workers[w].answers)
    case QueueNext(w) =>
      w < |s.workers| && s.workers[w].Queueing? && s.workers[w].e < |s.endpoints| && s.workers[w].j < |s.workers[w].regs|
    case Report(w) => w < |s.workers| && s.workers[w].Queueing? && s.workers[w].e == |s.endpoints|
    case TakeCatchup(w, e, n, _) =>
      && w < |s.workers| && s.workers[w].Idle? && e < |s.endpoints|
      && forall t | t in s.endpoints[e].queue.order :: t in s.endpoints[e].queue.byTxid
    case ReplyCatchup(w, i, _) =>
      w < |s.workers| && s.workers[w].Catchup? && i < |s.workers[w].taken| && i !in s.workers[w].replies
    case HandleNext(w) =>
      && w < |s.workers| && s.workers[w].Catchup? && s.workers[w].handled < |s.workers[w].taken|
      && s.workers[w].e < |s.endpoints| && forall i | 0 <= i < |s.workers[w].taken| :: i in s.workers[w].replies
    case SettleCatchup(w) =>
      && w < |s.workers| && s.workers[w].Catchup? && s.workers[w].handled == |s.workers[w].taken|
      && s.workers[w].e < |s.endpoints|
    case CheckOverflow(w) => w < |s.workers| && s.workers[w].Checking? && s.workers[w].e < |s.endpoints|
    case Record(e, _, _) => e < |s.endpoints|
    case CloseBreaker(e) => e < |s.endpoints|
    case Owe(e, _) => e < |s.endpoints|
    case Acknowledge(e, _) => e < |s.endpoints|
  }

  function WithWorker(s: State, w: nat, x: Worker): State
    requires w < |s.workers|
  {
    s.(workers := s.workers[w := x])
  }

  function WithEndpoint(s: State, e: nat, ep: Endpoint): State
    requires e < |s.endpoints|
  {
    s.(endpoints := s.endpoints[e := ep])
  }

  /** The next place in the queueing loops, endpoint by endpoint and registration by registration. */
  function Advanced(k: Worker): Worker
    requires k.Queueing?
  {
    if k.j + 1 < |k.regs| then k.(j := k.j + 1) else k.(e := k.e + 1, j := 0)
  }

  /** Endpoint e missed registration j: it was not asked, or did not accept. */
  predicate Missed(k: Worker, e: nat, j: nat)
    requires k.Queueing?
  {
    !(e < |k.asked| && k.asked[e] && (e, j) in k.answers && k.answers[(e, j)] == None)
  }

  function Apply(s: State, a: Action): State
    requires Enabled(s, a)
  {
    match a
    case StartBatch(w, regs) => WithWorker(s, w, Choosing(regs, []))
    case Choose(w) =>
      var k := s.workers[w];
      WithWorker(s, w, Choosing(k.regs, k.asked + [!s.endpoints[|k.asked|].breaker.open]))
    case BeginAsking(w) =>
      var k := s.workers[w];
      WithWorker(s, w, if true in k.asked then Asking(k.regs, k.asked, map[]) else Idle)
    case Reply(w, e, j, answer) =>
      var k := s.workers[w];
      var next := WithWorker(s, w, Asking(k.regs, k.asked, k.answers[(e, j) := answer]));
      if answer.None? then WithEndpoint(next, e, WithAcked(s.endpoints[e], k.regs[j].txid)) else next
    case Merge(w) =>
      var k := s.workers[w];
      WithWorker(s, w, Queueing(k.regs, k.asked, k.answers, 0, 0))
    case QueueNext(w) =>
      var k := s.workers[w];
      var next := WithWorker(s, w, Advanced(k));
      if Accepted(k.asked, k.answers, k.j) && Missed(k, k.e, k.j)
      then WithEndpoint(next, k.e, WithOwed(s.endpoints[k.e], k.regs[k.j])) else next
    case Report(w) =>
      var k := s.workers[w];
      var done := set j: nat | j < |k.regs| && Accepted(k.asked, k.answers, j) :: k.regs[j].txid;
      WithWorker(s, w, Idle).(registered := s.registered + done)
    case TakeCatchup(w, e, n, draining) =>
      var ep := s.endpoints[e];
      var taken := TakenFrom(ep.queue, n);
      var x := if taken != [] then Catchup(e, taken, map[], 0, draining) else if draining then Checking(e) else Idle;
      WithEndpoint(WithWorker(s, w, x), e, ep.(queue := Taken(ep.queue, n)))
    case ReplyCatchup(w, i, answer) =>
      var k := s.workers[w];
      var next := WithWorker(s, w, k.(replies := k.replies[i := answer]));
      if answer.None? && k.e < |s.endpoints| then WithEndpoint(next, k.e, WithAcked(s.endpoints[k.e], k.taken[i].txid)) else next
    case HandleNext(w) =>
      var k := s.workers[w];
      WithEndpoint(WithWorker(s, w, k.(handled := k.handled + 1)), k.e,
                   WithHandled(s.endpoints[k.e], k.taken[k.handled], k.replies[k.handled]))
    case SettleCatchup(w) =>
      var k := s.workers[w];
      var ep := s.endpoints[k.e];
      WithEndpoint(WithWorker(s, w, if k.draining then Checking(k.e) else Idle), k.e,
                   ep.(queue := Settled(ep.queue, |k.taken|)))
    case CheckOverflow(w) =>
      var e := s.workers[w].e;
      WithEndpoint(WithWorker(s, w, Idle), e, WithChecked(s.endpoints[e]))
    case Record(e, ctxDone, answer) =>
      WithEndpoint(s, e, s.endpoints[e].(breaker := Recorded(s.endpoints[e].breaker, s.threshold, ctxDone, answer)))
    case CloseBreaker(e) => WithEndpoint(s, e, s.endpoints[e].(breaker := Closed(s.endpoints[e].breaker)))
    case Owe(e, reg) => WithEndpoint(s, e, WithOwed(s.endpoints[e], reg))
    case Acknowledge(e, txid) => WithEndpoint(s, e, WithAcked(s.endpoints[e], txid))
  }

  ghost predicate Next(s: State, s': State)
  {
    exists a :: Enabled(s, a) && s' == Apply(s, a)
  }

  /** Nothing queued, nothing running, every breaker closed. */
  ghost predicate Initial(s: State)
  {
    && s.threshold >= 1 && s.registered == {}
    && (forall w | 0 <= w < |s.workers| :: s.workers[w].Idle?)
    && forall e | 0 <= e < |s.endpoints| ::
         s.endpoints[e] == Endpoint(Queue(s.endpoints[e].queue.max, [], map[], 0, 0, false), Breaker(0, false), {}, {}, {}, {})
  }

  /** Any interleaving of any length. */
  ghost predicate IsRun(run: seq<State>)
  {
    |run| > 0 && Initial(run[0]) && forall i | 0 < i < |run| :: Next(run[i - 1], run[i])
  }

  // ----- what is never lost

  /** The endpoint has t, refused it for good, owes it, or dropped it with the flag set or a resync fired since. */
  ghost predicate Accounts(ep: Endpoint, t: string)
  {
    || t in ep.acked || t in ep.rejected || t in ep.queue.order || t in ep.resynced
    || (t in ep.lost && ep.queue.overflowed)
  }

  /** The worker holds t for endpoint e, taken and not yet handled. */
  ghost predicate Holds(k: Worker, e: nat, t: string)
  {
    k.Catchup? && k.e == e && exists i: nat | k.handled <= i < |k.taken| :: k.taken[i].txid == t
  }

  ghost predicate Covered(s: State, e: nat, t: string)
    requires e < |s.endpoints|
  {
    Accounts(s.endpoints[e], t) || exists w: nat | w < |s.workers| :: Holds(s.workers[w], e, t)
  }

  ghost predicate NoSilentLoss(s: State)
  {
    forall t, e: nat | t in s.registered && e < |s.endpoints| :: Covered(s, e, t)
  }

  // ----- the invariant

  ghost predicate EndpointSound(ep: Endpoint, threshold: int)
  {
    Sound(ep.queue) && (ep.lost != {} ==> ep.queue.overflowed) && BreakerSound(ep.breaker, threshold)
  }

  /** How many of e's entries worker k has taken and not settled. */
  function Unsettled(k: Worker, e: nat): nat
  {
    if k.Catchup? && k.e == e then |k.taken| else 0
  }

  function AllUnsettled(workers: seq<Worker>, e: nat): nat
  {
    if workers == [] then 0 else AllUnsettled(workers[..|workers| - 1], e) + Unsettled(workers[|workers| - 1], e)
  }

  lemma {:induction false} UnsettledUpdate(workers: seq<Worker>, w: nat, x: Worker, e: nat)
    requires w < |workers|
    ensures AllUnsettled(workers[w := x], e) == AllUnsettled(workers, e) - Unsettled(workers[w], e) + Unsettled(x, e)
  {
    var n := |workers| - 1;
    if w < n {
      UnsettledUpdate(workers[..n], w, x, e);
      assert workers[w := x][..n] == workers[..n][w := x];
    } else {
      assert workers[w := x][..n] == workers[..n];
    }
  }

  /** Whatever an asked endpoint accepted is acknowledged there. */
  ghost predicate AnswersTrue(s: State, regs: seq<Registration>, asked: seq<bool>, answers: map<(nat, nat), Answer>)
  {
    && |asked| == |s.endpoints|
    && forall e: nat, j: nat | (e, j) in answers && answers[(e, j)] == None ::
         e < |s.endpoints| && j < |regs| && regs[j].txid in s.endpoints[e].acked
  }

  /** Every accepted registration is covered at the places the queueing loops have passed. */
  ghost predicate PassedCovered(s: State, k: Worker)
    requires k.Queueing?
  {
    forall e: nat, j: nat | e < |s.endpoints| && j < |k.regs| && (e < k.e || (e == k.e && j < k.j)) && Accepted(k.asked, k.answers, j) ::
      Covered(s, e, k.regs[j].txid)
  }

  ghost predicate WorkerSound(s: State, k: Worker)
  {
    match k
    case Idle => true
    case Choosing(regs, asked) => |asked| <= |s.endpoints| && regs != []
    case Asking(regs, asked, answers) => AnswersTrue(s, regs, asked, answers) && regs != []
    case Queueing(regs, asked, answers, e, j) =>
      AnswersTrue(s, regs, asked, answers) && j < |regs| && e <= |s.endpoints| && PassedCovered(s, k)
    case Catchup(e, taken, replies, handled, _) =>
      && e < |s.endpoints| && handled <= |taken|
      && forall i: nat | i in replies && replies[i] == None :: i < |taken| && taken[i].txid in s.endpoints[e].acked
    case Checking(e) => e < |s.endpoints|
  }

  ghost predicate Inv(s: State)
  {
    && s.threshold >= 1
    && (forall e: nat | e < |s.endpoints| :: EndpointSound(s.endpoints[e], s.threshold))
    && (forall e: nat | e < |s.endpoints| :: s.endpoints[e].queue.inflight == AllUnsettled(s.workers, e))
    && (forall w: nat | w < |s.workers| :: WorkerSound(s, s.workers[w]))
    && NoSilentLoss(s)
  }
}
