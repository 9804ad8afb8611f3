/** The status lattice of a transaction. */
module Statuses {
  import opened Prelude

  datatype Status =
    | Unknown | Received | SentToNetwork | AcceptedByNetwork | SeenOnNetwork | SeenMultipleNodes
    | DoubleSpendAttempted | Rejected | PendingRetry | StumpProcessing | Mined | Immutable

  predicate IsTerminal(s: Status)
  {
    s in {Rejected, DoubleSpendAttempted, Mined, Immutable}
  }

  /** The statuses that cannot move to s. */
  function DisallowedPrevious(s: Status): set<Status>
  {
    match s
    case Unknown => NeverBack()
    case Received => NeverBack()
    case SentToNetwork =>
      {SentToNetwork, AcceptedByNetwork, SeenOnNetwork, SeenMultipleNodes, Rejected, DoubleSpendAttempted, Mined, Immutable}
    case AcceptedByNetwork =>
      {AcceptedByNetwork, SeenOnNetwork, SeenMultipleNodes, DoubleSpendAttempted, Mined, Immutable}
    case SeenOnNetwork =>
      {SeenOnNetwork, SeenMultipleNodes, PendingRetry, DoubleSpendAttempted, Mined, Immutable}
    case SeenMultipleNodes => {SeenMultipleNodes, PendingRetry, DoubleSpendAttempted, Mined, Immutable}
    case PendingRetry => {SeenOnNetwork, SeenMultipleNodes, Rejected, DoubleSpendAttempted, Mined, Immutable}
    case StumpProcessing => {Rejected, DoubleSpendAttempted, Mined, Immutable}
    case Rejected => {SeenOnNetwork, SeenMultipleNodes, Mined, Immutable}
    case DoubleSpendAttempted => {Mined, Immutable}
    case Mined => {Immutable}
    case Immutable => {}
  }

  function NeverBack(): set<Status>
  {
    {SentToNetwork, AcceptedByNetwork, SeenOnNetwork, SeenMultipleNodes, PendingRetry, StumpProcessing,
     Rejected, DoubleSpendAttempted, Mined, Immutable}
  }

  /** Whether a row at prev may move to s; no row and the same status always may. */
  predicate CanTransitionFrom(s: Status, prev: Option<Status>)
  {
    prev.None? || prev.value == s || prev.value !in DisallowedPrevious(s)
  }

  /** The row moves through `path`, one lattice step after the other, never stepping onto a status in `avoided`. */
  ghost predicate Moves(from: Status, path: seq<Status>, avoided: set<Status>, to: Status)
    decreases |path|
  {
    if path == [] then from == to
    else CanTransitionFrom(path[0], Some(from)) && path[0] !in avoided && Moves(path[0], path[1..], avoided, to)
  }

  ghost predicate Reaches(from: Status, avoided: set<Status>, to: Status)
  {
    exists path :: Moves(from, path, avoided, to)
  }

  /** An update to `target` would leave the row at its status and publish nothing. */
  predicate NoChange(target: Status, current: Status)
  {
    current == target || !CanTransitionFrom(target, Some(current))
  }

  /** The row cannot come back to where an update to `target` would do something. */
  ghost predicate Final(target: Status, tracked: Status, avoided: set<Status>)
  {
    forall current | Reaches(tracked, avoided, current) :: NoChange(target, current)
  }

  /** Steps that do not leave `closed` stay in it. */
  lemma {:induction false} StaysIn(from: Status, path: seq<Status>, avoided: set<Status>, to: Status, closed: set<Status>)
    requires Moves(from, path, avoided, to) && from in closed
    requires forall a, b | a in closed && b !in avoided && CanTransitionFrom(b, Some(a)) :: b in closed
    ensures to in closed
    decreases |path|
  {
    if path != [] {
      StaysIn(path[0], path[1..], avoided, to, closed);
    }
  }

  lemma Step(from: Status, via: seq<Status>, avoided: set<Status>, to: Status)
    requires Moves(from, via, avoided, to)
    ensures Reaches(from, avoided, to)
  {
  }

  lemma SeenSettles(target: Status, tracked: Status, current: Status)
    requires target.SeenOnNetwork? || target.SeenMultipleNodes?
    requires NoChange(target, tracked) && tracked in {SeenOnNetwork, SeenMultipleNodes, Mined, Immutable}
    requires Reaches(tracked, {StumpProcessing, DoubleSpendAttempted}, current)
    ensures NoChange(target, current)
  {
    var avoided := {StumpProcessing, DoubleSpendAttempted};
    var path :| Moves(tracked, path, avoided, current);
    StaysIn(tracked, path, avoided, current,
            if tracked.SeenOnNetwork? then {SeenOnNetwork, SeenMultipleNodes, Mined, Immutable}
            else {SeenMultipleNodes, Mined, Immutable});
  }

  /**
   For a callback to one of the two "seen" statuses, a tracked status that already stops the update settles the matter
   exactly when it is SEEN_ON_NETWORK, SEEN_MULTIPLE_NODES, MINED or IMMUTABLE, as long as the row never moves through
   STUMP_PROCESSING or DOUBLE_SPEND_ATTEMPTED.
   */
  lemma FinalExactly(target: Status, tracked: Status)
    requires target.SeenOnNetwork? || target.SeenMultipleNodes?
    requires NoChange(target, tracked)
    ensures Final(target, tracked, {StumpProcessing, DoubleSpendAttempted}) <==>
            tracked in {SeenOnNetwork, SeenMultipleNodes, Mined, Immutable}
  {
    var avoided := {StumpProcessing, DoubleSpendAttempted};
    if tracked in {SeenOnNetwork, SeenMultipleNodes, Mined, Immutable} {
      forall current | Reaches(tracked, avoided, current)
        ensures NoChange(target, current)
      {
        SeenSettles(target, tracked, current);
      }
    } else if tracked.PendingRetry? {
      PendingRetryMovesOn(avoided);
      assert !NoChange(target, AcceptedByNetwork);
    } else {
      DoubleSpendMovesOn(avoided);
      assert !NoChange(target, Rejected);
    }
  }

  /** A retry that was tracked can be accepted in the store meanwhile. */
  lemma PendingRetryMovesOn(avoided: set<Status>)
    requires AcceptedByNetwork !in avoided
    ensures Reaches(PendingRetry, avoided, AcceptedByNetwork)
  {
    assert Moves(AcceptedByNetwork, [], avoided, AcceptedByNetwork);
    assert [AcceptedByNetwork][1..] == [];
    Step(PendingRetry, [AcceptedByNetwork], avoided, AcceptedByNetwork);
  }

  lemma DoubleSpendMovesOn(avoided: set<Status>)
    requires Rejected !in avoided
    ensures Reaches(DoubleSpendAttempted, avoided, Rejected)
  {
    assert Moves(Rejected, [], avoided, Rejected);
    assert [Rejected][1..] == [];
    Step(DoubleSpendAttempted, [Rejected], avoided, Rejected);
  }

  /** Without that proviso only MINED and IMMUTABLE settle it: a seen row can go through STUMP_PROCESSING. */
  lemma FinalUnconditionally(target: Status, tracked: Status)
    requires target.SeenOnNetwork? || target.SeenMultipleNodes?
    requires NoChange(target, tracked)
    ensures Final(target, tracked, {}) <==> tracked in {Mined, Immutable}
  {
    if tracked in {Mined, Immutable} {
      forall current | Reaches(tracked, {}, current)
        ensures NoChange(target, current)
      {
        var path :| Moves(tracked, path, {}, current);
        StaysIn(tracked, path, {}, current, {Mined, Immutable});
      }
    } else if tracked.PendingRetry? {
      PendingRetryMovesOn({});
      assert !NoChange(target, AcceptedByNetwork);
    } else if tracked.DoubleSpendAttempted? {
      DoubleSpendMovesOn({});
      assert !NoChange(target, Rejected);
    } else {
      assert Moves(StumpProcessing, [], {}, StumpProcessing);
      assert [StumpProcessing][1..] == [];
      Step(tracked, [StumpProcessing], {}, StumpProcessing);
      assert !NoChange(target, StumpProcessing);
    }
  }

  /** Confirmed rows are never taken back: MINED and IMMUTABLE reach only MINED and IMMUTABLE. */
  lemma ConfirmedStays(from: Status, to: Status)
    requires from in {Mined, Immutable} && Reaches(from, {}, to)
    ensures to in {Mined, Immutable} && (from == Immutable ==> to == Immutable)
  {
    var path :| Moves(from, path, {}, to);
    StaysIn(from, path, {}, to, if from == Immutable then {Immutable} else {Mined, Immutable});
  }

  /** The row stays where it is, but for the promotion of MINED to IMMUTABLE. */
  ghost predicate Kept(from: Status)
  {
    forall to | Reaches(from, {}, to) :: to == from || (from == Mined && to == Immutable)
  }

  /** Of the terminal statuses exactly MINED and IMMUTABLE are kept: REJECTED and DOUBLE_SPEND_ATTEMPTED can move on. */
  lemma TerminalExactly(from: Status)
    requires IsTerminal(from)
    ensures Kept(from) <==> from in {Mined, Immutable}
  {
    if from in {Mined, Immutable} {
      forall to | Reaches(from, {}, to)
        ensures to == from || (from == Mined && to == Immutable)
      {
        ConfirmedStays(from, to);
      }
    } else if from.DoubleSpendAttempted? {
      DoubleSpendMovesOn({});
    } else {
      RejectedMovesOn({});
    }
  }

  lemma RejectedMovesOn(avoided: set<Status>)
    requires SeenOnNetwork !in avoided
    ensures Reaches(Rejected, avoided, SeenOnNetwork)
  {
    assert Moves(SeenOnNetwork, [], avoided, SeenOnNetwork);
    assert [SeenOnNetwork][1..] == [];
    Step(Rejected, [SeenOnNetwork], avoided, SeenOnNetwork);
  }
}
