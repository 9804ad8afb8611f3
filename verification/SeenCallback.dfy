/** The "seen" callback: the tracker prefilter and what the store and the subscribers get to see. */
module SeenCallback {
  import opened Prelude
  import opened Statuses
  import opened Tracker

  /** A row of the batch update's answer: `prev` when it was applied, `current` when the row is known but was skipped. */
  datatype StatusUpdate = StatusUpdate(prev: Option<Status>, current: Option<Status>)

  // ----- the store

  /** One row of the update. `fails` are the rows whose write fails. */
  function UpdateOf(rows: map<string, Status>, fails: string -> bool, txid: string, target: Status): StatusUpdate
  {
    if txid !in rows || fails(txid) then StatusUpdate(None, None)
    else if CanTransitionFrom(target, Some(rows[txid])) then StatusUpdate(Some(rows[txid]), None)
    else StatusUpdate(None, Some(rows[txid]))
  }

  function RowsAfter(rows: map<string, Status>, fails: string -> bool, txid: string, target: Status): map<string, Status>
  {
    if UpdateOf(rows, fails, txid, target).prev.Some? then rows[txid := target] else rows
  }

  /** The rows after a whole batch, one update after the other. */
  function RowsAfterAll(rows: map<string, Status>, fails: string -> bool, txids: seq<string>, target: Status): map<string, Status>
  {
    if txids == [] then rows
    else RowsAfter(RowsAfterAll(rows, fails, txids[..|txids| - 1], target), fails, txids[|txids| - 1], target)
  }

  /** The answers to a whole batch. */
  function UpdatesOf(rows: map<string, Status>, fails: string -> bool, txids: seq<string>, target: Status): (r: seq<StatusUpdate>)
    ensures |r| == |txids|
  {
    if txids == [] then []
    else
      var init, last := txids[..|txids| - 1], txids[|txids| - 1];
      UpdatesOf(rows, fails, init, target) + [UpdateOf(RowsAfterAll(rows, fails, init, target), fails, last, target)]
  }

  /** Each transaction is answered against the rows the ones before it left. */
  lemma {:induction false} UpdatesAt(rows: map<string, Status>, fails: string -> bool, txids: seq<string>, target: Status, i: nat)
    requires i < |txids|
    ensures UpdatesOf(rows, fails, txids, target)[i] ==
            UpdateOf(RowsAfterAll(rows, fails, txids[..i], target), fails, txids[i], target)
  {
    var n := |txids| - 1;
    if i < n {
      UpdatesAt(rows, fails, txids[..n], target, i);
      assert txids[..n][..i] == txids[..i];
    }
  }

  /** The txids whose status moved, in order: these are published. */
  function MovedBy(rows: map<string, Status>, fails: string -> bool, txids: seq<string>, target: Status): seq<string>
  {
    if txids == [] then []
    else
      var init, last := txids[..|txids| - 1], txids[|txids| - 1];
      MovedBy(rows, fails, init, target) +
      (if MovesRow(RowsAfterAll(rows, fails, init, target), fails, last, target) then [last] else [])
  }

  /** The update is applied and is not a re-assert. */
  predicate MovesRow(rows: map<string, Status>, fails: string -> bool, txid: string, target: Status)
  {
    var update := UpdateOf(rows, fails, txid, target);
    update.prev.Some? && update.prev.value != target
  }

  predicate AnyFails(fails: string -> bool, txids: seq<string>)
  {
    txids != [] && (AnyFails(fails, txids[..|txids| - 1]) || fails(txids[|txids| - 1]))
  }

  class StatusStore {
    var rows: map<string, Status>

    method BatchUpdateStatusReturning(txids: seq<string>, target: Status, fails: string -> bool)
      returns (updates: seq<StatusUpdate>, failed: bool)
      modifies this
      ensures rows == RowsAfterAll(old(rows), fails, txids, target)
      ensures updates == UpdatesOf(old(rows), fails, txids, target)
      ensures failed == AnyFails(fails, txids)
    {
      updates, failed := [], false;
      for i := 0 to |txids|
        invariant rows == RowsAfterAll(old(rows), fails, txids[..i], target)
        invariant updates == UpdatesOf(old(rows), fails, txids[..i], target)
        invariant failed == AnyFails(fails, txids[..i])
      {
        assert txids[..i + 1][..i] == txids[..i];
        updates := updates + [UpdateOf(rows, fails, txids[i], target)];
        rows := RowsAfter(rows, fails, txids[i], target);
        failed := failed || fails(txids[i]);
      }
      assert txids[..|txids|] == txids;
    }
  }

  // ----- the prefilter

  /** The tracked status already stops the update. */
  predicate Stale(tracked: Option<Status>, target: Status)
  {
    tracked.Some? && NoChange(target, tracked.value)
  }

  function Unfiltered(tracked: string -> Option<Status>, txids: seq<string>, target: Status): seq<string>
  {
    if txids == [] then []
    else
      var init, last := Unfiltered(tracked, txids[..|txids| - 1], target), txids[|txids| - 1];
      if Stale(tracked(last), target) then init else init + [last]
  }

  /** What the tracker says at the start of the call; nothing without a tracker. */
  ghost function TrackedBy(tracker: TxTracker?): string -> Option<Status>
    reads tracker
  {
    if tracker == null then _ => None
    else
      var txids := tracker.txids;
      txid => var hash := PARSE_HASH(txid); if hash.Some? && hash.value in txids then Some(txids[hash.value].status) else None
  }

  /** The tracker after every published move. */
  function TrackedAfter(txids: map<TxHash, TrackedTx>, moved: seq<string>, target: Status): map<TxHash, TrackedTx>
  {
    if moved == [] then txids else WithStatus(TrackedAfter(txids, moved[..|moved| - 1], target), moved[|moved| - 1], target)
  }

  /** Drops the txids whose tracked status already stops the update. */
  method Prefilter(tracker: TxTracker?, txids: seq<string>, target: Status) returns (kept: seq<string>)
    ensures kept == Unfiltered(TrackedBy(tracker), txids, target)
  {
    kept := [];
    for i := 0 to |txids|
      invariant kept == Unfiltered(TrackedBy(tracker), txids[..i], target)
    {
      assert txids[..i + 1][..i] == txids[..i];
      if tracker != null {
        var prev := tracker.GetStatus(txids[i]);
        if prev.Some? && (prev.value == target || !CanTransitionFrom(target, prev)) {
          continue;
        }
      }
      kept := kept + [txids[i]];
    }
    assert txids[..|txids|] == txids;
  }

  /** Applies a "seen" callback and returns what is published. */
  method ApplySeenCallback(store: StatusStore, tracker: TxTracker?, txids: seq<string>, target: Status, fails: string -> bool)
    returns (published: seq<string>, failed: bool)
    modifies store, tracker
    ensures var kept := Unfiltered(old(TrackedBy(tracker)), txids, target);
            && store.rows == RowsAfterAll(old(store.rows), fails, kept, target)
            && published == MovedBy(old(store.rows), fails, kept, target)
            && failed == AnyFails(fails, kept)
    ensures tracker != null ==> tracker.txids == TrackedAfter(old(tracker.txids), published, target)
  {
    published, failed := [], false;
    if |txids| == 0 {
      return;
    }
    var kept := Prefilter(tracker, txids, target);
    if |kept| == 0 {
      return;
    }
    ghost var rows := store.rows;
    var updates;
    updates, failed := store.BatchUpdateStatusReturning(kept, target, fails);
    published := PublishedFrom(store, tracker, updates, kept, target, fails, rows);
  }

  /** Sorts the answers out: an applied move is published and tracked; a re-assert, a skip or an absence is not. */
  method PublishedFrom(
    store: StatusStore, tracker: TxTracker?, updates: seq<StatusUpdate>, kept: seq<string>, target: Status,
    ghost fails: string -> bool, ghost rows: map<string, Status>)
    returns (published: seq<string>)
    requires updates == UpdatesOf(rows, fails, kept, target)
    modifies tracker
    ensures published == MovedBy(rows, fails, kept, target)
    ensures tracker != null ==> tracker.txids == TrackedAfter(old(tracker.txids), published, target)
  {
    published := [];
    for i := 0 to |updates|
      invariant published == MovedBy(rows, fails, kept[..i], target)
      invariant tracker != null ==> tracker.txids == TrackedAfter(old(tracker.txids), published, target)
    {
      MovedNext(rows, fails, kept, target, i);
      var update := updates[i];
      if update.prev.Some? && update.prev.value != target {
        published := published + [kept[i]];
        if tracker != null {
          TrackedNext(old(tracker.txids), published[..|published| - 1], kept[i], target);
          tracker.UpdateStatus(kept[i], target);
        }
      }
    }
    assert kept[..|kept|] == kept;
  }

  lemma MovedNext(rows: map<string, Status>, fails: string -> bool, kept: seq<string>, target: Status, i: nat)
    requires i < |kept|
    ensures var update := UpdatesOf(rows, fails, kept, target)[i];
            MovedBy(rows, fails, kept[..i + 1], target) ==
            MovedBy(rows, fails, kept[..i], target) + (if update.prev.Some? && update.prev.value != target then [kept[i]] else [])
  {
    assert kept[..i + 1] == kept[..i] + [kept[i]];
    BatchLast(rows, fails, kept[..i], kept[i], target);
    UpdatesAt(rows, fails, kept, target, i);
  }

  lemma TrackedNext(txids: map<TxHash, TrackedTx>, moved: seq<string>, txid: string, target: Status)
    ensures TrackedAfter(txids, moved + [txid], target) == WithStatus(TrackedAfter(txids, moved, target), txid, target)
  {
    assert (moved + [txid])[..|moved|] == moved;
  }

  // ----- the prefilter is a refinement

  /** Where a batch leaves one row. */
  lemma {:induction false} RowAfterAll(rows: map<string, Status>, fails: string -> bool, txids: seq<string>, target: Status, x: string)
    ensures x in RowsAfterAll(rows, fails, txids, target) <==> x in rows
    ensures x in rows ==>
              RowsAfterAll(rows, fails, txids, target)[x] ==
              if x in txids && !fails(x) && !NoChange(target, rows[x]) then target else rows[x]
  {
    if txids != [] {
      RowAfterAll(rows, fails, txids[..|txids| - 1], target, x);
      assert txids == txids[..|txids| - 1] + [txids[|txids| - 1]];
    }
  }

  /** The update of x does nothing: it is unknown, fails, or the lattice stops it. */
  predicate Inert(rows: map<string, Status>, fails: string -> bool, target: Status, x: string)
  {
    x !in rows || fails(x) || NoChange(target, rows[x])
  }

  /** Dropping what does nothing changes nothing. */
  lemma {:induction false} FilterKeeps(
    rows: map<string, Status>, fails: string -> bool, tracked: string -> Option<Status>, txids: seq<string>, target: Status)
    requires forall x | x in txids && Stale(tracked(x), target) :: Inert(rows, fails, target, x)
    ensures var kept := Unfiltered(tracked, txids, target);
            && RowsAfterAll(rows, fails, kept, target) == RowsAfterAll(rows, fails, txids, target)
            && MovedBy(rows, fails, kept, target) == MovedBy(rows, fails, txids, target)
  {
    if txids != [] {
      var init, last := txids[..|txids| - 1], txids[|txids| - 1];
      FilterKeeps(rows, fails, tracked, init, target);
      if Stale(tracked(last), target) {
        assert last in txids;
        InertLast(rows, fails, init, last, target);
      } else {
        SameLast(rows, fails, Unfiltered(tracked, init, target), init, last, target);
      }
      assert init + [last] == txids;
    }
  }

  lemma SameLast(
    rows: map<string, Status>, fails: string -> bool, a: seq<string>, b: seq<string>, last: string, target: Status)
    requires RowsAfterAll(rows, fails, a, target) == RowsAfterAll(rows, fails, b, target)
    requires MovedBy(rows, fails, a, target) == MovedBy(rows, fails, b, target)
    ensures RowsAfterAll(rows, fails, a + [last], target) == RowsAfterAll(rows, fails, b + [last], target)
    ensures MovedBy(rows, fails, a + [last], target) == MovedBy(rows, fails, b + [last], target)
  {
    BatchLast(rows, fails, a, last, target);
    BatchLast(rows, fails, b, last, target);
  }

  /** The last transaction of a batch sees the rows the others left. */
  lemma BatchLast(rows: map<string, Status>, fails: string -> bool, init: seq<string>, last: string, target: Status)
    ensures RowsAfterAll(rows, fails, init + [last], target) == RowsAfter(RowsAfterAll(rows, fails, init, target), fails, last, target)
    ensures MovedBy(rows, fails, init + [last], target) ==
            MovedBy(rows, fails, init, target) + (if MovesRow(RowsAfterAll(rows, fails, init, target), fails, last, target) then [last] else [])
  {
    assert (init + [last])[..|init|] == init;
  }

  lemma InertLast(rows: map<string, Status>, fails: string -> bool, init: seq<string>, last: string, target: Status)
    requires Inert(rows, fails, target, last)
    ensures RowsAfterAll(rows, fails, init + [last], target) == RowsAfterAll(rows, fails, init, target)
    ensures MovedBy(rows, fails, init + [last], target) == MovedBy(rows, fails, init, target)
  {
    assert (init + [last])[..|init|] == init;
    RowAfterAll(rows, fails, init, target, last);
  }

  lemma {:induction false} StaleDropped(tracked: string -> Option<Status>, txids: seq<string>, target: Status, x: string)
    ensures x in Unfiltered(tracked, txids, target) <==> x in txids && !Stale(tracked(x), target)
  {
    if txids != [] {
      StaleDropped(tracked, txids[..|txids| - 1], target, x);
      assert txids == txids[..|txids| - 1] + [txids[|txids| - 1]];
    }
  }

  /** With the prefilter the store ends up the same, and the same is published, exactly when what it drops does nothing. */
  lemma PrefilterExactly(
    rows: map<string, Status>, fails: string -> bool, tracked: string -> Option<Status>, txids: seq<string>, target: Status)
    ensures var kept := Unfiltered(tracked, txids, target);
            (RowsAfterAll(rows, fails, kept, target) == RowsAfterAll(rows, fails, txids, target)
             && MovedBy(rows, fails, kept, target) == MovedBy(rows, fails, txids, target)) <==>
            forall x | x in txids && Stale(tracked(x), target) :: Inert(rows, fails, target, x)
  {
    if x :| x in txids && Stale(tracked(x), target) && !Inert(rows, fails, target, x) {
      var kept := Unfiltered(tracked, txids, target);
      StaleDropped(tracked, txids, target, x);
      RowAfterAll(rows, fails, kept, target, x);
      RowAfterAll(rows, fails, txids, target, x);
    } else {
      FilterKeeps(rows, fails, tracked, txids, target);
    }
  }

  /**
   THE PREFILTER REFINES THE CALLBACK when each status it acts on is SEEN_ON_NETWORK, SEEN_MULTIPLE_NODES, MINED or
   IMMUTABLE and the store moved on from it without STUMP_PROCESSING or DOUBLE_SPEND_ATTEMPTED.
   */
  lemma PrefilterRefines(
    rows: map<string, Status>, fails: string -> bool, tracked: string -> Option<Status>, txids: seq<string>, target: Status)
    requires target.SeenOnNetwork? || target.SeenMultipleNodes?
    requires forall x | x in txids && x in rows && Stale(tracked(x), target) ::
               && tracked(x).value in {SeenOnNetwork, SeenMultipleNodes, Mined, Immutable}
               && Reaches(tracked(x).value, {StumpProcessing, DoubleSpendAttempted}, rows[x])
    ensures var kept := Unfiltered(tracked, txids, target);
            && RowsAfterAll(rows, fails, kept, target) == RowsAfterAll(rows, fails, txids, target)
            && MovedBy(rows, fails, kept, target) == MovedBy(rows, fails, txids, target)
  {
    forall x | x in txids && Stale(tracked(x), target)
      ensures Inert(rows, fails, target, x)
    {
      if x in rows {
        SeenSettles(target, tracked(x).value, rows[x]);
      }
    }
    FilterKeeps(rows, fails, tracked, txids, target);
  }

  /** A tracked PENDING_RETRY whose row was accepted meanwhile: the callback would move it, the prefilter drops it. */
  lemma PendingRetryLost(x: string, target: Status)
    requires target.SeenOnNetwork? || target.SeenMultipleNodes?
    ensures var rows, tracked := map[x := AcceptedByNetwork], (_: string) => Some(PendingRetry);
            && Reaches(PendingRetry, {StumpProcessing, DoubleSpendAttempted}, rows[x])
            && RowsAfterAll(rows, _ => false, [x], target) == map[x := target]
            && RowsAfterAll(rows, _ => false, Unfiltered(tracked, [x], target), target) == rows
  {
    var rows, tracked := map[x := AcceptedByNetwork], (_: string) => Some(PendingRetry);
    PendingRetryMovesOn({StumpProcessing, DoubleSpendAttempted});
    assert [x][..0] == [];
    assert Unfiltered(tracked, [x], target) == [];
  }
}
