/** The in-memory index of tracked transactions: hydration from the store and pruning. */
module Tracker {
  import opened Prelude
  import opened Statuses

  const CONFIRMATIONS_REQUIRED: U64 := 100
  const LOAD_BATCH_SIZE := 10000

  datatype TxHash = TxHash(value: nat)

  /** Parsing a txid's hex; malformed ones have no hash. */
  const PARSE_HASH: string -> Option<TxHash>

  datatype TrackedTx = TrackedTx(status: Status, minedHeight: U64)
  datatype TrackerRow = TrackerRow(txid: string, status: Status, blockHeight: U64)

  /** 0 disables pruning. */
  datatype TrackerScan = TrackerScan(pruneMinedBelow: U64)

  datatype LoadStats = LoadStats(scanned: nat, loaded: nat, skipped: nat)

  predicate TracksStatus(s: Status)
  {
    !IsTerminal(s) || s == Mined
  }

  function NewTrackerScan(tipHeight: U64, tipKnown: bool): TrackerScan
  {
    if !tipKnown || tipHeight < CONFIRMATIONS_REQUIRED then TrackerScan(0)
    else TrackerScan(tipHeight - CONFIRMATIONS_REQUIRED + 1)
  }

  predicate Keep(scan: TrackerScan, status: Status, height: U64)
  {
    TracksStatus(status) &&
    !(status == Mined && height > 0 && scan.pruneMinedBelow > 0 && height < scan.pruneMinedBelow)
  }

  /** Mined long enough ago, by the tracker's own wrapping arithmetic. */
  predicate Confirmed(tx: TrackedTx, currentHeight: U64)
  {
    tx.status == Mined && tx.minedHeight > 0 && currentHeight >= (tx.minedHeight + CONFIRMATIONS_REQUIRED) % U64_SIZE
  }

  function Pruned(txids: map<TxHash, TrackedTx>, currentHeight: U64): map<TxHash, TrackedTx>
  {
    map h | h in txids && !Confirmed(txids[h], currentHeight) :: txids[h]
  }

  /** What one emitted row does to the tracker. */
  function WithRow(txids: map<TxHash, TrackedTx>, scan: TrackerScan, row: TrackerRow): map<TxHash, TrackedTx>
  {
    var hash := PARSE_HASH(row.txid);
    if Keep(scan, row.status, row.blockHeight) && hash.Some?
    then txids[hash.value := TrackedTx(row.status, row.blockHeight)] else txids
  }

  function Hydrated(txids: map<TxHash, TrackedTx>, scan: TrackerScan, rows: seq<TrackerRow>): map<TxHash, TrackedTx>
  {
    if rows == [] then txids
    else WithRow(Hydrated(txids, scan, rows[..|rows| - 1]), scan, rows[|rows| - 1])
  }

  /** How many emitted rows the scan does not keep. */
  function Skips(scan: TrackerScan, rows: seq<TrackerRow>): nat
  {
    if rows == [] then 0
    else
      var last := rows[|rows| - 1];
      Skips(scan, rows[..|rows| - 1]) + (if Keep(scan, last.status, last.blockHeight) then 0 else 1)
  }

  /** How many it keeps that have a well-formed txid. */
  function Loads(scan: TrackerScan, rows: seq<TrackerRow>): nat
  {
    if rows == [] then 0
    else
      var last := rows[|rows| - 1];
      Loads(scan, rows[..|rows| - 1]) +
      (if Keep(scan, last.status, last.blockHeight) && PARSE_HASH(last.txid).Some? then 1 else 0)
  }

  // ----- hydration with pruning is hydration followed by pruning

  /** The row's hash, when the scan keeps it and its txid parses. */
  ghost predicate KeptAs(scan: TrackerScan, row: TrackerRow, hash: TxHash)
  {
    Keep(scan, row.status, row.blockHeight) && PARSE_HASH(row.txid) == Some(hash)
  }

  /** No two rows of the table are of one transaction. */
  ghost predicate DistinctTxids(table: set<TrackerRow>)
  {
    forall r, q | r in table && q in table && PARSE_HASH(r.txid) == PARSE_HASH(q.txid) && PARSE_HASH(r.txid).Some? :: r == q
  }

  /** A scan emits every row it keeps, in any order, and may emit others. */
  ghost predicate Emits(table: set<TrackerRow>, scan: TrackerScan, rows: seq<TrackerRow>)
  {
    && (forall r | r in rows :: r in table)
    && forall r | r in table && Keep(scan, r.status, r.blockHeight) :: r in rows
  }

  lemma {:induction false} HydratedHas(table: set<TrackerRow>, scan: TrackerScan, rows: seq<TrackerRow>, hash: TxHash)
    requires DistinctTxids(table) && forall r | r in rows :: r in table
    ensures hash in Hydrated(map[], scan, rows) <==> exists r :: r in rows && KeptAs(scan, r, hash)
    ensures forall r | r in rows && KeptAs(scan, r, hash) ::
              hash in Hydrated(map[], scan, rows) && Hydrated(map[], scan, rows)[hash] == TrackedTx(r.status, r.blockHeight)
  {
    if rows != [] {
      var before, last := rows[..|rows| - 1], rows[|rows| - 1];
      assert rows == before + [last];
      HydratedHas(table, scan, before, hash);
      if KeptAs(scan, last, hash) {
        assert last in rows;
      } else {
        assert hash in Hydrated(map[], scan, rows) <==> hash in Hydrated(map[], scan, before);
        if hash in Hydrated(map[], scan, before) {
          var r :| r in before && KeptAs(scan, r, hash);
          assert r in rows;
        }
      }
    }
  }

  /** A row high enough for its confirmation height to wrap to the tip or below. */
  ghost predicate Wraps(row: TrackerRow, tip: U64)
  {
    && row.status == Mined && row.blockHeight > 0 && PARSE_HASH(row.txid).Some?
    && row.blockHeight + CONFIRMATIONS_REQUIRED >= U64_SIZE && tip >= row.blockHeight + CONFIRMATIONS_REQUIRED - U64_SIZE
  }

  /** On a row that does not wrap, the scan's cutoff and the tracker's test agree. */
  lemma CutoffAgrees(row: TrackerRow, tip: U64)
    requires PARSE_HASH(row.txid).Some?
    ensures Keep(NewTrackerScan(tip, true), row.status, row.blockHeight) ==>
              Keep(NewTrackerScan(tip, false), row.status, row.blockHeight)
    ensures !Wraps(row, tip) ==>
              (Keep(NewTrackerScan(tip, true), row.status, row.blockHeight) <==>
               Keep(NewTrackerScan(tip, false), row.status, row.blockHeight)
               && !Confirmed(TrackedTx(row.status, row.blockHeight), tip))
    ensures Wraps(row, tip) ==>
              Keep(NewTrackerScan(tip, true), row.status, row.blockHeight)
              && Confirmed(TrackedTx(row.status, row.blockHeight), tip)
  {
  }

  lemma SlotAgrees(table: set<TrackerRow>, tip: U64, emitted: seq<TrackerRow>, all: seq<TrackerRow>, hash: TxHash)
    requires DistinctTxids(table)
    requires Emits(table, NewTrackerScan(tip, true), emitted) && Emits(table, NewTrackerScan(tip, false), all)
    ensures var direct := Hydrated(map[], NewTrackerScan(tip, true), emitted);
            var pruned := Pruned(Hydrated(map[], NewTrackerScan(tip, false), all), tip);
            && (hash in pruned ==> hash in direct && direct[hash] == pruned[hash])
            && (hash in direct && hash !in pruned <==>
                exists r :: r in table && PARSE_HASH(r.txid) == Some(hash) && Wraps(r, tip))
  {
    var on, off := NewTrackerScan(tip, true), NewTrackerScan(tip, false);
    HydratedHas(table, on, emitted, hash);
    HydratedHas(table, off, all, hash);
    forall r | r in table && PARSE_HASH(r.txid) == Some(hash)
      ensures KeptAs(on, r, hash) ==> KeptAs(off, r, hash) && r in emitted && r in all
      ensures KeptAs(off, r, hash) ==> r in all
      ensures Wraps(r, tip) ==> KeptAs(on, r, hash) && Confirmed(TrackedTx(r.status, r.blockHeight), tip)
      ensures !Wraps(r, tip) ==>
                (KeptAs(on, r, hash) <==> KeptAs(off, r, hash) && !Confirmed(TrackedTx(r.status, r.blockHeight), tip))
    {
      CutoffAgrees(r, tip);
    }
  }

  /**
   Hydrating with the pruning scan gives exactly what hydrating without it and then pruning gives, whatever the backend
   over-emits and in whatever order, if and only if no mined row's confirmation height wraps to the tip or below.
   */
  lemma HydrationIsPruning(table: set<TrackerRow>, tip: U64, emitted: seq<TrackerRow>, all: seq<TrackerRow>)
    requires DistinctTxids(table)
    requires Emits(table, NewTrackerScan(tip, true), emitted) && Emits(table, NewTrackerScan(tip, false), all)
    ensures Hydrated(map[], NewTrackerScan(tip, true), emitted) ==
            Pruned(Hydrated(map[], NewTrackerScan(tip, false), all), tip) <==>
            forall r | r in table :: !Wraps(r, tip)
  {
    var direct := Hydrated(map[], NewTrackerScan(tip, true), emitted);
    var pruned := Pruned(Hydrated(map[], NewTrackerScan(tip, false), all), tip);
    forall hash
      ensures (hash in pruned ==> hash in direct && direct[hash] == pruned[hash])
      ensures hash in direct && hash !in pruned <==>
              exists r :: r in table && PARSE_HASH(r.txid) == Some(hash) && Wraps(r, tip)
    {
      SlotAgrees(table, tip, emitted, all, hash);
    }
    if r :| r in table && Wraps(r, tip) {
      assert PARSE_HASH(r.txid).value in direct && PARSE_HASH(r.txid).value !in pruned;
    }
  }

  // ----- the tracker as it is updated in place

  /** A tracked transaction's status moves; its height stays, and an untracked one stays untracked. */
  function WithStatus(txids: map<TxHash, TrackedTx>, txid: string, status: Status): map<TxHash, TrackedTx>
  {
    var hash := PARSE_HASH(txid);
    if hash.Some? && hash.value in txids then txids[hash.value := txids[hash.value].(status := status)] else txids
  }

  class TxTracker {
    var txids: map<TxHash, TrackedTx>

    constructor ()
      ensures txids == map[]
    {
      txids := map[];
    }

    function GetStatus(txid: string): Option<Status>
      reads this
    {
      var hash := PARSE_HASH(txid);
      if hash.Some? && hash.value in txids then Some(txids[hash.value].status) else None
    }

    /** Moves a tracked transaction's status, keeping its height. */
    method UpdateStatus(txid: string, status: Status)
      modifies this
      ensures txids == WithStatus(old(txids), txid, status)
    {
      var hash := PARSE_HASH(txid);
      if hash.Some? && hash.value in txids {
        txids := txids[hash.value := txids[hash.value].(status := status)];
      }
    }

    /** Removes the transactions mined long enough ago and returns them, in whatever order the map comes. */
    method PruneConfirmed(currentHeight: U64) returns (immutable: seq<TxHash>)
      modifies this
      ensures txids == Pruned(old(txids), currentHeight)
      ensures forall h :: h in immutable <==> h in old(txids) && h !in txids
      ensures forall i, j | 0 <= i < j < |immutable| :: immutable[i] != immutable[j]
    {
      immutable := [];
      var rest := txids.Keys;
      while rest != {}
        invariant rest <= old(txids.Keys)
        invariant forall h :: h in txids <==> h in old(txids) && (h in rest || !Confirmed(old(txids)[h], currentHeight))
        invariant forall h | h in txids :: txids[h] == old(txids)[h]
        invariant forall h :: h in immutable <==> h in old(txids) && h !in txids
        invariant forall i, j | 0 <= i < j < |immutable| :: immutable[i] != immutable[j]
        decreases |rest|
      {
        var hash :| hash in rest;
        rest := rest - {hash};
        if Confirmed(txids[hash], currentHeight) {
          immutable := immutable + [hash];
          txids := txids - {hash};
        }
      }
    }

    /** Merges the emitted rows the scan keeps, a batch at a time. */
    method LoadFromStore(rows: seq<TrackerRow>, scan: TrackerScan, batchSize: int) returns (stats: LoadStats)
      modifies this
      ensures txids == Hydrated(old(txids), scan, rows)
      ensures stats == LoadStats(|rows|, Loads(scan, rows), Skips(scan, rows))
    {
      var size := if batchSize <= 0 then LOAD_BATCH_SIZE else batchSize;
      var batch: seq<(TxHash, TrackedTx)> := [];
      stats := LoadStats(0, 0, 0);
      for i := 0 to |rows|
        invariant Flushed(txids, batch) == Hydrated(old(txids), scan, rows[..i])
        invariant stats.scanned == i && stats.skipped == Skips(scan, rows[..i])
        invariant stats.loaded + |batch| == Loads(scan, rows[..i])
      {
        var row := rows[i];
        assert rows[..i + 1][..i] == rows[..i];
        stats := stats.(scanned := stats.scanned + 1);
        if !Keep(scan, row.status, row.blockHeight) {
          stats := stats.(skipped := stats.skipped + 1);
          continue;
        }
        var hash := PARSE_HASH(row.txid);
        if hash == None {
          continue;
        }
        FlushedLast(txids, batch, (hash.value, TrackedTx(row.status, row.blockHeight)));
        batch := batch + [(hash.value, TrackedTx(row.status, row.blockHeight))];
        if |batch| >= size {
          Flush(batch);
          stats := stats.(loaded := stats.loaded + |batch|);
          batch := [];
        }
      }
      assert rows[..|rows|] == rows;
      Flush(batch);
      stats := stats.(loaded := stats.loaded + |batch|);
    }

    method Flush(batch: seq<(TxHash, TrackedTx)>)
      modifies this
      ensures txids == Flushed(old(txids), batch)
    {
      for i := 0 to |batch|
        invariant txids == Flushed(old(txids), batch[..i])
      {
        assert batch[..i + 1][..i] == batch[..i];
        txids := txids[batch[i].0 := batch[i].1];
      }
      assert batch[..|batch|] == batch;
    }
  }

  /** The tracker after a batch is written to it. */
  function Flushed(txids: map<TxHash, TrackedTx>, batch: seq<(TxHash, TrackedTx)>): map<TxHash, TrackedTx>
  {
    if batch == [] then txids
    else Flushed(txids, batch[..|batch| - 1])[batch[|batch| - 1].0 := batch[|batch| - 1].1]
  }

  lemma FlushedLast(txids: map<TxHash, TrackedTx>, batch: seq<(TxHash, TrackedTx)>, entry: (TxHash, TrackedTx))
    ensures Flushed(txids, batch + [entry]) == Flushed(txids, batch)[entry.0 := entry.1]
  {
    assert (batch + [entry])[..|batch|] == batch;
  }
}
