/** Scanning every block_processing row through height-keyed pages whose ties may come in any order. */
module Paging {
  import opened Prelude

  datatype Row = Row(hash: string, height: U64)

  /** What one listing returns: rows, or the store's error. */
  type Listing = Option<seq<Row>>

  datatype ScanError = BadPageSize | Cancelled | StoreFailed | HandlerFailed | TooManyAtOneHeight

  /** 64k rows at one height is the most a page grows to. */
  const MAX_PAGE := 0x1_0000

  /** The rows below the cursor; 0 is no cursor. */
  ghost function Below(table: set<Row>, before: nat): set<Row>
  {
    set r | r in table && (before == 0 || r.height < before)
  }

  ghost function AtLeast(rows: set<Row>, h: nat): set<Row>
  {
    set r | r in rows && r.height >= h
  }

  /** A page: the highest rows below the cursor, newest first, up to the limit, whichever way ties are broken. */
  ghost predicate IsPage(table: set<Row>, before: nat, limit: nat, rows: seq<Row>)
  {
    && (forall i | 0 <= i < |rows| :: rows[i] in Below(table, before))
    && (forall i, j | 0 <= i < j < |rows| :: rows[i] != rows[j] && rows[i].height >= rows[j].height)
    && |rows| <= limit && (|rows| < limit ==> forall r | r in Below(table, before) :: r in rows)
    && forall r, i | r in Below(table, before) && r !in rows && 0 <= i < |rows| :: r.height <= rows[i].height
  }

  // ----- what a page's last height says about the table

  lemma {:induction false} DistinctSize(rows: seq<Row>, all: set<Row>)
    requires forall i, j | 0 <= i < j < |rows| :: rows[i] != rows[j]
    requires forall r :: r in rows <==> r in all
    ensures |all| == |rows|
  {
    if rows == [] {
      assert all == {};
    } else {
      var last := rows[|rows| - 1];
      assert rows == rows[..|rows| - 1] + [last];
      DistinctSize(rows[..|rows| - 1], all - {last});
    }
  }

  lemma SubsetSize(a: set<Row>, b: set<Row>)
    requires a <= b
    ensures |a| <= |b| && (|a| == |b| ==> a == b)
  {
    var rest := b - a;
    assert b == a + rest;
  }

  /** Fewer than `limit` rows are above h, and at least `limit` are at h or above. */
  ghost predicate IsLast(rows: set<Row>, limit: nat, h: nat)
  {
    |AtLeast(rows, h)| >= limit && |AtLeast(rows, h + 1)| < limit
  }

  lemma LastUnique(rows: set<Row>, limit: nat, g: nat, h: nat)
    requires IsLast(rows, limit, g) && IsLast(rows, limit, h)
    ensures g == h
  {
    if g < h {
      SubsetSize(AtLeast(rows, h), AtLeast(rows, g + 1));
    } else if h < g {
      SubsetSize(AtLeast(rows, g), AtLeast(rows, h + 1));
    }
  }

  /** A full page ends at the height that splits the table at `limit`, and is full exactly when that many rows remain. */
  lemma PageMeasures(table: set<Row>, before: nat, limit: nat, rows: seq<Row>)
    requires IsPage(table, before, limit, rows) && limit > 0
    ensures |rows| == limit <==> |Below(table, before)| >= limit
    ensures |rows| == limit ==> IsLast(Below(table, before), limit, rows[limit - 1].height)
  {
    var all, shown := Below(table, before), set r | r in rows;
    DistinctSize(rows, shown);
    SubsetSize(shown, all);
    if |rows| == limit {
      var last := rows[limit - 1];
      SubsetSize(shown, AtLeast(all, last.height));
      SubsetSize(AtLeast(all, last.height + 1), shown - {last});
    } else {
      assert shown == all;
    }
  }

  // ----- which tables are scanned completely

  ghost predicate HasLast(rows: set<Row>, limit: nat)
  {
    exists h: nat :: IsLast(rows, limit, h)
  }

  /** The height a full page ends at. */
  ghost function LastHeight(rows: set<Row>, limit: nat): (h: nat)
    requires HasLast(rows, limit)
    ensures IsLast(rows, limit, h)
  {
    var h: nat :| IsLast(rows, limit, h);
    h
  }

  /**
   From this cursor and limit the scan comes to a full page that starts above height 0 and ends at it, with rows left
   over: the early return then skips height-0 rows.
   */
  ghost predicate CutAtZero(table: set<Row>, before: nat, limit: nat)
    requires limit > 0
    decreases if before == 0 then U64_SIZE + 1 else before, if limit < MAX_PAGE then MAX_PAGE - limit else 0
  {
    var rows := Below(table, before);
    HasLast(rows, limit) &&
    var h := LastHeight(rows, limit);
    if AtLeast(rows, h + 1) == {} then limit < MAX_PAGE && CutAtZero(table, before, 2 * limit)
    else if h == 0 then |rows| > limit
    else h + 1 < (if before == 0 then U64_SIZE + 1 else before) && CutAtZero(table, h + 1, limit)
  }

  /** What a page in hand says about where pages end. */
  lemma PageEnds(table: set<Row>, before: nat, limit: nat, rows: seq<Row>)
    requires IsPage(table, before, limit, rows) && limit > 0
    ensures var all := Below(table, before);
            && (HasLast(all, limit) <==> |rows| == limit)
            && (|rows| == limit ==>
                  && LastHeight(all, limit) == rows[limit - 1].height
                  && (AtLeast(all, rows[limit - 1].height + 1) == {} <==> rows[0].height == rows[limit - 1].height))
  {
    var all := Below(table, before);
    PageMeasures(table, before, limit, rows);
    if |rows| < limit {
      forall h: nat
        ensures !IsLast(all, limit, h)
      {
        SubsetSize(AtLeast(all, h), all);
      }
    } else {
      var last := rows[limit - 1].height;
      LastUnique(all, limit, LastHeight(all, limit), last);
      assert rows[0] in all;
      assert rows[0].height != last ==> rows[0] in AtLeast(all, last + 1);
    }
  }

  /** The cut, once a page is in hand. */
  lemma CutByPage(table: set<Row>, before: nat, limit: nat, rows: seq<Row>)
    requires IsPage(table, before, limit, rows) && limit > 0 && before <= U64_SIZE
    ensures |rows| < limit ==> !CutAtZero(table, before, limit)
    ensures |rows| == limit && rows[0].height == rows[limit - 1].height ==>
              (CutAtZero(table, before, limit) <==> limit < MAX_PAGE && CutAtZero(table, before, 2 * limit))
    ensures |rows| == limit && rows[0].height != rows[limit - 1].height ==>
              var last := rows[limit - 1].height;
              CutAtZero(table, before, limit) <==>
              if last == 0 then |Below(table, before)| > limit else CutAtZero(table, last + 1, limit)
  {
    PageEnds(table, before, limit, rows);
    if |rows| == limit {
      assert rows[0] in Below(table, before);
    }
  }

  // ----- the scan

  /** Everything at or above both the cursor and `minHeight` has been handed over, and nothing below `minHeight`. */
  ghost predicate ScannedTo(table: set<Row>, minHeight: nat, before: nat, seen: seq<Row>)
  {
    && (forall r | r in seen :: r in table && r.height >= minHeight)
    && forall r | r in table && r !in Below(table, before) && r.height >= minHeight :: r in seen
  }

  /** While rows above height 0 remain, no height-0 row has been handed over. */
  ghost predicate NoZeroYet(table: set<Row>, before: nat, seen: seq<Row>)
  {
    (exists r :: r in Below(table, before) && r.height > 0) ==> forall r | r in seen :: r.height > 0
  }

  ghost predicate Complete(table: set<Row>, minHeight: nat, seen: seq<Row>)
  {
    forall r | r in table && r.height >= minHeight :: r in seen
  }

  /** Hands a page's rows over, newest first, until one is below `minHeight` or is refused. */
  method HandOver(rows: seq<Row>, minHeight: nat, fn: (Row, nat) -> bool, before: seq<Row>)
    returns (err: Option<ScanError>, stop: bool, seen: seq<Row>)
    ensures err.None? ==> exists k ::
              && 0 <= k <= |rows| && seen == before + rows[..k] && (forall i | 0 <= i < k :: rows[i].height >= minHeight)
              && (stop <==> k < |rows|) && (stop ==> rows[k].height < minHeight)
  {
    seen, stop, err := before, false, None;
    for i := 0 to |rows|
      invariant seen == before + rows[..i] && forall k | 0 <= k < i :: rows[k].height >= minHeight
    {
      if rows[i].height < minHeight {
        stop := true;
        return;
      }
      if !fn(rows[i], |seen|) {
        return Some(HandlerFailed), false, seen;
      }
      assert rows[..i + 1] == rows[..i] + [rows[i]];
      seen := seen + [rows[i]];
    }
    assert rows[..|rows|] == rows;
  }

  /**
   Streams the rows at or above `minHeight` through `fn`, newest first. When it returns nil it has handed over every such
   row of height 1 or more and none below `minHeight`; the height-0 rows are complete exactly when the scan is not cut.
   */
  method ForEachBlockProcessing(
    ghost table: set<Row>, minHeight: nat, pageSize: int, list: (nat, nat, nat) -> Listing, cancelled: nat -> bool,
    fn: (Row, nat) -> bool)
    returns (err: Option<ScanError>, seen: seq<Row>)
    requires forall call, before, limit | limit > 0 && list(call, before, limit).Some? ::
               IsPage(table, before, limit, list(call, before, limit).value)
    ensures pageSize <= 0 ==> err == Some(BadPageSize) && seen == []
    ensures err.None? ==> Scanned(table, minHeight, seen, CutAtZero(table, 0, pageSize))
  {
    seen := [];
    if pageSize <= 0 {
      return Some(BadPageSize), seen;
    }
    var before: nat, limit: nat, call: nat, done := 0, pageSize, 0, false;
    while true
      invariant limit > 0 && before <= U64_SIZE && Scanning(table, minHeight, before, seen)
      invariant CutAtZero(table, before, limit) <==> CutAtZero(table, 0, pageSize)
      decreases Cursor(before), Room(limit)
    {
      if cancelled(call) {
        return Some(Cancelled), seen;
      }
      var listing := list(call, before, limit);
      if listing.None? {
        return Some(StoreFailed), seen;
      }
      err, done, before, limit, seen := ScanPage(table, minHeight, before, limit, listing.value, fn, seen);
      if err.Some? || done {
        return;
      }
      call := call + 1;
    }
  }

  ghost function Cursor(before: nat): nat
  {
    if before == 0 then U64_SIZE + 1 else before
  }

  ghost function Room(limit: nat): nat
  {
    if limit < MAX_PAGE then MAX_PAGE - limit else 0
  }

  /** The scan goes on from a new cursor or with a larger page, no nearer to being cut and nearer to its end. */
  ghost predicate GoesOn(
    table: set<Row>, minHeight: nat, before: nat, limit: nat, seen: seq<Row>, before': nat, limit': nat)
    requires limit > 0
  {
    && limit' > 0 && before' <= U64_SIZE && Scanning(table, minHeight, before', seen)
    && (CutAtZero(table, before', limit') <==> CutAtZero(table, before, limit))
    && (Cursor(before') < Cursor(before) || (before' == before && Room(limit') < Room(limit)))
  }

  /** What a finished scan promises, given whether it was cut. */
  ghost predicate Scanned(table: set<Row>, minHeight: nat, seen: seq<Row>, cut: bool)
  {
    && (forall r | r in seen :: r in table && r.height >= minHeight)
    && Complete(table, if minHeight == 0 then 1 else minHeight, seen)
    && (minHeight == 0 ==> (Complete(table, 0, seen) <==> !cut))
  }

  ghost predicate Scanning(table: set<Row>, minHeight: nat, before: nat, seen: seq<Row>)
  {
    ScannedTo(table, minHeight, before, seen) && NoZeroYet(table, before, seen)
  }

  /** Hands one page over, then moves the cursor, grows the page, or is done. */
  method ScanPage(
    ghost table: set<Row>, minHeight: nat, before: nat, limit: nat, rows: seq<Row>, fn: (Row, nat) -> bool, already: seq<Row>)
    returns (err: Option<ScanError>, done: bool, before': nat, limit': nat, seen: seq<Row>)
    requires limit > 0 && before <= U64_SIZE && IsPage(table, before, limit, rows) && Scanning(table, minHeight, before, already)
    ensures err.None? && done ==> Scanned(table, minHeight, seen, CutAtZero(table, before, limit))
    ensures err.None? && !done ==> GoesOn(table, minHeight, before, limit, seen, before', limit')
  {
    err, done, before', limit', seen := None, false, before, limit, already;
    if |rows| == 0 {
      FinalPage(table, minHeight, before, limit, rows, already);
      assert already + rows == already;
      done := true;
      return;
    }
    var stop;
    err, stop, seen := HandOver(rows, minHeight, fn, already);
    if err.Some? {
      return;
    }
    if stop {
      StoppedComplete(table, minHeight, before, limit, rows, already, seen);
      done := true;
      return;
    }
    assert rows[..|rows|] == rows;
    err, done, before', limit' := AfterPage(table, minHeight, before, limit, rows, already);
  }

  /** Where a page that was handed over whole leaves the scan. */
  method AfterPage(
    ghost table: set<Row>, ghost minHeight: nat, before: nat, limit: nat, rows: seq<Row>, ghost already: seq<Row>)
    returns (err: Option<ScanError>, done: bool, before': nat, limit': nat)
    requires limit > 0 && before <= U64_SIZE && IsPage(table, before, limit, rows) && Scanning(table, minHeight, before, already)
    requires |rows| > 0 && forall i | 0 <= i < |rows| :: rows[i].height >= minHeight
    ensures err.None? && done ==> Scanned(table, minHeight, already + rows, CutAtZero(table, before, limit))
    ensures err.None? && !done ==> GoesOn(table, minHeight, before, limit, already + rows, before', limit')
  {
    if |rows| < limit {
      FinalPage(table, minHeight, before, limit, rows, already);
      return None, true, before, limit;
    }
    var last := rows[|rows| - 1].height;
    PageFalls(table, before, limit, rows);
    if rows[0].height == last {
      if limit >= MAX_PAGE {
        return Some(TooManyAtOneHeight), false, before, limit;
      }
      PageGrows(table, minHeight, before, limit, rows, already);
      return None, false, before, 2 * limit;
    }
    if last == 0 {
      ZeroPage(table, minHeight, before, limit, rows, already);
      return None, true, before, limit;
    }
    var next := if last == MAX_U64 then 0 else last + 1;
    CursorMoves(table, minHeight, before, limit, rows, already, last + 1);
    return None, false, next, limit;
  }

  lemma PageFalls(table: set<Row>, before: nat, limit: nat, rows: seq<Row>)
    requires IsPage(table, before, limit, rows) && limit <= |rows| && |rows| > 0
    ensures |rows| == limit && rows[0].height >= rows[|rows| - 1].height
  {
  }

  /** A full page that ends at height 0 ends the scan, cut or not. */
  lemma ZeroPage(table: set<Row>, minHeight: nat, before: nat, limit: nat, rows: seq<Row>, already: seq<Row>)
    requires IsPage(table, before, limit, rows) && |rows| == limit > 0 && before <= U64_SIZE
    requires Scanning(table, minHeight, before, already) && rows[0].height > rows[limit - 1].height == 0
    requires forall i | 0 <= i < |rows| :: rows[i].height >= minHeight
    ensures Scanned(table, minHeight, already + rows, CutAtZero(table, before, limit))
  {
    CutByPage(table, before, limit, rows);
    CutAtZeroRow(table, minHeight, before, limit, rows, already, already + rows);
  }

  lemma FinalPage(table: set<Row>, minHeight: nat, before: nat, limit: nat, rows: seq<Row>, already: seq<Row>)
    requires IsPage(table, before, limit, rows) && |rows| < limit && Scanning(table, minHeight, before, already)
    requires before <= U64_SIZE && forall i | 0 <= i < |rows| :: rows[i].height >= minHeight
    ensures Scanned(table, minHeight, already + rows, CutAtZero(table, before, limit))
  {
    CutByPage(table, before, limit, rows);
    LastPageShowsAll(table, minHeight, before, limit, rows, already);
  }

  lemma LastPageShowsAll(table: set<Row>, minHeight: nat, before: nat, limit: nat, rows: seq<Row>, already: seq<Row>)
    requires IsPage(table, before, limit, rows) && |rows| < limit && Scanning(table, minHeight, before, already)
    requires forall i | 0 <= i < |rows| :: rows[i].height >= minHeight
    ensures Scanned(table, minHeight, already + rows, false)
  {
  }

  lemma PageGrows(table: set<Row>, minHeight: nat, before: nat, limit: nat, rows: seq<Row>, already: seq<Row>)
    requires IsPage(table, before, limit, rows) && Scanning(table, minHeight, before, already)
    requires |rows| == limit > 0 && rows[0].height == rows[|rows| - 1].height && limit < MAX_PAGE && before <= U64_SIZE
    requires forall i | 0 <= i < |rows| :: rows[i].height >= minHeight
    ensures GoesOn(table, minHeight, before, limit, already + rows, before, 2 * limit)
  {
    CutByPage(table, before, limit, rows);
    forall r, i | r in Below(table, before) && r.height > 0 && 0 <= i < |rows|
      ensures rows[i].height > 0
    {
      assert rows[i].height == rows[0].height;
    }
  }

  lemma CursorMoves(table: set<Row>, minHeight: nat, before: nat, limit: nat, rows: seq<Row>, already: seq<Row>, next: nat)
    requires IsPage(table, before, limit, rows) && Scanning(table, minHeight, before, already) && before <= U64_SIZE
    requires |rows| == limit > 0 && rows[0].height > rows[|rows| - 1].height > 0
    requires forall i | 0 <= i < |rows| :: rows[i].height >= minHeight
    requires next == rows[|rows| - 1].height + 1
    ensures next < U64_SIZE && GoesOn(table, minHeight, before, limit, already + rows, next, limit)
  {
    CutByPage(table, before, limit, rows);
    var last := rows[|rows| - 1];
    assert rows[0] in Below(table, before) && last in rows;
    assert rows[0].height > 0;
  }

  lemma StoppedComplete(
    table: set<Row>, minHeight: nat, before: nat, limit: nat, rows: seq<Row>, already: seq<Row>, seen: seq<Row>)
    requires IsPage(table, before, limit, rows) && ScannedTo(table, minHeight, before, already)
    requires exists k ::
               && 0 <= k < |rows| && seen == already + rows[..k] && rows[k].height < minHeight
               && forall i | 0 <= i < k :: rows[i].height >= minHeight
    ensures Scanned(table, minHeight, seen, false)
  {
    var k :| 0 <= k < |rows| && seen == already + rows[..k] && rows[k].height < minHeight &&
             forall i | 0 <= i < k :: rows[i].height >= minHeight;
    forall r | r in table && r.height >= minHeight
      ensures r in seen
    {
      if r in Below(table, before) {
        var i :| 0 <= i < |rows| && rows[i] == r;
        assert i < k && rows[..k][i] == r;
      }
    }
  }

  /** A full page from above height 0 down to it is the last: what it leaves over is at height 0 and never seen. */
  lemma CutAtZeroRow(
    table: set<Row>, minHeight: nat, before: nat, limit: nat, rows: seq<Row>, already: seq<Row>, seen: seq<Row>)
    requires IsPage(table, before, limit, rows) && |rows| == limit > 0 && seen == already + rows
    requires Scanning(table, minHeight, before, already)
    requires rows[0].height > rows[limit - 1].height == 0
    requires forall i | 0 <= i < |rows| :: rows[i].height >= minHeight
    ensures Scanned(table, minHeight, seen, |Below(table, before)| > limit)
  {
    var all, shown := Below(table, before), set r | r in rows;
    DistinctSize(rows, shown);
    SubsetSize(shown, all);
    assert rows[0] in all && rows[limit - 1] in rows;
    if |all| > limit {
      assert all == shown + (all - shown);
      var left :| left in all - shown;
      assert left.height == 0 && left !in already;
    }
  }

  /** One row at height 1 and two at height 0, by pages of two: one of the height-0 rows is never handed over. */
  lemma HeightZeroSkipped()
    ensures var table := {Row("a", 1), Row("b", 0), Row("c", 0)};
            CutAtZero(table, 0, 2) && IsPage(table, 0, 2, [Row("a", 1), Row("b", 0)])
  {
    var table := {Row("a", 1), Row("b", 0), Row("c", 0)};
    var page := [Row("a", 1), Row("b", 0)];
    assert Below(table, 0) == table;
    assert IsPage(table, 0, 2, page);
    CutByPage(table, 0, 2, page);
  }
}
