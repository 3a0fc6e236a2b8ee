/** The replication protocol: one tab streams slices of its log, the desktop copy
    is always a stretch of the storable rows of that log. */
module Replication {
  import opened Lists
  import opened Text
  import opened PeerLog
  import opened PeerLogRuns

  /** The cursor that belongs to the first `n` storable rows. */
  function CursorAt(rows: seq<Row>, n: nat): int
    requires n <= |rows|
  {
    if n == 0 then 0 else rows[n - 1].seqNo
  }

  /** The copy holds storable rows `dropped..n` of the log and its cursor stands after them. */
  ghost predicate HoldsSlice(st: Store, log: seq<Wire>, dropped: nat, n: nat) {
    && dropped <= n <= |Storable(log)|
    && st.rows == Storable(log)[dropped..n]
    && st.cursor == CursorAt(Storable(log), n)
  }

  /** Nothing storable before position `from` lies above `mark`. */
  ghost predicate StartsAtOrBelow(log: seq<Wire>, from: nat, mark: int)
    requires from <= |log|
  {
    AllAtMost(Storable(log[..from]), mark)
  }

  // ── one batch ─────────────────────────────────────────────────────────

  lemma StorablePositive(log: seq<Wire>, i: nat)
    requires i < |Storable(log)|
    ensures Storable(log)[i].seqNo > 0
  {
    FilterMapMember(Normalize, log, Storable(log)[i]);
  }

  /** The storable rows of a slice are a stretch of the storable rows of the log. */
  lemma SliceOfStorable(log: seq<Wire>, from: nat, to: nat)
    requires from <= to <= |log|
    ensures |Storable(log[..from])| <= |Storable(log[..to])| <= |Storable(log)|
    ensures Storable(log[from..to]) == Storable(log)[|Storable(log[..from])|..|Storable(log[..to])|]
    ensures Storable(log[..from]) == Storable(log)[..|Storable(log[..from])|]
  {
    assert log[..to] == log[..from] + log[from..to];
    assert log == log[..to] + log[to..];
    FilterMapAppend(Normalize, log[..from], log[from..to]);
    FilterMapAppend(Normalize, log[..to], log[to..]);
  }

  lemma {:induction false} HighOfAscending(rows: seq<Row>, start: nat)
    requires Ascending(rows) && AllAbove(rows, start)
    ensures High(rows, start) == if rows == [] then start else rows[|rows| - 1].seqNo
  {
    if rows != [] {
      HighOfAscending(rows[..|rows| - 1], start);
    }
  }

  /** `n` is how many of the rows lie at or below the cursor. */
  ghost predicate Splits(rows: seq<Row>, n: nat, cursor: int) {
    n <= |rows| && forall i :: 0 <= i < |rows| ==> (rows[i].seqNo <= cursor <==> i < n)
  }

  lemma CursorSplits(log: seq<Wire>, n: nat)
    requires Ascending(Storable(log)) && n <= |Storable(log)|
    ensures Splits(Storable(log), n, CursorAt(Storable(log), n))
  {
    var rows := Storable(log);
    forall i | 0 <= i < |rows| ensures rows[i].seqNo <= CursorAt(rows, n) <==> i < n {
      StorablePositive(log, i);
    }
  }

  lemma AboveOfSlice(rows: seq<Row>, n: nat, a: nat, b: nat, cursor: int)
    requires Splits(rows, n, cursor) && a <= n && a <= b <= |rows|
    ensures Above(rows[a..b], cursor) == if b > n then rows[n..b] else []
  {
    var part := rows[a..b];
    if b > n {
      FilterSplit(IsAbove(cursor), part, n - a);
      assert part[n - a..] == rows[n..b];
    } else {
      FilterNone(IsAbove(cursor), part);
    }
  }

  lemma HeldSlice(st: Store, rows: seq<Row>, dropped: nat, n: nat)
    requires Ascending(rows) && Splits(rows, n, st.cursor)
    requires dropped <= n && st.rows == rows[dropped..n]
    ensures Ascending(st.rows) && AllAtMost(st.rows, st.cursor)
  {
  }

  lemma SliceAbove(rows: seq<Row>, n: nat, b: nat, cursor: int)
    requires Ascending(rows) && Splits(rows, n, cursor) && n <= b <= |rows|
    ensures Ascending(rows[n..b]) && AllAbove(rows[n..b], cursor)
  {
  }

  lemma SlicesJoin<T>(s: seq<T>, a: nat, b: nat, c: nat)
    requires a <= b <= c <= |s|
    ensures s[a..b] + s[b..c] == s[a..c]
  {
  }

  lemma AppendedIs(st: Store, epoch: string, events: seq<Wire>, added: seq<Row>)
    requires Accepts(st, epoch) && Offered(st, events) == added
    requires Ascending(st.rows) && AllAtMost(st.rows, st.cursor)
    requires Ascending(added) && AllAbove(added, st.cursor)
    ensures Appended(st, epoch, events)
         == Store(st.epoch, if added == [] then st.cursor else added[|added| - 1].seqNo, st.rows + added)
  {
    InsertAllAbove(st.rows, added, st.cursor);
    HighOfAscending(added, st.cursor);
  }

  lemma OfferedSlice(st: Store, rows: seq<Row>, n: nat, a: nat, b: nat, events: seq<Wire>)
    requires Ascending(rows) && Splits(rows, n, st.cursor)
    requires a <= n && a <= b <= |rows| && Storable(Capped(events)) == rows[a..b]
    ensures Offered(st, events) == if b > n then rows[n..b] else []
  {
    AboveOfSlice(rows, n, a, b, st.cursor);
    if b > n {
      SliceAbove(rows, n, b, st.cursor);
      SortBySeqFixed(rows[n..b]);
    }
  }

  /** What an accepted batch adds when its storable rows are `a..b` of the log's and
      the copy holds `dropped..n`. */
  lemma AppendSlice(st: Store, rows: seq<Row>, dropped: nat, n: nat, a: nat, b: nat, epoch: string, events: seq<Wire>)
    requires Ascending(rows) && Splits(rows, n, st.cursor) && Accepts(st, epoch)
    requires dropped <= n && a <= n && a <= b <= |rows|
    requires Storable(Capped(events)) == rows[a..b]
    requires st.rows == rows[dropped..n]
    ensures Appended(st, epoch, events) == if b > n then Store(st.epoch, rows[b - 1].seqNo, rows[dropped..b]) else st
  {
    hide Storable, Capped, Appended, Offered, Accepts;
    OfferedSlice(st, rows, n, a, b, events);
    HeldSlice(st, rows, dropped, n);
    if b > n {
      SliceAbove(rows, n, b, st.cursor);
      AppendedIs(st, epoch, events, rows[n..b]);
      SlicesJoin(rows, dropped, n, b);
    } else {
      AppendedIs(st, epoch, events, []);
    }
  }

  lemma StartRow(log: seq<Wire>, from: nat, i: nat, mark: int)
    requires from <= |log| && i < |Storable(log[..from])| && StartsAtOrBelow(log, from, mark)
    ensures i < |Storable(log)| && Storable(log)[i].seqNo <= mark
  {
    SliceOfStorable(log, from, |log|);
    assert Storable(log)[i] == Storable(log[..from])[i];
  }

  lemma StartIsHeld(log: seq<Wire>, from: nat, n: nat, cursor: int)
    requires from <= |log| && Splits(Storable(log), n, cursor) && StartsAtOrBelow(log, from, cursor)
    ensures |Storable(log[..from])| <= n
  {
    var a := |Storable(log[..from])|;
    SliceOfStorable(log, from, |log|);
    if a > n {
      StartRow(log, from, n, cursor);
    }
  }

  /** Where the storable rows of a batch sit among those of the log. */
  lemma BatchPosition(log: seq<Wire>, from: nat, events: seq<Wire>) returns (a: nat, b: nat)
    requires from + |events| <= |log| && events == log[from..from + |events|]
    ensures a == |Storable(log[..from])| && b == |Storable(log[..from + |Capped(events)|])|
    ensures a <= b <= |Storable(log)|
    ensures Storable(Capped(events)) == Storable(log)[a..b]
  {
    var to := from + |Capped(events)|;
    assert Capped(events) == log[from..to];
    SliceOfStorable(log, from, to);
    a, b := |Storable(log[..from])|, |Storable(log[..to])|;
  }

  /** A batch that starts at or below the cursor extends the copy to the end of the
      (capped) batch, or changes nothing when it ends before the cursor. */
  lemma AppendExtends(st: Store, log: seq<Wire>, dropped: nat, n: nat, epoch: string, from: nat, events: seq<Wire>)
    returns (m: nat)
    requires Ascending(Storable(log)) && HoldsSlice(st, log, dropped, n) && Accepts(st, epoch)
    requires from + |events| <= |log| && events == log[from..from + |events|]
    requires StartsAtOrBelow(log, from, st.cursor)
    ensures HoldsSlice(Appended(st, epoch, events), log, dropped, m)
    ensures var b := |Storable(log[..from + |Capped(events)|])|; m == if b > n then b else n
  {
    hide Appended, Storable, StartsAtOrBelow, Capped;
    var a, b := BatchPosition(log, from, events);
    CursorSplits(log, n);
    StartIsHeld(log, from, n, st.cursor);
    AppendSlice(st, Storable(log), dropped, n, a, b, epoch, events);
    m := if b > n then b else n;
  }

  function IsAtMost(cursor: int): Row -> bool {
    (r: Row) => r.seqNo <= cursor
  }

  /** Seen from outside: the copy is the storable rows at or below its cursor,
      less the oldest ones that trims removed. */
  lemma HeldRowsAreThePrefix(st: Store, log: seq<Wire>, dropped: nat, n: nat)
    requires Ascending(Storable(log)) && HoldsSlice(st, log, dropped, n)
    ensures Filter(IsAtMost(st.cursor), Storable(log)) == Storable(log)[..n]
    ensures st.rows == Filter(IsAtMost(st.cursor), Storable(log))[dropped..]
  {
    CursorSplits(log, n);
    FilterPrefix(IsAtMost(st.cursor), Storable(log), n);
  }

  // ── any accepted batch ────────────────────────────────────────────────

  /** What an accepted batch adds to a copy: its rows above the cursor in the order of their
      addresses, the first of each address. */
  function Gained(st: Store, events: seq<Wire>): seq<Row> {
    InsertAll([], Offered(st, events))
  }

  /** What the batch adds is what the log has next. */
  ghost predicate Continues(st: Store, log: seq<Wire>, events: seq<Wire>) {
    Gained(st, events) <= Above(Storable(log), st.cursor)
  }

  /** Rows above a cursor are inserted behind those at or below it, by themselves. */
  lemma {:induction false} InsertsBehind(rows: seq<Row>, batch: seq<Row>, cursor: int)
    requires AllAtMost(rows, cursor) && Sorted(batch) && AllAbove(batch, cursor)
    ensures InsertAll(rows, batch) == rows + InsertAll([], batch)
    ensures Ascending(InsertAll([], batch)) && AllAbove(InsertAll([], batch), cursor)
    ensures EndsAlike(InsertAll([], batch), batch)
  {
    hide Insert, Ascending, AllAtMost;
    if batch == [] {
      assert rows + [] == rows;
      NothingAscends();
    } else {
      var init, last := batch[..|batch| - 1], batch[|batch| - 1];
      InsertsBehind(rows, init, cursor);
      assert init != [] ==> init[|init| - 1].seqNo <= last.seqNo;
      InsertBehind(rows, InsertAll([], init), last, cursor);
    }
  }

  lemma NothingAscends()
    ensures Ascending([])
  {
  }

  lemma InsertBehind(rows: seq<Row>, d: seq<Row>, r: Row, cursor: int)
    requires AllAtMost(rows, cursor) && Ascending(d) && AllAbove(d, cursor) && r.seqNo > cursor
    requires d != [] ==> d[|d| - 1].seqNo <= r.seqNo
    ensures Insert(rows + d, r) == rows + Insert(d, r)
    ensures Ascending(Insert(d, r)) && AllAbove(Insert(d, r), cursor)
    ensures EndsAlike(Insert(d, r), [r])
  {
    hide Place, Holds, Ascending, AllAtMost, AllAbove;
    HoldsBehind(rows, d, cursor, r.seqNo);
    GrowsByOne(d, r, cursor);
    if !Holds(d, r.seqNo) {
      PlaceBehind([], d, r, cursor);
      PlaceBehind(rows, d, r, cursor);
      assert [] + d == d && [] + (d + [r]) == d + [r];
    }
  }

  lemma GrowsByOne(d: seq<Row>, r: Row, cursor: int)
    requires Ascending(d) && AllAbove(d, cursor) && r.seqNo > cursor
    requires d != [] ==> d[|d| - 1].seqNo <= r.seqNo
    ensures AllAtMost([], cursor) && forall i :: 0 <= i < |d| ==> d[i].seqNo <= r.seqNo
    ensures if Holds(d, r.seqNo) then EndsAlike(d, [r]) else Ascending(d + [r]) && AllAbove(d + [r], cursor)
  {
    if Holds(d, r.seqNo) {
      var i :| 0 <= i < |d| && d[i].seqNo == r.seqNo;
    } else if d != [] {
      assert d[|d| - 1].seqNo < r.seqNo;
    }
  }

  lemma PlaceBehind(rows: seq<Row>, d: seq<Row>, r: Row, cursor: int)
    requires AllAtMost(rows, cursor) && r.seqNo > cursor && forall i :: 0 <= i < |d| ==> d[i].seqNo <= r.seqNo
    ensures Place(rows + d, r) == rows + (d + [r])
  {
    hide Place;
    PlaceLast(rows + d, r);
    ConcatAssoc(rows, d, [r]);
  }

  predicate EndsAlike(d: seq<Row>, batch: seq<Row>) {
    if batch == [] then d == [] else d != [] && d[|d| - 1].seqNo == batch[|batch| - 1].seqNo
  }

  lemma HoldsBehind(rows: seq<Row>, d: seq<Row>, cursor: int, seqNo: int)
    requires AllAtMost(rows, cursor) && seqNo > cursor
    ensures Holds(rows + d, seqNo) <==> Holds(d, seqNo)
  {
    if Holds(d, seqNo) {
      var i :| 0 <= i < |d| && d[i].seqNo == seqNo;
      assert (rows + d)[|rows| + i].seqNo == seqNo;
    }
  }

  lemma {:induction false} HighOfSorted(batch: seq<Row>, start: nat)
    requires Sorted(batch) && AllAbove(batch, start)
    ensures High(batch, start) == if batch == [] then start else batch[|batch| - 1].seqNo
  {
    if batch != [] {
      HighOfSorted(batch[..|batch| - 1], start);
    }
  }

  /** An accepted batch adds its rows behind those of the copy and moves the cursor to the last. */
  lemma AddsGained(st: Store, epoch: string, events: seq<Wire>)
    requires Accepts(st, epoch) && AllAtMost(st.rows, st.cursor)
    ensures var added := Gained(st, events);
      && Ascending(added) && AllAbove(added, st.cursor)
      && Appended(st, epoch, events)
         == Store(st.epoch, if added == [] then st.cursor else added[|added| - 1].seqNo, st.rows + added)
  {
    hide Storable, Offered;
    OfferedAbove(st, events);
    InsertsBehind(st.rows, Offered(st, events), st.cursor);
    HighOfSorted(Offered(st, events), st.cursor);
  }

  /** The rows above the cursor are those that are not held or dropped. */
  lemma RestIsAbove(rows: seq<Row>, n: nat, cursor: int)
    requires Splits(rows, n, cursor)
    ensures Above(rows, cursor) == rows[n..]
  {
    FilterSplit(IsAbove(cursor), rows, n);
  }

  lemma OfferedAbove(st: Store, events: seq<Wire>)
    ensures Sorted(Offered(st, events)) && AllAbove(Offered(st, events), st.cursor)
  {
    hide Storable, SortBySeq;
    SortBySeqSorts(Above(Storable(Capped(events)), st.cursor));
    var batch := Offered(st, events);
    forall i | 0 <= i < |batch| ensures batch[i].seqNo > st.cursor {
      OfferedRows(st, events, batch[i]);
    }
  }

  /** A copy whose cursor stands after `added` new rows holds a longer slice exactly when these
      are the next rows of the log. */
  lemma LongerSliceIff(st: Store, log: seq<Wire>, dropped: nat, n: nat, added: seq<Row>, later: Store)
    requires Ascending(Storable(log)) && HoldsSlice(st, log, dropped, n) && AllAbove(added, st.cursor)
    requires later.rows == st.rows + added
    requires later.cursor == if added == [] then st.cursor else added[|added| - 1].seqNo
    ensures (exists m :: HoldsSlice(later, log, dropped, m)) <==> added <= Storable(log)[n..]
  {
    hide Storable, Ascending;
    var rows := Storable(log);
    CursorSplits(log, n);
    if added <= rows[n..] {
      var m := n + |added|;
      SlicesJoin(rows, dropped, n, m);
      assert rows[n..m] == added;
      assert HoldsSlice(later, log, dropped, m);
    }
    forall m | HoldsSlice(later, log, dropped, m) ensures added <= rows[n..] {
      TailIsNext(rows, dropped, n, m, added, st.cursor);
    }
  }

  lemma TailIsNext(rows: seq<Row>, dropped: nat, n: nat, m: nat, added: seq<Row>, cursor: int)
    requires dropped <= n <= |rows| && dropped <= m <= |rows| && rows[dropped..m] == rows[dropped..n] + added
    ensures added <= rows[n..]
  {
    assert m == n + |added|;
    forall i | 0 <= i < |added| ensures added[i] == rows[n..][i] {
      assert added[i] == rows[dropped..m][n - dropped + i];
    }
  }

  /** Exactly when one accepted batch, whatever is in it, keeps the copy a stretch of a log: what
      it adds is what that log has next. */
  lemma BatchFaithfulIff(st: Store, log: seq<Wire>, dropped: nat, n: nat, epoch: string, events: seq<Wire>)
    requires Ascending(Storable(log)) && HoldsSlice(st, log, dropped, n) && Accepts(st, epoch)
    ensures (exists m :: HoldsSlice(Appended(st, epoch, events), log, dropped, m)) <==> Continues(st, log, events)
  {
    hide Storable, Appended, Gained, HoldsSlice, Ascending, AllAbove, AllAtMost, Splits;
    var rows, added := Storable(log), Gained(st, events);
    HoldsIs(st, log, dropped, n);
    CursorSplits(log, n);
    HeldSlice(st, rows, dropped, n);
    AddsGained(st, epoch, events);
    RestIsAbove(rows, n, st.cursor);
    LongerSliceIff(st, log, dropped, n, added, Appended(st, epoch, events));
  }

  lemma HoldsIs(st: Store, log: seq<Wire>, dropped: nat, n: nat)
    requires HoldsSlice(st, log, dropped, n)
    ensures dropped <= n <= |Storable(log)| && st.rows == Storable(log)[dropped..n]
    ensures st.cursor == CursorAt(Storable(log), n)
  {
  }

  /** Exactly when one accepted slice of the log itself keeps the copy faithful: it starts at or
      below the cursor, or it has nothing to store. */
  lemma AppendFaithfulIff(st: Store, log: seq<Wire>, dropped: nat, n: nat, epoch: string, from: nat, events: seq<Wire>)
    requires Ascending(Storable(log)) && HoldsSlice(st, log, dropped, n) && Accepts(st, epoch)
    requires from + |events| <= |log| && events == log[from..from + |events|]
    ensures (exists m :: HoldsSlice(Appended(st, epoch, events), log, dropped, m))
       <==> StartsAtOrBelow(log, from, st.cursor) || Storable(Capped(events)) == []
  {
    hide Storable, Appended, Gained, HoldsSlice, Ascending, Capped, StartsAtOrBelow;
    if StartsAtOrBelow(log, from, st.cursor) {
      var m := AppendExtends(st, log, dropped, n, epoch, from, events);
    } else {
      var rows := Storable(log);
      var a, b := BatchPosition(log, from, events);
      HoldsIs(st, log, dropped, n);
      CursorSplits(log, n);
      StartsAbove(log, from, n, st.cursor);
      SliceBehind(st, rows, n, a, b, events);
      BatchFaithfulIff(st, log, dropped, n, epoch, events);
    }
  }

  lemma StartsAbove(log: seq<Wire>, from: nat, n: nat, cursor: int)
    requires from <= |log| && Splits(Storable(log), n, cursor) && !StartsAtOrBelow(log, from, cursor)
    ensures |Storable(log[..from])| > n
  {
    var before := Storable(log[..from]);
    var i :| 0 <= i < |before| && before[i].seqNo > cursor;
    SliceOfStorable(log, from, |log|);
    assert Storable(log)[i] == before[i];
  }

  /** A slice that starts behind the next row continues the log only when it is empty. */
  lemma SliceBehind(st: Store, rows: seq<Row>, n: nat, a: nat, b: nat, events: seq<Wire>)
    requires Ascending(rows) && Splits(rows, n, st.cursor) && n < a <= b <= |rows|
    requires Storable(Capped(events)) == rows[a..b]
    ensures Gained(st, events) <= Above(rows, st.cursor) <==> rows[a..b] == []
  {
    hide Storable, Capped, Filter, Gained, Splits;
    GainsAll(st, events, rows, n, a, b);
    RestIsAbove(rows, n, st.cursor);
    if a < b {
      assert rows[a..b][0] == rows[a] && rows[n..][0] == rows[n];
    }
  }

  lemma GainsAll(st: Store, events: seq<Wire>, rows: seq<Row>, n: nat, a: nat, b: nat)
    requires Ascending(rows) && Splits(rows, n, st.cursor) && n <= a <= b <= |rows|
    requires Storable(Capped(events)) == rows[a..b]
    ensures Gained(st, events) == rows[a..b]
  {
    hide Storable, Capped, Ascending, Splits;
    PartIsAbove(rows, n, a, b, st.cursor);
    FilterAll(IsAbove(st.cursor), rows[a..b]);
    SortBySeqFixed(rows[a..b]);
    InsertAllAbove([], rows[a..b], st.cursor);
    assert [] + rows[a..b] == rows[a..b];
  }

  lemma PartIsAbove(rows: seq<Row>, n: nat, a: nat, b: nat, cursor: int)
    requires Ascending(rows) && Splits(rows, n, cursor) && n <= a <= b <= |rows|
    ensures Ascending([]) && Ascending(rows[a..b]) && AllAbove(rows[a..b], cursor)
  {
  }

  /** A batch whose storable rows all lie above the cursor is appended as it is. */
  lemma AddsAll(st: Store, epoch: string, events: seq<Wire>, added: seq<Row>)
    requires Accepts(st, epoch) && Storable(Capped(events)) == added
    requires Ascending(st.rows) && AllAtMost(st.rows, st.cursor)
    requires Ascending(added) && AllAbove(added, st.cursor)
    ensures Appended(st, epoch, events)
         == Store(st.epoch, if added == [] then st.cursor else added[|added| - 1].seqNo, st.rows + added)
  {
    hide Storable, Capped, Appended, SortBySeq;
    FilterAll(IsAbove(st.cursor), added);
    SortBySeqFixed(added);
    AppendedIs(st, epoch, events, added);
  }
}
