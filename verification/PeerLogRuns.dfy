/** What the copy keeps over every run of handshakes, appends and trims. */
module PeerLogRuns {
  import opened Lists
  import opened Text
  import opened PeerLog

  ghost predicate Sorted(rows: seq<Row>) {
    forall i, j :: 0 <= i < j < |rows| ==> rows[i].seqNo <= rows[j].seqNo
  }

  ghost predicate AllAbove(rows: seq<Row>, cursor: int) {
    forall i :: 0 <= i < |rows| ==> rows[i].seqNo > cursor
  }

  ghost predicate AllAtMost(rows: seq<Row>, cursor: int) {
    forall i :: 0 <= i < |rows| ==> rows[i].seqNo <= cursor
  }

  // ── sorting and insertion ─────────────────────────────────────────────

  /** Where a row lands: after everything at or below its address. */
  lemma {:induction false} PlaceSplits(rows: seq<Row>, r: Row) returns (k: nat)
    requires Sorted(rows)
    ensures k <= |rows| && Place(rows, r) == rows[..k] + [r] + rows[k..]
    ensures forall i :: 0 <= i < k ==> rows[i].seqNo <= r.seqNo
    ensures forall i :: k <= i < |rows| ==> r.seqNo < rows[i].seqNo
  {
    if rows == [] || r.seqNo < rows[0].seqNo {
      k := 0;
    } else {
      var tail := rows[1..];
      k := PlaceSplits(tail, r);
      assert forall i :: 0 < i < |rows| ==> rows[i] == tail[i - 1];
      assert rows[..k + 1] == [rows[0]] + tail[..k] && rows[k + 1..] == tail[k..];
      k := k + 1;
    }
  }

  lemma {:induction false} PlaceMembers(rows: seq<Row>, r: Row)
    ensures multiset(Place(rows, r)) == multiset(rows) + multiset{r}
  {
    if rows != [] && r.seqNo >= rows[0].seqNo {
      var tail := rows[1..];
      PlaceMembers(tail, r);
      assert rows == [rows[0]] + tail && Place(rows, r) == [rows[0]] + Place(tail, r);
    }
  }

  lemma {:induction false} PlaceLast(rows: seq<Row>, r: Row)
    requires forall i :: 0 <= i < |rows| ==> rows[i].seqNo <= r.seqNo
    ensures Place(rows, r) == rows + [r]
  {
    if rows != [] {
      PlaceLast(rows[1..], r);
    }
  }

  lemma SplicedAt(rows: seq<Row>, r: Row, k: nat, i: nat)
    requires k <= |rows| && i <= |rows|
    ensures (rows[..k] + [r] + rows[k..])[i] == if i < k then rows[i] else if i == k then r else rows[i - 1]
  {
  }

  lemma PlaceSorted(rows: seq<Row>, r: Row)
    requires Sorted(rows)
    ensures Sorted(Place(rows, r))
    ensures Ascending(rows) && !Holds(rows, r.seqNo) ==> Ascending(Place(rows, r))
  {
    hide Place;
    var k := PlaceSplits(rows, r);
    var out := Place(rows, r);
    forall i, j | 0 <= i < j < |out|
      ensures out[i].seqNo <= out[j].seqNo
      ensures Ascending(rows) && !Holds(rows, r.seqNo) ==> out[i].seqNo < out[j].seqNo
    {
      SplicedAt(rows, r, k, i);
      SplicedAt(rows, r, k, j);
    }
  }

  /** `sort` orders by address and only rearranges. */
  lemma {:induction false} SortBySeqSorts(rows: seq<Row>)
    ensures Sorted(SortBySeq(rows))
    ensures multiset(SortBySeq(rows)) == multiset(rows)
  {
    if rows != [] {
      var init, last := rows[..|rows| - 1], rows[|rows| - 1];
      assert rows == init + [last];
      SortBySeqSorts(init);
      PlaceSorted(SortBySeq(init), last);
      PlaceMembers(SortBySeq(init), last);
    }
  }

  lemma SameMembers<T>(a: seq<T>, b: seq<T>, x: T)
    requires multiset(a) == multiset(b)
    ensures x in a <==> x in b
  {
    assert x in a <==> x in multiset(a);
    assert x in b <==> x in multiset(b);
  }

  /** A sorted list is its own sort. */
  lemma {:induction false} SortBySeqFixed(rows: seq<Row>)
    requires Ascending(rows)
    ensures SortBySeq(rows) == rows
  {
    if rows != [] {
      var init, last := rows[..|rows| - 1], rows[|rows| - 1];
      SortBySeqFixed(init);
      PlaceLast(init, last);
    }
  }

  lemma PlaceHolds(rows: seq<Row>, r: Row, x: Row)
    requires Sorted(rows)
    ensures x in Place(rows, r) <==> x in rows || x == r
    ensures Holds(Place(rows, r), r.seqNo)
  {
    hide Place;
    var k := PlaceSplits(rows, r);
    assert rows == rows[..k] + rows[k..];
    SplicedAt(rows, r, k, k);
  }

  lemma InsertKeeps(rows: seq<Row>, r: Row, x: Row)
    requires Ascending(rows)
    ensures Ascending(Insert(rows, r))
    ensures x in Insert(rows, r) ==> x in rows || x == r
    ensures x in rows ==> x in Insert(rows, r)
    ensures Holds(Insert(rows, r), r.seqNo)
  {
    hide Place;
    if !Holds(rows, r.seqNo) {
      PlaceSorted(rows, r);
      PlaceHolds(rows, r, x);
    }
  }

  lemma {:induction false} InsertAllKeeps(rows: seq<Row>, batch: seq<Row>, x: Row)
    requires Ascending(rows)
    ensures Ascending(InsertAll(rows, batch))
    ensures x in InsertAll(rows, batch) ==> x in rows || x in batch
    ensures x in rows ==> x in InsertAll(rows, batch)
  {
    if batch != [] {
      var init, last := batch[..|batch| - 1], batch[|batch| - 1];
      InsertAllKeeps(rows, init, x);
      InsertKeeps(InsertAll(rows, init), last, x);
      assert batch == init + [last];
    }
  }

  /** New rows above everything stored are appended as they are. */
  lemma {:induction false} InsertAllAbove(rows: seq<Row>, batch: seq<Row>, cursor: int)
    requires Ascending(rows) && AllAtMost(rows, cursor)
    requires Ascending(batch) && AllAbove(batch, cursor)
    ensures InsertAll(rows, batch) == rows + batch
    ensures Ascending(rows + batch)
  {
    if batch == [] {
      assert rows + batch == rows;
    } else {
      var init, last := batch[..|batch| - 1], batch[|batch| - 1];
      InsertAllAbove(rows, init, cursor);
      var all := rows + init;
      forall i | 0 <= i < |all| ensures all[i].seqNo < last.seqNo {
        if i >= |rows| {
          assert all[i] == batch[i - |rows|];
        }
      }
      PlaceLast(all, last);
      assert all + [last] == rows + batch;
    }
  }

  lemma {:induction false} HighBounds(rows: seq<Row>, start: nat)
    ensures AllAtMost(rows, High(rows, start))
    ensures High(rows, start) == start || exists i :: 0 <= i < |rows| && rows[i].seqNo == High(rows, start)
  {
    if rows != [] {
      HighBounds(rows[..|rows| - 1], start);
    }
  }

  lemma {:induction false} FilterKeepsAscending(p: Row -> bool, rows: seq<Row>)
    requires Ascending(rows)
    ensures Ascending(Filter(p, rows))
    ensures forall x :: x in Filter(p, rows) ==> x in rows
  {
    if rows != [] {
      var init, last := rows[..|rows| - 1], rows[|rows| - 1];
      FilterKeepsAscending(p, init);
      assert rows == init + [last];
      forall x | x in Filter(p, init) ensures x.seqNo < last.seqNo {
        var i :| 0 <= i < |init| && init[i] == x;
        assert rows[i] == x;
      }
    }
  }

  lemma OfferedRows(st: Store, events: seq<Wire>, x: Row)
    requires x in Offered(st, events)
    ensures x.seqNo > st.cursor && x in Storable(Capped(events))
    ensures exists w :: w in Capped(events) && Normalize(w) == Some(x)
  {
    var above := Above(Storable(Capped(events)), st.cursor);
    SortBySeqSorts(above);
    SameMembers(above, SortBySeq(above), x);
    FilterMember(IsAbove(st.cursor), Storable(Capped(events)), x);
    FilterMapMember(Normalize, Capped(events), x);
  }

  // ── the store invariant ───────────────────────────────────────────────

  ghost predicate Valid(st: Store) {
    && Ascending(st.rows)
    && AllAtMost(st.rows, st.cursor)
    && (forall i :: 0 <= i < |st.rows| ==> st.rows[i].seqNo > 0)
    && (st.epoch == None ==> st == EMPTY)
  }

  lemma AppendedValid(st: Store, epoch: string, events: seq<Wire>)
    requires Valid(st)
    ensures Valid(Appended(st, epoch, events))
    ensures Appended(st, epoch, events).cursor >= st.cursor
  {
    if Accepts(st, epoch) {
      var batch := Offered(st, events);
      var after := InsertAll(st.rows, batch);
      var high := High(batch, st.cursor);
      HighBounds(batch, st.cursor);
      forall i | 0 <= i < |after| ensures 0 < after[i].seqNo <= high {
        InsertAllKeeps(st.rows, batch, after[i]);
        if after[i] !in st.rows {
          OfferedRows(st, events, after[i]);
        }
      }
      InsertAllKeeps(st.rows, batch, Row(0, "", "", None, None, None, "", Note));
    }
  }

  /** A trim keeps exactly the newest `floor(3n/4) - 1` rows and the cursor. */
  lemma TrimKeepsNewest(st: Store)
    requires Valid(st) && |st.rows| >= 2
    ensures var keep := 3 * |st.rows| / 4 - 1;
      Trimmed(st, true) == st.(rows := st.rows[|st.rows| - keep..])
  {
    var n := |st.rows|;
    var keep := 3 * n / 4;
    FilterSplit(IsAbove(st.rows[n - keep].seqNo), st.rows, n - keep + 1);
  }

  /** With fewer than two rows there is nothing to trim. */
  lemma TrimLeavesTiny(st: Store, oversized: bool)
    requires !oversized || |st.rows| < 2
    ensures Trimmed(st, oversized) == st
  {
  }

  lemma TrimmedValid(st: Store, oversized: bool)
    requires Valid(st)
    ensures Valid(Trimmed(st, oversized))
  {
    if oversized && |st.rows| >= 2 {
      TrimKeepsNewest(st);
    }
  }

  // ── runs ──────────────────────────────────────────────────────────────

  datatype Op =
    | Handshake(name: string, max: Option<int>)
    | Append(name: string, events: seq<Wire>, oversized: bool)

  /** One call on the copy; a handshake with a blank epoch is an error and changes nothing. */
  function Step(st: Store, op: Op): Store {
    match op
    case Handshake(name, max) => if Trim(name) == "" then st else Handshaken(st, Trim(name), max)
    case Append(name, events, oversized) => Trimmed(Appended(st, name, events), oversized)
  }

  function Run(st: Store, ops: seq<Op>): Store {
    if ops == [] then st else Step(Run(st, ops[..|ops| - 1]), ops[|ops| - 1])
  }

  predicate Clears(st: Store, op: Op) {
    op.Handshake? && Trim(op.name) != "" && Resets(st, Trim(op.name), op.max)
  }

  lemma StepValid(st: Store, op: Op)
    requires Valid(st)
    ensures Valid(Step(st, op))
  {
    if op.Append? {
      AppendedValid(st, op.name, op.events);
      TrimmedValid(Appended(st, op.name, op.events), op.oversized);
    }
  }

  /** Over every run the rows stay strictly ascending and at or below the cursor,
      and nothing is stored before a first epoch. */
  lemma {:induction false} RunKeepsValid(st: Store, ops: seq<Op>)
    requires Valid(st)
    ensures Valid(Run(st, ops))
  {
    if ops != [] {
      RunKeepsValid(st, ops[..|ops| - 1]);
      StepValid(Run(st, ops[..|ops| - 1]), ops[|ops| - 1]);
    }
  }

  /** No call from position `from` on clears the copy. */
  ghost predicate NoClear(st: Store, ops: seq<Op>, from: nat) {
    |ops| <= from
    || (NoClear(st, ops[..|ops| - 1], from) && !Clears(Run(st, ops[..|ops| - 1]), ops[|ops| - 1]))
  }

  /** The call `k` stored `r`, and no call after it cleared the copy. */
  ghost predicate CameFrom(st: Store, ops: seq<Op>, k: nat, r: Row) {
    && k < |ops| && ops[k].Append?
    && Run(st, ops).epoch == Some(ops[k].name)
    && (exists w :: w in Capped(ops[k].events) && Normalize(w) == Some(r))
    && NoClear(st, ops, k + 1)
  }

  lemma StepRows(st: Store, op: Op, r: Row)
    requires Valid(st) && r in Step(st, op).rows
    ensures r in st.rows || (op.Append? && Accepts(st, op.name) && r in Offered(st, op.events))
    ensures r in st.rows ==> !Clears(st, op)
  {
    if op.Append? {
      var mid := Appended(st, op.name, op.events);
      AppendedValid(st, op.name, op.events);
      if op.oversized && |mid.rows| >= 2 {
        TrimKeepsNewest(mid);
      }
      assert r in mid.rows;
      if Accepts(st, op.name) {
        InsertAllKeeps(st.rows, Offered(st, op.events), r);
      }
    }
  }

  lemma CameFromStill(ops: seq<Op>, k: nat, r: Row)
    requires ops != [] && CameFrom(EMPTY, ops[..|ops| - 1], k, r)
    requires Run(EMPTY, ops).epoch == Run(EMPTY, ops[..|ops| - 1]).epoch
    requires !Clears(Run(EMPTY, ops[..|ops| - 1]), ops[|ops| - 1])
    ensures CameFrom(EMPTY, ops, k, r)
  {
  }

  lemma KeptEpoch(st: Store, op: Op, r: Row)
    requires Valid(st) && r in st.rows && r in Step(st, op).rows
    ensures Step(st, op).epoch == st.epoch
  {
    StepRows(st, op, r);
  }

  lemma StoredNow(ops: seq<Op>, r: Row)
    requires ops != [] && ops[|ops| - 1].Append?
    requires var st := Run(EMPTY, ops[..|ops| - 1]);
      Accepts(st, ops[|ops| - 1].name) && r in Offered(st, ops[|ops| - 1].events)
    ensures CameFrom(EMPTY, ops, |ops| - 1, r)
  {
    OfferedRows(Run(EMPTY, ops[..|ops| - 1]), ops[|ops| - 1].events, r);
  }

  /** Every stored row is one that an accepted batch of the current epoch carried
      since the last reset. */
  lemma {:induction false} RowsComeFromTheEpoch(ops: seq<Op>, r: Row)
    requires r in Run(EMPTY, ops).rows
    ensures exists k: nat :: CameFrom(EMPTY, ops, k, r)
  {
    if ops != [] {
      var init, last := ops[..|ops| - 1], ops[|ops| - 1];
      var st := Run(EMPTY, init);
      RunKeepsValid(EMPTY, init);
      StepRows(st, last, r);
      if r in st.rows {
        RowsComeFromTheEpoch(init, r);
        var k: nat :| CameFrom(EMPTY, init, k, r);
        KeptEpoch(st, last, r);
        CameFromStill(ops, k, r);
      } else {
        StoredNow(ops, r);
      }
    }
  }

  lemma StepKeepsAway(st: Store, op: Op, seqNo: int)
    requires Valid(st) && st.epoch.Some? && !Clears(st, op)
    requires seqNo <= st.cursor && !Holds(st.rows, seqNo)
    ensures Step(st, op).cursor >= st.cursor && Step(st, op).epoch == st.epoch
    ensures !Holds(Step(st, op).rows, seqNo)
  {
    if op.Append? {
      AppendedValid(st, op.name, op.events);
    }
    forall i | 0 <= i < |Step(st, op).rows| ensures Step(st, op).rows[i].seqNo != seqNo {
      var r := Step(st, op).rows[i];
      StepRows(st, op, r);
      if r !in st.rows {
        OfferedRows(st, op.events, r);
      }
    }
  }

  /** Whatever is at or below the cursor and not stored, a trimmed row in
      particular, stays away until a reset, however often it is sent again. */
  lemma {:induction false} TrimmedRowsStayAway(st: Store, ops: seq<Op>, seqNo: int)
    requires Valid(st) && st.epoch.Some? && NoClear(st, ops, 0)
    requires seqNo <= st.cursor && !Holds(st.rows, seqNo)
    ensures Run(st, ops).cursor >= st.cursor
    ensures Run(st, ops).epoch == st.epoch
    ensures !Holds(Run(st, ops).rows, seqNo)
  {
    if ops != [] {
      var init, last := ops[..|ops| - 1], ops[|ops| - 1];
      TrimmedRowsStayAway(st, init, seqNo);
      RunKeepsValid(st, init);
      StepKeepsAway(Run(st, init), last, seqNo);
    }
  }
}
