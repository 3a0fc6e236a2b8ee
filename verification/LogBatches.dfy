/** One ascending row list may be cut into batches anywhere and any sent batch may be
    repeated: the copy and the total of inserted rows come out the same. */
module LogBatches {
  import opened Lists
  import opened Text
  import opened PeerLog
  import opened PeerLogRuns
  import opened Replication

  /** The rows of the first `k` batches, put together. */
  function Joined(blocks: seq<seq<Wire>>, k: nat): seq<Wire>
    requires k <= |blocks|
  {
    if k == 0 then [] else Joined(blocks, k - 1) + blocks[k - 1]
  }

  /** How many different batches a schedule has delivered. */
  function Reached(schedule: seq<nat>): nat {
    if schedule == [] then 0
    else
      var before := Reached(schedule[..|schedule| - 1]);
      if schedule[|schedule| - 1] == before then before + 1 else before
  }

  /** Each delivery is the next new batch or one sent before. */
  predicate Orderly(schedule: seq<nat>, blocks: nat) {
    schedule == []
    || (&& Orderly(schedule[..|schedule| - 1], blocks)
        && schedule[|schedule| - 1] <= Reached(schedule[..|schedule| - 1])
        && schedule[|schedule| - 1] < blocks)
  }

  datatype Fed = Fed(st: Store, inserted: int)

  function Feed(st: Store, epoch: string, blocks: seq<seq<Wire>>, schedule: seq<nat>): Fed
    requires Orderly(schedule, |blocks|)
  {
    if schedule == [] then Fed(st, 0)
    else
      var before := Feed(st, epoch, blocks, schedule[..|schedule| - 1]);
      var after := Appended(before.st, epoch, blocks[schedule[|schedule| - 1]]);
      Fed(after, before.inserted + |after.rows| - |before.st.rows|)
  }

  /** The address a cursor at `start` moves to over new ascending rows. */
  function LastSeq(rows: seq<Row>, start: nat): nat {
    if rows == [] then start
    else if rows[|rows| - 1].seqNo < 0 then 0
    else rows[|rows| - 1].seqNo
  }

  /** The rows of a list that a copy does not have yet. */
  function New(st: Store, list: seq<Wire>): seq<Row> {
    Above(Storable(list), st.cursor)
  }

  /** The copy after a list of rows, as a function of the list alone. */
  function Extended(st: Store, list: seq<Wire>): Store {
    Store(st.epoch, LastSeq(New(st, list), st.cursor), st.rows + New(st, list))
  }

  /** The list may begin with rows that are stored, or were trimmed, already. */
  ghost predicate Ready(st: Store, epoch: string, list: seq<Wire>) {
    Valid(st) && Accepts(st, epoch) && Ascending(Storable(list))
  }

  lemma {:induction false} ReachedBound(schedule: seq<nat>, blocks: nat)
    requires Orderly(schedule, blocks)
    ensures Reached(schedule) <= blocks
  {
    if schedule != [] {
      ReachedBound(schedule[..|schedule| - 1], blocks);
    }
  }

  lemma {:induction false} JoinedPrefix(blocks: seq<seq<Wire>>, j: nat, k: nat)
    requires j <= k <= |blocks|
    ensures Joined(blocks, j) <= Joined(blocks, k)
  {
    if j < k {
      JoinedPrefix(blocks, j, k - 1);
    }
  }

  lemma StorablePrefix(a: seq<Wire>, b: seq<Wire>)
    requires a <= b
    ensures Storable(a) <= Storable(b)
  {
    assert b == a + b[|a|..];
    FilterMapAppend(Normalize, a, b[|a|..]);
  }

  lemma PrefixAscending(a: seq<Row>, b: seq<Row>)
    requires a <= b && Ascending(b)
    ensures Ascending(a)
  {
  }

  lemma NewAppend(st: Store, a: seq<Wire>, b: seq<Wire>)
    ensures New(st, a + b) == New(st, a) + New(st, b)
  {
    StorableAppend(a, b);
    FilterAppend(IsAbove(st.cursor), Storable(a), Storable(b));
  }

  lemma NewAscends(st: Store, list: seq<Wire>)
    requires Ascending(Storable(list))
    ensures Ascending(New(st, list)) && AllAbove(New(st, list), st.cursor)
  {
    hide Storable;
    FilterKeepsAscending(IsAbove(st.cursor), Storable(list));
    var rows := New(st, list);
    forall i | 0 <= i < |rows| ensures rows[i].seqNo > st.cursor {
      FilterMember(IsAbove(st.cursor), Storable(list), rows[i]);
    }
  }

  lemma ExtendedValid(st: Store, list: seq<Wire>, epoch: string)
    requires Ready(st, epoch, list)
    ensures Ascending(Extended(st, list).rows) && AllAtMost(Extended(st, list).rows, Extended(st, list).cursor)
    ensures AllAtMost(Storable(list), Extended(st, list).cursor)
    ensures Extended(st, list).epoch == st.epoch
  {
    hide Storable;
    NewAscends(st, list);
    InsertAllAbove(st.rows, New(st, list), st.cursor);
    NewIsHigher(Storable(list), st.cursor);
  }

  lemma NewIsHigher(rows: seq<Row>, cursor: nat)
    requires Ascending(Above(rows, cursor)) && AllAbove(Above(rows, cursor), cursor)
    ensures AllAtMost(rows, LastSeq(Above(rows, cursor), cursor))
    ensures AllAtMost(Above(rows, cursor), LastSeq(Above(rows, cursor), cursor))
  {
    forall i | 0 <= i < |rows| ensures rows[i].seqNo <= LastSeq(Above(rows, cursor), cursor) {
      FilterMember(IsAbove(cursor), rows, rows[i]);
      if rows[i].seqNo > cursor {
        var above := Above(rows, cursor);
        var j :| 0 <= j < |above| && above[j] == rows[i];
      }
    }
  }

  /** The rows of the next batch that are above the cursor it meets are those that were above the
      cursor at the start. */
  lemma SameAbove(a: seq<Row>, b: seq<Row>, cursor: nat)
    requires Ascending(a + b)
    ensures Above(b, LastSeq(Above(a, cursor), cursor)) == Above(b, cursor)
  {
    var held := Above(a, cursor);
    if held != [] {
      var x := held[|held| - 1];
      FilterMember(IsAbove(cursor), a, x);
      var i :| 0 <= i < |a| && a[i] == x;
      forall j | 0 <= j < |b| ensures b[j].seqNo > x.seqNo {
        assert (a + b)[i] == x && (a + b)[|a| + j] == b[j];
      }
      FilterAll(IsAbove(x.seqNo), b);
      FilterAll(IsAbove(cursor), b);
    }
  }

  lemma StorableAppend(a: seq<Wire>, b: seq<Wire>)
    ensures Storable(a + b) == Storable(a) + Storable(b)
  {
    FilterMapAppend(Normalize, a, b);
  }

  lemma OfferedNew(st: Store, list: seq<Wire>, block: seq<Wire>)
    requires Ascending(Storable(list) + Storable(block)) && |block| <= MAX_BATCH_ROWS
    requires Ascending(Storable(block))
    ensures Offered(Extended(st, list), block) == New(st, block)
  {
    hide Storable, SortBySeq;
    SameAbove(Storable(list), Storable(block), st.cursor);
    FilterKeepsAscending(IsAbove(st.cursor), Storable(block));
    SortBySeqFixed(New(st, block));
  }

  lemma ExtendedTwice(st: Store, list: seq<Wire>, block: seq<Wire>)
    requires AllAbove(New(st, list), st.cursor)
    ensures Extended(st, list + block)
         == Store(st.epoch, LastSeq(New(st, block), Extended(st, list).cursor), Extended(st, list).rows + New(st, block))
  {
    hide New, LastSeq;
    NewAppend(st, list, block);
    ConcatAssoc(st.rows, New(st, list), New(st, block));
    LastSeqTwice(New(st, list), New(st, block), st.cursor);
  }

  lemma LastSeqTwice(a: seq<Row>, b: seq<Row>, start: nat)
    requires AllAbove(a, start)
    ensures LastSeq(b, LastSeq(a, start)) == LastSeq(a + b, start)
  {
  }

  /** The next new batch extends the copy. */
  lemma NewBatch(st: Store, epoch: string, list: seq<Wire>, block: seq<Wire>)
    requires Ready(st, epoch, list + block) && |block| <= MAX_BATCH_ROWS
    ensures Appended(Extended(st, list), epoch, block) == Extended(st, list + block)
  {
    hide Storable, Extended, Offered, New, Appended, LastSeq;
    var now := Extended(st, list);
    StorableAppend(list, block);
    PrefixAscending(Storable(list), Storable(list) + Storable(block));
    ExtendedValid(st, list, epoch);
    NewAscends(st, list);
    TailAscends(st, list, block);
    OfferedNew(st, list, block);
    AppendedIs(now, epoch, block, New(st, block));
    ExtendedTwice(st, list, block);
    LastSeqIs(New(st, block), now.cursor);
  }

  lemma LastSeqIs(rows: seq<Row>, start: nat)
    requires AllAbove(rows, start)
    ensures LastSeq(rows, start) == if rows == [] then start else rows[|rows| - 1].seqNo
  {
  }

  lemma TailAscends(st: Store, list: seq<Wire>, block: seq<Wire>)
    requires Ascending(Storable(list) + Storable(block))
    ensures Ascending(Storable(block))
    ensures Ascending(New(st, block)) && AllAbove(New(st, block), Extended(st, list).cursor)
  {
    hide Storable;
    var a, b := Storable(list), Storable(block);
    forall i, j | 0 <= i < j < |b| ensures b[i].seqNo < b[j].seqNo {
      assert (a + b)[|a| + i] == b[i] && (a + b)[|a| + j] == b[j];
    }
    NewAscends(st, block);
    SameAbove(a, b, st.cursor);
    var rows, cursor := New(st, block), Extended(st, list).cursor;
    forall i | 0 <= i < |rows| ensures rows[i].seqNo > cursor {
      FilterMember(IsAbove(cursor), b, rows[i]);
    }
  }

  /** A batch that was sent before changes nothing. */
  lemma OldBatch(st: Store, epoch: string, block: seq<Wire>)
    requires Accepts(st, epoch) && |block| <= MAX_BATCH_ROWS
    requires AllAtMost(Storable(block), st.cursor)
    ensures Appended(st, epoch, block) == st
  {
    FilterNone(IsAbove(st.cursor), Storable(block));
  }

  lemma InnerAtMost(base: seq<Row>, part: seq<Row>, whole: seq<Row>, cursor: int)
    requires base + part <= whole && AllAtMost(whole, cursor)
    ensures AllAtMost(part, cursor)
  {
    forall i | 0 <= i < |part| ensures part[i].seqNo <= cursor {
      assert part[i] == (base + part)[|base| + i];
    }
  }

  lemma BlockIsHeld(st: Store, epoch: string, blocks: seq<seq<Wire>>, j: nat, k: nat)
    requires j < k <= |blocks| && Ready(st, epoch, Joined(blocks, k))
    ensures AllAtMost(Storable(blocks[j]), Extended(st, Joined(blocks, k)).cursor)
  {
    hide Storable, Extended, Ready, AllAtMost, Accepts;
    JoinedPrefix(blocks, j + 1, k);
    StorablePrefix(Joined(blocks, j + 1), Joined(blocks, k));
    StorableAppend(Joined(blocks, j), blocks[j]);
    ExtendedValid(st, Joined(blocks, k), epoch);
    InnerAtMost(Storable(Joined(blocks, j)), Storable(blocks[j]), Storable(Joined(blocks, k)),
                Extended(st, Joined(blocks, k)).cursor);
  }

  lemma ReadyPrefix(st: Store, epoch: string, a: seq<Wire>, b: seq<Wire>)
    requires a <= b && Ready(st, epoch, b)
    ensures Ready(st, epoch, a)
  {
    StorablePrefix(a, b);
    PrefixAscending(Storable(a), Storable(b));
  }

  /** One delivery of the next or of an earlier batch. */
  lemma FeedStep(st: Store, epoch: string, blocks: seq<seq<Wire>>, k: nat, j: nat)
    requires j <= k <= |blocks| && j < |blocks| && |blocks[j]| <= MAX_BATCH_ROWS
    requires Ready(st, epoch, Joined(blocks, |blocks|))
    ensures Appended(Extended(st, Joined(blocks, k)), epoch, blocks[j])
         == Extended(st, Joined(blocks, if j == k then k + 1 else k))
  {
    if j == k {
      JoinedPrefix(blocks, k + 1, |blocks|);
      ReadyPrefix(st, epoch, Joined(blocks, k + 1), Joined(blocks, |blocks|));
      NewBatch(st, epoch, Joined(blocks, k), blocks[k]);
    } else {
      JoinedPrefix(blocks, k, |blocks|);
      ReadyPrefix(st, epoch, Joined(blocks, k), Joined(blocks, |blocks|));
      BlockIsHeld(st, epoch, blocks, j, k);
      OldBatch(Extended(st, Joined(blocks, k)), epoch, blocks[j]);
    }
  }

  lemma ExtendedNothing(st: Store)
    ensures Extended(st, []) == st
  {
    assert New(st, []) == [] && st.rows + [] == st.rows;
  }

  /** The counts returned by the appends add up to the growth of the copy. */
  lemma {:induction false} InsertedIsGrowth(st: Store, epoch: string, blocks: seq<seq<Wire>>, schedule: seq<nat>)
    requires Orderly(schedule, |blocks|)
    ensures Feed(st, epoch, blocks, schedule).inserted == |Feed(st, epoch, blocks, schedule).st.rows| - |st.rows|
  {
    if schedule != [] {
      InsertedIsGrowth(st, epoch, blocks, schedule[..|schedule| - 1]);
    }
  }

  /** After any orderly schedule the copy depends only on how many batches arrived. */
  lemma {:induction false} FeedIsExtension(st: Store, epoch: string, blocks: seq<seq<Wire>>, schedule: seq<nat>)
    requires Orderly(schedule, |blocks|) && Ready(st, epoch, Joined(blocks, |blocks|))
    requires forall i :: 0 <= i < |blocks| ==> |blocks[i]| <= MAX_BATCH_ROWS
    ensures Reached(schedule) <= |blocks|
    ensures Feed(st, epoch, blocks, schedule).st == Extended(st, Joined(blocks, Reached(schedule)))
  {
    hide Appended, Extended, Ready;
    ReachedBound(schedule, |blocks|);
    if schedule == [] {
      ExtendedNothing(st);
    } else {
      var init, j := schedule[..|schedule| - 1], schedule[|schedule| - 1];
      FeedIsExtension(st, epoch, blocks, init);
      FeedStep(st, epoch, blocks, Reached(init), j);
    }
  }

  /** Two ways to cut the same list, with any repeats, give the same rows, the same cursor and
      the same total of inserted rows: those of the list above the cursor at the start. */
  lemma CutsDoNotMatter(
      st: Store, epoch: string, list: seq<Wire>,
      blocks: seq<seq<Wire>>, schedule: seq<nat>, blocks': seq<seq<Wire>>, schedule': seq<nat>)
    requires Ready(st, epoch, list)
    requires Joined(blocks, |blocks|) == list && Joined(blocks', |blocks'|) == list
    requires forall i :: 0 <= i < |blocks| ==> |blocks[i]| <= MAX_BATCH_ROWS
    requires forall i :: 0 <= i < |blocks'| ==> |blocks'[i]| <= MAX_BATCH_ROWS
    requires Orderly(schedule, |blocks|) && Reached(schedule) == |blocks|
    requires Orderly(schedule', |blocks'|) && Reached(schedule') == |blocks'|
    ensures Feed(st, epoch, blocks, schedule) == Feed(st, epoch, blocks', schedule')
    ensures Feed(st, epoch, blocks, schedule).st.rows == st.rows + New(st, list)
    ensures Feed(st, epoch, blocks, schedule).inserted == |New(st, list)|
  {
    FeedIsExtension(st, epoch, blocks, schedule);
    FeedIsExtension(st, epoch, blocks', schedule');
    InsertedIsGrowth(st, epoch, blocks, schedule);
    InsertedIsGrowth(st, epoch, blocks', schedule');
  }
}
