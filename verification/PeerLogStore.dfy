/** The SQLite file of one profile as an object updated in place. Every method is
    proved against the value-level operations of `PeerLog`. */
module PeerLogStore {
  import opened Lists
  import opened Text
  import opened PeerLog
  import opened PeerLogReads

  class PeerLogCopy {
    var epoch: Option<string>
    var cursor: nat
    var calls: seq<Row>

    constructor ()
      ensures View() == EMPTY
    {
      epoch, cursor, calls := None, 0, [];
    }

    function View(): Store
      reads this
    {
      Store(epoch, cursor, calls)
    }

    method ResetRows()
      modifies this`calls, this`cursor
      ensures calls == [] && cursor == 0
    {
      calls := [];
      cursor := 0;
    }

    /** `None` stands for the error the source throws on a blank epoch. */
    method Handshake(rawEpoch: string, max: Option<int>) returns (status: Option<Status>)
      modifies this
      ensures Trim(rawEpoch) == "" ==> status == None && View() == old(View())
      ensures Trim(rawEpoch) != "" ==>
        && View() == Handshaken(old(View()), Trim(rawEpoch), max)
        && status == Some(StatusOf(View()))
    {
      var name := Trim(rawEpoch);
      if name == "" {
        return None;
      }
      var stored := epoch;
      var known := if max.Some? && max.value < 0 then Some(0) else max;
      var regressed := known.Some? && known.value < cursor;
      var stale := stored.Some? && (stored.value != name || regressed);
      if stale {
        ResetRows();
      }
      if stored != Some(name) || stale {
        epoch := Some(name);
      }
      status := Some(StatusOf(View()));
    }

    method TrimIfOversized(oversized: bool)
      modifies this`calls
      ensures View() == Trimmed(old(View()), oversized)
    {
      if !oversized {
        return;
      }
      var keep := 3 * |calls| / 4;
      if keep <= 0 {
        return;
      }
      calls := Above(calls, calls[|calls| - keep].seqNo);
    }

    /** The loop over the batch: what can be stored and lies above the cursor. */
    method Collect(batch: seq<Wire>) returns (rows: seq<Row>, skipped: nat)
      ensures rows == Above(Storable(batch), cursor)
      ensures skipped == |batch| - |Storable(batch)|
    {
      rows, skipped := [], 0;
      for i := 0 to |batch|
        invariant rows == Above(Storable(batch[..i]), cursor)
        invariant skipped == i - |Storable(batch[..i])|
      {
        assert batch[..i + 1][..i] == batch[..i];
        var normalized := Normalize(batch[i]);
        if normalized.None? {
          skipped := skipped + 1;
          continue;
        }
        if normalized.value.seqNo <= cursor {
          continue;
        }
        rows := rows + [normalized.value];
      }
      assert batch[..|batch|] == batch;
    }

    /** The insertion transaction; the caller stores `high` as the new cursor. */
    method InsertRows(rows: seq<Row>) returns (inserted: nat, high: nat)
      modifies this`calls
      ensures calls == InsertAll(old(calls), rows)
      ensures inserted == |calls| - |old(calls)|
      ensures high == High(rows, cursor)
    {
      inserted, high := 0, cursor;
      for i := 0 to |rows|
        invariant calls == InsertAll(old(calls), rows[..i])
        invariant inserted == |calls| - |old(calls)|
        invariant high == High(rows[..i], cursor)
      {
        assert rows[..i + 1][..i] == rows[..i];
        PlaceLength(calls, rows[i]);
        if !Holds(calls, rows[i].seqNo) {
          inserted := inserted + 1;
        }
        calls := Insert(calls, rows[i]);
        if rows[i].seqNo > high {
          high := rows[i].seqNo;
        }
      }
      assert rows[..|rows|] == rows;
    }

    /** `oversized` is what the page count says once the batch is in. */
    method Append(name: string, events: seq<Wire>, oversized: bool) returns (result: AppendResult)
      modifies this`calls, this`cursor
      ensures View() == Trimmed(Appended(old(View()), name, events), oversized)
      ensures result.refused <==> !Accepts(old(View()), name)
      ensures result.status == StatusOf(Appended(old(View()), name, events))
      ensures result.inserted == |Appended(old(View()), name, events).rows| - |old(calls)|
      ensures result.skipped == if result.refused then 0 else |Capped(events)| - |Storable(Capped(events))|
    {
      if epoch == None || epoch.value == "" || epoch.value != name {
        result := AppendResult(StatusOf(View()), 0, 0, true);
        TrimIfOversized(oversized);
        return;
      }
      var rows, skipped := Collect(Capped(events));
      var inserted, high := InsertRows(SortBySeq(rows));
      cursor := high;
      result := AppendResult(StatusOf(View()), inserted, skipped, false);
      TrimIfOversized(oversized);
    }

    /** The window is what a reader is promised; `IsWindow` says it without the query plan. */
    method Read(q: Query) returns (status: Status, rows: seq<Row>)
      ensures status.epoch == OrEmpty(epoch) && status.cursor == cursor && status.total == |calls|
      ensures Ascending(calls) ==> IsWindow(q, calls, rows)
    {
      var limit := EffectiveLimit(q);
      var hits := Select(q, Above(calls, EffectiveAfter(q)));
      if EffectiveAfter(q) > 0 {
        rows := if |hits| > limit then hits[..limit] else hits;
      } else {
        hits := Select(q, calls);
        rows := if |hits| > limit then hits[|hits| - limit..] else hits;
      }
      status := StatusOf(View());
      if Ascending(calls) {
        WindowIs(q, calls);
      }
    }
  }

  lemma {:induction false} PlaceLength(rows: seq<Row>, r: Row)
    ensures |Place(rows, r)| == |rows| + 1
  {
    if rows != [] && r.seqNo >= rows[0].seqNo {
      PlaceLength(rows[1..], r);
    }
  }
}
