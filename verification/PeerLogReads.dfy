/** What a row keeps of the event it was made from, and what a reader of the copy gets. */
module PeerLogReads {
  import opened Lists
  import opened Text
  import opened PeerLog
  import opened PeerLogRuns

  // ── rows ──────────────────────────────────────────────────────────────

  /** What can be stored: an object with a positive address and a kind that is not blank. The
      row keeps the address, and of the trimmed kind the first 64 characters. */
  lemma NormalizeIs(raw: Wire)
    ensures Normalize(raw).Some? <==> raw.Wire? && raw.seqNo.Some? && raw.seqNo.value > 0 && !AllSpace(OrEmpty(raw.kind))
    ensures Normalize(raw).Some? ==>
      (var r, kind := Normalize(raw).value, Trim(OrEmpty(raw.kind));
       && r.seqNo == raw.seqNo.value && r.kind <= kind
       && |r.kind| == (if |kind| > MAX_KIND then MAX_KIND else |kind|) && !IsSpace(r.kind[0]))
  {
    if raw.Wire? {
      BlankIff(OrEmpty(raw.kind));
      TrimEnds(OrEmpty(raw.kind));
    }
  }

  lemma BlankIff(s: string)
    ensures Trim(s) == "" <==> AllSpace(s)
  {
    TrimLeftDrops(s);
    TrimRightDrops(TrimLeft(s));
    TrimEnds(s);
  }

  /** A kind of 65 characters whose 64th is a space is stored with that space at its end. */
  lemma CutKindMayEndInASpace(raw: Wire, kind: string)
    requires Normalize(raw).Some? && raw.kind == Some(kind) && Trim(kind) == kind
    requires |kind| == MAX_KIND + 1 && IsSpace(kind[MAX_KIND - 1])
    ensures var stored := Normalize(raw).value.kind; stored != "" && IsSpace(stored[|stored| - 1])
  {
  }

  /** Content of at most 256 Ki characters is stored as it is; of longer content its length and
      its first 4 Ki characters. */
  lemma ContentIsKept(text: string, status: Option<string>)
    ensures var c := StoreContent(Json(text, status));
      if |text| <= MAX_CONTENT then c == Full(text, status)
      else c.Truncated? && c.bytes == |text| && c.preview <= text && |c.preview| == PREVIEW
  {
  }

  /** A limit that is missing or 0 means 20, and any other is taken into 1 to 1000. */
  lemma LimitIs(q: Query)
    ensures q.limit.None? || q.limit.value == 0 ==> EffectiveLimit(q) == 20
    ensures q.limit.Some? && 1 <= q.limit.value <= 1000 ==> EffectiveLimit(q) == q.limit.value
    ensures q.limit.Some? && q.limit.value > 1000 ==> EffectiveLimit(q) == 1000
    ensures q.limit.Some? && q.limit.value < 0 ==> EffectiveLimit(q) == 1
  {
  }

  // ── from the wire to the reader, field by field ───────────────────────

  /** The row holds what the event says: its numbers and texts each in its own field, an absent
      run or definition as "", the trimmed kind up to its 64th character, and the content whole
      up to 256 Ki characters. */
  predicate Carries(r: Row, w: Wire) {
    && w.Wire? && w.seqNo == Some(r.seqNo)
    && r.runId == (if w.runId.Some? then w.runId.value else "")
    && r.definitionId == (if w.definitionId.Some? then w.definitionId.value else "")
    && r.branchPath == w.branchPath && r.iteration == w.iteration && r.scopeId == w.scopeId
    && w.kind.Some? && r.kind <= Trim(w.kind.value)
    && |r.kind| == (if |Trim(w.kind.value)| > 64 then 64 else |Trim(w.kind.value)|)
    && match w.content
       case Unserializable => r.content == Note
       case Json(text, status) =>
         if |text| <= 256 * 1024 then r.content == Full(text, status)
         else r.content == Truncated(|text|, text[..4 * 1024])
  }

  /** An event that can be stored: a positive address and a kind that is not blank. */
  predicate CanBeStored(w: Wire) {
    w.Wire? && w.seqNo.Some? && w.seqNo.value > 0 && w.kind.Some? && !AllSpace(w.kind.value)
  }

  lemma StoredAsItIs(w: Wire)
    ensures Normalize(w).Some? <==> CanBeStored(w)
    ensures Normalize(w).Some? ==> Carries(Normalize(w).value, w)
  {
    hide Trim;
    if w.Wire? {
      BlankIff(OrEmpty(w.kind));
    }
  }

  /** Over every run of calls, whatever is stored carries an event of an accepted batch. */
  lemma EveryRowCarriesAnEvent(ops: seq<Op>, r: Row)
    requires r in Run(EMPTY, ops).rows
    ensures exists k: nat, w :: k < |ops| && ops[k].Append? && w in ops[k].events && CanBeStored(w) && Carries(r, w)
  {
    hide Run, NoClear;
    RowsComeFromTheEpoch(ops, r);
    var k: nat :| CameFrom(EMPTY, ops, k, r);
    var w :| w in Capped(ops[k].events) && Normalize(w) == Some(r);
    StoredAsItIs(w);
    assert w in ops[k].events;
  }

  /** And every event of an accepted batch that can be stored, is above the cursor, is among the
      first 500, and is alone with its address, is stored and carried by a row. */
  lemma EveryNewEventIsStored(st: Store, epoch: string, events: seq<Wire>, i: nat) returns (r: Row)
    requires Valid(st) && st.epoch == Some(epoch) && epoch != ""
    requires i < |events| && i < 500 && CanBeStored(events[i]) && events[i].seqNo.value > st.cursor
    requires forall j :: 0 <= j < |events| && j != i && events[j].Wire? ==> events[j].seqNo != events[i].seqNo
    ensures r in Appended(st, epoch, events).rows && Carries(r, events[i])
  {
    hide Normalize, Carries, CanBeStored;
    var w := events[i];
    StoredAsItIs(w);
    r := Normalize(w).value;
    NormalizedAddress(w);
    assert Capped(events)[i] == w;
    FilterMapMember(Normalize, Capped(events), r);
    FilterMember(IsAbove(st.cursor), Storable(Capped(events)), r);
    var above := Above(Storable(Capped(events)), st.cursor);
    SortBySeqSorts(above);
    SameMembers(above, SortBySeq(above), r);
    OnlyWithItsAddress(st, events, i, r);
    OfferedIsInserted(st.rows, Offered(st, events), r, st.cursor);
  }

  lemma NormalizedAddress(w: Wire)
    ensures Normalize(w).Some? ==> w.Wire? && w.seqNo == Some(Normalize(w).value.seqNo)
  {
  }

  lemma OnlyWithItsAddress(st: Store, events: seq<Wire>, i: nat, r: Row)
    requires i < |events| && i < 500 && Normalize(events[i]) == Some(r)
    requires forall j :: 0 <= j < |events| && j != i && events[j].Wire? ==> events[j].seqNo != events[i].seqNo
    ensures forall x :: x in Offered(st, events) && x.seqNo == r.seqNo ==> x == r
  {
    hide Normalize;
    NormalizedAddress(events[i]);
    forall x | x in Offered(st, events) && x.seqNo == r.seqNo ensures x == r {
      OfferedRows(st, events, x);
      var w :| w in Capped(events) && Normalize(w) == Some(x);
      NormalizedAddress(w);
      var j :| 0 <= j < |events| && events[j] == w;
    }
  }

  lemma {:induction false} OfferedIsInserted(rows: seq<Row>, batch: seq<Row>, r: Row, cursor: int)
    requires Ascending(rows) && AllAtMost(rows, cursor) && r in batch && r.seqNo > cursor
    requires forall x :: x in batch && x.seqNo == r.seqNo ==> x == r
    ensures r in InsertAll(rows, batch)
  {
    hide Place;
    var init, last := batch[..|batch| - 1], batch[|batch| - 1];
    assert batch == init + [last];
    var before := InsertAll(rows, init);
    InsertAllKeeps(rows, init, r);
    InsertKeeps(before, last, r);
    if r in init {
      OfferedIsInserted(rows, init, r, cursor);
    } else if Holds(before, r.seqNo) {
      var k :| 0 <= k < |before| && before[k].seqNo == r.seqNo;
      InsertAllKeeps(rows, init, before[k]);
    } else {
      PlaceHolds(before, r, r);
    }
  }

  /** A round trip: one event that can be stored, sent to a fresh copy, is read back as one row
      that carries it, by a query that asks for everything. */
  lemma EventIsReadBack(epoch: string, w: Wire, q: Query)
    requires epoch != "" && CanBeStored(w)
    requires !q.errorOnly && q.kinds == [] && q.after.None?
    ensures var rows := Window(q, Appended(Handshaken(EMPTY, epoch, None), epoch, [w]).rows);
      |rows| == 1 && Carries(rows[0], w)
  {
    hide Normalize, Carries, CanBeStored, Window, Appended;
    StoredAsItIs(w);
    var r := Normalize(w).value;
    OneRowStored(Handshaken(EMPTY, epoch, None), epoch, w, r);
    OneRowRead(q, r);
  }

  lemma OneRowRead(q: Query, r: Row)
    requires !q.errorOnly && q.kinds == [] && q.after.None?
    ensures Window(q, [r]) == [r]
  {
    assert KindFilter([]) == [];
    FilterAll(MatchesQuery(q), [r]);
  }

  /** Of a batch only the first 500 events count. */
  lemma OnlyFiveHundredCount(st: Store, epoch: string, events: seq<Wire>)
    requires |events| > 500
    ensures Appended(st, epoch, events) == Appended(st, epoch, events[..500])
  {
    assert Capped(events[..500]) == events[..500];
  }

  // ── windows ───────────────────────────────────────────────────────────

  predicate IsHit(q: Query, r: Row) {
    Matches(q, r) && (EffectiveAfter(q) > 0 ==> r.seqNo > EffectiveAfter(q))
  }

  /** Stored matching rows above `after`, ascending, at most `limit`; whatever matches and is
      left out lies beyond a full window, above it when there is an `after` and below it when
      there is none. */
  ghost predicate IsWindow(q: Query, rows: seq<Row>, out: seq<Row>) {
    && (forall r :: r in out ==> r in rows && IsHit(q, r))
    && Ascending(out) && |out| <= EffectiveLimit(q)
    && (forall r :: r in rows && IsHit(q, r) && r !in out ==> IsBeyond(q, out, r))
  }

  ghost predicate IsBeyond(q: Query, out: seq<Row>, r: Row) {
    && |out| == EffectiveLimit(q)
    && forall x :: x in out ==> if EffectiveAfter(q) > 0 then x.seqNo < r.seqNo else r.seqNo < x.seqNo
  }

  lemma FirstOnes(hits: seq<Row>, n: nat, r: Row)
    requires Ascending(hits) && n <= |hits|
    ensures r in hits && r !in hits[..n] ==> n < |hits| && forall x :: x in hits[..n] ==> x.seqNo < r.seqNo
  {
    if r in hits && r !in hits[..n] {
      var k :| 0 <= k < |hits| && hits[k] == r;
      assert k >= n;
    }
  }

  lemma LastOnes(hits: seq<Row>, n: nat, r: Row)
    requires Ascending(hits) && n <= |hits|
    ensures r in hits && r !in hits[n..] ==> n > 0 && forall x :: x in hits[n..] ==> r.seqNo < x.seqNo
  {
    assert forall i :: n <= i < |hits| ==> hits[n..][i - n] == hits[i];
  }

  lemma HitsAre(q: Query, rows: seq<Row>) returns (hits: seq<Row>)
    requires Ascending(rows)
    ensures hits == Select(q, if EffectiveAfter(q) > 0 then Above(rows, EffectiveAfter(q)) else rows)
    ensures Ascending(hits) && forall r :: r in hits <==> r in rows && IsHit(q, r)
  {
    hide Matches, EffectiveAfter;
    var above := if EffectiveAfter(q) > 0 then Above(rows, EffectiveAfter(q)) else rows;
    FilterKeepsAscending(IsAbove(EffectiveAfter(q)), rows);
    FilterKeepsAscending(MatchesQuery(q), above);
    hits := Select(q, above);
    forall r ensures r in hits <==> r in rows && IsHit(q, r) {
      FilterMember(MatchesQuery(q), above, r);
      FilterMember(IsAbove(EffectiveAfter(q)), rows, r);
    }
  }

  ghost predicate AreHits(q: Query, rows: seq<Row>, hits: seq<Row>) {
    Ascending(hits) && forall r :: r in hits <==> r in rows && IsHit(q, r)
  }

  lemma FrontIsWindow(q: Query, rows: seq<Row>, hits: seq<Row>, out: seq<Row>)
    requires AreHits(q, rows, hits) && EffectiveAfter(q) > 0
    requires out == if |hits| > EffectiveLimit(q) then hits[..EffectiveLimit(q)] else hits
    ensures IsWindow(q, rows, out)
  {
    hide IsHit, EffectiveAfter, EffectiveLimit, Ascending;
    assert hits[..|hits|] == hits;
    forall r | r in rows && IsHit(q, r) && r !in out ensures IsBeyond(q, out, r) {
      FirstOnes(hits, |out|, r);
    }
    FrontAscends(hits, |out|);
  }

  lemma BackIsWindow(q: Query, rows: seq<Row>, hits: seq<Row>, out: seq<Row>)
    requires AreHits(q, rows, hits) && EffectiveAfter(q) == 0
    requires out == if |hits| > EffectiveLimit(q) then hits[|hits| - EffectiveLimit(q)..] else hits
    ensures IsWindow(q, rows, out)
  {
    hide IsHit, EffectiveAfter, EffectiveLimit, Ascending;
    assert hits[0..] == hits;
    forall r | r in rows && IsHit(q, r) && r !in out ensures IsBeyond(q, out, r) {
      LastOnes(hits, |hits| - |out|, r);
    }
    BackAscends(hits, |hits| - |out|);
  }

  lemma FrontAscends(hits: seq<Row>, n: nat)
    requires Ascending(hits) && n <= |hits|
    ensures Ascending(hits[..n])
  {
  }

  lemma BackAscends(hits: seq<Row>, n: nat)
    requires Ascending(hits) && n <= |hits|
    ensures Ascending(hits[n..])
  {
  }

  /** The query returns the first hits above `after`, or the newest hits when there is none. */
  lemma WindowIs(q: Query, rows: seq<Row>)
    requires Ascending(rows)
    ensures IsWindow(q, rows, Window(q, rows))
  {
    hide Matches, IsHit, Ascending, IsWindow, Filter;
    var hits := HitsAre(q, rows);
    if EffectiveAfter(q) > 0 {
      FrontIsWindow(q, rows, hits, Window(q, rows));
    } else {
      BackIsWindow(q, rows, hits, Window(q, rows));
    }
  }

  // ── what the filters let through ──────────────────────────────────────

  /** The errors-only window holds failed calls and failed turns only, and while it is not full
      and asks from the beginning, all of them. */
  lemma ErrorsAreRead(q: Query, rows: seq<Row>, r: Row)
    requires Ascending(rows) && q.errorOnly
    ensures r in Window(q, rows) ==> r in rows && IsAFailure(r)
    ensures r in rows && IsAFailure(r) && q.after.None? && |Window(q, rows)| < EffectiveLimit(q) ==> r in Window(q, rows)
  {
    hide Ascending, Window;
    WindowIs(q, rows);
  }

  predicate IsAFailure(r: Row) {
    || r.kind == "llm_error" || r.kind == "tool_error"
    || (r.kind == "web_turn_end" && r.content.Full? && r.content.status == Some("error"))
  }

  /** A name asks for the kind that it is without the white space around it. */
  predicate Asks(q: Query, kind: string) {
    exists i :: 0 <= i < |q.kinds| && Trim(q.kinds[i]) == kind && kind != ""
  }

  lemma {:induction false} KindsAre(kinds: seq<string>, kind: string)
    ensures kind in FilterMap(TrimmedName, kinds) <==> exists i :: 0 <= i < |kinds| && Trim(kinds[i]) == kind && kind != ""
  {
    FilterMapMember(TrimmedName, kinds, kind);
    if i :| 0 <= i < |kinds| && Trim(kinds[i]) == kind && kind != "" {
      assert kinds[i] in kinds && TrimmedName(kinds[i]) == Some(kind);
    }
  }

  /** A window with at most 20 names, not all blank, holds rows of those kinds only, and while it
      is not full and asks from the beginning, all of them; without a name it holds every kind. */
  lemma KindsAreRead(q: Query, rows: seq<Row>, r: Row)
    requires Ascending(rows) && !q.errorOnly && |q.kinds| <= 20
    ensures r in Window(q, rows) ==> r in rows && (Asks(q, r.kind) || forall kind :: !Asks(q, kind))
    ensures q.after.None? && |Window(q, rows)| < EffectiveLimit(q) ==>
      (r in rows && (Asks(q, r.kind) || forall kind :: !Asks(q, kind)) ==> r in Window(q, rows))
  {
    hide Ascending, Window, FilterMap, Asks;
    WindowIs(q, rows);
    var named := FilterMap(TrimmedName, q.kinds);
    NamesFit(q.kinds);
    forall kind ensures Asks(q, kind) <==> kind in named {
      AsksIff(q, kind);
    }
    if named != [] {
      assert named[0] in named;
    }
  }

  lemma AsksIff(q: Query, kind: string)
    ensures Asks(q, kind) <==> kind in FilterMap(TrimmedName, q.kinds)
  {
    KindsAre(q.kinds, kind);
  }

  lemma NamesFit(kinds: seq<string>)
    requires |kinds| <= 20
    ensures KindFilter(kinds) == FilterMap(TrimmedName, kinds)
  {
  }

  // ── the errors-only window ────────────────────────────────────────────

  /** A turn that ended in an error is seen by the errors-only window exactly when its content
      was short enough to be stored as it is: the preview of a longer one has no status. */
  lemma FailedTurnIsSeenIff(w: Wire, r: Row, text: string)
    requires Normalize(w) == Some(r) && r.kind == "web_turn_end" && w.content == Json(text, Some("error"))
    ensures IsError(r) <==> |text| <= MAX_CONTENT
  {
  }

  /** So a failed turn of more than 256 Ki characters is in no errors-only window, whatever
      else the copy holds and whatever the limit. */
  lemma LongFailureIsMissed(q: Query, w: Wire, r: Row, text: string, rows: seq<Row>)
    requires Normalize(w) == Some(r) && r.kind == "web_turn_end" && w.content == Json(text, Some("error"))
    requires |text| > MAX_CONTENT && q.errorOnly
    ensures r !in Window(q, rows)
  {
    hide Normalize, IsError;
    FailedTurnIsSeenIff(w, r, text);
    FilterMember(MatchesQuery(q), rows, r);
    FilterMember(MatchesQuery(q), Above(rows, EffectiveAfter(q)), r);
  }

  lemma OneRowStored(st: Store, epoch: string, w: Wire, r: Row)
    requires Normalize(w) == Some(r) && Accepts(st, epoch) && st.rows == [] && st.cursor == 0
    ensures Appended(st, epoch, [w]).rows == [r]
  {
    assert [w][..0] == [] && [r][..0] == [];
    assert Storable([w]) == [r];
    assert Above([r], 0) == [r];
    assert SortBySeq([r]) == [r];
    assert InsertAll([], [r]) == [r];
  }

  /** Such an event exists, and a fresh copy that is sent it stores it. */
  lemma LongFailureExists(epoch: string) returns (w: Wire, r: Row, text: string)
    requires epoch != ""
    ensures Normalize(w) == Some(r) && r.kind == "web_turn_end" && w.content == Json(text, Some("error"))
    ensures |text| > MAX_CONTENT
    ensures Appended(Handshaken(EMPTY, epoch, None), epoch, [w]).rows == [r]
  {
    text := seq(MAX_CONTENT + 1, i => 'x');
    var kind := "web_turn_end";
    w := Wire(Some(1), None, None, None, None, None, Some(kind), Json(text, Some("error")));
    TrimFixed(kind);
    assert kind[..|kind|] == kind;
    r := Normalize(w).value;
    OneRowStored(Handshaken(EMPTY, epoch, None), epoch, w, r);
  }
}
