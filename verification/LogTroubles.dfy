/** When the copy stops being a prefix of the tab's log: the exact conditions, and the runs
    that get there. */
module LogTroubles {
  import opened Lists
  import opened Text
  import opened PeerLog
  import opened PeerLogRuns
  import opened Replication
  import opened LogNetwork

  // ── tabs that report their true maximum and never empty their log ─────

  /** The handshake says nothing about the maximum, or nothing below the log's end. */
  ghost predicate TrueMax(s: Net, e: Event)
    requires s.logs != []
  {
    e.Handshakes? && e.max.Some? ==> AllAtMost(Storable(Present(s).rows), e.max.value)
  }

  /** The tab keeps to its rules, tells the truth, and does not empty its log. */
  ghost predicate Honest(epoch: string, events: seq<Event>, k: nat)
    requires k <= |events|
  {
    k == 0 ||
    (var s := After(epoch, events, k - 1);
     && Honest(epoch, events, k - 1) && TabAllows(s, events[k - 1])
     && TrueMax(s, events[k - 1]) && !events[k - 1].TabClears?)
  }

  /** Epochs tell the logs apart, and no batch of the copy's epoch is older than its last reset. */
  ghost predicate Settled(s: Net) {
    && s.logs != []
    && (forall i, j :: 0 <= i < j < |s.logs| ==> s.logs[i].epoch != s.logs[j].epoch)
    && (forall b :: b in s.sent && s.desk.epoch == Some(EpochOf(s, b)) ==> b.gen == s.gen)
    && (s.desk.epoch != Some(Present(s).epoch) ==> forall b :: b in s.sent ==> b.inc < |s.logs| - 1)
  }

  lemma TrueMaxNeverRegresses(s: Net, max: Option<int>)
    requires Inv(s) && TrueMax(s, Handshakes(max)) && s.desk.epoch.Some? && s.held == |s.logs| - 1
    ensures !Regressed(s.desk, max)
  {
    hide Storable;
    var log := Present(s).rows;
    var n :| HoldsSlice(s.desk, log, s.dropped, n);
  }

  lemma SettledHandshake(s: Net, max: Option<int>)
    requires Inv(s) && Settled(s) && TrueMax(s, Handshakes(max))
    ensures ClearIsNoticed(s, Handshakes(max)) && Settled(Apply(s, Handshakes(max)))
  {
    hide Regressed, Copies, SentGood, AcksKnown, AllAtMost, Ascending, Storable;
    if s.desk.epoch == Some(Present(s).epoch) {
      HeldIsPresent(s);
      TrueMaxNeverRegresses(s, max);
    } else {
      NothingSentYet(s);
    }
  }

  lemma HeldIsPresent(s: Net)
    requires Inv(s) && Settled(s) && s.desk.epoch == Some(Present(s).epoch)
    ensures s.held == |s.logs| - 1
  {
    hide HoldsSlice;
  }

  lemma NothingSentYet(s: Net)
    requires Inv(s) && Settled(s) && s.desk.epoch != Some(Present(s).epoch)
    ensures forall b :: b in s.sent ==> EpochOf(s, b) != Present(s).epoch
  {
    hide StartsAtOrBelow, DeskHolds;
    assert forall b :: b in s.sent ==> BatchGood(s.logs, s.desk, s.held, s.gen, b);
  }

  lemma SettledRestart(s: Net, epoch: string)
    requires Inv(s) && Settled(s) && TabAllows(s, TabRestarts(epoch))
    ensures Settled(Apply(s, TabRestarts(epoch)))
  {
    hide StartsAtOrBelow, DeskHolds, HoldsSlice;
    assert forall b :: b in s.sent ==> BatchGood(s.logs, s.desk, s.held, s.gen, b);
  }

  lemma AcksMeanPresent(s: Net)
    requires Inv(s) && s.acks != {}
    ensures s.desk.epoch == Some(Present(s).epoch)
  {
    hide HoldsSlice, SentGood;
  }

  lemma SettledSend(s: Net, from: nat, count: nat)
    requires Inv(s) && Settled(s) && TabAllows(s, Sends(from, count))
    ensures Settled(Apply(s, Sends(from, count)))
  {
    hide StartsAtOrBelow, Inv;
    assert s.acks != {};
    AcksMeanPresent(s);
  }

  lemma SettledLog(s: Net, row: Wire)
    requires Inv(s) && Settled(s)
    ensures Settled(Apply(s, TabLogs(row)))
  {
    hide StartsAtOrBelow, DeskHolds, AcksKnown, Storable;
    assert forall b :: b in s.sent ==> BatchGood(s.logs, s.desk, s.held, s.gen, b);
  }

  lemma SettledDelivery(s: Net, b: Batch, oversized: bool)
    requires Settled(s) && b in s.sent
    ensures NoStraggler(s, Delivers(b, oversized)) && Settled(Apply(s, Delivers(b, oversized)))
  {
    hide Offered, InsertAll, High;
  }

  lemma SettledStep(s: Net, e: Event)
    requires Inv(s) && Settled(s) && TabAllows(s, e) && TrueMax(s, e) && !e.TabClears?
    ensures NoStraggler(s, e) && ClearIsNoticed(s, e) && Settled(Apply(s, e))
  {
    hide Inv, Settled, TrueMax;
    match e
    case TabLogs(row) => SettledLog(s, row);
    case TabRestarts(epoch) => SettledRestart(s, epoch);
    case Handshakes(max) => SettledHandshake(s, max);
    case Sends(from, count) => SettledSend(s, from, count);
    case Delivers(b, oversized) => SettledDelivery(s, b, oversized);
  }

  lemma {:induction false} HonestRunsSettle(epoch: string, events: seq<Event>, k: nat)
    requires epoch != "" && k <= |events| && Honest(epoch, events, k)
    ensures Allowed(epoch, events, k) && Untroubled(epoch, events, k) && Settled(After(epoch, events, k))
  {
    hide Settled, Apply, TabAllows, TrueMax, NoStraggler, ClearIsNoticed, Begin;
    if k == 0 {
      SettledAtFirst(epoch);
    } else {
      HonestRunsSettle(epoch, events, k - 1);
      RunKeepsInv(epoch, events, k - 1);
      SettledStep(After(epoch, events, k - 1), events[k - 1]);
    }
  }

  lemma SettledAtFirst(epoch: string)
    ensures Settled(Begin(epoch))
  {
  }

  /** When every handshake reports the true maximum (or none) and the log is never emptied,
      the prefix property holds for every loss, repetition and delay without any proviso. */
  lemma HonestRunsNeedNoProviso(epoch: string, events: seq<Event>)
    requires epoch != "" && Honest(epoch, events, |events|)
    ensures Allowed(epoch, events, |events|) && Untroubled(epoch, events, |events|)
  {
    HonestRunsSettle(epoch, events, |events|);
  }

  // ── an emptied log ────────────────────────────────────────────────────

  /** Told the true maximum of a log that was emptied, the desktop notices if and only if the
      log has not grown back to the stored cursor; told nothing, it never does. */
  lemma ClearIsNoticedIff(s: Net, max: Option<int>)
    requires Inv(s) && GreetsAfterAClear(s, Handshakes(max))
    requires max.Some? ==> max.value == High(Storable(Present(s).rows), 0)
    ensures ClearIsNoticed(s, Handshakes(max))
       <==> max.Some? && s.desk.cursor > 0 && AllAtMost(Storable(Present(s).rows), s.desk.cursor - 1)
    ensures ClearIsNoticed(s, Handshakes(max)) <==> Apply(s, Handshakes(max)).held == |s.logs| - 1
  {
    hide Storable;
    if max.Some? {
      HighBelowIff(Storable(Present(s).rows), 0, s.desk.cursor);
    }
  }

  lemma {:induction false} HighBelowIff(rows: seq<Row>, start: nat, bound: int)
    ensures High(rows, start) < bound <==> start < bound && AllAtMost(rows, bound - 1)
  {
    if rows != [] {
      HighBelowIff(rows[..|rows| - 1], start, bound);
    }
  }

  /** The copy is the log's rows at or below its cursor, less the `dropped` oldest. */
  ghost predicate IsPrefixOf(st: Store, log: seq<Wire>, dropped: nat) {
    var upTo := Filter(IsAtMost(st.cursor), Storable(log));
    dropped <= |upTo| && st.rows == upTo[dropped..]
  }

  /** What a slice of a log adds to any copy that accepts it: the log's rows between the old
      and the new cursor. */
  lemma SliceAdds(st: Store, log: seq<Wire>, epoch: string, from: nat, events: seq<Wire>) returns (added: seq<Row>)
    requires Valid(st) && Accepts(st, epoch) && Ascending(Storable(log))
    requires from + |events| <= |log| && events == log[from..from + |events|]
    requires StartsAtOrBelow(log, from, st.cursor)
    ensures var out := Appended(st, epoch, events);
      && out.rows == st.rows + added
      && Filter(IsAtMost(out.cursor), Storable(log)) == Filter(IsAtMost(st.cursor), Storable(log)) + added
  {
    hide Storable, StartsAtOrBelow, Appended, Valid;
    var rows := Storable(log);
    var a, b := BatchPosition(log, from, events);
    var n := CountUpTo(rows, st.cursor);
    StartIsHeld(log, from, n, st.cursor);
    OfferedSlice(st, rows, n, a, b, events);
    FilterUpTo(rows, n, st.cursor);
    added := if b > n then rows[n..b] else [];
    AddedIs(st, rows, n, b, epoch, events, added);
  }

  lemma AddedIs(st: Store, rows: seq<Row>, n: nat, b: nat, epoch: string, events: seq<Wire>, added: seq<Row>)
    requires Valid(st) && Accepts(st, epoch) && Ascending(rows) && Splits(rows, n, st.cursor) && b <= |rows|
    requires added == (if b > n then rows[n..b] else []) && Offered(st, events) == added
    ensures var out := Appended(st, epoch, events);
      out.rows == st.rows + added && Filter(IsAtMost(out.cursor), rows) == rows[..n] + added
  {
    hide Appended, Offered, Filter, Splits, Accepts, Ascending, AllAbove, AllAtMost;
    ValidRows(st);
    if b > n {
      SliceAbove(rows, n, b, st.cursor);
      AppendedIs(st, epoch, events, added);
      LastSplits(rows, b);
      FilterUpTo(rows, b, rows[b - 1].seqNo);
      SlicesJoin(rows, 0, n, b);
    } else {
      AppendedIs(st, epoch, events, added);
      FilterUpTo(rows, n, st.cursor);
    }
  }

  lemma ValidRows(st: Store)
    requires Valid(st)
    ensures Ascending(st.rows) && AllAtMost(st.rows, st.cursor)
    ensures Ascending([]) && AllAbove([], st.cursor)
  {
  }

  lemma LastSplits(rows: seq<Row>, b: nat)
    requires Ascending(rows) && 0 < b <= |rows|
    ensures Splits(rows, b, rows[b - 1].seqNo)
  {
  }

  lemma FilterUpTo(rows: seq<Row>, n: nat, cursor: int)
    requires Splits(rows, n, cursor)
    ensures Filter(IsAtMost(cursor), rows) == rows[..n]
  {
    FilterPrefix(IsAtMost(cursor), rows, n);
  }

  lemma {:induction false} CountUpTo(rows: seq<Row>, cursor: int) returns (n: nat)
    requires Ascending(rows)
    ensures Splits(rows, n, cursor)
  {
    if rows == [] {
      n := 0;
    } else if rows[|rows| - 1].seqNo <= cursor {
      n := |rows|;
    } else {
      n := CountUpTo(rows[..|rows| - 1], cursor);
    }
  }

  /** After a clear that went unnoticed, the copy with a slice of the new log is a prefix of
      the new log less its `d` oldest rows if and only if what it held before already was: an old
      row that the new log does not have stays in it for good. */
  lemma MixedCopyIsFaithfulIff(st: Store, log: seq<Wire>, d: nat, epoch: string, from: nat, events: seq<Wire>)
    requires Valid(st) && Accepts(st, epoch) && Ascending(Storable(log))
    requires from + |events| <= |log| && events == log[from..from + |events|]
    requires StartsAtOrBelow(log, from, st.cursor)
    ensures IsPrefixOf(Appended(st, epoch, events), log, d) <==> IsPrefixOf(st, log, d)
  {
    hide Storable, StartsAtOrBelow, Appended, Valid;
    var added := SliceAdds(st, log, epoch, from, events);
    SameTailIff(st.rows, Filter(IsAtMost(st.cursor), Storable(log)), added, d);
  }

  lemma SameTailIff(rows: seq<Row>, upTo: seq<Row>, added: seq<Row>, d: nat)
    ensures d <= |upTo + added| && rows + added == (upTo + added)[d..] <==> d <= |upTo| && rows == upTo[d..]
  {
    if d <= |upTo| {
      assert (upTo + added)[d..] == upTo[d..] + added;
      assert (rows + added)[..|rows|] == rows;
      assert |rows| == |upTo[d..]| ==> (upTo[d..] + added)[..|rows|] == upTo[d..];
    } else if d <= |upTo + added| {
      assert |(upTo + added)[d..]| < |added|;
    }
  }

  // ── runs from the very beginning ──────────────────────────────────────

  lemma OneStorable(w: Wire, r: Row)
    requires Normalize(w) == Some(r)
    ensures Storable([w]) == [r]
  {
    assert [w][..0] == [];
  }

  lemma TwoStorable(w1: Wire, w2: Wire, r1: Row, r2: Row)
    requires Normalize(w1) == Some(r1) && Normalize(w2) == Some(r2)
    ensures Storable([w1, w2]) == [r1, r2]
  {
    OneStorable(w1, r1);
    assert [w1, w2][..1] == [w1];
  }

  lemma AppendsOne(st: Store, w: Wire, r: Row, epoch: string)
    requires Normalize(w) == Some(r) && r.seqNo > st.cursor && Accepts(st, epoch)
    requires Ascending(st.rows) && AllAtMost(st.rows, st.cursor)
    ensures Appended(st, epoch, [w]) == Store(st.epoch, r.seqNo, st.rows + [r])
  {
    hide Appended, Storable;
    OneStorable(w, r);
    AddsAll(st, epoch, [w], [r]);
  }

  /** The tab logs a row, greets, and ships the row. */
  ghost predicate Ships(events: seq<Event>, w: Wire, r: Row) {
    && |events| >= 4
    && events[0] == TabLogs(w) && events[1] == Handshakes(Some(r.seqNo))
    && events[2] == Sends(0, 1) && events[3] == Delivers(Batch(0, 1, 0, [w]), false)
  }

  function Shipped(epoch: string, w: Wire, r: Row): Net
    requires r.seqNo > 0
  {
    Net([Log(epoch, [w])], Store(Some(epoch), r.seqNo, [r]), 0, 0, 1, {0, r.seqNo}, {Batch(0, 1, 0, [w])})
  }

  /** Nothing has gone wrong so far. */
  ghost predicate FineUntil(epoch: string, events: seq<Event>, k: nat)
    requires k <= |events|
  {
    Allowed(epoch, events, k) && Untroubled(epoch, events, k)
  }

  lemma FineOn(epoch: string, events: seq<Event>, k: nat, s: Net)
    requires k < |events| && FineUntil(epoch, events, k) && After(epoch, events, k) == s && s.logs != []
    requires TabAllows(s, events[k]) && NoStraggler(s, events[k]) && ClearIsNoticed(s, events[k])
    ensures FineUntil(epoch, events, k + 1) && After(epoch, events, k + 1) == Apply(s, events[k])
  {
    hide TabAllows, NoStraggler, ClearIsNoticed, Apply;
  }

  lemma Ship(epoch: string, events: seq<Event>, w: Wire, r: Row)
    requires epoch != "" && Ships(events, w, r) && Normalize(w) == Some(r)
    ensures FineUntil(epoch, events, 4) && After(epoch, events, 4) == Shipped(epoch, w, r)
  {
    hide FineUntil, After, Appended, StartsAtOrBelow;
    OneStorable(w, r);
    var log := Log(epoch, [w]);
    var s0 := Begin(epoch);
    FineAtFirst(epoch, events);
    assert [] + [w] == [w];
    FineOn(epoch, events, 0, s0);
    var s1 := s0.(logs := [log]);
    assert Apply(s0, events[0]) == s1;
    FineOn(epoch, events, 1, s1);
    var s2 := Net([log], Store(Some(epoch), 0, []), 0, 0, 1, {0}, {});
    assert Apply(s1, events[1]) == s2;
    StartIsLow([w], 0);
    assert 0 in s2.acks;
    FineOn(epoch, events, 2, s2);
    var s3 := s2.(sent := {Batch(0, 1, 0, [w])});
    assert [w][0..1] == [w];
    assert Apply(s2, events[2]) == s3;
    FineOn(epoch, events, 3, s3);
    AppendsOne(s2.desk, w, r, epoch);
    assert [] + [r] == [r];
  }

  lemma FineAtFirst(epoch: string, events: seq<Event>)
    ensures FineUntil(epoch, events, 0) && After(epoch, events, 0) == Begin(epoch)
  {
  }

  lemma StartIsLow(log: seq<Wire>, mark: int)
    ensures StartsAtOrBelow(log, 0, mark)
  {
    assert log[..0] == [];
  }

  /** A second row is logged and sent, but its batch is held up. */
  ghost predicate SendsMore(events: seq<Event>, w1: Wire, r1: Row, w2: Wire) {
    Ships(events, w1, r1) && |events| >= 6 && events[4] == TabLogs(w2) && events[5] == Sends(1, 1)
  }

  function Waiting(epoch: string, w1: Wire, r1: Row, w2: Wire): Net
    requires r1.seqNo > 0
  {
    Shipped(epoch, w1, r1).(logs := [Log(epoch, [w1, w2])], sent := {Batch(0, 1, 0, [w1]), Batch(0, 1, 1, [w2])})
  }

  lemma StartIsKnown(w1: Wire, w2: Wire, r1: Row)
    requires Normalize(w1) == Some(r1)
    ensures StartsAtOrBelow([w1, w2], 1, r1.seqNo)
  {
    OneStorable(w1, r1);
    assert [w1, w2][..1] == [w1];
  }

  lemma SendMore(epoch: string, events: seq<Event>, w1: Wire, r1: Row, w2: Wire, r2: Row)
    requires epoch != "" && SendsMore(events, w1, r1, w2)
    requires Normalize(w1) == Some(r1) && Normalize(w2) == Some(r2) && r1.seqNo < r2.seqNo
    ensures FineUntil(epoch, events, 6) && After(epoch, events, 6) == Waiting(epoch, w1, r1, w2)
  {
    hide FineUntil, After, StartsAtOrBelow, Storable;
    Ship(epoch, events, w1, r1);
    var s4 := Shipped(epoch, w1, r1);
    TwoStorable(w1, w2, r1, r2);
    assert [w1] + [w2] == [w1, w2];
    FineOn(epoch, events, 4, s4);
    var s5 := s4.(logs := [Log(epoch, [w1, w2])]);
    assert Apply(s4, events[4]) == s5;
    StartIsKnown(w1, w2, r1);
    assert r1.seqNo in s5.acks;
    assert [w1, w2][1..2] == [w2];
    FineOn(epoch, events, 5, s5);
  }

  /** A late batch of the first log, once the copy has been reset under the same epoch. */
  lemma LateBatch(s: Net, epoch: string, b: Batch, w: Wire, r: Row)
    requires s.logs != [] && s.logs[0].epoch == epoch && epoch != "" && Normalize(w) == Some(r)
    requires s.desk == Store(Some(epoch), 0, []) && b.inc == 0 && b.events == [w]
    ensures var t := Apply(s, Delivers(b, false));
      t.desk == Store(Some(epoch), r.seqNo, [r]) && t.logs == s.logs && t.dropped == s.dropped
    ensures Gained(s.desk, [w]) == [r]
  {
    hide Appended, Gained;
    AppendsOne(s.desk, w, r, epoch);
    GainsOne(s.desk, epoch, w, r);
    assert [] + [r] == [r];
  }

  lemma GainsOne(st: Store, epoch: string, w: Wire, r: Row)
    requires Normalize(w) == Some(r) && r.seqNo > st.cursor && Accepts(st, epoch) && st.rows == []
    ensures Gained(st, [w]) == [r]
  {
    hide Appended, Gained, Normalize;
    AppendsOne(st, w, r, epoch);
    AddsGained(st, epoch, [w]);
    assert [] + [r] == [r] && [] + Gained(st, [w]) == Gained(st, [w]);
  }

  /** A batch sent before a same-epoch reset and accepted after it leaves a hole. The run, from
      the start: log, greet, send, deliver, log, send, greet with an outdated `max`, deliver. */
  lemma StragglerLeavesAHole(epoch: string, events: seq<Event>, w1: Wire, w2: Wire, r1: Row, r2: Row)
    requires epoch != "" && SendsMore(events, w1, r1, w2) && |events| == 8
    requires events[6] == Handshakes(Some(0)) && events[7] == Delivers(Batch(0, 1, 1, [w2]), false)
    requires Normalize(w1) == Some(r1) && Normalize(w2) == Some(r2) && r1.seqNo < r2.seqNo
    ensures Allowed(epoch, events, 8) && Untroubled(epoch, events, 7)
    ensures !NoStraggler(After(epoch, events, 7), events[7])
    ensures !Continues(After(epoch, events, 7).desk, Present(After(epoch, events, 7)).rows, [w2])
    ensures var s := After(epoch, events, 8);
      && s.desk.rows == [r2] && s.dropped == 0 && Present(s).rows == [w1, w2]
      && Filter(IsAtMost(s.desk.cursor), Storable(Present(s).rows)) == [r1, r2]
  {
    hide After, Storable, Appended, Trimmed, Filter;
    SendMore(epoch, events, w1, r1, w2, r2);
    var s6 := Waiting(epoch, w1, r1, w2);
    FineOn(epoch, events, 6, s6);
    var s7 := Apply(s6, events[6]);
    assert s7 == s6.(desk := Store(Some(epoch), 0, []), gen := 2, acks := {0});
    LateBatch(s7, epoch, Batch(0, 1, 1, [w2]), w2, r2);
    TwoStorable(w1, w2, r1, r2);
    SkipsARow(s7.desk, [w1, w2], [w2], r1, r2);
    AllowedOn(epoch, events, 7, s7);
    FilterAll(IsAtMost(r2.seqNo), [r1, r2]);
  }

  lemma SkipsARow(st: Store, log: seq<Wire>, events: seq<Wire>, r1: Row, r2: Row)
    requires st.cursor < r1.seqNo < r2.seqNo && Storable(log) == [r1, r2] && Gained(st, events) == [r2]
    ensures !Continues(st, log, events)
  {
    hide Storable, Gained;
    FilterAll(IsAbove(st.cursor), [r1, r2]);
    assert [r1, r2][0] != [r2][0];
  }

  lemma AllowedOn(epoch: string, events: seq<Event>, k: nat, s: Net)
    requires k < |events| && Allowed(epoch, events, k) && After(epoch, events, k) == s && s.logs != []
    requires TabAllows(s, events[k])
    ensures Allowed(epoch, events, k + 1) && After(epoch, events, k + 1) == Apply(s, events[k])
  {
    hide TabAllows, Apply;
  }

  /** The same when the tab tells the truth: between the send and the greeting its log was
      emptied, so `max` is 0, the clear is noticed, and a row of the old log is stored. */
  lemma StragglerOutlivesAClear(epoch: string, events: seq<Event>, w1: Wire, w2: Wire, r1: Row, r2: Row)
    requires epoch != "" && SendsMore(events, w1, r1, w2) && |events| == 9 && events[6] == TabClears
    requires events[7] == Handshakes(Some(0)) && events[8] == Delivers(Batch(0, 1, 1, [w2]), false)
    requires Normalize(w1) == Some(r1) && Normalize(w2) == Some(r2) && r1.seqNo < r2.seqNo
    ensures Allowed(epoch, events, 9) && Untroubled(epoch, events, 8)
    ensures High(Storable(Present(After(epoch, events, 7)).rows), 0) == 0
    ensures !Continues(After(epoch, events, 8).desk, [], [w2])
    ensures var s := After(epoch, events, 9); s.desk.rows == [r2] && Present(s).rows == []
  {
    hide After, Storable, High, Untroubled, Allowed, Gained, Above;
    var s8 := ResetAfterClear(epoch, events, w1, w2, r1, r2);
    LateBatch(s8, epoch, Batch(0, 1, 1, [w2]), w2, r2);
    NoRowsLeft(s8.desk);
    AllowedOn(epoch, events, 8, s8);
    NoRowsNoHigh();
  }

  /** Starting at the beginning of the log is no help: after a clear that was noticed, the first
      batch of the old log is delivered once more and its row is stored again. */
  lemma RedeliveryOutlivesAClear(epoch: string, events: seq<Event>, w: Wire, r: Row)
    requires epoch != "" && Ships(events, w, r) && Normalize(w) == Some(r) && |events| == 7
    requires events[4] == TabClears && events[5] == Handshakes(Some(0))
    requires events[6] == Delivers(Batch(0, 1, 0, [w]), false)
    ensures Allowed(epoch, events, 7) && Untroubled(epoch, events, 6)
    ensures !Continues(After(epoch, events, 6).desk, [], [w])
    ensures var s := After(epoch, events, 7); s.desk.rows == [r] && Present(s).rows == []
  {
    hide After, Storable, Untroubled, Allowed, Ships, Gained, Above;
    Ship(epoch, events, w, r);
    var s4 := Shipped(epoch, w, r);
    Harmless(s4, TabClears);
    FineOn(epoch, events, 4, s4);
    Clears(s4, Log(epoch, [w]));
    var s5 := s4.(logs := [Log(epoch, [w]), Log(epoch, [])], acks := {});
    FineOn(epoch, events, 5, s5);
    var s6 := Apply(s5, events[5]);
    assert s6.desk == Store(Some(epoch), 0, []) && s6.logs == s5.logs && s6.sent == s5.sent;
    LateBatch(s6, epoch, Batch(0, 1, 0, [w]), w, r);
    NoRowsLeft(s6.desk);
    AllowedOn(epoch, events, 6, s6);
  }

  lemma NoRowsLeft(st: Store)
    ensures Above(Storable([]), st.cursor) == []
  {
  }

  lemma NoRowsNoHigh()
    ensures High(Storable([]), 0) == 0
  {
  }

  lemma ResetAfterClear(epoch: string, events: seq<Event>, w1: Wire, w2: Wire, r1: Row, r2: Row) returns (s: Net)
    requires epoch != "" && SendsMore(events, w1, r1, w2) && |events| == 9
    requires events[6] == TabClears && events[7] == Handshakes(Some(0))
    requires Normalize(w1) == Some(r1) && Normalize(w2) == Some(r2) && r1.seqNo < r2.seqNo
    ensures FineUntil(epoch, events, 8) && s == After(epoch, events, 8)
    ensures Present(After(epoch, events, 7)).rows == []
    ensures s.logs == [Log(epoch, [w1, w2]), Log(epoch, [])] && s.desk == Store(Some(epoch), 0, [])
    ensures Batch(0, 1, 1, [w2]) in s.sent
  {
    hide After, Storable, FineUntil;
    SendMore(epoch, events, w1, r1, w2, r2);
    var s6 := Waiting(epoch, w1, r1, w2);
    FineOn(epoch, events, 6, s6);
    var s7 := s6.(logs := s6.logs + [Log(epoch, [])], acks := {});
    assert Apply(s6, events[6]) == s7;
    assert s7.logs == [Log(epoch, [w1, w2]), Log(epoch, [])];
    FineOn(epoch, events, 7, s7);
    s := Apply(s7, events[7]);
  }

  /** A cleared log that has grown back to the stored cursor: the tab tells the truth, the clear
      is not noticed, and the copy mixes a row of the old log with a row of the new one. */
  lemma RegrownLogIsMixed(epoch: string, events: seq<Event>, w: Wire, r: Row, v: Wire, q: Row, w2: Wire, r2: Row)
    requires epoch != "" && Ships(events, w, r) && |events| == 10
    requires events[4] == TabClears && events[5] == TabLogs(v) && events[6] == TabLogs(w2)
    requires events[7] == Handshakes(Some(r2.seqNo)) && events[8] == Sends(1, 1)
    requires events[9] == Delivers(Batch(1, 1, 1, [w2]), false)
    requires Normalize(w) == Some(r) && Normalize(v) == Some(q) && Normalize(w2) == Some(r2)
    requires q != r && q.seqNo == r.seqNo < r2.seqNo
    ensures Allowed(epoch, events, 10) && Untroubled(epoch, events, 7)
    ensures !ClearIsNoticed(After(epoch, events, 7), events[7])
    ensures High(Storable(Present(After(epoch, events, 7)).rows), 0) == r2.seqNo
    ensures var s := After(epoch, events, 10);
      && s.desk.rows == [r, r2] && Storable(Present(s).rows) == [q, r2]
      && !exists d: nat :: IsPrefixOf(s.desk, Present(s).rows, d)
  {
    hide After, Storable, Apply, High, Allowed, Untroubled, IsPrefixOf, TabAllows, ClearIsNoticed;
    var s7 := Regrown(epoch, events, w, r, v, q, w2, r2);
    TwoStorable(v, w2, q, r2);
    HighOfAscending([q, r2], 0);
    GoesUnnoticed(s7, epoch, r2.seqNo);
    AllowedOn(epoch, events, 7, s7);
    var s8 := s7.(acks := {r.seqNo});
    UnnoticedGreeting(s7, epoch, r2.seqNo);
    StartIsKnown(v, w2, q);
    assert [v, w2][1..2] == [w2];
    MaySend(s8, r.seqNo);
    AllowedOn(epoch, events, 8, s8);
    var s9 := s8.(sent := s8.sent + {Batch(1, 1, 1, [w2])});
    SendsOne(s8, w2);
    MayDeliver(s9, Batch(1, 1, 1, [w2]));
    AllowedOn(epoch, events, 9, s9);
    DeliversOne(s9, epoch, r, w2, r2);
    MixIsNoPrefix(Apply(s9, events[9]).desk, [v, w2], q, r, r2);
  }

  lemma MixIsNoPrefix(st: Store, log: seq<Wire>, q: Row, r: Row, r2: Row)
    requires q != r && q.seqNo < r2.seqNo && Storable(log) == [q, r2]
    requires st.rows == [r, r2] && st.cursor == r2.seqNo
    ensures !exists d: nat :: IsPrefixOf(st, log, d)
  {
    hide Storable;
    FilterAll(IsAtMost(r2.seqNo), [q, r2]);
    NeverATail(q, r, r2);
  }

  lemma GoesUnnoticed(s: Net, epoch: string, max: int)
    requires |s.logs| == 2 && Present(s).epoch == epoch && s.desk.epoch == Some(epoch) && s.held == 0
    requires s.desk.cursor <= max
    ensures !ClearIsNoticed(s, Handshakes(Some(max))) && TabAllows(s, Handshakes(Some(max)))
  {
  }

  lemma MaySend(s: Net, ack: nat)
    requires s.logs != [] && ack in s.acks && |Present(s).rows| == 2 && StartsAtOrBelow(Present(s).rows, 1, ack)
    ensures TabAllows(s, Sends(1, 1))
  {
  }

  lemma MayDeliver(s: Net, b: Batch)
    requires s.logs != [] && b in s.sent
    ensures TabAllows(s, Delivers(b, false))
  {
  }

  lemma UnnoticedGreeting(s: Net, epoch: string, max: int)
    requires s.logs != [] && Present(s).epoch == epoch && s.desk.epoch == Some(epoch) && s.acks == {}
    requires s.desk.cursor <= max
    ensures Apply(s, Handshakes(Some(max))) == s.(acks := {s.desk.cursor})
  {
  }

  lemma SendsOne(s: Net, w: Wire)
    requires |s.logs| == 2 && s.gen == 1 && |Present(s).rows| == 2 && Present(s).rows[1..2] == [w]
    ensures Apply(s, Sends(1, 1)) == s.(sent := s.sent + {Batch(1, 1, 1, [w])})
  {
  }

  lemma DeliversOne(s: Net, epoch: string, r: Row, w2: Wire, r2: Row)
    requires |s.logs| == 2 && s.logs[1].epoch == epoch && epoch != "" && Normalize(w2) == Some(r2)
    requires 0 < r.seqNo < r2.seqNo && s.desk == Store(Some(epoch), r.seqNo, [r])
    ensures var t := Apply(s, Delivers(Batch(1, 1, 1, [w2]), false));
      t.desk == Store(Some(epoch), r2.seqNo, [r, r2]) && t.logs == s.logs
  {
    hide Appended;
    AppendsOne(s.desk, w2, r2, epoch);
    assert [r] + [r2] == [r, r2];
  }

  lemma NeverATail(q: Row, r: Row, r2: Row)
    requires q != r
    ensures forall d: nat :: d <= 2 ==> [q, r2][d..] != [r, r2]
  {
    forall d: nat | d <= 2 ensures [q, r2][d..] != [r, r2] {
      if d == 0 {
        assert [q, r2][0..][0] == q;
      }
    }
  }

  lemma Regrown(epoch: string, events: seq<Event>, w: Wire, r: Row, v: Wire, q: Row, w2: Wire, r2: Row) returns (s: Net)
    requires epoch != "" && Ships(events, w, r) && |events| == 10
    requires events[4] == TabClears && events[5] == TabLogs(v) && events[6] == TabLogs(w2)
    requires Normalize(w) == Some(r) && Normalize(v) == Some(q) && Normalize(w2) == Some(r2) && q.seqNo < r2.seqNo
    ensures FineUntil(epoch, events, 7) && s == After(epoch, events, 7)
    ensures s == Shipped(epoch, w, r).(logs := [Log(epoch, [w]), Log(epoch, [v, w2])], acks := {})
  {
    hide FineUntil, After, Storable, Apply, ClearIsNoticed, NoStraggler;
    Ship(epoch, events, w, r);
    var s4, former := Shipped(epoch, w, r), Log(epoch, [w]);
    Harmless(s4, TabClears);
    FineOn(epoch, events, 4, s4);
    var s5 := s4.(logs := [former, Log(epoch, [])], acks := {});
    Clears(s4, former);
    OneStorable(v, q);
    assert [] + [v] == [v] && [v] + [w2] == [v, w2];
    Harmless(s5, TabLogs(v));
    FineOn(epoch, events, 5, s5);
    var s6 := s5.(logs := [former, Log(epoch, [v])]);
    LogsOne(s5, v);
    TwoStorable(v, w2, q, r2);
    Harmless(s6, TabLogs(w2));
    FineOn(epoch, events, 6, s6);
    s := s6.(logs := [former, Log(epoch, [v, w2])]);
    LogsOne(s6, w2);
  }

  lemma Harmless(s: Net, e: Event)
    requires s.logs != [] && (e.TabLogs? || e.TabClears?)
    ensures NoStraggler(s, e) && ClearIsNoticed(s, e)
  {
  }

  lemma Clears(s: Net, log: Log)
    requires s.logs == [log]
    ensures Apply(s, TabClears) == s.(logs := [log, Log(log.epoch, [])], acks := {})
  {
  }

  lemma LogsOne(s: Net, w: Wire)
    requires |s.logs| == 2
    ensures Apply(s, TabLogs(w)) == s.(logs := [s.logs[0], Log(s.logs[1].epoch, s.logs[1].rows + [w])])
  {
  }

  // ── concrete rows ─────────────────────────────────────────────────────

  function SampleWire(seqNo: int, run: string): Wire {
    Wire(Some(seqNo), Some(run), None, None, None, None, Some(['k']), Unserializable)
  }

  function SampleRow(seqNo: int, run: string): Row {
    Row(seqNo, run, "", None, None, None, ['k'], Note)
  }

  lemma SampleNormalizes(seqNo: int, run: string)
    requires seqNo > 0
    ensures Normalize(SampleWire(seqNo, run)) == Some(SampleRow(seqNo, run))
  {
    var k := OrEmpty(SampleWire(seqNo, run).kind);
    assert k == ['k'] && !IsSpace('k');
    TrimFixed(k);
    assert k[..1] == k;
  }

  function SampleHole(w1: Wire, w2: Wire): seq<Event> {
    [TabLogs(w1), Handshakes(Some(1)), Sends(0, 1), Delivers(Batch(0, 1, 0, [w1]), false),
     TabLogs(w2), Sends(1, 1), Handshakes(Some(0)), Delivers(Batch(0, 1, 1, [w2]), false)]
  }

  function SampleMix(w: Wire, v: Wire, w2: Wire): seq<Event> {
    [TabLogs(w), Handshakes(Some(1)), Sends(0, 1), Delivers(Batch(0, 1, 0, [w]), false),
     TabClears, TabLogs(v), TabLogs(w2), Handshakes(Some(2)), Sends(1, 1),
     Delivers(Batch(1, 1, 1, [w2]), false)]
  }

  /** The hole and the mixture with concrete rows, those of the mixture telling two runs apart. */
  lemma TroubledRuns(epoch: string, a: string, b: string)
    requires epoch != "" && a != b
    ensures var s := After(epoch, SampleHole(SampleWire(1, a), SampleWire(2, a)), 8);
      s.desk.rows == [SampleRow(2, a)] && s.dropped == 0 && Present(s).rows == [SampleWire(1, a), SampleWire(2, a)]
    ensures var s := After(epoch, SampleMix(SampleWire(1, a), SampleWire(1, b), SampleWire(2, b)), 10);
      s.desk.rows == [SampleRow(1, a), SampleRow(2, b)] && Storable(Present(s).rows) == [SampleRow(1, b), SampleRow(2, b)]
  {
    hide After, Storable, Normalize, Allowed, Untroubled, NoStraggler, ClearIsNoticed, Filter;
    SampleNormalizes(1, a);
    SampleNormalizes(2, a);
    SampleNormalizes(1, b);
    SampleNormalizes(2, b);
    StragglerLeavesAHole(epoch, SampleHole(SampleWire(1, a), SampleWire(2, a)),
                         SampleWire(1, a), SampleWire(2, a), SampleRow(1, a), SampleRow(2, a));
    RegrownLogIsMixed(epoch, SampleMix(SampleWire(1, a), SampleWire(1, b), SampleWire(2, b)),
                      SampleWire(1, a), SampleRow(1, a), SampleWire(1, b), SampleRow(1, b),
                      SampleWire(2, b), SampleRow(2, b));
  }
}
