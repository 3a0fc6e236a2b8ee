/** Readers of the desktop copy: paging forward by the last row returned, and the
    command line's follow loop, which advances by the stream cursor. */
module Follower {
  import opened Lists
  import opened Text
  import opened PeerLog
  import opened PeerLogRuns
  import opened Replication

  /** What a reader sees of the copy at one moment. */
  datatype Snap = Snap(rows: seq<Row>, cursor: nat)

  ghost predicate Sound(s: Snap) {
    && Ascending(s.rows) && AllAtMost(s.rows, s.cursor)
    && forall i :: 0 <= i < |s.rows| ==> s.rows[i].seqNo > 0
  }

  /** Later in the same epoch, without a reset or a trim: new rows lie above the old cursor. */
  ghost predicate Grows(a: Snap, b: Snap) {
    a.rows <= b.rows && a.cursor <= b.cursor && AllAbove(b.rows[|a.rows|..], a.cursor)
  }

  /** Appends are the only way a copy grows, and they grow it like this. */
  lemma AppendGrows(st: Store, epoch: string, events: seq<Wire>)
    requires Valid(st)
    ensures var t := Appended(st, epoch, events);
      Sound(Snap(st.rows, st.cursor)) && Sound(Snap(t.rows, t.cursor))
      && Grows(Snap(st.rows, st.cursor), Snap(t.rows, t.cursor))
  {
    hide Gained, Offered, InsertAll, High;
    AppendedValid(st, epoch, events);
    if Accepts(st, epoch) {
      AddsGained(st, epoch, events);
    }
  }

  // ── windows ───────────────────────────────────────────────────────────

  /** All rows above `after` that the query asks for. */
  function Hits(q: Query, rows: seq<Row>, after: int): seq<Row> {
    Select(q, Above(rows, after))
  }

  function Asking(q: Query, after: nat): Query {
    q.(after := if after > 0 then Some(after) else None)
  }

  lemma SameSelection(q: Query, after: nat, rows: seq<Row>)
    ensures Select(Asking(q, after), rows) == Select(q, rows)
    ensures EffectiveLimit(Asking(q, after)) == EffectiveLimit(q) && EffectiveAfter(Asking(q, after)) == after
    decreases |rows|
  {
    if rows != [] {
      SameSelection(q, after, rows[..|rows| - 1]);
    }
  }

  lemma AboveZero(rows: seq<Row>)
    requires forall i :: 0 <= i < |rows| ==> rows[i].seqNo > 0
    ensures Above(rows, 0) == rows
  {
    FilterAll(IsAbove(0), rows);
  }

  /** A forward window is the first `limit` hits. */
  lemma ForwardWindow(q: Query, rows: seq<Row>, after: nat)
    requires after > 0
    ensures var hits := Hits(q, rows, after);
      var n := if |hits| > EffectiveLimit(q) then EffectiveLimit(q) else |hits|;
      Window(Asking(q, after), rows) == hits[..n]
  {
    SameSelection(q, after, Above(rows, after));
  }

  /** Any window is all hits when they fit, and exactly `limit` of them when they do not. */
  lemma WindowFits(q: Query, s: Snap, after: nat)
    requires Sound(s)
    ensures var hits := Hits(q, s.rows, after);
      var out := Window(Asking(q, after), s.rows);
      && (|hits| <= EffectiveLimit(q) ==> out == hits)
      && (|hits| > EffectiveLimit(q) ==> |out| == EffectiveLimit(q))
  {
    if after > 0 {
      ForwardWindow(q, s.rows, after);
    } else {
      AboveZero(s.rows);
      SameSelection(q, 0, s.rows);
    }
  }

  /** The hits above a later address are among those above an earlier one. */
  lemma HitsAbove(q: Query, rows: seq<Row>, low: int, high: int)
    requires low <= high
    ensures Hits(q, rows, high) == Above(Hits(q, rows, low), high)
  {
    FilterStronger(IsAbove(high), IsAbove(low), rows);
    FilterCommute(IsAbove(high), MatchesQuery(q), Above(rows, low));
  }

  lemma HitsOrdered(q: Query, rows: seq<Row>, low: int)
    requires Ascending(rows)
    ensures Ascending(Hits(q, rows, low)) && AllAbove(Hits(q, rows, low), low)
    ensures forall x :: x in Hits(q, rows, low) <==> x in rows && Matches(q, x) && x.seqNo > low
  {
    FilterKeepsAscending(IsAbove(low), rows);
    FilterKeepsAscending(MatchesQuery(q), Above(rows, low));
    forall x ensures x in Hits(q, rows, low) <==> x in rows && Matches(q, x) && x.seqNo > low {
      FilterMember(MatchesQuery(q), Above(rows, low), x);
      FilterMember(IsAbove(low), rows, x);
    }
    var hits := Hits(q, rows, low);
    forall i | 0 <= i < |hits| ensures hits[i].seqNo > low {
      assert hits[i] in hits;
    }
  }

  /** Growth only adds hits at the end. */
  lemma HitsGrow(q: Query, a: Snap, b: Snap, low: int)
    requires Grows(a, b)
    ensures Hits(q, b.rows, low) == Hits(q, a.rows, low) + Hits(q, b.rows[|a.rows|..], low)
  {
    assert b.rows == a.rows + b.rows[|a.rows|..];
    FilterAppend(IsAbove(low), a.rows, b.rows[|a.rows|..]);
    FilterAppend(MatchesQuery(q), Above(a.rows, low), Above(b.rows[|a.rows|..], low));
  }

  // ── paging by the last row returned ───────────────────────────────────

  /** What a pager has read, and the address it will ask after. */
  datatype Pager = Pager(read: seq<Row>, last: nat)

  function Page(q: Query, p: Pager, s: Snap): Pager {
    var out := Window(Asking(q, p.last), s.rows);
    if out == [] || out[|out| - 1].seqNo < 0 then p else Pager(p.read + out, out[|out| - 1].seqNo)
  }

  /** The pager has read the first hits above its start, and stands at the last of them. */
  ghost predicate Reading(q: Query, p: Pager, start: nat, s: Snap) {
    && p.read <= Hits(q, s.rows, start)
    && p.last == if p.read == [] then start else p.read[|p.read| - 1].seqNo
  }

  lemma ReadingGrows(q: Query, p: Pager, start: nat, a: Snap, b: Snap)
    requires Reading(q, p, start, a) && Grows(a, b)
    ensures Reading(q, p, start, b)
  {
    HitsGrow(q, a, b, start);
  }

  /** What is left after a prefix of the hits. */
  lemma HitsLeft(q: Query, p: Pager, start: nat, s: Snap)
    requires Sound(s) && Reading(q, p, start, s)
    ensures Hits(q, s.rows, p.last) == Hits(q, s.rows, start)[|p.read|..]
    ensures p.last >= start
  {
    var hits := Hits(q, s.rows, start);
    HitsOrdered(q, s.rows, start);
    if p.read == [] {
      assert hits[0..] == hits;
    } else {
      assert p.last == hits[|p.read| - 1].seqNo;
      HitsAbove(q, s.rows, start, p.last);
      FilterSplit(IsAbove(p.last), hits, |p.read|);
    }
  }

  lemma TakeMore<T>(s: seq<T>, a: nat, n: nat)
    requires a + n <= |s|
    ensures s[..a] + s[a..][..n] == s[..a + n]
    ensures n > 0 ==> s[a..][..n][n - 1] == s[a + n - 1]
  {
  }

  function PageSize(q: Query, left: nat): nat {
    if left > EffectiveLimit(q) then EffectiveLimit(q) else left
  }

  lemma PageWindow(q: Query, p: Pager, start: nat, s: Snap)
    requires Sound(s) && p.last > 0 && Reading(q, p, start, s)
    ensures var left := Hits(q, s.rows, start)[|p.read|..];
      Window(Asking(q, p.last), s.rows) == left[..PageSize(q, |left|)]
  {
    HitsLeft(q, p, start, s);
    ForwardWindow(q, s.rows, p.last);
  }

  lemma ReadingStays(q: Query, p: Pager, start: nat, s: Snap, read: nat)
    requires read <= |Hits(q, s.rows, start)| && p.read == Hits(q, s.rows, start)[..read]
    requires p.last == if read == 0 then start else Hits(q, s.rows, start)[read - 1].seqNo
    ensures Reading(q, p, start, s)
  {
  }

  /** The next `limit` hits in order, or all that are left. */
  ghost predicate ReadsOn(q: Query, start: nat, s: Snap, before: Pager, after: Pager) {
    var hits := Hits(q, s.rows, start);
    && |before.read| <= |hits|
    && after.read == hits[..|before.read| + PageSize(q, |hits| - |before.read|)]
  }

  /** A page that is the next `n` hits. */
  lemma PageOf(q: Query, p: Pager, s: Snap, hits: seq<Row>, n: nat)
    requires |p.read| + n <= |hits| && p.read == hits[..|p.read|]
    requires Window(Asking(q, p.last), s.rows) == hits[|p.read|..][..n]
    requires forall i :: 0 <= i < |hits| ==> hits[i].seqNo >= 0
    ensures Page(q, p, s).read == hits[..|p.read| + n]
    ensures Page(q, p, s).last == if n == 0 then p.last else hits[|p.read| + n - 1].seqNo
  {
    hide Window;
    TakeMore(hits, |p.read|, n);
  }

  lemma PageReads(q: Query, p: Pager, start: nat, s: Snap)
    requires Sound(s) && p.last > 0 && Reading(q, p, start, s)
    ensures var hits := Hits(q, s.rows, start);
      var n := PageSize(q, |hits| - |p.read|);
      && Page(q, p, s).read == hits[..|p.read| + n]
      && Page(q, p, s).last == if n == 0 then p.last else hits[|p.read| + n - 1].seqNo
  {
    hide Hits, Window, EffectiveLimit, Page;
    var hits := Hits(q, s.rows, start);
    HitsOrdered(q, s.rows, start);
    PageWindow(q, p, start, s);
    PageOf(q, p, s, hits, PageSize(q, |hits| - |p.read|));
  }

  lemma PageAdvances(q: Query, p: Pager, start: nat, s: Snap)
    requires Sound(s) && p.last > 0 && Reading(q, p, start, s)
    ensures ReadsOn(q, start, s, p, Page(q, p, s))
    ensures Reading(q, Page(q, p, s), start, s) && Page(q, p, s).last > 0
  {
    hide Hits, Page, EffectiveLimit, Sound;
    var hits := Hits(q, s.rows, start);
    PageReads(q, p, start, s);
    ReadingStays(q, Page(q, p, s), start, s, |p.read| + PageSize(q, |hits| - |p.read|));
    HitsArePositive(q, s, start);
  }

  lemma HitsArePositive(q: Query, s: Snap, start: nat)
    requires Sound(s)
    ensures forall i :: 0 <= i < |Hits(q, s.rows, start)| ==> Hits(q, s.rows, start)[i].seqNo > 0
  {
    hide Hits;
    HitsOrdered(q, s.rows, start);
  }

  /** A pager that started above 0 asks above 0. */
  lemma LastIsPositive(q: Query, p: Pager, start: nat, s: Snap)
    requires Sound(s) && start > 0 && Reading(q, p, start, s)
    ensures p.last > 0
  {
    hide Hits, Sound;
    HitsLeft(q, p, start, s);
  }

  ghost predicate GrowingRun(snaps: seq<Snap>) {
    && (forall i :: 0 <= i < |snaps| ==> Sound(snaps[i]))
    && (forall i {:trigger snaps[i]} :: 0 < i < |snaps| ==> Grows(snaps[i - 1], snaps[i]))
  }

  // ── runs that grow ────────────────────────────────────────────────────

  lemma GrowsOn(a: Snap, b: Snap, c: Snap)
    requires Grows(a, b) && Grows(b, c)
    ensures Grows(a, c)
  {
    var more, most := b.rows[|a.rows|..], c.rows[|a.rows|..];
    forall i | 0 <= i < |most| ensures most[i].seqNo > a.cursor {
      if i < |more| {
        assert most[i] == more[i];
      } else {
        assert most[i] == c.rows[|b.rows|..][i - |more|];
      }
    }
  }

  function SnapOf(st: Store): Snap {
    Snap(st.rows, st.cursor)
  }

  /** No call from position `from` on clears or trims the copy. */
  ghost predicate OnlyGrows(st: Store, ops: seq<Op>, from: nat) {
    |ops| <= from
    || (var init, last := ops[..|ops| - 1], ops[|ops| - 1];
        OnlyGrows(st, init, from) && !Clears(Run(st, init), last) && !(last.Append? && last.oversized))
  }

  lemma StepGrows(st: Store, op: Op)
    requires Valid(st) && !Clears(st, op) && !(op.Append? && op.oversized)
    ensures Grows(SnapOf(st), SnapOf(Step(st, op)))
  {
    if op.Append? {
      AppendGrows(st, op.name, op.events);
      TrimLeavesTiny(Appended(st, op.name, op.events), op.oversized);
    }
  }

  lemma ValidIsSound(st: Store)
    requires Valid(st)
    ensures Sound(SnapOf(st)) && Grows(SnapOf(st), SnapOf(st))
  {
  }

  /** What a reader sees at two moments of a run without clears and trims in between. */
  lemma {:induction false} RunGrows(st: Store, ops: seq<Op>, from: nat)
    requires Valid(st) && from <= |ops| && OnlyGrows(st, ops, from)
    ensures Grows(SnapOf(Run(st, ops[..from])), SnapOf(Run(st, ops)))
    ensures Sound(SnapOf(Run(st, ops)))
  {
    hide Grows, Sound, Clears, Step, Valid;
    RunKeepsValid(st, ops);
    ValidIsSound(Run(st, ops));
    if from == |ops| {
      assert ops[..from] == ops;
    } else {
      var init, last := ops[..|ops| - 1], ops[|ops| - 1];
      RunGrows(st, init, from);
      RunKeepsValid(st, init);
      StepGrows(Run(st, init), last);
      assert init[..from] == ops[..from];
      GrowsOn(SnapOf(Run(st, ops[..from])), SnapOf(Run(st, init)), SnapOf(Run(st, ops)));
    }
  }

  /** The copy as read at several moments of a run, each given by how many calls came before. */
  ghost predicate ReadAt(st: Store, ops: seq<Op>, moments: seq<nat>, snaps: seq<Snap>) {
    && |snaps| == |moments|
    && (forall i :: 0 <= i < |moments| ==> moments[i] <= |ops| && snaps[i] == SnapOf(Run(st, ops[..moments[i]])))
    && (forall i {:trigger moments[i]} :: 0 < i < |moments| ==> moments[i - 1] <= moments[i])
  }

  lemma {:induction false} OnlyGrowsPrefix(st: Store, ops: seq<Op>, from: nat, to: nat)
    requires to <= |ops| && OnlyGrows(st, ops, from)
    ensures OnlyGrows(st, ops[..to], from)
    decreases |ops|
  {
    if to == |ops| || |ops| <= from {
      assert to == |ops| ==> ops[..to] == ops;
    } else {
      OnlyGrowsPrefix(st, ops[..|ops| - 1], from, to);
      assert ops[..|ops| - 1][..to] == ops[..to];
    }
  }

  /** Readers of a run without clears and trims see a growing run. */
  lemma ReadersSeeAGrowingRun(st: Store, ops: seq<Op>, moments: seq<nat>, snaps: seq<Snap>)
    requires Valid(st) && OnlyGrows(st, ops, 0) && ReadAt(st, ops, moments, snaps)
    ensures GrowingRun(snaps)
  {
    hide Sound, Grows, OnlyGrows, Run, Valid;
    forall i | 0 <= i < |snaps| ensures Sound(snaps[i]) {
      RunKeepsValid(st, ops[..moments[i]]);
      ValidIsSound(Run(st, ops[..moments[i]]));
    }
    forall i {:trigger snaps[i]} | 0 < i < |snaps| ensures Grows(snaps[i - 1], snaps[i]) {
      GrowsBetween(st, ops, moments[i - 1], moments[i]);
    }
  }

  lemma GrowsBetween(st: Store, ops: seq<Op>, a: nat, b: nat)
    requires Valid(st) && OnlyGrows(st, ops, 0) && a <= b <= |ops|
    ensures Grows(SnapOf(Run(st, ops[..a])), SnapOf(Run(st, ops[..b])))
  {
    hide Grows, Run, Valid, Clears;
    OnlyGrowsPrefix(st, ops, 0, b);
    OnlyGrowsFrom(st, ops[..b], 0, a);
    assert ops[..b][..a] == ops[..a];
    RunGrows(st, ops[..b], a);
  }

  lemma {:induction false} OnlyGrowsFrom(st: Store, ops: seq<Op>, low: nat, high: nat)
    requires low <= high && OnlyGrows(st, ops, low)
    ensures OnlyGrows(st, ops, high)
  {
    if |ops| > high {
      OnlyGrowsFrom(st, ops[..|ops| - 1], low, high);
    }
  }

  // ── paging on a growing copy ──────────────────────────────────────────

  function PageAll(q: Query, start: nat, snaps: seq<Snap>): Pager {
    if snaps == [] then Pager([], start)
    else Page(q, PageAll(q, start, snaps[..|snaps| - 1]), snaps[|snaps| - 1])
  }

  lemma {:induction false} PagerReads(q: Query, start: nat, snaps: seq<Snap>, k: nat)
    requires start > 0 && k < |snaps| && GrowingRun(snaps)
    ensures Reading(q, PageAll(q, start, snaps[..k]), start, snaps[k])
    ensures Reading(q, PageAll(q, start, snaps[..k + 1]), start, snaps[k])
  {
    hide Hits, Page, ReadsOn, Sound;
    if k > 0 {
      PagerReads(q, start, snaps, k - 1);
      assert Grows(snaps[k - 1], snaps[k]);
      ReadingGrows(q, PageAll(q, start, snaps[..k]), start, snaps[k - 1], snaps[k]);
    }
    assert snaps[..k + 1][..k] == snaps[..k];
    LastIsPositive(q, PageAll(q, start, snaps[..k]), start, snaps[k]);
    PageAdvances(q, PageAll(q, start, snaps[..k]), start, snaps[k]);
  }

  /** Over any run of polls on a growing copy, each poll continues where the last one
      ended: every hit above the start is read once, in order, `limit` at a time. */
  lemma PagerReadsEveryHitOnce(q: Query, start: nat, snaps: seq<Snap>, k: nat)
    requires start > 0 && k < |snaps| && GrowingRun(snaps)
    ensures ReadsOn(q, start, snaps[k], PageAll(q, start, snaps[..k]), PageAll(q, start, snaps[..k + 1]))
    ensures PageAll(q, start, snaps[..k]).read <= PageAll(q, start, snaps[..k + 1]).read
  {
    hide Hits, Page;
    PagerReads(q, start, snaps, k);
    assert snaps[..k + 1][..k] == snaps[..k];
    LastIsPositive(q, PageAll(q, start, snaps[..k]), start, snaps[k]);
    PageAdvances(q, PageAll(q, start, snaps[..k]), start, snaps[k]);
  }

  function PageTimes(q: Query, start: nat, s: Snap, polls: nat): Pager {
    if polls == 0 then Pager([], start) else Page(q, PageTimes(q, start, s, polls - 1), s)
  }

  /** Once the copy stands still, enough polls read everything, whatever the limit. */
  lemma {:induction false} PagerFinishes(q: Query, start: nat, s: Snap, polls: nat)
    requires start > 0 && Sound(s)
    ensures Reading(q, PageTimes(q, start, s, polls), start, s)
    ensures |PageTimes(q, start, s, polls).read| >= polls
         || PageTimes(q, start, s, polls).read == Hits(q, s.rows, start)
  {
    if polls > 0 {
      PagerFinishes(q, start, s, polls - 1);
      LastIsPositive(q, PageTimes(q, start, s, polls - 1), start, s);
      PageAdvances(q, PageTimes(q, start, s, polls - 1), start, s);
    }
  }

  // ── paging from 0 ─────────────────────────────────────────────────────

  /** How many hits the newest window leaves behind it. */
  function Skipped(q: Query, s: Snap): nat {
    var hits := Hits(q, s.rows, 0);
    if |hits| > EffectiveLimit(q) then |hits| - EffectiveLimit(q) else 0
  }

  /** The address that a pager which began with the newest window might as well have begun at. */
  function StartAfterNewest(q: Query, s: Snap): int {
    var n := Skipped(q, s);
    if n == 0 then 0 else Hits(q, s.rows, 0)[n - 1].seqNo
  }

  /** Asked from 0, the first page is the newest hits. */
  lemma NewestPage(q: Query, s: Snap)
    requires Sound(s)
    ensures Window(Asking(q, 0), s.rows) == Hits(q, s.rows, 0)[Skipped(q, s)..]
  {
    AboveZero(s.rows);
    SameSelection(q, 0, s.rows);
    var hits := Hits(q, s.rows, 0);
    assert hits[0..] == hits;
  }

  lemma HitsAfterNewest(q: Query, s: Snap)
    requires Sound(s)
    ensures StartAfterNewest(q, s) >= 0
    ensures Hits(q, s.rows, StartAfterNewest(q, s)) == Hits(q, s.rows, 0)[Skipped(q, s)..]
  {
    var hits, n := Hits(q, s.rows, 0), Skipped(q, s);
    HitsOrdered(q, s.rows, 0);
    if n == 0 {
      assert hits[0..] == hits;
    } else {
      HitsAbove(q, s.rows, 0, hits[n - 1].seqNo);
      FilterSplit(IsAbove(hits[n - 1].seqNo), hits, n);
    }
  }

  lemma FirstPageFromZero(q: Query, s: Snap)
    requires Sound(s) && Hits(q, s.rows, 0) != []
    ensures StartAfterNewest(q, s) >= 0
    ensures var p := Page(q, Pager([], 0), s);
      && Reading(q, p, StartAfterNewest(q, s), s) && p.last > 0
      && p.read == Hits(q, s.rows, StartAfterNewest(q, s)) != []
  {
    hide Hits, Window;
    NewestPage(q, s);
    HitsAfterNewest(q, s);
    HitsArePositive(q, s, 0);
    assert [] + Hits(q, s.rows, 0)[Skipped(q, s)..] == Hits(q, s.rows, 0)[Skipped(q, s)..];
  }

  /** While it finds nothing, a pager that starts at 0 stays there. */
  lemma {:induction false} StaysAtZero(q: Query, snaps: seq<Snap>)
    requires forall i :: 0 <= i < |snaps| ==> Sound(snaps[i]) && Hits(q, snaps[i].rows, 0) == []
    ensures PageAll(q, 0, snaps) == Pager([], 0)
  {
    hide Hits, Window, Sound;
    if snaps != [] {
      StaysAtZero(q, snaps[..|snaps| - 1]);
      NewestPage(q, snaps[|snaps| - 1]);
    }
  }

  /** On a growing copy a pager that starts at 0, and finds its first hits at poll `f`, reads
      from then on, once and in order, the hits above the newest window's first row, and never
      those before it. */
  lemma {:induction false} PagerFromZeroReads(q: Query, snaps: seq<Snap>, f: nat, k: nat)
    requires f <= k < |snaps| && GrowingRun(snaps) && Hits(q, snaps[f].rows, 0) != []
    requires forall i :: 0 <= i < f ==> Hits(q, snaps[i].rows, 0) == []
    ensures StartAfterNewest(q, snaps[f]) >= 0
    ensures var p := PageAll(q, 0, snaps[..k + 1]);
      Reading(q, p, StartAfterNewest(q, snaps[f]), snaps[k]) && p.last > 0
  {
    hide Hits, Page, StartAfterNewest, Reading, Sound, Grows;
    assert snaps[..k + 1][..k] == snaps[..k];
    if k == f {
      StaysAtZero(q, snaps[..f]);
      FirstPageFromZero(q, snaps[f]);
    } else {
      PagerFromZeroReads(q, snaps, f, k - 1);
      var start, p := StartAfterNewest(q, snaps[f]), PageAll(q, 0, snaps[..k]);
      assert Grows(snaps[k - 1], snaps[k]);
      ReadingGrows(q, p, start, snaps[k - 1], snaps[k]);
      PageAdvances(q, p, start, snaps[k]);
    }
  }

  /** On a copy that stands still, paging from 0 ends with the newest window. */
  lemma {:induction false} PagingFromZeroIs(q: Query, s: Snap, polls: nat)
    requires Sound(s) && polls > 0
    ensures PageTimes(q, 0, s, polls).read == Hits(q, s.rows, 0)[Skipped(q, s)..]
    ensures Hits(q, s.rows, 0) != [] ==>
      (&& StartAfterNewest(q, s) >= 0 && PageTimes(q, 0, s, polls).last > 0
       && Reading(q, PageTimes(q, 0, s, polls), StartAfterNewest(q, s), s))
    ensures Hits(q, s.rows, 0) == [] ==> PageTimes(q, 0, s, polls) == Pager([], 0)
  {
    hide Hits, Page, Window, StartAfterNewest, Sound;
    if Hits(q, s.rows, 0) == [] {
      EmptyPages(q, s, polls);
    } else {
      HitsAfterNewest(q, s);
      if polls == 1 {
        assert PageTimes(q, 0, s, 0) == Pager([], 0);
        FirstPageFromZero(q, s);
      } else {
        PagingFromZeroIs(q, s, polls - 1);
        var p := PageTimes(q, 0, s, polls - 1);
        PageAdvances(q, p, StartAfterNewest(q, s), s);
      }
    }
  }

  lemma {:induction false} EmptyPages(q: Query, s: Snap, polls: nat)
    requires Sound(s) && Hits(q, s.rows, 0) == []
    ensures PageTimes(q, 0, s, polls) == Pager([], 0)
  {
    hide Hits, Window;
    NewestPage(q, s);
    if polls > 0 {
      EmptyPages(q, s, polls - 1);
    }
  }

  /** So it reads every hit if and only if they fit into one window. */
  lemma PagingFromZeroIsCompleteIff(q: Query, s: Snap, polls: nat)
    requires Sound(s) && polls > 0
    ensures PageTimes(q, 0, s, polls).read == Hits(q, s.rows, 0) <==> |Hits(q, s.rows, 0)| <= EffectiveLimit(q)
  {
    hide Hits, PageTimes, Sound;
    PagingFromZeroIs(q, s, polls);
  }

  const ONE_AT_A_TIME := Query([], false, Some(1), None)

  lemma EverythingMatches(rows: seq<Row>)
    requires forall i :: 0 <= i < |rows| ==> rows[i].seqNo > 0
    ensures Hits(ONE_AT_A_TIME, rows, 0) == rows && EffectiveLimit(ONE_AT_A_TIME) == 1
  {
    assert KindFilter([]) == [];
    AboveZero(rows);
    FilterAll(MatchesQuery(ONE_AT_A_TIME), rows);
  }

  /** Two rows and a limit of 1: the first row is never read. */
  lemma PagingFromZeroMissesARow(a: Row, b: Row, polls: nat)
    requires 0 < a.seqNo < b.seqNo && polls > 0
    ensures PageTimes(ONE_AT_A_TIME, 0, Snap([a, b], b.seqNo), polls).read == [b]
  {
    hide PageTimes, Hits, EffectiveLimit;
    EverythingMatches([a, b]);
    PagingFromZeroIs(ONE_AT_A_TIME, Snap([a, b], b.seqNo), polls);
    assert [a, b][1..] == [b];
  }

  // ── the follow loop ───────────────────────────────────────────────────

  function Max(a: nat, b: nat): nat {
    if a > b then a else b
  }

  /** `logUrl`: the query of one poll; `--after` stays a lower bound throughout. */
  function LogUrl(q: Query, argsAfter: nat, after: nat): Query {
    Asking(q, Max(after, argsAfter))
  }

  /** Where the loop asks from at poll `k`, having first asked from `start`. */
  function From(start: nat, snaps: seq<Snap>, k: nat): nat
    requires k <= |snaps|
  {
    if k == 0 then start else Max(From(start, snaps, k - 1), snaps[k - 1].cursor)
  }

  /** The rows printed by the first `k` polls. */
  function Shown(q: Query, start: nat, snaps: seq<Snap>, k: nat): seq<Row>
    requires k <= |snaps|
  {
    if k == 0 then []
    else Shown(q, start, snaps, k - 1) + Window(Asking(q, From(start, snaps, k - 1)), snaps[k - 1].rows)
  }

  /** The follow loop of the command line, run for as many polls as there are snapshots. */
  method Follow(q: Query, argsAfter: nat, firstCursor: nat, snaps: seq<Snap>) returns (printed: seq<Row>)
    ensures printed == Shown(q, Max(firstCursor, argsAfter), snaps, |snaps|)
  {
    hide Window, EffectiveLimit;
    printed := [];
    var after := firstCursor;
    for k := 0 to |snaps|
      invariant Max(after, argsAfter) == From(Max(firstCursor, argsAfter), snaps, k)
      invariant printed == Shown(q, Max(firstCursor, argsAfter), snaps, k)
    {
      printed := printed + Window(LogUrl(q, argsAfter, after), snaps[k].rows);
      after := Max(after, snaps[k].cursor);
    }
  }

  /** The hits that wait for poll `k`. */
  function Waiting(q: Query, start: nat, snaps: seq<Snap>, k: nat): seq<Row>
    requires k < |snaps|
  {
    Hits(q, snaps[k].rows, From(start, snaps, k))
  }

  ghost predicate EveryPollFits(q: Query, start: nat, snaps: seq<Snap>, k: nat)
    requires k <= |snaps|
  {
    k == 0 || (EveryPollFits(q, start, snaps, k - 1) && |Waiting(q, start, snaps, k - 1)| <= EffectiveLimit(q))
  }

  lemma {:induction false} FromIs(start: nat, snaps: seq<Snap>, k: nat)
    requires 0 < k <= |snaps| && GrowingRun(snaps)
    ensures From(start, snaps, k) == Max(start, snaps[k - 1].cursor)
  {
    if k > 1 {
      FromIs(start, snaps, k - 1);
      assert Grows(snaps[k - 2], snaps[k - 1]);
    }
  }

  /** The hits of a grown copy: those of the old one, then those above its cursor. */
  lemma WaitingExtends(q: Query, start: nat, a: Snap, b: Snap)
    requires Sound(a) && Sound(b) && Grows(a, b)
    ensures Hits(q, b.rows, start) == Hits(q, a.rows, start) + Hits(q, b.rows, Max(start, a.cursor))
  {
    hide Filter;
    var more := b.rows[|a.rows|..];
    HitsGrow(q, a, b, start);
    if a.cursor >= start {
      HitsGrow(q, a, b, a.cursor);
      FilterNone(IsAbove(a.cursor), a.rows);
      FilterAll(IsAbove(a.cursor), more);
      FilterAll(IsAbove(start), more);
      assert [] + Hits(q, more, a.cursor) == Hits(q, more, a.cursor);
    } else {
      FilterNone(IsAbove(start), a.rows);
      assert [] + Hits(q, b.rows, start) == Hits(q, b.rows, start);
    }
  }

  lemma {:induction false} ShownIsBounded(q: Query, start: nat, snaps: seq<Snap>, k: nat)
    requires 0 < k <= |snaps| && GrowingRun(snaps)
    ensures var hits := Hits(q, snaps[k - 1].rows, start);
      && |Shown(q, start, snaps, k)| <= |hits|
      && (EveryPollFits(q, start, snaps, k) ==> Shown(q, start, snaps, k) == hits)
      && (!EveryPollFits(q, start, snaps, k) ==> |Shown(q, start, snaps, k)| < |hits|)
  {
    hide Hits, Window, EffectiveLimit, Sound, Grows, Asking;
    WindowFits(q, snaps[k - 1], From(start, snaps, k - 1));
    if k == 1 {
      FirstShown(q, start, snaps);
    } else {
      ShownIsBounded(q, start, snaps, k - 1);
      FromIs(start, snaps, k - 1);
      assert Grows(snaps[k - 2], snaps[k - 1]);
      WaitingExtends(q, start, snaps[k - 2], snaps[k - 1]);
    }
  }

  lemma FirstShown(q: Query, start: nat, snaps: seq<Snap>)
    requires snaps != []
    ensures From(start, snaps, 0) == start && EveryPollFits(q, start, snaps, 0)
    ensures Shown(q, start, snaps, 1) == Window(Asking(q, start), snaps[0].rows)
  {
    hide Window, Asking;
    assert Shown(q, start, snaps, 0) == [];
    assert [] + Window(Asking(q, start), snaps[0].rows) == Window(Asking(q, start), snaps[0].rows);
  }

  /** The follow loop prints exactly the hits above its start, each once and in order, if
      and only if no poll finds more hits waiting than the limit. */
  lemma FollowIsCompleteIff(q: Query, start: nat, snaps: seq<Snap>)
    requires snaps != [] && GrowingRun(snaps)
    ensures Shown(q, start, snaps, |snaps|) == Hits(q, snaps[|snaps| - 1].rows, start)
       <==> EveryPollFits(q, start, snaps, |snaps|)
  {
    ShownIsBounded(q, start, snaps, |snaps|);
  }
}
