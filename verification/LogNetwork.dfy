/** Whole runs of the log stream over a network that loses, repeats and delays
    batches and acks, between the desktop and a tab whose log may be replaced or emptied. */
module LogNetwork {
  import opened Lists
  import opened PeerLog
  import opened PeerLogRuns
  import opened Replication

  /** One life of the tab's log: from its creation, or from a clear, until the next. A clear
      keeps the epoch, which is stored elsewhere. */
  datatype Log = Log(epoch: string, rows: seq<Wire>)

  /** A slice of log number `inc`. A sent batch stays deliverable for ever, so that a delivery
      may be missing, repeated or late. `gen` counts the resets of the copy before it was sent. */
  datatype Batch = Batch(inc: nat, gen: nat, from: nat, events: seq<Wire>)

  /** `logs` are all the lives of the tab's log, the present one last. `held` is the log that
      was present at the last reset of the copy. `acks` are the cursors the desktop has
      announced for the present log since that reset; the tab may act on any of them. */
  datatype Net = Net(
    logs: seq<Log>, desk: Store, held: nat, dropped: nat, gen: nat, acks: set<nat>, sent: set<Batch>)

  datatype Event =
    | TabLogs(row: Wire)
    | TabRestarts(epoch: string)
    | TabClears
    | Handshakes(max: Option<int>)
    | Sends(from: nat, count: nat)
    | Delivers(batch: Batch, oversized: bool)

  function Present(s: Net): Log
    requires s.logs != []
  {
    s.logs[|s.logs| - 1]
  }

  function Begin(epoch: string): Net {
    Net([Log(epoch, [])], EMPTY, 0, 0, 0, {}, {})
  }

  /** What the tab keeps to: its log only grows until it is replaced or emptied, a new log has
      a new epoch, and a batch starts at or below a cursor heard for this log. */
  ghost predicate TabAllows(s: Net, e: Event)
    requires s.logs != []
  {
    match e
    case TabLogs(row) => Ascending(Storable(Present(s).rows + [row]))
    case TabRestarts(epoch) => epoch != "" && forall i :: 0 <= i < |s.logs| ==> s.logs[i].epoch != epoch
    case TabClears => true
    case Handshakes(max) => true
    case Sends(from, count) =>
      && from + count <= |Present(s).rows|
      && exists a :: a in s.acks && StartsAtOrBelow(Present(s).rows, from, a)
    case Delivers(batch, _) => batch in s.sent
  }

  predicate StartsAfresh(s: Net, max: Option<int>)
    requires s.logs != []
  {
    s.desk.epoch == None || Resets(s.desk, Present(s).epoch, max)
  }

  function EpochOf(s: Net, b: Batch): string {
    if b.inc < |s.logs| then s.logs[b.inc].epoch else ""
  }

  function Apply(s: Net, e: Event): (t: Net)
    requires s.logs != []
    ensures t.logs != []
  {
    match e
    case TabLogs(row) =>
      s.(logs := s.logs[|s.logs| - 1 := Log(Present(s).epoch, Present(s).rows + [row])])
    case TabRestarts(epoch) => s.(logs := s.logs + [Log(epoch, [])], acks := {})
    case TabClears => s.(logs := s.logs + [Log(Present(s).epoch, [])], acks := {})
    case Handshakes(max) =>
      var desk := Handshaken(s.desk, Present(s).epoch, max);
      if StartsAfresh(s, max) then
        s.(desk := desk, held := |s.logs| - 1, dropped := 0, gen := s.gen + 1, acks := {desk.cursor})
      else s.(desk := desk, acks := s.acks + {desk.cursor})
    case Sends(from, count) =>
      if from + count > |Present(s).rows| then s
      else s.(sent := s.sent + {Batch(|s.logs| - 1, s.gen, from, Present(s).rows[from..from + count])})
    case Delivers(b, oversized) =>
      var mid := Appended(s.desk, EpochOf(s, b), b.events);
      Deliver(s, b, mid, Trimmed(mid, oversized))
  }

  /** A batch arrives: `mid` is the copy with it, `desk` the copy after the trim. */
  function Deliver(s: Net, b: Batch, mid: Store, desk: Store): Net {
    s.(desk := desk,
       dropped := if |mid.rows| >= |desk.rows| then s.dropped + (|mid.rows| - |desk.rows|) else s.dropped,
       acks := if Accepts(s.desk, EpochOf(s, b)) && b.inc == |s.logs| - 1 then s.acks + {mid.cursor} else s.acks)
  }

  // ── what the prefix property needs ────────────────────────────────────

  /** No batch from before a reset is accepted after it. */
  predicate NoStraggler(s: Net, e: Event) {
    e.Delivers? && Accepts(s.desk, EpochOf(s, e.batch)) ==> e.batch.gen == s.gen
  }

  /** The tab greets with a log that was emptied since the copy was last reset. */
  predicate GreetsAfterAClear(s: Net, e: Event)
    requires s.logs != []
  {
    e.Handshakes? && s.desk.epoch == Some(Present(s).epoch) && s.held != |s.logs| - 1
  }

  /** Such a greeting is recognized by its `max`. */
  predicate ClearIsNoticed(s: Net, e: Event)
    requires s.logs != []
  {
    GreetsAfterAClear(s, e) ==> Regressed(s.desk, e.max)
  }

  // ── the invariant ─────────────────────────────────────────────────────

  ghost predicate LogsAscend(logs: seq<Log>) {
    logs != [] && forall i :: 0 <= i < |logs| ==> logs[i].epoch != "" && Ascending(Storable(logs[i].rows))
  }

  /** The copy is a stretch of this log. */
  ghost predicate Copies(desk: Store, log: Log, dropped: nat) {
    desk.epoch == Some(log.epoch) && exists n :: HoldsSlice(desk, log.rows, dropped, n)
  }

  ghost predicate DeskHolds(s: Net) {
    if s.desk.epoch == None then s.desk == EMPTY && s.dropped == 0
    else s.held < |s.logs| && Copies(s.desk, s.logs[s.held], s.dropped)
  }

  ghost predicate AcksKnown(s: Net) {
    s.acks != {} ==>
      (&& s.desk.epoch.Some? && s.held == |s.logs| - 1
       && forall a :: a in s.acks ==> a <= s.desk.cursor)
  }

  ghost predicate BatchGood(logs: seq<Log>, desk: Store, held: nat, gen: nat, b: Batch) {
    && b.inc < |logs| && b.gen <= gen
    && b.from + |b.events| <= |logs[b.inc].rows|
    && b.events == logs[b.inc].rows[b.from..b.from + |b.events|]
    && (b.gen == gen ==> b.inc == held && desk.epoch.Some? && StartsAtOrBelow(logs[b.inc].rows, b.from, desk.cursor))
  }

  ghost predicate SentGood(logs: seq<Log>, desk: Store, held: nat, gen: nat, sent: set<Batch>) {
    forall b :: b in sent ==> BatchGood(logs, desk, held, gen, b)
  }

  ghost predicate Inv(s: Net) {
    LogsAscend(s.logs) && DeskHolds(s) && AcksKnown(s) && SentGood(s.logs, s.desk, s.held, s.gen, s.sent)
  }

  // ── preservation, event by event ──────────────────────────────────────

  lemma LogGrows(log: seq<Wire>, row: Wire)
    ensures Storable(log) <= Storable(log + [row])
  {
    FilterMapAppend(Normalize, log, [row]);
  }

  lemma SliceWhenLogGrows(desk: Store, log: seq<Wire>, dropped: nat, n: nat, row: Wire)
    requires HoldsSlice(desk, log, dropped, n)
    ensures HoldsSlice(desk, log + [row], dropped, n)
  {
    LogGrows(log, row);
  }

  lemma CopiesWhenLogGrows(desk: Store, log: Log, dropped: nat, row: Wire)
    requires Copies(desk, log, dropped)
    ensures Copies(desk, Log(log.epoch, log.rows + [row]), dropped)
  {
    var n :| HoldsSlice(desk, log.rows, dropped, n);
    SliceWhenLogGrows(desk, log.rows, dropped, n, row);
  }

  lemma BatchGoodWhenLogGrows(logs: seq<Log>, desk: Store, held: nat, gen: nat, b: Batch, k: nat, row: Wire)
    requires k < |logs| && BatchGood(logs, desk, held, gen, b)
    ensures BatchGood(logs[k := Log(logs[k].epoch, logs[k].rows + [row])], desk, held, gen, b)
  {
    hide Storable, AllAtMost;
    if b.inc == k {
      assert (logs[k].rows + [row])[..b.from] == logs[k].rows[..b.from];
    }
  }

  lemma TabLogsKeeps(s: Net, row: Wire)
    requires Inv(s) && TabAllows(s, TabLogs(row))
    ensures Inv(Apply(s, TabLogs(row)))
  {
    hide HoldsSlice, BatchGood;
    var t := Apply(s, TabLogs(row));
    if s.desk.epoch.Some? {
      CopiesWhenLogGrows(s.desk, s.logs[s.held], s.dropped, row);
    }
    forall b | b in s.sent ensures BatchGood(t.logs, s.desk, s.held, s.gen, b) {
      BatchGoodWhenLogGrows(s.logs, s.desk, s.held, s.gen, b, |s.logs| - 1, row);
    }
  }

  lemma NewLogKeeps(s: Net, epoch: string)
    requires Inv(s) && epoch != ""
    ensures Inv(s.(logs := s.logs + [Log(epoch, [])], acks := {}))
  {
    hide HoldsSlice, StartsAtOrBelow;
    var logs := s.logs + [Log(epoch, [])];
    forall b | b in s.sent ensures BatchGood(logs, s.desk, s.held, s.gen, b) {
      assert BatchGood(s.logs, s.desk, s.held, s.gen, b);
    }
  }

  lemma HandshakesKeeps(s: Net, max: Option<int>)
    requires Inv(s) && ClearIsNoticed(s, Handshakes(max))
    ensures Inv(Apply(s, Handshakes(max)))
  {
    hide HoldsSlice, SentGood;
    var t := Apply(s, Handshakes(max));
    if StartsAfresh(s, max) {
      FreshCopyKeeps(s, t.desk);
    }
  }

  lemma FreshCopyKeeps(s: Net, desk: Store)
    requires Inv(s) && desk == Store(Some(Present(s).epoch), 0, [])
    ensures Inv(s.(desk := desk, held := |s.logs| - 1, dropped := 0, gen := s.gen + 1, acks := {desk.cursor}))
  {
    var log := Present(s);
    assert HoldsSlice(desk, log.rows, 0, 0);
    forall b | b in s.sent ensures BatchGood(s.logs, desk, |s.logs| - 1, s.gen + 1, b) {
      assert BatchGood(s.logs, s.desk, s.held, s.gen, b);
    }
  }

  lemma SendsKeeps(s: Net, from: nat, count: nat)
    requires Inv(s) && TabAllows(s, Sends(from, count))
    ensures Inv(Apply(s, Sends(from, count)))
  {
    hide HoldsSlice, Storable;
    var a :| a in s.acks && StartsAtOrBelow(Present(s).rows, from, a);
    var b := Batch(|s.logs| - 1, s.gen, from, Present(s).rows[from..from + count]);
    assert BatchGood(s.logs, s.desk, s.held, s.gen, b);
  }

  lemma TrimSlice(st: Store, log: seq<Wire>, dropped: nat, n: nat, oversized: bool)
    requires Ascending(Storable(log)) && HoldsSlice(st, log, dropped, n)
    ensures var cut := Trimmed(st, oversized);
      && |cut.rows| <= |st.rows|
      && HoldsSlice(cut, log, dropped + (|st.rows| - |cut.rows|), n)
      && cut.cursor == st.cursor && cut.epoch == st.epoch
  {
    if oversized && |st.rows| >= 2 {
      CursorSplits(log, n);
      HeldSlice(st, Storable(log), dropped, n);
      var keep := 3 * |st.rows| / 4;
      var at := |st.rows| - keep + 1;
      FilterSplit(IsAbove(st.rows[at - 1].seqNo), st.rows, at);
      assert st.rows[at..] == Storable(log)[dropped + at..n];
    }
  }

  /** An accepted batch of the held log starts at or below the cursor, whatever happened on
      the way; a refused one changes nothing. */
  lemma DeliveredMid(desk: Store, log: Log, dropped: nat, b: Batch, epoch: string)
    requires Ascending(Storable(log.rows)) && Copies(desk, log, dropped)
    requires Accepts(desk, epoch) ==>
      (&& b.from + |b.events| <= |log.rows| && b.events == log.rows[b.from..b.from + |b.events|]
       && StartsAtOrBelow(log.rows, b.from, desk.cursor))
    ensures var mid := Appended(desk, epoch, b.events);
      Copies(mid, log, dropped) && mid.cursor >= desk.cursor
  {
    hide HoldsSlice, StartsAtOrBelow, Storable;
    if Accepts(desk, epoch) {
      var n :| HoldsSlice(desk, log.rows, dropped, n);
      var m := AppendExtends(desk, log.rows, dropped, n, epoch, b.from, b.events);
    }
  }

  lemma DeliveredTrimmed(mid: Store, log: Log, dropped: nat, oversized: bool)
    requires Ascending(Storable(log.rows)) && Copies(mid, log, dropped)
    ensures var desk := Trimmed(mid, oversized);
      && |desk.rows| <= |mid.rows| && desk.epoch == mid.epoch && desk.cursor == mid.cursor
      && Copies(desk, log, dropped + (|mid.rows| - |desk.rows|))
  {
    hide HoldsSlice, Storable, Trimmed;
    var n :| HoldsSlice(mid, log.rows, dropped, n);
    TrimSlice(mid, log.rows, dropped, n, oversized);
  }

  ghost predicate Absorbs(s: Net, mid: Store, desk: Store) {
    && |desk.rows| <= |mid.rows|
    && desk.epoch == s.desk.epoch && desk.cursor == mid.cursor >= s.desk.cursor
    && DeskHolds(s.(desk := desk, dropped := s.dropped + (|mid.rows| - |desk.rows|)))
  }

  lemma DeliveredDesk(s: Net, b: Batch, oversized: bool)
    requires Inv(s) && b in s.sent && NoStraggler(s, Delivers(b, oversized))
    ensures var mid := Appended(s.desk, EpochOf(s, b), b.events);
      Absorbs(s, mid, Trimmed(mid, oversized))
  {
    hide Copies, StartsAtOrBelow, Storable, Trimmed;
    assert BatchGood(s.logs, s.desk, s.held, s.gen, b);
    if s.desk.epoch.Some? {
      var log := s.logs[s.held];
      DeliveredMid(s.desk, log, s.dropped, b, EpochOf(s, b));
      DeliveredTrimmed(Appended(s.desk, EpochOf(s, b), b.events), log, s.dropped, oversized);
    } else {
      TrimLeavesTiny(EMPTY, oversized);
    }
  }

  lemma SentGoodLater(logs: seq<Log>, desk: Store, later: Store, held: nat, gen: nat, sent: set<Batch>)
    requires SentGood(logs, desk, held, gen, sent)
    requires desk.epoch == later.epoch && desk.cursor <= later.cursor
    ensures SentGood(logs, later, held, gen, sent)
  {
    hide Storable;
    forall b | b in sent ensures BatchGood(logs, later, held, gen, b) {
      assert BatchGood(logs, desk, held, gen, b);
    }
  }

  lemma DeliverKeeps(s: Net, b: Batch, mid: Store, desk: Store)
    requires Inv(s) && b in s.sent && Absorbs(s, mid, desk)
    requires Accepts(s.desk, EpochOf(s, b)) ==> b.gen == s.gen
    ensures Inv(Deliver(s, b, mid, desk))
  {
    hide Copies, StartsAtOrBelow;
    assert BatchGood(s.logs, s.desk, s.held, s.gen, b);
    SentGoodLater(s.logs, s.desk, desk, s.held, s.gen, s.sent);
  }

  lemma DeliversKeeps(s: Net, b: Batch, oversized: bool)
    requires Inv(s) && b in s.sent && NoStraggler(s, Delivers(b, oversized))
    ensures Inv(Apply(s, Delivers(b, oversized)))
  {
    hide Inv, Absorbs, Deliver, Trimmed, Appended;
    DeliveredDesk(s, b, oversized);
    var mid := Appended(s.desk, EpochOf(s, b), b.events);
    DeliverKeeps(s, b, mid, Trimmed(mid, oversized));
  }

  lemma ApplyKeeps(s: Net, e: Event)
    requires Inv(s) && TabAllows(s, e) && NoStraggler(s, e) && ClearIsNoticed(s, e)
    ensures Inv(Apply(s, e))
  {
    match e
    case TabLogs(row) => TabLogsKeeps(s, row);
    case TabRestarts(epoch) => NewLogKeeps(s, epoch);
    case TabClears => NewLogKeeps(s, Present(s).epoch);
    case Handshakes(max) => HandshakesKeeps(s, max);
    case Sends(from, count) => SendsKeeps(s, from, count);
    case Delivers(b, oversized) => DeliversKeeps(s, b, oversized);
  }

  // ── runs ──────────────────────────────────────────────────────────────

  function After(epoch: string, events: seq<Event>, k: nat): (s: Net)
    requires k <= |events|
    ensures s.logs != []
  {
    if k == 0 then Begin(epoch) else Apply(After(epoch, events, k - 1), events[k - 1])
  }

  /** The tab keeps to its rules. */
  ghost predicate Allowed(epoch: string, events: seq<Event>, k: nat)
    requires k <= |events|
  {
    k == 0 || (Allowed(epoch, events, k - 1) && TabAllows(After(epoch, events, k - 1), events[k - 1]))
  }

  /** No straggler is accepted, and no clear goes unnoticed. */
  ghost predicate Untroubled(epoch: string, events: seq<Event>, k: nat)
    requires k <= |events|
  {
    k == 0 ||
    (var s := After(epoch, events, k - 1);
     Untroubled(epoch, events, k - 1) && NoStraggler(s, events[k - 1]) && ClearIsNoticed(s, events[k - 1]))
  }

  lemma BeginIsGood(epoch: string)
    requires epoch != ""
    ensures Inv(Begin(epoch))
  {
  }

  lemma {:induction false} RunKeepsInv(epoch: string, events: seq<Event>, k: nat)
    requires epoch != "" && k <= |events| && Allowed(epoch, events, k) && Untroubled(epoch, events, k)
    ensures Inv(After(epoch, events, k))
  {
    hide Inv, Apply, TabAllows, NoStraggler, ClearIsNoticed, Begin;
    if k == 0 {
      BeginIsGood(epoch);
    } else {
      RunKeepsInv(epoch, events, k - 1);
      ApplyKeeps(After(epoch, events, k - 1), events[k - 1]);
    }
  }

  /** In every state of every run, the copy is exactly the storable rows of one life of the
      tab's log with an address at or below its cursor, less the `dropped` oldest; and once
      the tab has heard a cursor for its present log, it is that log. */
  lemma CopyIsAPrefixOfTheLog(epoch: string, events: seq<Event>, k: nat)
    requires epoch != "" && k <= |events| && Allowed(epoch, events, k) && Untroubled(epoch, events, k)
    requires After(epoch, events, k).desk.epoch.Some?
    ensures var s := After(epoch, events, k);
      && s.held < |s.logs| && s.desk.epoch == Some(s.logs[s.held].epoch)
      && var upTo := Filter(IsAtMost(s.desk.cursor), Storable(s.logs[s.held].rows));
      && s.dropped <= |upTo| && s.desk.rows == upTo[s.dropped..]
      && (s.acks != {} ==> s.held == |s.logs| - 1)
  {
    hide Storable, After;
    RunKeepsInv(epoch, events, k);
    var s := After(epoch, events, k);
    var log := s.logs[s.held].rows;
    var n :| HoldsSlice(s.desk, log, s.dropped, n);
    HeldRowsAreThePrefix(s.desk, log, s.dropped, n);
  }

  /** Without a trim nothing is ever dropped, so the copy is the whole prefix. */
  lemma {:induction false} NothingDroppedWithoutTrim(epoch: string, events: seq<Event>, k: nat)
    requires k <= |events|
    requires forall j :: 0 <= j < |events| && events[j].Delivers? ==> !events[j].oversized
    ensures After(epoch, events, k).dropped == 0
  {
    hide Appended;
    if k > 0 {
      NothingDroppedWithoutTrim(epoch, events, k - 1);
    }
  }
}
