/** Exactly when the copy is, all along a run, a stretch of the log it was last reset for. */
module LogFidelity {
  import opened Lists
  import opened PeerLog
  import opened PeerLogRuns
  import opened Replication
  import opened LogNetwork

  /** If the event is a batch that the copy accepts, it continues the log the copy holds. */
  ghost predicate Fits(s: Net, e: Event) {
    e.Delivers? && Accepts(s.desk, EpochOf(s, e.batch)) ==>
      s.held < |s.logs| && Continues(s.desk, s.logs[s.held].rows, e.batch.events)
  }

  /** Every batch that was accepted so far did. */
  ghost predicate FitsUntil(epoch: string, events: seq<Event>, k: nat)
    requires k <= |events|
  {
    k == 0 || (FitsUntil(epoch, events, k - 1) && Fits(After(epoch, events, k - 1), events[k - 1]))
  }

  /** The state between a delivery and its trim. */
  function Untrimmed(s: Net, e: Event): Net {
    if e.Delivers? then s.(desk := Appended(s.desk, EpochOf(s, e.batch), e.batch.events)) else s
  }

  /** In every state so far, before and after each trim, the copy is a stretch of the log it holds. */
  ghost predicate HoldsUntil(epoch: string, events: seq<Event>, k: nat)
    requires k <= |events|
  {
    && DeskHolds(After(epoch, events, k))
    && (k == 0 || (HoldsUntil(epoch, events, k - 1) && DeskHolds(Untrimmed(After(epoch, events, k - 1), events[k - 1]))))
  }

  // ── one event ─────────────────────────────────────────────────────────

  lemma DeliveryHoldsIff(s: Net, b: Batch, oversized: bool)
    requires LogsAscend(s.logs) && DeskHolds(s)
    ensures DeskHolds(Untrimmed(s, Delivers(b, oversized))) <==> Fits(s, Delivers(b, oversized))
  {
    hide Storable, Appended, Continues, HoldsSlice;
    if Accepts(s.desk, EpochOf(s, b)) {
      var log := s.logs[s.held];
      var n :| HoldsSlice(s.desk, log.rows, s.dropped, n);
      BatchFaithfulIff(s.desk, log.rows, s.dropped, n, EpochOf(s, b), b.events);
      KeepsEpoch(s.desk, EpochOf(s, b), b.events);
    } else {
      RefusedIsSame(s.desk, EpochOf(s, b), b.events);
    }
  }

  lemma KeepsEpoch(st: Store, epoch: string, events: seq<Wire>)
    ensures Appended(st, epoch, events).epoch == st.epoch
  {
  }

  lemma RefusedIsSame(st: Store, epoch: string, events: seq<Wire>)
    requires !Accepts(st, epoch)
    ensures Appended(st, epoch, events) == st
  {
  }

  lemma TrimHolds(s: Net, b: Batch, oversized: bool)
    requires LogsAscend(s.logs) && DeskHolds(Untrimmed(s, Delivers(b, oversized)))
    ensures DeskHolds(Apply(s, Delivers(b, oversized)))
  {
    hide Appended, Trimmed, Copies;
    var mid := Appended(s.desk, EpochOf(s, b), b.events);
    if mid.epoch.Some? {
      DeliveredTrimmed(mid, s.logs[s.held], s.dropped, oversized);
    } else {
      TrimLeavesTiny(mid, oversized);
    }
  }

  lemma LogHolds(s: Net, row: Wire)
    requires LogsAscend(s.logs) && DeskHolds(s)
    ensures DeskHolds(Apply(s, TabLogs(row)))
  {
    hide HoldsSlice;
    if s.desk.epoch.Some? {
      CopiesWhenLogGrows(s.desk, s.logs[s.held], s.dropped, row);
    }
  }

  lemma GreetingHolds(s: Net, max: Option<int>)
    requires LogsAscend(s.logs) && DeskHolds(s)
    ensures DeskHolds(Apply(s, Handshakes(max)))
  {
    hide Regressed;
    if StartsAfresh(s, max) {
      assert HoldsSlice(Apply(s, Handshakes(max)).desk, Present(s).rows, 0, 0);
    }
  }

  lemma EventHolds(s: Net, e: Event)
    requires LogsAscend(s.logs) && DeskHolds(s)
    ensures DeskHolds(Untrimmed(s, e)) <==> Fits(s, e)
    ensures DeskHolds(Untrimmed(s, e)) ==> DeskHolds(Apply(s, e))
  {
    hide DeskHolds, Fits, Untrimmed;
    match e
    case TabLogs(row) => LogHolds(s, row); Undelivered(s, e);
    case TabRestarts(epoch) => NewLogHolds(s, epoch); Undelivered(s, e);
    case TabClears => NewLogHolds(s, Present(s).epoch); Undelivered(s, e);
    case Handshakes(max) => GreetingHolds(s, max); Undelivered(s, e);
    case Sends(from, count) => SendHolds(s, from, count); Undelivered(s, e);
    case Delivers(b, oversized) =>
      DeliveryHoldsIff(s, b, oversized);
      if DeskHolds(Untrimmed(s, e)) {
        TrimHolds(s, b, oversized);
      }
  }

  lemma Undelivered(s: Net, e: Event)
    requires !e.Delivers?
    ensures Untrimmed(s, e) == s && Fits(s, e)
  {
  }

  lemma NewLogHolds(s: Net, epoch: string)
    requires DeskHolds(s)
    ensures DeskHolds(s.(logs := s.logs + [Log(epoch, [])], acks := {}))
  {
  }

  lemma SendHolds(s: Net, from: nat, count: nat)
    requires LogsAscend(s.logs) && DeskHolds(s)
    ensures DeskHolds(Apply(s, Sends(from, count)))
  {
  }

  lemma EventAscends(s: Net, e: Event)
    requires LogsAscend(s.logs) && TabAllows(s, e)
    ensures LogsAscend(Apply(s, e).logs)
  {
    hide Appended, Trimmed;
    assert Storable([]) == [];
  }

  // ── runs ──────────────────────────────────────────────────────────────

  lemma {:induction false} RunAscends(epoch: string, events: seq<Event>, k: nat)
    requires epoch != "" && k <= |events| && Allowed(epoch, events, k)
    ensures LogsAscend(After(epoch, events, k).logs)
  {
    hide Apply, TabAllows;
    if k > 0 {
      RunAscends(epoch, events, k - 1);
      EventAscends(After(epoch, events, k - 1), events[k - 1]);
    }
  }

  /** The copy is a stretch of the log it was last reset for, in every state of a run and before
      and after every trim, if and only if every batch it accepted continued that log. Stragglers
      and unnoticed clears are all allowed for. */
  lemma {:induction false} CopiesAreFaithfulIff(epoch: string, events: seq<Event>, k: nat)
    requires epoch != "" && k <= |events| && Allowed(epoch, events, k)
    ensures HoldsUntil(epoch, events, k) <==> FitsUntil(epoch, events, k)
  {
    hide Apply, TabAllows, Fits, Untrimmed, DeskHolds, LogsAscend;
    if k == 0 {
      BeginHolds(epoch);
    } else {
      CopiesAreFaithfulIff(epoch, events, k - 1);
      RunAscends(epoch, events, k - 1);
      if HoldsUntil(epoch, events, k - 1) {
        EventHolds(After(epoch, events, k - 1), events[k - 1]);
      }
    }
  }

  lemma BeginHolds(epoch: string)
    ensures DeskHolds(Begin(epoch))
  {
  }

  /** And that stretch is the storable rows of the log at or below the cursor, less the
      `dropped` oldest. */
  lemma FittingCopyIsThePrefix(epoch: string, events: seq<Event>, k: nat)
    requires epoch != "" && k <= |events| && Allowed(epoch, events, k) && FitsUntil(epoch, events, k)
    requires After(epoch, events, k).desk.epoch.Some?
    ensures var s := After(epoch, events, k);
      && s.held < |s.logs| && s.desk.epoch == Some(s.logs[s.held].epoch)
      && var upTo := Filter(IsAtMost(s.desk.cursor), Storable(s.logs[s.held].rows));
      && s.dropped <= |upTo| && s.desk.rows == upTo[s.dropped..]
  {
    hide Storable, After, FitsUntil;
    CopiesAreFaithfulIff(epoch, events, k);
    RunAscends(epoch, events, k);
    var s := After(epoch, events, k);
    var n :| HoldsSlice(s.desk, s.logs[s.held].rows, s.dropped, n);
    HeldRowsAreThePrefix(s.desk, s.logs[s.held].rows, s.dropped, n);
  }

  lemma SentBatchFits(s: Net, b: Batch, oversized: bool)
    requires Inv(s) && b in s.sent && NoStraggler(s, Delivers(b, oversized))
    ensures Fits(s, Delivers(b, oversized))
  {
    hide StartsAtOrBelow, Storable, Continues, HoldsSlice;
    assert BatchGood(s.logs, s.desk, s.held, s.gen, b);
    if Accepts(s.desk, EpochOf(s, b)) {
      DeliveredMid(s.desk, s.logs[s.held], s.dropped, b, EpochOf(s, b));
      DeliveryHoldsIff(s, b, oversized);
    }
  }

  /** Without stragglers and unnoticed clears every accepted batch fits. */
  lemma {:induction false} UntroubledRunsFit(epoch: string, events: seq<Event>, k: nat)
    requires epoch != "" && k <= |events| && Allowed(epoch, events, k) && Untroubled(epoch, events, k)
    ensures FitsUntil(epoch, events, k)
  {
    hide Inv, Fits, Apply, NoStraggler;
    if k > 0 {
      UntroubledRunsFit(epoch, events, k - 1);
      RunKeepsInv(epoch, events, k - 1);
      var s, e := After(epoch, events, k - 1), events[k - 1];
      if e.Delivers? {
        SentBatchFits(s, e.batch, e.oversized);
      } else {
        Undelivered(s, e);
      }
    }
  }
}
