/** ICE candidates on the answering side, where the handlers of several signals are in flight
    at once: a state machine whose steps are the stretches between two awaits. */
module IceAnswer {
  import opened Lists
  import opened Mdns

  datatype From = Desktop | Browser

  /** A mailbox signal; a payload field of the wrong type is `None`. */
  datatype Signal = Signal(from: From, kind: string, candidates: Option<seq<Candidate>>, sdp: Option<string>)

  /** A handler that is suspended: setting the description, or adding one candidate of a list. */
  datatype Task = Setting | Adding(given: seq<Candidate>, done: nat)

  /** A call of `addIceCandidate`, and the handler that made it. */
  datatype Add = Add(task: nat, candidate: Candidate)

  /** `live` lists the signals the listener got, `replayed` those the replay has come to, and
      `heard` both, in the order their handlers started; `cut` is how many had started when
      the description was set, by the handler `drain`. */
  datatype State = State(
    remoteSet: bool, pending: seq<Candidate>, tasks: seq<Task>, added: seq<Add>,
    replay: seq<Signal>, busy: Option<nat>, replayed: seq<Signal>, live: seq<Signal>,
    heard: seq<Signal>, failed: bool, cut: nat, drain: nat)

  function CandidatesOf(sig: Signal, hosts: seq<string>): seq<Candidate> {
    if sig.from == Browser && sig.kind == "candidates" && sig.candidates.Some?
    then ExpandAll(sig.candidates.value, hosts) else []
  }

  predicate IsOffer(sig: Signal) {
    sig.from == Browser && sig.kind == "offer"
  }

  // ── one stretch of a handler ──────────────────────────────────────────

  /** `for (const candidate of …) await pc.addIceCandidate(candidate)` up to its first await. */
  function Begin(s: State, given: seq<Candidate>): State {
    if given == [] then s
    else s.(tasks := s.tasks + [Adding(given, 1)], added := s.added + [Add(|s.tasks|, given[0])])
  }

  /** `handle`, from its start to its first await. */
  function Start(s: State, sig: Signal, hosts: seq<string>): State {
    var t := s.(heard := s.heard + [sig]);
    if IsOffer(sig) && !s.remoteSet then
      if sig.sdp.None? then t.(failed := true) else t.(tasks := s.tasks + [Setting])
    else if s.remoteSet then Begin(t, CandidatesOf(sig, hosts))
    else t.(pending := s.pending + CandidatesOf(sig, hosts))
  }

  function AddNext(s: State, i: nat, given: seq<Candidate>, done: nat): State
    requires i < |s.tasks|
  {
    if done >= |given| then s.(tasks := s.tasks[i := Adding(given, done)])
    else s.(tasks := s.tasks[i := Adding(given, done + 1)], added := s.added + [Add(i, given[done])])
  }

  /** A suspended handler goes on to its next await. */
  function Resume(s: State, i: nat): State
    requires i < |s.tasks|
  {
    match s.tasks[i]
    case Adding(given, done) => AddNext(s, i, given, done)
    case Setting =>
      var t := if s.remoteSet then s else s.(remoteSet := true, cut := |s.heard|, drain := i);
      AddNext(t.(pending := []), i, s.pending, 0)
  }

  predicate Finished(t: Task) {
    t.Adding? && t.done >= |t.given|
  }

  // ── runs ──────────────────────────────────────────────────────────────

  /** A signal reaches the listener; the replay takes its next signal once its last handler is
      through; a suspended handler resumes. */
  datatype Event = Arrives(sig: Signal) | Replays | Resumes(i: nat)

  function IsBrowsers(): Signal -> bool {
    (sig: Signal) => sig.from == Browser
  }

  /** The listener is attached and the replay's list is taken without a break between. */
  function Attached(signals: seq<Signal>): State {
    State(false, [], [], [], Filter(IsBrowsers(), signals), None, [], [], [], false, 0, 0)
  }

  predicate ReplayIsIdle(s: State) {
    s.busy.None? || (s.busy.value < |s.tasks| && Finished(s.tasks[s.busy.value]))
  }

  function Step(s: State, e: Event, hosts: seq<string>): State {
    match e
    case Arrives(sig) => Start(s.(live := s.live + [sig]), sig, hosts)
    case Replays =>
      if s.replay == [] || !ReplayIsIdle(s) then s
      else
        var t := Start(s, s.replay[0], hosts);
        t.(replay := s.replay[1..], replayed := s.replayed + [s.replay[0]],
           busy := if |t.tasks| > |s.tasks| then Some(|s.tasks|) else None)
    case Resumes(i) => if i < |s.tasks| then Resume(s, i) else s
  }

  function Run(signals: seq<Signal>, events: seq<Event>, hosts: seq<string>, k: nat): State
    requires k <= |events|
  {
    if k == 0 then Attached(signals) else Step(Run(signals, events, hosts, k - 1), events[k - 1], hosts)
  }

  // ── the order within a handler, and the drain ─────────────────────────

  function By(i: nat): Add -> Option<Candidate> {
    (a: Add) => if a.task == i then Some(a.candidate) else None
  }

  function AddedBy(s: State, i: nat): seq<Candidate> {
    FilterMap(By(i), s.added)
  }

  function AllCandidates(heard: seq<Signal>, hosts: seq<string>): seq<Candidate> {
    if heard == [] then []
    else AllCandidates(heard[..|heard| - 1], hosts) + CandidatesOf(heard[|heard| - 1], hosts)
  }

  ghost predicate TaskIsOrdered(s: State, i: nat)
    requires i < |s.tasks|
  {
    match s.tasks[i]
    case Setting => AddedBy(s, i) == []
    case Adding(given, done) => done <= |given| && AddedBy(s, i) == given[..done]
  }

  /** Every handler has added a first part of its list, in order. */
  ghost predicate Ordered(s: State) {
    && (forall i :: 0 <= i < |s.tasks| ==> TaskIsOrdered(s, i))
    && (forall k :: 0 <= k < |s.added| ==> s.added[k].task < |s.tasks|)
  }

  /** Before the description is set everything heard waits, in the order heard, and nothing is
      added; after it nothing waits, and one handler has what waited, in that order. */
  ghost predicate Buffered(s: State, hosts: seq<string>) {
    if !s.remoteSet then
      && s.added == [] && s.pending == AllCandidates(s.heard, hosts)
      && (forall i :: 0 <= i < |s.tasks| ==> s.tasks[i].Setting?)
    else
      && s.pending == [] && s.cut <= |s.heard|
      && s.drain < |s.tasks| && s.tasks[s.drain].Adding?
      && s.tasks[s.drain].given == AllCandidates(s.heard[..s.cut], hosts)
  }

  lemma AddedOne(added: seq<Add>, a: Add, i: nat)
    ensures FilterMap(By(i), added + [a])
         == if a.task == i then FilterMap(By(i), added) + [a.candidate] else FilterMap(By(i), added)
  {
    assert (added + [a])[..|added|] == added;
  }

  lemma {:induction false} AddedByNewcomer(added: seq<Add>, i: nat)
    requires forall k :: 0 <= k < |added| ==> added[k].task != i
    ensures FilterMap(By(i), added) == []
  {
    if added != [] {
      AddedByNewcomer(added[..|added| - 1], i);
    }
  }

  lemma BeginKeepsOrder(s: State, given: seq<Candidate>)
    requires Ordered(s)
    ensures Ordered(Begin(s, given))
  {
    if given != [] {
      var t, n := Begin(s, given), |s.tasks|;
      forall i | 0 <= i < |t.tasks| ensures TaskIsOrdered(t, i) {
        AddedOne(s.added, Add(n, given[0]), i);
        if i == n {
          AddedByNewcomer(s.added, n);
        } else {
          assert TaskIsOrdered(s, i);
        }
      }
    }
  }

  lemma AddedToTask(s: State, i: nat, given: seq<Candidate>, done: nat, k: nat)
    requires i < |s.tasks| && k < |s.tasks| && done < |given| && AddedBy(s, i) == given[..done]
    requires TaskIsOrdered(s, k)
    ensures TaskIsOrdered(AddNext(s, i, given, done), k)
  {
    hide FilterMap;
    AddedOne(s.added, Add(i, given[done]), k);
    assert given[..done + 1] == given[..done] + [given[done]];
  }

  lemma AddNextKeepsOrder(s: State, i: nat, given: seq<Candidate>, done: nat)
    requires Ordered(s) && i < |s.tasks| && done <= |given| && AddedBy(s, i) == given[..done]
    ensures Ordered(AddNext(s, i, given, done))
  {
    var t := AddNext(s, i, given, done);
    forall k | 0 <= k < |t.tasks| ensures TaskIsOrdered(t, k) {
      assert TaskIsOrdered(s, k);
      if done < |given| {
        AddedToTask(s, i, given, done, k);
      }
    }
  }

  lemma SettingKeepsOrder(s: State)
    requires Ordered(s)
    ensures Ordered(s.(tasks := s.tasks + [Setting]))
  {
    var t := s.(tasks := s.tasks + [Setting]);
    forall i | 0 <= i < |t.tasks| ensures TaskIsOrdered(t, i) {
      if i == |s.tasks| {
        AddedByNewcomer(s.added, i);
      } else {
        assert TaskIsOrdered(s, i);
      }
    }
  }

  /** The order depends on the handlers and their calls alone. */
  lemma OrderIsOfTasks(s: State, t: State)
    requires Ordered(s) && t.tasks == s.tasks && t.added == s.added
    ensures Ordered(t)
  {
    forall i | 0 <= i < |t.tasks| ensures TaskIsOrdered(t, i) {
      assert TaskIsOrdered(s, i);
    }
  }

  lemma StartKeepsOrder(s: State, sig: Signal, hosts: seq<string>)
    requires Ordered(s)
    ensures Ordered(Start(s, sig, hosts))
  {
    var t := s.(heard := s.heard + [sig]);
    OrderIsOfTasks(s, t);
    SettingKeepsOrder(t);
    BeginKeepsOrder(t, CandidatesOf(sig, hosts));
    OrderIsOfTasks(s, Start(s, sig, hosts).(tasks := s.tasks, added := s.added));
  }

  lemma ResumeKeepsOrder(s: State, i: nat)
    requires Ordered(s) && i < |s.tasks|
    ensures Ordered(Resume(s, i))
  {
    assert TaskIsOrdered(s, i);
    match s.tasks[i]
    case Adding(given, done) => AddNextKeepsOrder(s, i, given, done);
    case Setting =>
      var t := if s.remoteSet then s else s.(remoteSet := true, cut := |s.heard|, drain := i);
      OrderIsOfTasks(s, t.(pending := []));
      AddNextKeepsOrder(t.(pending := []), i, s.pending, 0);
  }

  lemma StepKeepsOrder(s: State, e: Event, hosts: seq<string>)
    requires Ordered(s)
    ensures Ordered(Step(s, e, hosts))
  {
    match e
    case Arrives(sig) =>
      OrderIsOfTasks(s, s.(live := s.live + [sig]));
      StartKeepsOrder(s.(live := s.live + [sig]), sig, hosts);
    case Replays =>
      if s.replay != [] {
        StartKeepsOrder(s, s.replay[0], hosts);
        if ReplayIsIdle(s) {
          OrderIsOfTasks(Start(s, s.replay[0], hosts), Step(s, e, hosts));
        }
      }
    case Resumes(i) => if i < |s.tasks| { ResumeKeepsOrder(s, i); }
  }

  lemma HeardOneMore(heard: seq<Signal>, sig: Signal, hosts: seq<string>)
    ensures AllCandidates(heard + [sig], hosts) == AllCandidates(heard, hosts) + CandidatesOf(sig, hosts)
  {
    assert (heard + [sig])[..|heard|] == heard;
  }

  lemma StartBeforeOffer(s: State, sig: Signal, hosts: seq<string>)
    requires Buffered(s, hosts) && !s.remoteSet
    ensures Buffered(Start(s, sig, hosts), hosts)
  {
    hide AllCandidates, CandidatesOf;
    HeardOneMore(s.heard, sig, hosts);
    if IsOffer(sig) {
      OffersCarryNone(sig, hosts);
      assert s.pending + [] == s.pending;
    }
  }

  lemma OffersCarryNone(sig: Signal, hosts: seq<string>)
    requires IsOffer(sig)
    ensures CandidatesOf(sig, hosts) == []
  {
  }

  lemma StartAfterOffer(s: State, sig: Signal, hosts: seq<string>)
    requires Buffered(s, hosts) && s.remoteSet
    ensures Buffered(Start(s, sig, hosts), hosts)
  {
    assert (s.heard + [sig])[..s.cut] == s.heard[..s.cut];
  }

  lemma StartKeepsBuffer(s: State, sig: Signal, hosts: seq<string>)
    requires Buffered(s, hosts)
    ensures Buffered(Start(s, sig, hosts), hosts)
  {
    if s.remoteSet {
      StartAfterOffer(s, sig, hosts);
    } else {
      StartBeforeOffer(s, sig, hosts);
    }
  }

  lemma ResumeKeepsBuffer(s: State, i: nat, hosts: seq<string>)
    requires Buffered(s, hosts) && i < |s.tasks|
    ensures Buffered(Resume(s, i), hosts)
  {
    assert s.heard[..|s.heard|] == s.heard;
  }

  lemma StepKeepsBuffer(s: State, e: Event, hosts: seq<string>)
    requires Buffered(s, hosts)
    ensures Buffered(Step(s, e, hosts), hosts)
  {
    match e
    case Arrives(sig) => StartKeepsBuffer(s.(live := s.live + [sig]), sig, hosts);
    case Replays => if s.replay != [] { StartKeepsBuffer(s, s.replay[0], hosts); }
    case Resumes(i) => if i < |s.tasks| { ResumeKeepsBuffer(s, i, hosts); }
  }

  lemma AttachedIsOrdered(signals: seq<Signal>, hosts: seq<string>)
    ensures Ordered(Attached(signals)) && Buffered(Attached(signals), hosts)
  {
  }

  lemma {:induction false} RunsAreOrdered(signals: seq<Signal>, events: seq<Event>, hosts: seq<string>, k: nat)
    requires k <= |events|
    ensures Ordered(Run(signals, events, hosts, k)) && Buffered(Run(signals, events, hosts, k), hosts)
  {
    hide Step, Attached, Ordered, Buffered;
    if k == 0 {
      AttachedIsOrdered(signals, hosts);
    } else {
      RunsAreOrdered(signals, events, hosts, k - 1);
      var s := Run(signals, events, hosts, k - 1);
      StepKeepsOrder(s, events[k - 1], hosts);
      StepKeepsBuffer(s, events[k - 1], hosts);
    }
  }

  /** Under every interleaving: no candidate is added before the description is set, and those
      that waited for it are added in the order their handlers came to them. */
  lemma NothingIsAddedEarlyAndTheBufferInOrder(signals: seq<Signal>, events: seq<Event>, hosts: seq<string>)
    ensures var s := Run(signals, events, hosts, |events|);
      && (!s.remoteSet ==> s.added == [] && s.pending == AllCandidates(s.heard, hosts))
      && (s.remoteSet ==>
            (s.pending == [] && s.cut <= |s.heard| && AddedBy(s, s.drain) <= AllCandidates(s.heard[..s.cut], hosts)))
      && (forall i :: 0 <= i < |s.tasks| && s.tasks[i].Adding? ==> AddedBy(s, i) <= s.tasks[i].given)
  {
    RunsAreOrdered(signals, events, hosts, |events|);
    var s := Run(signals, events, hosts, |events|);
    forall i | 0 <= i < |s.tasks| && s.tasks[i].Adding? ensures AddedBy(s, i) <= s.tasks[i].given {
      assert TaskIsOrdered(s, i);
    }
  }

  // ── exactly once ──────────────────────────────────────────────────────

  function Left(t: Task): seq<Candidate> {
    if t.Adding? && t.done <= |t.given| then t.given[t.done..] else []
  }

  /** How often suspended handlers still have to add a candidate. */
  function InFlight(tasks: seq<Task>, x: Candidate): nat {
    if tasks == [] then 0 else InFlight(tasks[..|tasks| - 1], x) + Count(Left(tasks[|tasks| - 1]), x)
  }

  /** How often a candidate has been added. */
  function TimesAdded(added: seq<Add>, x: Candidate): nat {
    if added == [] then 0
    else TimesAdded(added[..|added| - 1], x) + if added[|added| - 1].candidate == x then 1 else 0
  }

  function Known(s: State, x: Candidate): nat {
    TimesAdded(s.added, x) + Count(s.pending, x) + InFlight(s.tasks, x)
  }

  lemma AddedSnoc(added: seq<Add>, a: Add, x: Candidate)
    ensures TimesAdded(added + [a], x) == TimesAdded(added, x) + if a.candidate == x then 1 else 0
  {
    assert (added + [a])[..|added|] == added;
  }

  lemma InFlightSnoc(tasks: seq<Task>, t: Task, x: Candidate)
    ensures InFlight(tasks + [t], x) == InFlight(tasks, x) + Count(Left(t), x)
  {
    assert (tasks + [t])[..|tasks|] == tasks;
  }

  lemma {:induction false} InFlightUpdate(tasks: seq<Task>, i: nat, t: Task, x: Candidate)
    requires i < |tasks|
    ensures InFlight(tasks[i := t], x) + Count(Left(tasks[i]), x) == InFlight(tasks, x) + Count(Left(t), x)
  {
    var init, last := tasks[..|tasks| - 1], tasks[|tasks| - 1];
    assert tasks == init + [last];
    if i == |init| {
      assert tasks[i := t] == init + [t];
      InFlightSnoc(init, t, x);
    } else {
      InFlightUpdate(init, i, t, x);
      assert tasks[i := t] == init[i := t] + [last];
      InFlightSnoc(init[i := t], last, x);
    }
  }

  lemma HeadAndRest(given: seq<Candidate>, done: nat, x: Candidate)
    requires done < |given|
    ensures Count(given[done..], x) == (if given[done] == x then 1 else 0) + Count(given[done + 1..], x)
  {
    assert given[done..] == [given[done]] + given[done + 1..];
    CountAppend([given[done]], given[done + 1..], x);
  }

  lemma BeginAccounts(s: State, given: seq<Candidate>, x: Candidate)
    ensures Known(Begin(s, given), x) == Known(s, x) + Count(given, x)
  {
    if given != [] {
      AddedSnoc(s.added, Add(|s.tasks|, given[0]), x);
      InFlightSnoc(s.tasks, Adding(given, 1), x);
      CountHead(given, x);
    }
  }

  lemma CountHead(given: seq<Candidate>, x: Candidate)
    requires given != []
    ensures Count(given, x) == (if given[0] == x then 1 else 0) + Count(given[1..], x)
  {
    HeadAndRest(given, 0, x);
    assert given[0..] == given;
  }

  lemma AddNextAccounts(s: State, i: nat, given: seq<Candidate>, done: nat, x: Candidate)
    requires i < |s.tasks| && done <= |given|
    ensures Known(AddNext(s, i, given, done), x) + Count(Left(s.tasks[i]), x) == Known(s, x) + Count(given[done..], x)
  {
    if done < |given| {
      AddedSnoc(s.added, Add(i, given[done]), x);
      InFlightUpdate(s.tasks, i, Adding(given, done + 1), x);
      HeadAndRest(given, done, x);
    } else {
      InFlightUpdate(s.tasks, i, Adding(given, done), x);
    }
  }

  lemma StartAccounts(s: State, sig: Signal, hosts: seq<string>, x: Candidate)
    ensures Known(Start(s, sig, hosts), x) == Known(s, x) + Count(CandidatesOf(sig, hosts), x)
  {
    if s.remoteSet {
      BeginAccounts(s.(heard := s.heard + [sig]), CandidatesOf(sig, hosts), x);
    } else if IsOffer(sig) {
      InFlightSnoc(s.tasks, Setting, x);
    } else {
      CountAppend(s.pending, CandidatesOf(sig, hosts), x);
    }
  }

  lemma ResumeAccounts(s: State, i: nat, x: Candidate)
    requires Ordered(s) && i < |s.tasks|
    ensures Known(Resume(s, i), x) == Known(s, x)
  {
    assert TaskIsOrdered(s, i);
    match s.tasks[i]
    case Adding(given, done) => AddNextAccounts(s, i, given, done, x);
    case Setting =>
      var t := if s.remoteSet then s else s.(remoteSet := true, cut := |s.heard|, drain := i);
      AddNextAccounts(t.(pending := []), i, s.pending, 0, x);
      assert s.pending[0..] == s.pending;
  }

  /** Everything the listener and the replay have come to is added, waits or is in flight. */
  ghost predicate Accounted(s: State, hosts: seq<string>, x: Candidate) {
    Known(s, x) == Count(AllCandidates(s.replayed, hosts), x) + Count(AllCandidates(s.live, hosts), x)
  }

  lemma CountOneMore(heard: seq<Signal>, sig: Signal, hosts: seq<string>, x: Candidate)
    ensures Count(AllCandidates(heard + [sig], hosts), x)
         == Count(AllCandidates(heard, hosts), x) + Count(CandidatesOf(sig, hosts), x)
  {
    HeardOneMore(heard, sig, hosts);
    CountAppend(AllCandidates(heard, hosts), CandidatesOf(sig, hosts), x);
  }

  lemma StartKeepsLists(s: State, sig: Signal, hosts: seq<string>)
    ensures var t := Start(s, sig, hosts);
      t.live == s.live && t.replayed == s.replayed && t.replay == s.replay
  {
  }

  lemma ArrivalAccounts(s: State, sig: Signal, hosts: seq<string>, x: Candidate)
    requires Accounted(s, hosts, x)
    ensures Accounted(Step(s, Arrives(sig), hosts), hosts, x)
  {
    hide Start, Count, AllCandidates, CandidatesOf, InFlight, TimesAdded;
    var t := s.(live := s.live + [sig]);
    StartKeepsLists(t, sig, hosts);
    StartAccounts(t, sig, hosts, x);
    CountOneMore(s.live, sig, hosts, x);
  }

  lemma ReplayAccounts(s: State, hosts: seq<string>, x: Candidate)
    requires Accounted(s, hosts, x)
    ensures Accounted(Step(s, Replays, hosts), hosts, x)
  {
    hide Start, Count, AllCandidates, CandidatesOf, InFlight, TimesAdded, ReplayIsIdle;
    if s.replay != [] {
      StartKeepsLists(s, s.replay[0], hosts);
      StartAccounts(s, s.replay[0], hosts, x);
      CountOneMore(s.replayed, s.replay[0], hosts, x);
    }
  }

  lemma ResumeKeepsLists(s: State, i: nat)
    requires i < |s.tasks|
    ensures Resume(s, i).live == s.live && Resume(s, i).replayed == s.replayed && Resume(s, i).replay == s.replay
  {
  }

  lemma StepAccounts(s: State, e: Event, hosts: seq<string>, x: Candidate)
    requires Ordered(s) && Accounted(s, hosts, x)
    ensures Accounted(Step(s, e, hosts), hosts, x)
  {
    hide Start, Resume, Count, AllCandidates, Known, Ordered, ReplayIsIdle;
    match e
    case Arrives(sig) => ArrivalAccounts(s, sig, hosts, x);
    case Replays => ReplayAccounts(s, hosts, x);
    case Resumes(i) =>
      if i < |s.tasks| {
        ResumeKeepsLists(s, i);
        ResumeAccounts(s, i, x);
      }
  }

  /** The signals the listener got, in order. */
  function Arrived(events: seq<Event>, k: nat): seq<Signal>
    requires k <= |events|
  {
    if k == 0 then []
    else if events[k - 1].Arrives? then Arrived(events, k - 1) + [events[k - 1].sig]
    else Arrived(events, k - 1)
  }

  lemma AttachedAccounts(signals: seq<Signal>, hosts: seq<string>, x: Candidate)
    ensures Accounted(Attached(signals), hosts, x)
  {
  }

  lemma {:induction false} RunAccounts(signals: seq<Signal>, events: seq<Event>, hosts: seq<string>, k: nat, x: Candidate)
    requires k <= |events|
    ensures Accounted(Run(signals, events, hosts, k), hosts, x)
  {
    hide Step, Accounted, Ordered, Buffered;
    if k == 0 {
      AttachedAccounts(signals, hosts, x);
    } else {
      RunAccounts(signals, events, hosts, k - 1, x);
      RunsAreOrdered(signals, events, hosts, k - 1);
      StepAccounts(Run(signals, events, hosts, k - 1), events[k - 1], hosts, x);
    }
  }

  lemma StepMovesSignals(s: State, e: Event, hosts: seq<string>)
    ensures var t := Step(s, e, hosts);
      && t.live == (if e.Arrives? then s.live + [e.sig] else s.live)
      && t.replayed + t.replay == s.replayed + s.replay
  {
    hide Start, Resume;
    match e
    case Arrives(sig) => StartKeepsLists(s.(live := s.live + [sig]), sig, hosts);
    case Replays =>
      if s.replay != [] {
        StartKeepsLists(s, s.replay[0], hosts);
        assert s.replayed + s.replay == s.replayed + [s.replay[0]] + s.replay[1..];
      }
    case Resumes(i) => if i < |s.tasks| { ResumeKeepsLists(s, i); }
  }

  /** Each signal is handled by the listener or by the replay, never by both. */
  lemma {:induction false} EachSignalHasOneHandler(signals: seq<Signal>, events: seq<Event>, hosts: seq<string>, k: nat)
    requires k <= |events|
    ensures var s := Run(signals, events, hosts, k);
      s.live == Arrived(events, k) && s.replayed + s.replay == Filter(IsBrowsers(), signals)
  {
    hide Step;
    if k > 0 {
      EachSignalHasOneHandler(signals, events, hosts, k - 1);
      StepMovesSignals(Run(signals, events, hosts, k - 1), events[k - 1], hosts);
    }
  }

  lemma {:induction false} OwnSignalsCarryNothing(signals: seq<Signal>, hosts: seq<string>)
    ensures AllCandidates(Filter(IsBrowsers(), signals), hosts) == AllCandidates(signals, hosts)
  {
    if signals != [] {
      var init, last := signals[..|signals| - 1], signals[|signals| - 1];
      OwnSignalsCarryNothing(init, hosts);
      HeardOneMore(Filter(IsBrowsers(), init), last, hosts);
    }
  }

  lemma {:induction false} FinishedHasNothingLeft(tasks: seq<Task>, x: Candidate)
    requires forall i :: 0 <= i < |tasks| ==> Finished(tasks[i])
    ensures InFlight(tasks, x) == 0
  {
    if tasks != [] {
      FinishedHasNothingLeft(tasks[..|tasks| - 1], x);
    }
  }

  // ── handlers come to an end ───────────────────────────────────────────

  ghost predicate Quiet(s: State) {
    s.replay == [] && forall i :: 0 <= i < |s.tasks| ==> Finished(s.tasks[i])
  }

  function WorkOf(t: Task): nat {
    if t.Setting? then 1 else |Left(t)|
  }

  function TaskWork(tasks: seq<Task>): nat {
    if tasks == [] then 0 else TaskWork(tasks[..|tasks| - 1]) + WorkOf(tasks[|tasks| - 1])
  }

  function ReplayWork(replay: seq<Signal>, hosts: seq<string>): nat {
    if replay == [] then 0 else |CandidatesOf(replay[0], hosts)| + 2 + ReplayWork(replay[1..], hosts)
  }

  /** A bound on the stretches still to run if nothing more arrives. */
  function Work(s: State, hosts: seq<string>): nat {
    TaskWork(s.tasks) + |s.pending| + ReplayWork(s.replay, hosts)
  }

  lemma TaskWorkSnoc(tasks: seq<Task>, t: Task)
    ensures TaskWork(tasks + [t]) == TaskWork(tasks) + WorkOf(t)
  {
    assert (tasks + [t])[..|tasks|] == tasks;
  }

  lemma {:induction false} TaskWorkUpdate(tasks: seq<Task>, i: nat, t: Task)
    requires i < |tasks|
    ensures TaskWork(tasks[i := t]) + WorkOf(tasks[i]) == TaskWork(tasks) + WorkOf(t)
  {
    hide WorkOf;
    var init, last := tasks[..|tasks| - 1], tasks[|tasks| - 1];
    assert tasks == init + [last];
    if i == |init| {
      assert tasks[i := t] == init + [t];
      TaskWorkSnoc(init, t);
    } else {
      TaskWorkUpdate(init, i, t);
      assert tasks[i := t] == init[i := t] + [last];
      TaskWorkSnoc(init[i := t], last);
    }
  }

  lemma AddNextWorks(s: State, i: nat, given: seq<Candidate>, done: nat)
    requires i < |s.tasks| && done <= |given|
    ensures TaskWork(AddNext(s, i, given, done).tasks) + WorkOf(s.tasks[i])
         == TaskWork(s.tasks) + if done < |given| then |given| - done - 1 else 0
  {
    TaskWorkUpdate(s.tasks, i, if done < |given| then Adding(given, done + 1) else Adding(given, done));
  }

  lemma ResumeWorks(s: State, i: nat, hosts: seq<string>)
    requires Ordered(s) && i < |s.tasks|
    ensures Finished(s.tasks[i]) ==> Resume(s, i) == s
    ensures !Finished(s.tasks[i]) ==> Work(Resume(s, i), hosts) < Work(s, hosts)
  {
    hide TaskWork, ReplayWork;
    assert TaskIsOrdered(s, i);
    match s.tasks[i]
    case Adding(given, done) =>
      AddNextWorks(s, i, given, done);
      assert s.tasks[i := s.tasks[i]] == s.tasks;
    case Setting =>
      var t := if s.remoteSet then s else s.(remoteSet := true, cut := |s.heard|, drain := i);
      AddNextWorks(t.(pending := []), i, s.pending, 0);
  }

  lemma StartWorks(s: State, sig: Signal, hosts: seq<string>)
    ensures var t := Start(s, sig, hosts);
      TaskWork(t.tasks) + |t.pending| < TaskWork(s.tasks) + |s.pending| + |CandidatesOf(sig, hosts)| + 2
  {
    hide CandidatesOf, TaskWork;
    TaskWorkSnoc(s.tasks, Setting);
    var given := CandidatesOf(sig, hosts);
    if given != [] {
      TaskWorkSnoc(s.tasks, Adding(given, 1));
    }
  }

  /** Every step but an arrival changes nothing or leaves less to do, so after the last arrival
      only finitely many steps change anything. */
  lemma StepsUseUpWork(s: State, e: Event, hosts: seq<string>)
    requires Ordered(s) && !e.Arrives?
    ensures Step(s, e, hosts) == s || Work(Step(s, e, hosts), hosts) < Work(s, hosts)
  {
    hide Start, Resume, TaskWork, CandidatesOf, Ordered;
    match e
    case Replays => if s.replay != [] { StartWorks(s, s.replay[0], hosts); }
    case Resumes(i) => if i < |s.tasks| { ResumeWorks(s, i, hosts); }
  }

  ghost predicate BusyIsATask(s: State) {
    s.busy.Some? ==> s.busy.value < |s.tasks|
  }

  lemma StepKeepsBusy(s: State, e: Event, hosts: seq<string>)
    requires BusyIsATask(s)
    ensures BusyIsATask(Step(s, e, hosts))
  {
    hide CandidatesOf;
  }

  lemma {:induction false} RunsKeepBusy(signals: seq<Signal>, events: seq<Event>, hosts: seq<string>, k: nat)
    requires k <= |events|
    ensures BusyIsATask(Run(signals, events, hosts, k))
  {
    hide Step;
    if k > 0 {
      RunsKeepBusy(signals, events, hosts, k - 1);
      StepKeepsBusy(Run(signals, events, hosts, k - 1), events[k - 1], hosts);
    }
  }

  /** A step that needs nothing to arrive and leaves less to do. */
  ghost predicate Advances(s: State, e: Event, hosts: seq<string>) {
    !e.Arrives? && Work(Step(s, e, hosts), hosts) < Work(s, hosts)
  }

  lemma SomethingIsEnabled(s: State, hosts: seq<string>)
    requires Ordered(s) && BusyIsATask(s) && !Quiet(s)
    ensures exists e :: Advances(s, e, hosts)
  {
    hide Start, Resume, TaskWork, CandidatesOf, Ordered, ReplayWork;
    var e := if s.replay != [] && ReplayIsIdle(s) then Replays
             else if s.replay != [] then Resumes(s.busy.value)
             else (var i :| 0 <= i < |s.tasks| && !Finished(s.tasks[i]); Resumes(i));
    match e
    case Replays =>
      ReplayUsesUpWork(s, hosts);
      assert Advances(s, e, hosts);
    case Resumes(i) =>
      ResumeWorks(s, i, hosts);
      assert Advances(s, e, hosts);
  }

  lemma ReplayUsesUpWork(s: State, hosts: seq<string>)
    requires s.replay != [] && ReplayIsIdle(s)
    ensures Work(Step(s, Replays, hosts), hosts) < Work(s, hosts)
  {
    hide Start, TaskWork, CandidatesOf;
    StartWorks(s, s.replay[0], hosts);
  }

  /** No run gets stuck: until every handler is through, some step leaves less to do. */
  lemma RunsCanFinish(signals: seq<Signal>, events: seq<Event>, hosts: seq<string>)
    ensures var s := Run(signals, events, hosts, |events|);
      Quiet(s) || exists e :: Advances(s, e, hosts)
  {
    hide Advances, Quiet;
    RunsAreOrdered(signals, events, hosts, |events|);
    RunsKeepBusy(signals, events, hosts, |events|);
    if !Quiet(Run(signals, events, hosts, |events|)) {
      SomethingIsEnabled(Run(signals, events, hosts, |events|), hosts);
    }
  }

  // ── an offer is taken up ──────────────────────────────────────────────

  /** Some signal is the browser's offer with a description. */
  ghost predicate HasOffer(signals: seq<Signal>) {
    exists m :: m in signals && m.from == Browser && m.kind == "offer" && m.sdp.Some?
  }

  /** A description is set, or a handler is about to set one, if and only if an offer was heard. */
  ghost predicate Pursues(s: State) {
    HasOffer(s.live) || HasOffer(s.replayed) <==> s.remoteSet || Setting in s.tasks
  }

  lemma HasOfferSnoc(signals: seq<Signal>, sig: Signal)
    ensures HasOffer(signals + [sig]) <==> HasOffer(signals) || (IsOffer(sig) && sig.sdp.Some?)
  {
    assert sig in signals + [sig];
    forall m | m in signals ensures m in signals + [sig] {
    }
  }

  lemma StartPursues(s: State, sig: Signal, hosts: seq<string>)
    ensures var t := Start(s, sig, hosts);
      && (s.remoteSet ==> t.remoteSet) && (Setting in s.tasks ==> Setting in t.tasks)
      && (t.remoteSet || Setting in t.tasks <==> s.remoteSet || Setting in s.tasks || (IsOffer(sig) && sig.sdp.Some?))
  {
    hide CandidatesOf;
    assert Setting in s.tasks + [Setting];
  }

  lemma ResumePursues(s: State, i: nat)
    requires i < |s.tasks|
    ensures var t := Resume(s, i);
      && (t.remoteSet || Setting in t.tasks <==> s.remoteSet || Setting in s.tasks)
  {
    if Setting in s.tasks && !s.tasks[i].Setting? {
      var j :| 0 <= j < |s.tasks| && s.tasks[j] == Setting;
      assert Resume(s, i).tasks[j] == Setting;
    }
  }

  lemma StepPursues(s: State, e: Event, hosts: seq<string>)
    requires Pursues(s)
    ensures Pursues(Step(s, e, hosts))
  {
    hide Start, Resume, HasOffer, IsOffer;
    match e
    case Arrives(sig) =>
      var t := s.(live := s.live + [sig]);
      StartKeepsLists(t, sig, hosts);
      StartPursues(t, sig, hosts);
      HasOfferSnoc(s.live, sig);
    case Replays =>
      if s.replay != [] {
        StartKeepsLists(s, s.replay[0], hosts);
        StartPursues(s, s.replay[0], hosts);
        HasOfferSnoc(s.replayed, s.replay[0]);
      }
    case Resumes(i) =>
      if i < |s.tasks| {
        ResumeKeepsLists(s, i);
        ResumePursues(s, i);
      }
  }

  lemma {:induction false} RunsPursue(signals: seq<Signal>, events: seq<Event>, hosts: seq<string>, k: nat)
    requires k <= |events|
    ensures Pursues(Run(signals, events, hosts, k))
  {
    hide Step;
    if k > 0 {
      RunsPursue(signals, events, hosts, k - 1);
      StepPursues(Run(signals, events, hosts, k - 1), events[k - 1], hosts);
    }
  }

  lemma OwnSignalsAreNoOffers(signals: seq<Signal>)
    ensures HasOffer(Filter(IsBrowsers(), signals)) <==> HasOffer(signals)
  {
    hide Filter;
    forall m | m in signals && m.from == Browser ensures m in Filter(IsBrowsers(), signals) {
      FilterMember(IsBrowsers(), signals, m);
    }
    forall m | m in Filter(IsBrowsers(), signals) ensures m in signals {
      FilterMember(IsBrowsers(), signals, m);
    }
  }

  /** A quiet session has set a description if and only if it was sent an offer with one. */
  lemma QuietMeansOffered(signals: seq<Signal>, events: seq<Event>, hosts: seq<string>)
    requires Quiet(Run(signals, events, hosts, |events|))
    ensures Run(signals, events, hosts, |events|).remoteSet <==> HasOffer(signals) || HasOffer(Arrived(events, |events|))
  {
    hide Run, HasOffer;
    var s := Run(signals, events, hosts, |events|);
    RunsPursue(signals, events, hosts, |events|);
    EachSignalHasOneHandler(signals, events, hosts, |events|);
    OwnSignalsAreNoOffers(signals);
    assert s.replayed + [] == s.replayed;
    assert Setting in s.tasks ==> !Quiet(s);
  }

  // ── exactly once, at the end ──────────────────────────────────────────

  /** How often a candidate was sent, before the session attached and after. */
  function TimesSent(signals: seq<Signal>, events: seq<Event>, hosts: seq<string>, x: Candidate): nat {
    Count(AllCandidates(signals, hosts), x) + Count(AllCandidates(Arrived(events, |events|), hosts), x)
  }

  /** Under every interleaving, once an offer has been sent and every handler is through, each
      expanded candidate has been added exactly as often as it was sent, whether the signal
      was there when the session attached or came later. */
  lemma EveryCandidateIsAddedOnce(signals: seq<Signal>, events: seq<Event>, hosts: seq<string>, x: Candidate)
    requires Quiet(Run(signals, events, hosts, |events|))
    requires HasOffer(signals) || HasOffer(Arrived(events, |events|))
    ensures TimesAdded(Run(signals, events, hosts, |events|).added, x) == TimesSent(signals, events, hosts, x)
  {
    hide Run, HasOffer, TimesAdded, Count, AllCandidates, InFlight;
    var s := Run(signals, events, hosts, |events|);
    QuietMeansOffered(signals, events, hosts);
    RunAccounts(signals, events, hosts, |events|, x);
    RunsAreOrdered(signals, events, hosts, |events|);
    EachSignalHasOneHandler(signals, events, hosts, |events|);
    OwnSignalsCarryNothing(signals, hosts);
    FinishedHasNothingLeft(s.tasks, x);
    assert s.replayed + [] == s.replayed;
    CountNothing(x);
  }

  lemma CountNothing(x: Candidate)
    ensures Count([], x) == 0
  {
  }

  /** At every moment, nothing has been added more often than it was sent. */
  lemma NothingIsAddedTwice(signals: seq<Signal>, events: seq<Event>, hosts: seq<string>, x: Candidate)
    ensures TimesAdded(Run(signals, events, hosts, |events|).added, x) <= TimesSent(signals, events, hosts, x)
  {
    var s := Run(signals, events, hosts, |events|);
    RunAccounts(signals, events, hosts, |events|, x);
    EachSignalHasOneHandler(signals, events, hosts, |events|);
    OwnSignalsCarryNothing(signals, hosts);
    AllCandidatesPrefix(s.replayed, s.replay, hosts, x);
  }

  lemma {:induction false} AllCandidatesPrefix(a: seq<Signal>, b: seq<Signal>, hosts: seq<string>, x: Candidate)
    ensures Count(AllCandidates(a, hosts), x) <= Count(AllCandidates(a + b, hosts), x)
    decreases |b|
  {
    hide Count, AllCandidates, CandidatesOf;
    if b == [] {
      assert a + b == a;
    } else {
      var init, last := b[..|b| - 1], b[|b| - 1];
      AllCandidatesPrefix(a, init, hosts, x);
      assert a + b == a + init + [last];
      CountOneMore(a + init, last, hosts, x);
    }
  }
}
