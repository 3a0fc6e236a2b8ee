/** ICE candidates on the offering side: one signal is handled at a time, and candidates that
    arrive before the answer wait for it. */
module IceOffer {
  import opened Lists
  import opened Mdns
  import opened Sdp

  datatype From = Desktop | Browser

  /** A relayed signal; a payload field of the wrong type is `None`. The text of an error may
      read like the relay's own "channel is gone", which is `fatal`. */
  datatype Msg = Msg(
    from: From, kind: string, nonce: Option<string>, reconnect: Option<string>,
    candidates: Option<seq<Candidate>>, sdp: Option<string>, fatal: bool)

  /** One offer: its nonce (empty for a first pairing), the machine's addresses, and the SDPs
      the connection refuses. */
  datatype Setup = Setup(nonce: string, hosts: seq<string>, refused: set<string>)

  /** `Thrown` ends a batch, `Over` the offer. */
  datatype Verdict = Fine | Thrown | Over

  /** The remote description once set, the candidates waiting for it, and those added. */
  datatype Gather = Gather(remote: Option<string>, pending: seq<Candidate>, added: seq<Candidate>)

  const NOTHING := Gather(None, [], [])

  // ── one signal ────────────────────────────────────────────────────────

  predicate Closes(m: Msg) {
    m.from == Browser && (m.kind == "error" || m.kind == "bye")
  }

  predicate Supersedes(c: Setup, m: Msg) {
    && m.from == Browser && c.nonce != "" && m.kind == "candidates"
    && m.reconnect.Some? && m.reconnect.value != c.nonce
  }

  /** A signal of this offer's generation. */
  predicate Concerns(c: Setup, m: Msg) {
    && m.from == Browser && !Closes(m) && !Supersedes(c, m)
    && (c.nonce == "" || m.nonce == Some(c.nonce))
  }

  predicate IsAnswer(c: Setup, m: Msg) {
    Concerns(c, m) && m.kind == "answer"
  }

  function Description(c: Setup, m: Msg): Option<string> {
    if m.sdp.Some? && m.sdp.value != "" && ExpandSdp(m.sdp.value, c.hosts) !in c.refused
    then Some(ExpandSdp(m.sdp.value, c.hosts)) else None
  }

  /** The expanded candidates a signal carries for this offer. */
  function CandidatesOf(c: Setup, m: Msg): seq<Candidate> {
    if Concerns(c, m) && m.kind == "candidates" && m.candidates.Some? then ExpandAll(m.candidates.value, c.hosts)
    else []
  }

  function VerdictOn(c: Setup, g: Gather, m: Msg): Verdict {
    if Closes(m) then (if m.fatal then Over else Thrown)
    else if Supersedes(c, m) then Over
    else if IsAnswer(c, m) && g.remote.None? && Description(c, m).None? then Thrown
    else Fine
  }

  /** Where candidates go. */
  function Taking(g: Gather, list: seq<Candidate>): Gather {
    if g.remote.Some? then g.(added := g.added + list) else g.(pending := g.pending + list)
  }

  lemma TakingMore(g: Gather, a: seq<Candidate>, b: seq<Candidate>)
    ensures Taking(Taking(g, a), b) == Taking(g, a + b)
    ensures Taking(g, []) == g
  {
    ConcatAssoc(g.added, a, b);
    ConcatAssoc(g.pending, a, b);
  }

  /** `handle`. */
  function Heard(c: Setup, g: Gather, m: Msg): Gather {
    if IsAnswer(c, m) && g.remote.None? && Description(c, m).Some? then
      Gather(Description(c, m), [], g.added + g.pending)
    else Taking(g, CandidatesOf(c, m))
  }

  class OfferSide {
    const setup: Setup
    var remote: Option<string>
    var pending: seq<Candidate>
    var added: seq<Candidate>

    constructor (setup: Setup)
      ensures this.setup == setup && View() == NOTHING
    {
      this.setup := setup;
      remote, pending, added := None, [], [];
    }

    function View(): Gather
      reads this
    {
      Gather(remote, pending, added)
    }

    /** The connection is only ever given a candidate once it has a remote description. */
    method AddIceCandidate(candidate: Candidate)
      requires remote.Some?
      modifies this`added
      ensures added == old(added) + [candidate]
    {
      added := added + [candidate];
    }

    method Take(expanded: seq<Candidate>)
      modifies this`pending, this`added
      ensures View() == Taking(old(View()), expanded)
    {
      for i := 0 to |expanded|
        invariant View() == Taking(old(View()), expanded[..i])
      {
        assert expanded[..i + 1] == expanded[..i] + [expanded[i]];
        TakingMore(old(View()), expanded[..i], [expanded[i]]);
        if remote.Some? {
          AddIceCandidate(expanded[i]);
        } else {
          pending := pending + [expanded[i]];
        }
      }
      assert expanded[..|expanded|] == expanded;
    }

    method TakeAll(list: seq<Candidate>)
      modifies this`pending, this`added
      ensures View() == Taking(old(View()), ExpandAll(list, setup.hosts))
    {
      for i := 0 to |list|
        invariant View() == Taking(old(View()), ExpandAll(list[..i], setup.hosts))
      {
        assert list[..i + 1][..i] == list[..i];
        TakingMore(old(View()), ExpandAll(list[..i], setup.hosts), Expand(list[i], setup.hosts));
        Take(Expand(list[i], setup.hosts));
      }
      assert list[..|list|] == list;
    }

    /** `pending.splice(0)`, then one candidate at a time. */
    method Drain()
      requires remote.Some?
      modifies this`pending, this`added
      ensures pending == [] && added == old(added) + old(pending)
    {
      var waiting := pending;
      pending := [];
      for i := 0 to |waiting|
        invariant pending == [] && added == old(added) + waiting[..i]
      {
        assert waiting[..i + 1] == waiting[..i] + [waiting[i]];
        AddIceCandidate(waiting[i]);
      }
      assert waiting[..|waiting|] == waiting;
    }

    method Handle(m: Msg) returns (verdict: Verdict)
      modifies this
      ensures View() == Heard(setup, old(View()), m)
      ensures verdict == VerdictOn(setup, old(View()), m)
    {
      if m.from == Desktop {
        return Fine;
      }
      if m.kind == "error" || m.kind == "bye" {
        return if m.fatal then Over else Thrown;
      }
      if setup.nonce != "" && m.kind == "candidates" && m.reconnect.Some? && m.reconnect.value != setup.nonce {
        return Over;
      }
      if setup.nonce != "" && m.nonce != Some(setup.nonce) {
        return Fine;
      }
      if m.kind == "candidates" {
        if m.candidates.Some? {
          TakeAll(m.candidates.value);
        }
        return Fine;
      }
      if m.kind == "answer" && remote.None? {
        if m.sdp.None? || m.sdp.value == "" {
          return Thrown;
        }
        var sdp := ExpandSdp(m.sdp.value, setup.hosts);
        if sdp in setup.refused {
          return Thrown;
        }
        remote := Some(sdp);
        Drain();
      }
      return Fine;
    }
  }

  // ── a list of signals ─────────────────────────────────────────────────

  function HeardAll(c: Setup, msgs: seq<Msg>): Gather {
    if msgs == [] then NOTHING else Heard(c, HeardAll(c, msgs[..|msgs| - 1]), msgs[|msgs| - 1])
  }

  function AllCandidates(c: Setup, msgs: seq<Msg>): seq<Candidate> {
    if msgs == [] then [] else AllCandidates(c, msgs[..|msgs| - 1]) + CandidatesOf(c, msgs[|msgs| - 1])
  }

  /** The description in the first answer of this generation that can be set. */
  function FirstDescription(c: Setup, msgs: seq<Msg>): Option<string> {
    if msgs == [] then None
    else
      var before, m := FirstDescription(c, msgs[..|msgs| - 1]), msgs[|msgs| - 1];
      if before.Some? then before else if IsAnswer(c, m) then Description(c, m) else None
  }

  /** After any signals, the description is that of the first answer that can be set; until
      then every candidate waits and none is added, and from then on every candidate has been
      added, once, in the order of arrival, and none waits. */
  lemma {:induction false} CandidatesAreAddedInOrder(c: Setup, msgs: seq<Msg>)
    ensures var g := HeardAll(c, msgs);
      && g.remote == FirstDescription(c, msgs)
      && (g.remote.None? ==> g.pending == AllCandidates(c, msgs) && g.added == [])
      && (g.remote.Some? ==> g.added == AllCandidates(c, msgs) && g.pending == [])
  {
    if msgs != [] {
      CandidatesAreAddedInOrder(c, msgs[..|msgs| - 1]);
    }
  }

  // ── polling ───────────────────────────────────────────────────────────

  /** Part of a batch: a throw ends it. */
  datatype Batch = Batch(g: Gather, handled: nat, verdict: Verdict)

  function Taken(c: Setup, g: Gather, batch: seq<Msg>, k: nat): (r: Batch)
    requires k <= |batch|
    ensures r.handled <= k && (r.verdict == Fine ==> r.handled == k)
  {
    if k == 0 then Batch(g, 0, Fine)
    else
      var r, m := Taken(c, g, batch, k - 1), batch[k - 1];
      if r.verdict != Fine then r else Batch(Heard(c, r.g, m), k, VerdictOn(c, r.g, m))
  }

  /** What the relay has delivered, what of it has been handled, and whether the offer is over. */
  datatype Progress = Progress(g: Gather, delivered: seq<Msg>, handled: seq<Msg>, over: bool)

  /** One `poll`: the cursor is past the whole batch before its first signal is handled. */
  function Polled(c: Setup, p: Progress, batch: seq<Msg>): Progress {
    if p.over then p
    else
      var r := Taken(c, p.g, batch, |batch|);
      Progress(r.g, p.delivered + batch, p.handled + batch[..r.handled], r.verdict == Over)
  }

  function After(c: Setup, batches: seq<seq<Msg>>): Progress {
    if batches == [] then Progress(NOTHING, [], [], false)
    else Polled(c, After(c, batches[..|batches| - 1]), batches[|batches| - 1])
  }

  lemma HeardSnoc(c: Setup, msgs: seq<Msg>, m: Msg)
    ensures HeardAll(c, msgs + [m]) == Heard(c, HeardAll(c, msgs), m)
  {
    assert (msgs + [m])[..|msgs|] == msgs;
  }

  lemma {:induction false} TakenIsHeard(c: Setup, before: seq<Msg>, batch: seq<Msg>, k: nat)
    requires k <= |batch|
    ensures var r := Taken(c, HeardAll(c, before), batch, k);
      r.g == HeardAll(c, before + batch[..r.handled])
  {
    hide Heard, VerdictOn, HeardAll;
    if k == 0 {
      assert before + batch[..0] == before;
    } else {
      TakenIsHeard(c, before, batch, k - 1);
      HeardNext(c, before, batch, k - 1);
    }
  }

  lemma HeardNext(c: Setup, before: seq<Msg>, batch: seq<Msg>, k: nat)
    requires k < |batch|
    ensures HeardAll(c, before + batch[..k + 1]) == Heard(c, HeardAll(c, before + batch[..k]), batch[k])
  {
    assert before + batch[..k + 1] == before + batch[..k] + [batch[k]];
    HeardSnoc(c, before + batch[..k], batch[k]);
  }

  // ── which feeds are handled to the end ────────────────────────────────

  /** The browser gives up on the pairing or on this offer's generation. */
  predicate GivesUp(c: Setup, m: Msg) {
    || (m.from == Browser && (m.kind == "error" || m.kind == "bye"))
    || (m.from == Browser && m.kind == "candidates" && c.nonce != "" && m.reconnect.Some? && m.reconnect.value != c.nonce)
  }

  /** A signal that does not let `handle` return, given the signals before it: one that gives up,
      or an answer of this generation without an SDP, or with one that the connection refuses,
      while no description is set. */
  predicate Stops(c: Setup, before: seq<Msg>, m: Msg) {
    || GivesUp(c, m)
    || (&& m.from == Browser && m.kind == "answer" && (c.nonce == "" || m.nonce == Some(c.nonce))
        && (m.sdp.None? || m.sdp.value == "" || ExpandSdp(m.sdp.value, c.hosts) in c.refused)
        && FirstDescription(c, before).None?)
  }

  /** A signal that ends the offer whatever came before: an error that reads as if the channel were
      gone, or a request for another generation. */
  predicate EndsOffer(c: Setup, m: Msg) {
    GivesUp(c, m) && (m.kind == "candidates" || m.fatal)
  }

  /** Some signal of the batch other than its last one stops. */
  ghost predicate Breaks(c: Setup, before: seq<Msg>, batch: seq<Msg>) {
    exists i :: 0 <= i < |batch| - 1 && StopsAt(c, before, batch, i)
  }

  predicate StopsAt(c: Setup, before: seq<Msg>, batch: seq<Msg>, i: nat)
    requires i < |batch|
  {
    Stops(c, before + batch[..i], batch[i])
  }

  function Joined(batches: seq<seq<Msg>>): seq<Msg> {
    if batches == [] then [] else Joined(batches[..|batches| - 1]) + batches[|batches| - 1]
  }

  /** Read off the signals alone: before any of them ended the offer, one that was not the last
      of its batch stopped. */
  ghost predicate CutShort(c: Setup, batches: seq<seq<Msg>>) {
    batches != [] &&
    (var init, batch := batches[..|batches| - 1], batches[|batches| - 1];
     CutShort(c, init) || (!Ended(c, Joined(init)) && Breaks(c, Joined(init), batch)))
  }

  ghost predicate Ended(c: Setup, msgs: seq<Msg>) {
    exists i :: 0 <= i < |msgs| && EndsOffer(c, msgs[i])
  }

  lemma KindsDiffer()
    ensures "error" != "candidates" && "bye" != "candidates" && "answer" != "candidates"
    ensures "answer" != "error" && "answer" != "bye"
  {
    assert |"error"| == 5 && |"bye"| == 3 && |"candidates"| == 10 && |"answer"| == 6;
  }

  lemma StopsAre(c: Setup, before: seq<Msg>, m: Msg)
    ensures GivesUp(c, m) <==> Closes(m) || Supersedes(c, m)
    ensures EndsOffer(c, m) <==> (Closes(m) && m.fatal) || Supersedes(c, m)
    ensures Stops(c, before, m) <==> GivesUp(c, m) || (IsAnswer(c, m) && Description(c, m).None? && FirstDescription(c, before).None?)
  {
    hide FirstDescription, ExpandSdp;
    KindsDiffer();
  }

  lemma OneReasonAtATime(c: Setup, m: Msg)
    ensures IsAnswer(c, m) ==> !Closes(m) && !Supersedes(c, m)
    ensures !(Closes(m) && Supersedes(c, m))
  {
    KindsDiffer();
  }

  lemma StopsIsTheVerdict(c: Setup, before: seq<Msg>, m: Msg)
    ensures Stops(c, before, m) <==> VerdictOn(c, HeardAll(c, before), m) != Fine
    ensures EndsOffer(c, m) <==> VerdictOn(c, HeardAll(c, before), m) == Over
  {
    hide HeardAll, FirstDescription, Description, Stops, EndsOffer, GivesUp, Closes, Supersedes, IsAnswer;
    StopsAre(c, before, m);
    OneReasonAtATime(c, m);
    CandidatesAreAddedInOrder(c, before);
  }

  /** How far a batch is handled: to its first stop, or to its end. */
  lemma {:induction false} TakenUntilAStop(c: Setup, before: seq<Msg>, batch: seq<Msg>, k: nat)
    requires k <= |batch|
    ensures var r := Taken(c, HeardAll(c, before), batch, k);
      && (r.verdict == Fine ==> forall i :: 0 <= i < k ==> !StopsAt(c, before, batch, i))
      && (r.verdict != Fine ==>
            (&& r.handled > 0 && StopsAt(c, before, batch, r.handled - 1)
             && (r.verdict == Over <==> EndsOffer(c, batch[r.handled - 1]))
             && forall i :: 0 <= i < r.handled - 1 ==> !StopsAt(c, before, batch, i)))
  {
    hide HeardAll, Stops, VerdictOn, EndsOffer, Heard;
    if k > 0 {
      TakenUntilAStop(c, before, batch, k - 1);
      TakenIsHeard(c, before, batch, k - 1);
      StopsIsTheVerdict(c, before + batch[..k - 1], batch[k - 1]);
    }
  }

  lemma EndingStops(c: Setup, before: seq<Msg>, batch: seq<Msg>, i: nat)
    requires i < |batch| && EndsOffer(c, batch[i])
    ensures StopsAt(c, before, batch, i)
  {
    hide FirstDescription, Description;
  }

  /** A batch is handled to its end if and only if no signal but its last one stops; and then
      the offer is over if and only if one of its signals ends it. */
  lemma BatchIsHandledIff(c: Setup, before: seq<Msg>, batch: seq<Msg>)
    ensures var r := Taken(c, HeardAll(c, before), batch, |batch|);
      && (r.handled == |batch| <==> !Breaks(c, before, batch))
      && (!Breaks(c, before, batch) ==> (r.verdict == Over <==> Ended(c, batch)))
  {
    hide HeardAll, StopsAt, EndsOffer, Taken;
    TakenUntilAStop(c, before, batch, |batch|);
    forall i | 0 <= i < |batch| && EndsOffer(c, batch[i]) ensures StopsAt(c, before, batch, i) {
      EndingStops(c, before, batch, i);
    }
  }

  lemma EndedAppend(c: Setup, a: seq<Msg>, b: seq<Msg>)
    ensures Ended(c, a + b) <==> Ended(c, a) || Ended(c, b)
  {
    hide EndsOffer;
    forall i | 0 <= i < |a| && EndsOffer(c, a[i]) ensures Ended(c, a + b) {
      assert (a + b)[i] == a[i];
    }
    forall i | 0 <= i < |b| && EndsOffer(c, b[i]) ensures Ended(c, a + b) {
      assert (a + b)[|a| + i] == b[i];
    }
  }

  /** How a run of polls stands while none of its batches was cut short. */
  ghost predicate InStep(c: Setup, p: Progress, batches: seq<seq<Msg>>) {
    && p.handled == p.delivered && (p.over <==> Ended(c, Joined(batches)))
    && (!p.over ==> p.delivered == Joined(batches))
  }

  lemma PollInStep(c: Setup, p: Progress, before: seq<seq<Msg>>, batch: seq<Msg>)
    requires InStep(c, p, before) && p.g == HeardAll(c, p.handled)
    ensures var q := Polled(c, p, batch);
      if Ended(c, Joined(before)) || !Breaks(c, Joined(before), batch) then
        q.handled == q.delivered && (q.over <==> Ended(c, Joined(before) + batch))
        && (!q.over ==> q.delivered == Joined(before) + batch)
      else |q.handled| < |q.delivered|
  {
    hide Taken, HeardAll, Ended, Breaks, Joined;
    BatchIsHandledIff(c, Joined(before), batch);
    EndedAppend(c, Joined(before), batch);
    assert batch[..|batch|] == batch;
  }

  lemma PolledIsHeard(c: Setup, p: Progress, batch: seq<Msg>)
    requires p.g == HeardAll(c, p.handled) && |p.handled| <= |p.delivered|
    ensures var q := Polled(c, p, batch);
      && q.g == HeardAll(c, q.handled) && |q.handled| <= |q.delivered|
      && |q.delivered| - |q.handled| >= |p.delivered| - |p.handled|
  {
    hide Taken, HeardAll;
    TakenIsHeard(c, p.handled, batch, |batch|);
  }

  lemma {:induction false} PollsHear(c: Setup, batches: seq<seq<Msg>>)
    ensures var p := After(c, batches);
      && p.g == HeardAll(c, p.handled) && |p.handled| <= |p.delivered|
      && (CutShort(c, batches) ==> |p.handled| < |p.delivered|)
      && (!CutShort(c, batches) ==> InStep(c, p, batches))
  {
    hide HeardAll, Polled, Ended, Breaks;
    if batches == [] {
      NothingEnded(c);
    } else {
      var init, batch := batches[..|batches| - 1], batches[|batches| - 1];
      PollsHear(c, init);
      PolledIsHeard(c, After(c, init), batch);
      if !CutShort(c, init) {
        PollInStep(c, After(c, init), init, batch);
      }
    }
  }

  lemma NothingEnded(c: Setup)
    ensures !Ended(c, []) && HeardAll(c, []) == NOTHING
  {
  }

  /** Over every sequence of polls, the offer stands where hearing the handled signals one by
      one would leave it; and the handled signals are all that were delivered if and only if,
      before the offer ended, no signal but the last of its batch stopped. */
  lemma PollsHearWhatTheyHandle(c: Setup, batches: seq<seq<Msg>>)
    ensures var p := After(c, batches);
      && p.g == HeardAll(c, p.handled)
      && (p.handled == p.delivered <==> !CutShort(c, batches))
  {
    hide HeardAll, CutShort, After;
    PollsHear(c, batches);
  }

  /** If so, and an answer was set, every candidate delivered has been added, once and in order. */
  lemma EveryDeliveredCandidateIsAdded(c: Setup, batches: seq<seq<Msg>>)
    requires !CutShort(c, batches)
    ensures var p := After(c, batches);
      && p.g.remote == FirstDescription(c, p.delivered)
      && (if p.g.remote.Some? then p.g.added == AllCandidates(c, p.delivered) && p.g.pending == []
          else p.g.added == [] && p.g.pending == AllCandidates(c, p.delivered))
  {
    PollsHearWhatTheyHandle(c, batches);
    CandidatesAreAddedInOrder(c, After(c, batches).handled);
  }

  // ── feeds of candidates and acceptable answers ────────────────────────

  /** Nothing that closes or supersedes, and every answer of this generation can be set. */
  predicate Harmless(c: Setup, m: Msg) {
    !Closes(m) && !Supersedes(c, m) && (IsAnswer(c, m) ==> Description(c, m).Some?)
  }

  ghost predicate AllHarmless(c: Setup, batches: seq<seq<Msg>>) {
    forall j, i :: 0 <= j < |batches| && 0 <= i < |batches[j]| ==> Harmless(c, batches[j][i])
  }

  lemma {:induction false} JoinedIsHarmless(c: Setup, batches: seq<seq<Msg>>)
    requires AllHarmless(c, batches)
    ensures forall i :: 0 <= i < |Joined(batches)| ==> Harmless(c, Joined(batches)[i])
  {
    hide Harmless;
    if batches != [] {
      JoinedIsHarmless(c, batches[..|batches| - 1]);
    }
  }

  lemma HarmlessGoesOn(c: Setup, before: seq<Msg>, m: Msg)
    requires Harmless(c, m)
    ensures !Stops(c, before, m) && !EndsOffer(c, m)
  {
    hide FirstDescription, Description, Stops, EndsOffer, GivesUp, Closes, Supersedes, IsAnswer;
    StopsAre(c, before, m);
  }

  lemma {:induction false} HarmlessIsNeverCut(c: Setup, batches: seq<seq<Msg>>)
    requires AllHarmless(c, batches)
    ensures !CutShort(c, batches) && !Ended(c, Joined(batches))
  {
    hide Stops, EndsOffer, Harmless, Joined;
    if batches != [] {
      var init, batch := batches[..|batches| - 1], batches[|batches| - 1];
      HarmlessIsNeverCut(c, init);
      forall i | 0 <= i < |batch| ensures !StopsAt(c, Joined(init), batch, i) {
        HarmlessGoesOn(c, Joined(init) + batch[..i], batch[i]);
      }
    }
    JoinedIsHarmless(c, batches);
    forall i | 0 <= i < |Joined(batches)| ensures !EndsOffer(c, Joined(batches)[i]) {
      HarmlessGoesOn(c, [], Joined(batches)[i]);
    }
  }

  lemma {:induction false} AnswerIsSet(c: Setup, msgs: seq<Msg>, i: nat)
    requires i < |msgs| && IsAnswer(c, msgs[i]) && Description(c, msgs[i]).Some?
    ensures FirstDescription(c, msgs).Some?
  {
    hide IsAnswer, Description;
    if i < |msgs| - 1 {
      AnswerIsSet(c, msgs[..|msgs| - 1], i);
    }
  }

  /** Over every way to poll a feed of candidates and acceptable answers, everything delivered
      is handled; and once an answer is among it, every expanded candidate of this generation
      has been added exactly once, in the order of arrival. */
  lemma HarmlessFeedsAreComplete(c: Setup, batches: seq<seq<Msg>>)
    requires AllHarmless(c, batches)
    ensures var p, all := After(c, batches), Joined(batches);
      && p.handled == p.delivered == all && !p.over
      && (if exists i :: 0 <= i < |all| && IsAnswer(c, all[i]) then
            p.g.remote.Some? && p.g.added == AllCandidates(c, all) && p.g.pending == []
          else p.g.added == [] && p.g.pending == AllCandidates(c, all))
  {
    hide After, Joined, AllHarmless, HeardAll, AllCandidates, CutShort, Description;
    var all := Joined(batches);
    HarmlessIsNeverCut(c, batches);
    PollsHear(c, batches);
    CandidatesAreAddedInOrder(c, all);
    JoinedIsHarmless(c, batches);
    if i :| 0 <= i < |all| && IsAnswer(c, all[i]) {
      AnswerIsSet(c, all, i);
    } else {
      NoAnswerNoDescription(c, all);
    }
  }

  lemma {:induction false} NoAnswerNoDescription(c: Setup, msgs: seq<Msg>)
    requires forall i :: 0 <= i < |msgs| ==> !IsAnswer(c, msgs[i])
    ensures FirstDescription(c, msgs).None?
  {
    if msgs != [] {
      NoAnswerNoDescription(c, msgs[..|msgs| - 1]);
    }
  }

  /** A signal that throws takes the rest of its batch with it: an answer right behind one is
      never set, although the offer keeps polling. */
  lemma AnswerBehindAThrowIsLost(c: Setup, closing: Msg, answer: Msg)
    requires Closes(closing) && !closing.fatal && IsAnswer(c, answer) && Description(c, answer).Some?
    ensures var together, apart := After(c, [[closing, answer]]), After(c, [[closing], [answer]]);
      && !together.over && together.g.remote.None? && together.delivered == apart.delivered
      && apart.g.remote == Description(c, answer)
  {
    var both, one, two := [closing, answer], [closing], [answer];
    assert Taken(c, NOTHING, both, 1) == Batch(NOTHING, 1, Thrown);
    assert [both][..0] == [];
    assert After(c, [both]) == Progress(NOTHING, both, one, false);
    assert Taken(c, NOTHING, one, 1) == Batch(NOTHING, 1, Thrown);
    assert [one][..0] == [];
    assert After(c, [one]) == Progress(NOTHING, one, one, false);
    assert [one, two][..1] == [one];
    assert Taken(c, NOTHING, two, 0) == Batch(NOTHING, 0, Fine);
    assert one + two == both;
  }
}
