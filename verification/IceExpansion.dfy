/** Which candidates and descriptions the two sides give their connections, told from the signals:
    every `.local` name is replaced by the machine's addresses, and nothing else happens. */
module IceExpansion {
  import opened Lists
  import opened Mdns
  import opened Sdp
  import opened SdpLines
  import Offer = IceOffer
  import Answer = IceAnswer

  // ── the offering side ─────────────────────────────────────────────────

  /** The signal is the browser's, of this offer's generation, and lists the candidate. Every
      signal is of a first pairing's generation; later ones are tagged with the offer's nonce and
      do not ask for another. */
  predicate Carries(c: Offer.Setup, m: Offer.Msg, x: Candidate) {
    && m.from == Offer.Browser && m.kind == "candidates" && m.candidates.Some? && x in m.candidates.value
    && (c.nonce == "" || (m.nonce == Some(c.nonce) && (m.reconnect.None? || m.reconnect.value == c.nonce)))
  }

  lemma CarriedIsServed(c: Offer.Setup, m: Offer.Msg)
    requires ArePlainHosts(c.hosts)
    ensures var list := Offer.CandidatesOf(c, m);
      && (forall x :: Carries(c, m, x) ==> IsServed(x, c.hosts, list))
      && (forall y :: y in list ==> !IsLocal(y) && exists x :: Carries(c, m, x) && ComesFrom(y, x, c.hosts))
  {
    hide IsServed, ComesFrom, IsLocal, ExpandAll;
    if Offer.Concerns(c, m) && m.kind == "candidates" && m.candidates.Some? {
      ExpandAllServes(m.candidates.value, c.hosts);
      forall y | y in Offer.CandidatesOf(c, m) ensures exists x :: Carries(c, m, x) && ComesFrom(y, x, c.hosts) {
        var x :| x in m.candidates.value && ComesFrom(y, x, c.hosts);
        assert Carries(c, m, x);
      }
    }
  }

  /** Every candidate that the signals carry is served by the list, and the list has nothing else. */
  ghost predicate Serves(c: Offer.Setup, msgs: seq<Offer.Msg>, list: seq<Candidate>) {
    && (forall m, x :: m in msgs && Carries(c, m, x) ==> IsServed(x, c.hosts, list))
    && (forall y :: y in list ==> !IsLocal(y) && Sent(c, msgs, y))
  }

  ghost predicate Sent(c: Offer.Setup, msgs: seq<Offer.Msg>, y: Candidate) {
    exists m, x :: m in msgs && Carries(c, m, x) && ComesFrom(y, x, c.hosts)
  }

  lemma {:induction false} AllCandidatesServe(c: Offer.Setup, msgs: seq<Offer.Msg>)
    requires ArePlainHosts(c.hosts)
    ensures Serves(c, msgs, Offer.AllCandidates(c, msgs))
  {
    hide IsServed, ComesFrom, IsLocal, Offer.CandidatesOf, Carries;
    if msgs != [] {
      var init, last := msgs[..|msgs| - 1], msgs[|msgs| - 1];
      assert msgs == init + [last];
      var all, more := Offer.AllCandidates(c, msgs), Offer.CandidatesOf(c, last);
      AllCandidatesServe(c, init);
      CarriedIsServed(c, last);
      forall m, x | m in msgs && Carries(c, m, x) ensures IsServed(x, c.hosts, all) {
        ServedByMore(x, c.hosts, if m in init then Offer.AllCandidates(c, init) else more, all);
      }
      forall y | y in all ensures !IsLocal(y) && Sent(c, msgs, y) {
        if y in Offer.AllCandidates(c, init) {
          var m, x :| m in init && Carries(c, m, x) && ComesFrom(y, x, c.hosts);
          assert m in msgs;
        } else {
          var x :| Carries(c, last, x) && ComesFrom(y, x, c.hosts);
          assert last in msgs;
        }
      }
    }
  }

  /** Over every sequence of polls, on a machine with plain addresses: no candidate that was added
      or waits is a `.local` name; every candidate of a handled signal of this generation is there,
      a `.local` name once for every address with the other tokens as they were; and nothing else
      is there. */
  lemma OfferedCandidatesAreExpanded(c: Offer.Setup, batches: seq<seq<Offer.Msg>>)
    requires ArePlainHosts(c.hosts)
    ensures var p := Offer.After(c, batches);
      Serves(c, p.handled, p.g.added + p.g.pending)
  {
    hide Offer.AllCandidates, Offer.HeardAll, Offer.FirstDescription, Offer.After, Serves;
    var p := Offer.After(c, batches);
    Offer.PollsHearWhatTheyHandle(c, batches);
    Offer.CandidatesAreAddedInOrder(c, p.handled);
    AllCandidatesServe(c, p.handled);
    assert [] + p.g.pending == p.g.pending && p.g.added + [] == p.g.added;
  }

  /** A browser's answer of this offer's generation. */
  predicate Answers(c: Offer.Setup, m: Offer.Msg) {
    && m.from == Offer.Browser && m.kind == "answer" && m.sdp.Some? && m.sdp.value != ""
    && (c.nonce == "" || m.nonce == Some(c.nonce))
  }

  /** The description is an SDP with every line expanded that can be, and every other kept. */
  ghost predicate Describes(remote: string, sdp: string, hosts: seq<string>) {
    && remote == Render(ExpandLines(Lines(sdp), hosts))
    && Settled(Lines(remote))
    && (Settled(Lines(sdp)) ==> remote == sdp)
  }

  lemma ExpandedDescribes(sdp: string, hosts: seq<string>)
    requires ArePlainAddresses(hosts)
    ensures Describes(ExpandSdp(sdp, hosts), sdp, hosts)
  {
    hide ExpandLines, Render, LinesFrom, ExpandSdp, Settled;
    ExpansionIsByLine(sdp, hosts);
    ExpandedSdpIsSettled(sdp, hosts);
    if Settled(Lines(sdp)) {
      SettledIsFixed(Lines(sdp), hosts);
      LinesOf(sdp);
    }
  }

  ghost predicate IsDescribedBy(c: Offer.Setup, remote: string, msgs: seq<Offer.Msg>) {
    exists m :: m in msgs && Answers(c, m) && Describes(remote, m.sdp.value, c.hosts) && remote !in c.refused
  }

  lemma {:induction false} DescriptionIsAnAnswers(c: Offer.Setup, msgs: seq<Offer.Msg>)
    requires ArePlainAddresses(c.hosts) && Offer.FirstDescription(c, msgs).Some?
    ensures IsDescribedBy(c, Offer.FirstDescription(c, msgs).value, msgs)
  {
    hide Describes, ExpandSdp;
    var init, last := msgs[..|msgs| - 1], msgs[|msgs| - 1];
    assert msgs == init + [last];
    if Offer.FirstDescription(c, init).Some? {
      DescriptionIsAnAnswers(c, init);
      var m :| m in init && Answers(c, m) && Describes(Offer.FirstDescription(c, init).value, m.sdp.value, c.hosts);
      assert m in msgs;
    } else {
      ExpandedDescribes(last.sdp.value, c.hosts);
      assert Answers(c, last) && last in msgs;
    }
  }

  /** Over every sequence of polls the description, once set, is that of a handled answer with its
      `.local` candidate lines expanded: no line of it can be expanded any more. */
  lemma DescriptionIsExpanded(c: Offer.Setup, batches: seq<seq<Offer.Msg>>)
    requires ArePlainAddresses(c.hosts)
    ensures var p := Offer.After(c, batches);
      p.g.remote.Some? ==> IsDescribedBy(c, p.g.remote.value, p.handled)
  {
    hide Offer.HeardAll, Offer.FirstDescription, Offer.After, Describes;
    var p := Offer.After(c, batches);
    Offer.PollsHearWhatTheyHandle(c, batches);
    Offer.CandidatesAreAddedInOrder(c, p.handled);
    if p.g.remote.Some? {
      DescriptionIsAnAnswers(c, p.handled);
    }
  }

  // ── the answering side ────────────────────────────────────────────────

  /** The signal is the browser's and lists the candidate. */
  predicate CarriesToAnswer(m: Answer.Signal, x: Candidate) {
    m.from == Answer.Browser && m.kind == "candidates" && m.candidates.Some? && x in m.candidates.value
  }

  ghost predicate SentToAnswer(signals: seq<Answer.Signal>, y: Candidate, hosts: seq<string>) {
    exists m, x :: m in signals && CarriesToAnswer(m, x) && ComesFrom(y, x, hosts)
  }

  ghost predicate ServesAnswer(signals: seq<Answer.Signal>, list: seq<Candidate>, hosts: seq<string>) {
    && (forall m, x :: m in signals && CarriesToAnswer(m, x) ==> IsServed(x, hosts, list))
    && (forall y :: y in list ==> !IsLocal(y) && SentToAnswer(signals, y, hosts))
  }

  lemma CarriedToAnswerIsServed(m: Answer.Signal, hosts: seq<string>)
    requires ArePlainHosts(hosts)
    ensures var list := Answer.CandidatesOf(m, hosts);
      && (forall x :: CarriesToAnswer(m, x) ==> IsServed(x, hosts, list))
      && (forall y :: y in list ==> !IsLocal(y) && exists x :: CarriesToAnswer(m, x) && ComesFrom(y, x, hosts))
  {
    hide IsServed, ComesFrom, IsLocal, ExpandAll;
    if m.candidates.Some? {
      ExpandAllServes(m.candidates.value, hosts);
      forall y | y in Answer.CandidatesOf(m, hosts) ensures exists x :: CarriesToAnswer(m, x) && ComesFrom(y, x, hosts) {
        var x :| x in m.candidates.value && ComesFrom(y, x, hosts);
        assert CarriesToAnswer(m, x);
      }
    }
  }

  lemma {:induction false} AllCandidatesServeAnswer(signals: seq<Answer.Signal>, hosts: seq<string>)
    requires ArePlainHosts(hosts)
    ensures ServesAnswer(signals, Answer.AllCandidates(signals, hosts), hosts)
  {
    hide IsServed, ComesFrom, IsLocal, Answer.CandidatesOf, CarriesToAnswer;
    if signals != [] {
      var init, last := signals[..|signals| - 1], signals[|signals| - 1];
      assert signals == init + [last];
      var all, more := Answer.AllCandidates(signals, hosts), Answer.CandidatesOf(last, hosts);
      AllCandidatesServeAnswer(init, hosts);
      CarriedToAnswerIsServed(last, hosts);
      forall m, x | m in signals && CarriesToAnswer(m, x) ensures IsServed(x, hosts, all) {
        ServedByMore(x, hosts, if m in init then Answer.AllCandidates(init, hosts) else more, all);
      }
      forall y | y in all ensures !IsLocal(y) && SentToAnswer(signals, y, hosts) {
        if y in Answer.AllCandidates(init, hosts) {
          var m, x :| m in init && CarriesToAnswer(m, x) && ComesFrom(y, x, hosts);
          assert m in signals;
        } else {
          var x :| CarriesToAnswer(last, x) && ComesFrom(y, x, hosts);
          assert last in signals;
        }
      }
    }
  }

  lemma {:induction false} CountedIff(list: seq<Candidate>, x: Candidate)
    ensures Count(list, x) > 0 <==> x in list
  {
    if list != [] {
      assert list == list[..|list| - 1] + [list[|list| - 1]];
      CountedIff(list[..|list| - 1], x);
    }
  }

  lemma {:induction false} AddedIff(added: seq<Answer.Add>, x: Candidate)
    ensures Answer.TimesAdded(added, x) > 0 <==> exists k :: 0 <= k < |added| && added[k].candidate == x
  {
    if added != [] {
      AddedIff(added[..|added| - 1], x);
    }
  }

  /** The signals a session was given: those before it attached, and those that arrived. */
  function Given(signals: seq<Answer.Signal>, events: seq<Answer.Event>): seq<Answer.Signal> {
    signals + Answer.Arrived(events, |events|)
  }

  lemma SentIff(signals: seq<Answer.Signal>, events: seq<Answer.Event>, hosts: seq<string>, x: Candidate)
    ensures Answer.TimesSent(signals, events, hosts, x) > 0 <==>
      x in Answer.AllCandidates(signals, hosts) || x in Answer.AllCandidates(Answer.Arrived(events, |events|), hosts)
  {
    CountedIff(Answer.AllCandidates(signals, hosts), x);
    CountedIff(Answer.AllCandidates(Answer.Arrived(events, |events|), hosts), x);
  }

  /** Under every interleaving, at every moment: no added candidate is a `.local` name, and each
      comes from a signal of the browser. */
  lemma AnsweredCandidatesAreExpanded(signals: seq<Answer.Signal>, events: seq<Answer.Event>, hosts: seq<string>, k: nat)
    requires ArePlainHosts(hosts) && k < |Answer.Run(signals, events, hosts, |events|).added|
    ensures var y := Answer.Run(signals, events, hosts, |events|).added[k].candidate;
      !IsLocal(y) && SentToAnswer(Given(signals, events), y, hosts)
  {
    hide Answer.Run, Answer.AllCandidates, Answer.Arrived, IsLocal, ComesFrom, CarriesToAnswer, Answer.TimesSent, Answer.TimesAdded;
    var added := Answer.Run(signals, events, hosts, |events|).added;
    var y := added[k].candidate;
    AddedIff(added, y);
    Answer.NothingIsAddedTwice(signals, events, hosts, y);
    SentIff(signals, events, hosts, y);
    var late := Answer.Arrived(events, |events|);
    AllCandidatesServeAnswer(signals, hosts);
    AllCandidatesServeAnswer(late, hosts);
    var part := if y in Answer.AllCandidates(signals, hosts) then signals else late;
    var m, x :| m in part && CarriesToAnswer(m, x) && ComesFrom(y, x, hosts);
    assert m in Given(signals, events);
  }

  /** And once an offer was sent and the handlers are through, every candidate of every signal has
      been added, a `.local` name once for every address. */
  lemma EverySentCandidateIsServed(signals: seq<Answer.Signal>, events: seq<Answer.Event>, hosts: seq<string>,
                                   m: Answer.Signal, x: Candidate, list: seq<Candidate>)
    requires ArePlainHosts(hosts) && Answer.Quiet(Answer.Run(signals, events, hosts, |events|))
    requires Answer.HasOffer(signals) || Answer.HasOffer(Answer.Arrived(events, |events|))
    requires m in Given(signals, events) && CarriesToAnswer(m, x)
    requires forall y :: y in list <==>
      exists k :: 0 <= k < |Answer.Run(signals, events, hosts, |events|).added|
                  && Answer.Run(signals, events, hosts, |events|).added[k].candidate == y
    ensures IsServed(x, hosts, list)
  {
    hide Answer.Run, Answer.AllCandidates, Answer.Arrived, IsServed, CarriesToAnswer, Answer.TimesSent, Answer.TimesAdded,
         Answer.Quiet, Answer.HasOffer;
    var added := Answer.Run(signals, events, hosts, |events|).added;
    var late := Answer.Arrived(events, |events|);
    AllCandidatesServeAnswer(signals, hosts);
    AllCandidatesServeAnswer(late, hosts);
    var from := Answer.AllCandidates(if m in signals then signals else late, hosts);
    forall y | y in from ensures y in list {
      AddedIff(added, y);
      Answer.EveryCandidateIsAddedOnce(signals, events, hosts, y);
      SentIff(signals, events, hosts, y);
    }
    ServedByMore(x, hosts, from, list);
  }
}
