/** The relay transport's reconnect watcher: which requests it has offered to, after any
    sequence of feeds, failures and new requests. */
module ReconnectWatch {
  import opened Lists

  datatype From = Desktop | Browser

  /** A relayed signal. `reconnect` is the payload's nonce when that is a string. */
  datatype Entry = Entry(seqNo: int, from: From, kind: string, reconnect: Option<string>)

  /** How an offer ends: a channel, an error worth another attempt, or the end of the session. */
  datatype Offer = Opened | Failed | Ended

  datatype Watcher = Watcher(cursor: int, handled: set<string>, offered: seq<Entry>)

  const NEW_WATCHER := Watcher(0, {}, [])

  predicate IsRequest(e: Entry) {
    e.from == Browser && e.kind == "candidates" && e.reconnect.Some? && e.reconnect.value != ""
  }

  function Max(a: int, b: int): int {
    if a >= b then a else b
  }

  // ── one poll ──────────────────────────────────────────────────────────

  /** The watcher once it has looked at an entry, up to the start of an offer. */
  function Looked(w: Watcher, e: Entry): Watcher {
    if e.from == Desktop then w
    else if IsRequest(e) && e.reconnect.value !in w.handled then
      Watcher(Max(w.cursor, e.seqNo), w.handled + {e.reconnect.value}, w.offered + [e])
    else w.(cursor := Max(w.cursor, e.seqNo))
  }

  predicate Offers(w: Watcher, e: Entry) {
    IsRequest(e) && e.reconnect.value !in w.handled
  }

  function Ending(offers: seq<Offer>, i: nat): Offer {
    if i < |offers| then offers[i] else Ended
  }

  /** Part of a scan: `looked` entries have been looked at; a stopped scan looks at no more. */
  datatype Scan = Scan(w: Watcher, looked: nat, stopped: bool)

  /** The scan of the first `k` entries of a feed, when the offer to the i-th ends as `offers[i]`. */
  function Scanned(w: Watcher, feed: seq<Entry>, offers: seq<Offer>, k: nat): (s: Scan)
    requires k <= |feed|
    ensures s.looked <= k && (if s.stopped then s.looked > 0 else s.looked == k)
  {
    if k == 0 then Scan(w, 0, false)
    else
      var s, e := Scanned(w, feed, offers, k - 1), feed[k - 1];
      if s.stopped then s
      else Scan(Looked(s.w, e), k, Offers(s.w, e) && Ending(offers, k - 1) != Failed)
  }

  class RelayTransport {
    var cursor: int
    var handled: set<string>
    /** The requests an offer was started for. */
    var offered: seq<Entry>

    constructor ()
      ensures View() == NEW_WATCHER
    {
      cursor, handled, offered := 0, {}, [];
    }

    function View(): Watcher
      reads this
    {
      Watcher(cursor, handled, offered)
    }

    /** One pass over a feed; `peer` is the request whose channel opened. */
    method ScanFeed(feed: seq<Entry>, offers: seq<Offer>) returns (stopped: bool, peer: Option<Entry>)
      modifies this
      ensures View() == Scanned(old(View()), feed, offers, |feed|).w
      ensures stopped == Scanned(old(View()), feed, offers, |feed|).stopped
      ensures peer.Some? <==> stopped && Ending(offers, Scanned(old(View()), feed, offers, |feed|).looked - 1) == Opened
      ensures peer.Some? ==> offered != [] && peer.value == offered[|offered| - 1]
    {
      ghost var before := View();
      for i := 0 to |feed|
        invariant Scanned(before, feed, offers, i) == Scan(View(), i, false)
      {
        var entry := feed[i];
        if entry.from == Desktop {
          continue;
        }
        if entry.kind != "candidates" || entry.reconnect.None? || entry.reconnect.value == ""
           || entry.reconnect.value in handled {
          cursor := Max(cursor, entry.seqNo);
          continue;
        }
        handled := handled + {entry.reconnect.value};
        cursor := Max(cursor, entry.seqNo);
        offered := offered + [entry];
        match Ending(offers, i)
        case Opened =>
          StoppedStays(before, feed, offers, i + 1, |feed|);
          return true, Some(entry);
        case Ended =>
          StoppedStays(before, feed, offers, i + 1, |feed|);
          return true, None;
        case Failed =>
      }
      return false, None;
    }
  }

  lemma {:induction false} StoppedStays(w: Watcher, feed: seq<Entry>, offers: seq<Offer>, k: nat, n: nat)
    requires k <= n <= |feed| && Scanned(w, feed, offers, k).stopped
    ensures Scanned(w, feed, offers, n) == Scanned(w, feed, offers, k)
  {
    if k < n {
      StoppedStays(w, feed, offers, k, n - 1);
    }
  }

  // ── what should have been offered ─────────────────────────────────────

  ghost function Nonces(requests: seq<Entry>): set<string> {
    if requests == [] then {}
    else
      var rest, last := Nonces(requests[..|requests| - 1]), requests[|requests| - 1];
      if last.reconnect.Some? then rest + {last.reconnect.value} else rest
  }

  /** The browser's requests in a log, in order, the first of each nonce. */
  ghost function Requests(log: seq<Entry>): seq<Entry> {
    if log == [] then []
    else
      var rest, last := Requests(log[..|log| - 1]), log[|log| - 1];
      if IsRequest(last) && last.reconnect.value !in Nonces(rest) then rest + [last] else rest
  }

  lemma RequestsSnoc(log: seq<Entry>, e: Entry)
    ensures Requests(log + [e]) == if IsRequest(e) && e.reconnect.value !in Nonces(Requests(log))
                                   then Requests(log) + [e] else Requests(log)
  {
    assert (log + [e])[..|log|] == log;
  }

  lemma NoncesSnoc(requests: seq<Entry>, e: Entry)
    ensures Nonces(requests + [e])
         == if e.reconnect.Some? then Nonces(requests) + {e.reconnect.value} else Nonces(requests)
  {
    assert (requests + [e])[..|requests|] == requests;
  }

  lemma {:induction false} NoncesMember(requests: seq<Entry>, i: nat)
    requires i < |requests| && requests[i].reconnect.Some?
    ensures requests[i].reconnect.value in Nonces(requests)
  {
    if i < |requests| - 1 {
      NoncesMember(requests[..|requests| - 1], i);
    }
  }

  lemma {:induction false} NoncesOnly(requests: seq<Entry>, nonce: string)
    requires nonce in Nonces(requests)
    ensures exists i :: 0 <= i < |requests| && requests[i].reconnect == Some(nonce)
  {
    var last := requests[|requests| - 1];
    if last.reconnect != Some(nonce) {
      NoncesOnly(requests[..|requests| - 1], nonce);
    }
  }

  /** `Requests` lists requests of the log only, no nonce twice, and no nonce is missing. */
  lemma {:induction false} RequestsAre(log: seq<Entry>)
    ensures forall i :: 0 <= i < |Requests(log)| ==> IsRequest(Requests(log)[i]) && Requests(log)[i] in log
    ensures forall i, j :: 0 <= i < j < |Requests(log)| ==> Requests(log)[i].reconnect != Requests(log)[j].reconnect
    ensures forall i :: 0 <= i < |log| && IsRequest(log[i]) ==> log[i].reconnect.value in Nonces(Requests(log))
  {
    hide Nonces;
    if log != [] {
      var init, last := log[..|log| - 1], log[|log| - 1];
      RequestsAre(init);
      assert log == init + [last];
      NoncesSnoc(Requests(init), last);
      forall i | 0 <= i < |Requests(init)|
        ensures Requests(init)[i].reconnect.value in Nonces(Requests(init))
      {
        NoncesMember(Requests(init), i);
      }
    }
  }

  // ── the log and the cursor ────────────────────────────────────────────

  ghost predicate Ascending(log: seq<Entry>) {
    forall i, j :: 0 <= i < j < |log| ==> log[i].seqNo < log[j].seqNo
  }

  function AtMost(cursor: int): Entry -> bool {
    (e: Entry) => e.seqNo <= cursor
  }

  function Beyond(cursor: int): Entry -> bool {
    (e: Entry) => e.seqNo > cursor
  }

  /** A feed is the rest of the log. */
  lemma {:induction false} FeedIsTheRest(log: seq<Entry>, cursor: int)
    requires Ascending(log)
    ensures Filter(AtMost(cursor), log) + Filter(Beyond(cursor), log) == log
  {
    if log != [] {
      var init, last := log[..|log| - 1], log[|log| - 1];
      FeedIsTheRest(init, cursor);
      assert log == init + [last];
      if last.seqNo <= cursor {
        FilterNone(Beyond(cursor), init);
        FilterAll(AtMost(cursor), init);
      } else {
        ConcatAssoc(Filter(AtMost(cursor), init), Filter(Beyond(cursor), init), [last]);
      }
    }
  }

  /** The watcher has offered to the requests of `seen`, all of them at or below its cursor. */
  ghost predicate CaughtUp(w: Watcher, seen: seq<Entry>) {
    && w.offered == Requests(seen)
    && w.handled == Nonces(w.offered)
    && Requests(Filter(AtMost(w.cursor), seen)) == Requests(seen)
  }

  lemma FilterMore(cursor: int, seen: seq<Entry>, e: Entry)
    requires e.seqNo > cursor
    ensures Filter(AtMost(cursor), seen + [e]) == Filter(AtMost(cursor), seen)
  {
    assert (seen + [e])[..|seen|] == seen;
  }

  lemma AllAtMostLast(seen: seq<Entry>, e: Entry)
    requires Ascending(seen + [e])
    ensures Filter(AtMost(e.seqNo), seen + [e]) == seen + [e]
  {
    var all := seen + [e];
    forall i | 0 <= i < |all| ensures AtMost(e.seqNo)(all[i]) {
      assert i < |seen| ==> all[i].seqNo < all[|seen|].seqNo;
    }
    FilterAll(AtMost(e.seqNo), all);
  }

  lemma LookKeeps(w: Watcher, seen: seq<Entry>, e: Entry)
    requires CaughtUp(w, seen) && Ascending(seen + [e]) && e.seqNo > w.cursor
    ensures CaughtUp(Looked(w, e), seen + [e])
  {
    hide Requests, Nonces, Filter, Ascending;
    RequestsSnoc(seen, e);
    NoncesSnoc(w.offered, e);
    if e.from == Browser {
      AllAtMostLast(seen, e);
    } else {
      FilterMore(w.cursor, seen, e);
    }
  }

  lemma ScanSplits(below: seq<Entry>, feed: seq<Entry>, k: nat)
    requires Ascending(below + feed) && k < |feed|
    ensures below + feed[..k + 1] == below + feed[..k] + [feed[k]]
    ensures Ascending(below + feed[..k] + [feed[k]])
    ensures forall i :: k < i < |feed| ==> feed[i].seqNo > feed[k].seqNo
  {
    var all := below + feed;
    assert below + feed[..k] + [feed[k]] == all[..|below| + k + 1];
    forall i | k < i < |feed| ensures feed[i].seqNo > feed[k].seqNo {
      assert all[|below| + i].seqNo > all[|below| + k].seqNo;
    }
  }

  lemma {:induction false} ScanKeeps(w: Watcher, below: seq<Entry>, feed: seq<Entry>, offers: seq<Offer>, k: nat)
    requires CaughtUp(w, below) && Ascending(below + feed) && k <= |feed|
    requires forall i :: 0 <= i < |feed| ==> feed[i].seqNo > w.cursor
    ensures var s := Scanned(w, feed, offers, k);
      && CaughtUp(s.w, below + feed[..s.looked])
      && (forall i :: s.looked <= i < |feed| ==> feed[i].seqNo > s.w.cursor)
  {
    hide CaughtUp, Ascending, Offers, IsRequest;
    if k == 0 {
      assert below + feed[..0] == below;
    } else {
      ScanKeeps(w, below, feed, offers, k - 1);
      var s := Scanned(w, feed, offers, k - 1);
      if !s.stopped {
        ScanSplits(below, feed, k - 1);
        LookKeeps(s.w, below + feed[..k - 1], feed[k - 1]);
      }
    }
  }

  // ── runs ──────────────────────────────────────────────────────────────

  /** What an offer's wait hides arrives after the poll: a scan reads its feed once. */
  datatype Event = Arrives(entry: Entry) | FeedFails | Polls(offers: seq<Offer>)

  datatype State = State(log: seq<Entry>, w: Watcher)

  function Polled(s: State, offers: seq<Offer>): Scan {
    var feed := Filter(Beyond(s.w.cursor), s.log);
    Scanned(s.w, feed, offers, |feed|)
  }

  function Step(s: State, e: Event): State {
    match e
    case Arrives(entry) => s.(log := s.log + [entry])
    case FeedFails => s
    case Polls(offers) => s.(w := Polled(s, offers).w)
  }

  function After(events: seq<Event>, k: nat): State
    requires k <= |events|
  {
    if k == 0 then State([], NEW_WATCHER) else Step(After(events, k - 1), events[k - 1])
  }

  /** The relay numbers signals upwards from 1. */
  ghost predicate Numbered(log: seq<Entry>) {
    Ascending(log) && forall i :: 0 <= i < |log| ==> log[i].seqNo > 0
  }

  /** The watcher has offered exactly the requests at or below its cursor, and its cursor is
      not ahead of the log. */
  ghost predicate Inv(s: State) {
    && s.w.offered == Requests(Filter(AtMost(s.w.cursor), s.log))
    && s.w.handled == Nonces(s.w.offered)
    && StandsIn(s.w.cursor, s.log)
  }

  /** The cursor is at its beginning or at a signal. */
  ghost predicate StandsIn(cursor: int, log: seq<Entry>) {
    cursor == 0 || exists i :: 0 <= i < |log| && log[i].seqNo == cursor
  }

  lemma {:induction false} ScanCursor(w: Watcher, feed: seq<Entry>, offers: seq<Offer>, k: nat)
    requires k <= |feed|
    ensures var c := Scanned(w, feed, offers, k).w.cursor;
      c >= w.cursor && (c == w.cursor || exists i :: 0 <= i < |feed| && feed[i].seqNo == c)
  {
    if k > 0 {
      ScanCursor(w, feed, offers, k - 1);
    }
  }

  lemma FilterTwice(cursor: int, log: seq<Entry>)
    ensures Filter(AtMost(cursor), Filter(AtMost(cursor), log)) == Filter(AtMost(cursor), log)
  {
    FilterStronger(AtMost(cursor), AtMost(cursor), log);
  }

  lemma FeedIsBeyond(log: seq<Entry>, cursor: int)
    ensures var feed := Filter(Beyond(cursor), log);
      forall i :: 0 <= i < |feed| ==> feed[i].seqNo > cursor && feed[i] in log
  {
    var feed := Filter(Beyond(cursor), log);
    forall i | 0 <= i < |feed| ensures feed[i].seqNo > cursor && feed[i] in log {
      FilterMember(Beyond(cursor), log, feed[i]);
    }
  }

  /** The scan of the whole feed, given the part of the log below it. */
  lemma ScanOffers(w: Watcher, below: seq<Entry>, feed: seq<Entry>, offers: seq<Offer>)
    requires CaughtUp(w, below) && Ascending(below + feed)
    requires forall i :: 0 <= i < |feed| ==> feed[i].seqNo > w.cursor
    ensures var s := Scanned(w, feed, offers, |feed|);
      && s.w.handled == Nonces(s.w.offered)
      && s.w.offered == Requests(Filter(AtMost(s.w.cursor), below + feed))
      && (s.stopped || s.w.offered == Requests(below + feed))
  {
    ScanKeeps(w, below, feed, offers, |feed|);
    var s := Scanned(w, feed, offers, |feed|);
    RestIsBeyond(s.w.cursor, below, feed, s.looked);
    assert feed[..|feed|] == feed;
  }

  lemma PollOffers(s: State, offers: seq<Offer>)
    requires Inv(s) && Ascending(s.log)
    ensures var t := Polled(s, offers);
      && t.w.handled == Nonces(t.w.offered)
      && t.w.offered == Requests(Filter(AtMost(t.w.cursor), s.log))
      && (t.stopped || t.w.offered == Requests(s.log))
  {
    var below, feed := Filter(AtMost(s.w.cursor), s.log), Filter(Beyond(s.w.cursor), s.log);
    FeedIsTheRest(s.log, s.w.cursor);
    FilterTwice(s.w.cursor, s.log);
    FeedIsBeyond(s.log, s.w.cursor);
    ScanOffers(s.w, below, feed, offers);
  }

  lemma PollStands(s: State, offers: seq<Offer>)
    requires StandsIn(s.w.cursor, s.log)
    ensures StandsIn(Polled(s, offers).w.cursor, s.log)
  {
    hide Scanned, Filter;
    var feed := Filter(Beyond(s.w.cursor), s.log);
    ScanCursor(s.w, feed, offers, |feed|);
    var cursor := Polled(s, offers).w.cursor;
    if cursor != s.w.cursor {
      var i :| 0 <= i < |feed| && feed[i].seqNo == cursor;
      FilterMember(Beyond(s.w.cursor), s.log, feed[i]);
      var j :| 0 <= j < |s.log| && s.log[j] == feed[i];
    }
  }

  lemma PollKeeps(s: State, offers: seq<Offer>)
    requires Inv(s) && Ascending(s.log)
    ensures Inv(Step(s, Polls(offers)))
    ensures Polled(s, offers).stopped || Step(s, Polls(offers)).w.offered == Requests(s.log)
  {
    hide Polled, Requests, Nonces, Filter, StandsIn;
    PollOffers(s, offers);
    PollStands(s, offers);
  }

  lemma RestIsBeyond(cursor: int, below: seq<Entry>, feed: seq<Entry>, n: nat)
    requires n <= |feed| && forall i :: n <= i < |feed| ==> feed[i].seqNo > cursor
    ensures Filter(AtMost(cursor), below + feed) == Filter(AtMost(cursor), below + feed[..n])
  {
    assert below + feed == below + feed[..n] + feed[n..];
    FilterAppend(AtMost(cursor), below + feed[..n], feed[n..]);
    FilterNone(AtMost(cursor), feed[n..]);
  }

  lemma ArrivalKeeps(s: State, entry: Entry)
    requires Inv(s) && Numbered(s.log + [entry])
    ensures Inv(Step(s, Arrives(entry)))
  {
    var log := s.log + [entry];
    assert log[..|s.log|] == s.log;
    assert entry.seqNo > s.w.cursor by {
      if s.w.cursor != 0 {
        var i :| 0 <= i < |s.log| && s.log[i].seqNo == s.w.cursor;
        assert log[i].seqNo < log[|s.log|].seqNo;
      } else {
        assert log[|s.log|].seqNo > 0;
      }
    }
    if s.w.cursor != 0 {
      var i :| 0 <= i < |s.log| && s.log[i].seqNo == s.w.cursor;
      assert log[i].seqNo == s.w.cursor;
    }
  }

  lemma {:induction false} LogGrows(events: seq<Event>, k: nat, n: nat)
    requires k <= n <= |events|
    ensures After(events, k).log <= After(events, n).log
  {
    if k < n {
      LogGrows(events, k, n - 1);
    }
  }

  /** Over every run: the nonces offered are exactly those of the browser's requests at or
      below the cursor, each offered once, in the order they were asked for. */
  lemma {:induction false} EveryRequestIsOfferedOnce(events: seq<Event>, k: nat, s: State)
    requires k <= |events| && s == After(events, k) && Numbered(s.log)
    ensures Inv(s)
  {
    hide Inv, Polled, Numbered;
    if k == 0 {
      NothingYet();
    } else {
      var before := After(events, k - 1);
      LogGrows(events, k - 1, k);
      PrefixIsNumbered(before.log, s.log);
      EveryRequestIsOfferedOnce(events, k - 1, before);
      match events[k - 1]
      case Arrives(entry) => ArrivalKeeps(before, entry);
      case FeedFails =>
      case Polls(offers) => AscendsWhenNumbered(before.log); PollKeeps(before, offers);
    }
  }

  lemma NothingYet()
    ensures Inv(State([], NEW_WATCHER))
  {
  }

  lemma PrefixIsNumbered(log: seq<Entry>, more: seq<Entry>)
    requires log <= more && Numbered(more)
    ensures Numbered(log)
  {
  }

  lemma AscendsWhenNumbered(log: seq<Entry>)
    requires Numbered(log)
    ensures Ascending(log)
  {
  }

  /** The browser's signal asks for a reconnect, and its nonce has been offered to. */
  ghost predicate Answered(offered: seq<Entry>, e: Entry) {
    e.reconnect.Some? && exists j :: 0 <= j < |offered| && offered[j].reconnect == e.reconnect
  }

  /** Every `candidates` signal of the browser with a nonce has been offered to. */
  ghost predicate AllAnswered(offered: seq<Entry>, log: seq<Entry>) {
    forall e :: e in log && e.from == Browser && e.kind == "candidates" && e.reconnect.Some? && e.reconnect.value != ""
      ==> Answered(offered, e)
  }

  /** The same, spelled out on the signals: every `candidates` signal of the browser with a nonce
      that is at or below the cursor has been offered to, no nonce twice, and nothing else. */
  lemma NoRequestIsSkippedOrRepeated(events: seq<Event>)
    requires Numbered(After(events, |events|).log)
    ensures var s := After(events, |events|);
      && (forall i :: 0 <= i < |s.log| && s.log[i].from == Browser && s.log[i].kind == "candidates"
                      && s.log[i].reconnect.Some? && s.log[i].reconnect.value != "" && s.log[i].seqNo <= s.w.cursor
            ==> Answered(s.w.offered, s.log[i]))
      && (forall i, j :: 0 <= i < j < |s.w.offered| ==> s.w.offered[i].reconnect != s.w.offered[j].reconnect)
      && (forall i :: 0 <= i < |s.w.offered| ==>
            && s.w.offered[i] in s.log && s.w.offered[i].from == Browser && s.w.offered[i].kind == "candidates"
            && s.w.offered[i].reconnect.Some? && s.w.offered[i].reconnect.value != "")
  {
    var s := After(events, |events|);
    EveryRequestIsOfferedOnce(events, |events|, s);
    var below := Filter(AtMost(s.w.cursor), s.log);
    RequestsAre(below);
    forall i | 0 <= i < |s.log| && IsRequest(s.log[i]) && s.log[i].seqNo <= s.w.cursor
      ensures Answered(s.w.offered, s.log[i])
    {
      FilterMember(AtMost(s.w.cursor), s.log, s.log[i]);
      NoncesOnly(s.w.offered, s.log[i].reconnect.value);
    }
    forall i | 0 <= i < |s.w.offered| ensures s.w.offered[i] in s.log {
      FilterMember(AtMost(s.w.cursor), s.log, s.w.offered[i]);
    }
  }

  lemma {:induction false} CursorNeverDecreases(events: seq<Event>, k: nat, n: nat)
    requires k <= n <= |events|
    ensures After(events, k).w.cursor <= After(events, n).w.cursor
  {
    if k < n {
      CursorNeverDecreases(events, k, n - 1);
      var s := After(events, n - 1);
      if events[n - 1].Polls? {
        var feed := Filter(Beyond(s.w.cursor), s.log);
        ScanCursor(s.w, feed, events[n - 1].offers, |feed|);
      }
    }
  }

  lemma {:induction false} ScanProgress(w: Watcher, feed: seq<Entry>, offers: seq<Offer>, k: nat)
    requires k <= |feed|
    ensures var s := Scanned(w, feed, offers, k);
      |s.w.offered| >= |w.offered| && (s.stopped ==> |s.w.offered| > |w.offered|)
  {
    if k > 0 {
      ScanProgress(w, feed, offers, k - 1);
    }
  }

  /** A poll either leaves nothing unanswered in the whole log or answers one request more,
      so a request that shares a feed with an answered one waits for at most as many polls
      as there are requests before it. */
  lemma EveryPollMakesProgress(events: seq<Event>, k: nat, offers: seq<Offer>)
    requires k <= |events| && Numbered(After(events, k).log)
    ensures var s := After(events, k); var t := Step(s, Polls(offers));
      || |t.w.offered| > |s.w.offered|
      || (t.w.offered == Requests(s.log) && AllAnswered(t.w.offered, s.log))
  {
    var s := After(events, k);
    EveryRequestIsOfferedOnce(events, k, s);
    PollKeeps(s, offers);
    var feed := Filter(Beyond(s.w.cursor), s.log);
    ScanProgress(s.w, feed, offers, |feed|);
    RequestsAre(s.log);
    var t := Step(s, Polls(offers));
    if t.w.offered == Requests(s.log) {
      forall k | 0 <= k < |s.log| && IsRequest(s.log[k]) ensures Answered(t.w.offered, s.log[k]) {
        NoncesOnly(t.w.offered, s.log[k].reconnect.value);
      }
    }
  }
}
