/** What happens to parked messages over whole runs, and when an ack's two halves are
    separated. */
module TelegramMailbox {
  import opened Lists
  import opened Telegram

  // ── conservation ──────────────────────────────────────────────────────

  /** The line an operation adds to a chat's file. */
  function Arrival(op: Op, conv: string): Option<Line> {
    match op
    case Park(c, id, text, now) => if c == conv then Some(ParkedLine(id, text, now)) else None
    case Tear(c, raw) => if c == conv then Some(Torn(raw)) else None
    case _ => None
  }

  predicate AckedBy(op: Op, conv: string, line: Line) {
    op.Ack? && op.conv == conv && Drops(op.ids, line)
  }

  /** Some operation from `i` up to `k` acknowledges the line. */
  predicate AckedIn(ops: seq<Op>, conv: string, line: Line, i: nat, k: nat)
    requires i <= k <= |ops|
  {
    exists j :: i <= j < k && AckedBy(ops[j], conv, line)
  }

  /** The arrivals from operation `i` on that no later operation before `k` acknowledges. */
  function Survivors(ops: seq<Op>, conv: string, i: nat, k: nat): seq<Line>
    requires i <= k <= |ops|
    decreases k - i
  {
    if i == k then []
    else
      var rest := Survivors(ops, conv, i + 1, k);
      var line := Arrival(ops[i], conv);
      if line.Some? && !AckedIn(ops, conv, line.value, i + 1, k) then [line.value] + rest else rest
  }

  /** One operation's effect on the lines of one chat. */
  function LinesAfter(lines: seq<Line>, op: Op, conv: string): seq<Line> {
    if Arrival(op, conv).Some? then lines + [Arrival(op, conv).value]
    else if op.Ack? && op.conv == conv then Remaining(lines, op.ids)
    else lines
  }

  lemma KeepsAllWithoutIds(lines: seq<Line>)
    ensures Remaining(lines, []) == lines
  {
    FilterAll(Keeps([]), lines);
  }

  lemma StepLines(s: State, op: Op, conv: string)
    ensures LinesOf(Step(s, op), conv) == LinesAfter(LinesOf(s, conv), op, conv)
  {
    if op.Ack? && op.ids == [] {
      KeepsAllWithoutIds(LinesOf(s, conv));
    }
  }

  lemma RemainingOne(line: Line, ids: seq<int>)
    ensures Remaining([line], ids) == if Drops(ids, line) then [] else [line]
    ensures Remaining([], ids) == []
  {
    assert [line][..0] == [];
  }

  lemma AckedInSnoc(ops: seq<Op>, conv: string, line: Line, i: nat, k: nat)
    requires i <= k < |ops|
    ensures AckedIn(ops, conv, line, i, k + 1) <==> AckedIn(ops, conv, line, i, k) || AckedBy(ops[k], conv, line)
  {
  }

  /** The line of operation `i`, unless an operation before `k` acknowledges it. */
  function KeptOf(ops: seq<Op>, conv: string, i: nat, k: nat): seq<Line>
    requires i < k <= |ops|
  {
    var line := Arrival(ops[i], conv);
    if line.Some? && !AckedIn(ops, conv, line.value, i + 1, k) then [line.value] else []
  }

  lemma SurvivorsAre(ops: seq<Op>, conv: string, i: nat, k: nat)
    requires i < k <= |ops|
    ensures Survivors(ops, conv, i, k) == KeptOf(ops, conv, i, k) + Survivors(ops, conv, i + 1, k)
  {
  }

  lemma KeptStep(ops: seq<Op>, conv: string, i: nat, k: nat)
    requires i < k < |ops|
    ensures KeptOf(ops, conv, i, k + 1)
         == if ops[k].Ack? && ops[k].conv == conv then Remaining(KeptOf(ops, conv, i, k), ops[k].ids)
            else KeptOf(ops, conv, i, k)
  {
    hide AckedIn;
    var line := Arrival(ops[i], conv);
    if line.Some? {
      AckedInSnoc(ops, conv, line.value, i + 1, k);
      if ops[k].Ack? {
        RemainingOne(line.value, ops[k].ids);
      }
    }
  }

  lemma LinesAfterAppend(a: seq<Line>, b: seq<Line>, op: Op, conv: string)
    ensures LinesAfter(a + b, op, conv)
         == (if op.Ack? && op.conv == conv then Remaining(a, op.ids) else a) + LinesAfter(b, op, conv)
  {
    if op.Ack? {
      FilterAppend(Keeps(op.ids), a, b);
    } else if Arrival(op, conv).Some? {
      ConcatAssoc(a, b, [Arrival(op, conv).value]);
    }
  }

  lemma LastSurvivor(ops: seq<Op>, conv: string, k: nat)
    requires k < |ops|
    ensures Survivors(ops, conv, k, k + 1) == LinesAfter([], ops[k], conv)
  {
    SurvivorsAre(ops, conv, k, k + 1);
    assert Survivors(ops, conv, k + 1, k + 1) == [];
    assert KeptOf(ops, conv, k, k + 1) + [] == KeptOf(ops, conv, k, k + 1);
  }

  lemma {:induction false} SurvivorsStep(ops: seq<Op>, conv: string, i: nat, k: nat)
    requires i <= k < |ops|
    ensures Survivors(ops, conv, i, k + 1) == LinesAfter(Survivors(ops, conv, i, k), ops[k], conv)
    decreases k - i
  {
    hide KeptOf, LinesAfter, Remaining;
    if i == k {
      LastSurvivor(ops, conv, k);
    } else {
      SurvivorsStep(ops, conv, i + 1, k);
      SurvivorsAre(ops, conv, i, k);
      SurvivorsAre(ops, conv, i, k + 1);
      KeptStep(ops, conv, i, k);
      LinesAfterAppend(KeptOf(ops, conv, i, k), Survivors(ops, conv, i + 1, k), ops[k], conv);
    }
  }

  /** Over every run a chat's file is, in arrival order, exactly the lines that arrived and
      that no later ack names; a torn line is never lost. */
  lemma {:induction false} MailboxConserves(ops: seq<Op>, conv: string, k: nat)
    requires k <= |ops|
    ensures LinesOf(After(ops, k), conv) == Survivors(ops, conv, 0, k)
  {
    hide Step, LinesAfter;
    if k > 0 {
      MailboxConserves(ops, conv, k - 1);
      StepLines(After(ops, k - 1), ops[k - 1], conv);
      SurvivorsStep(ops, conv, 0, k - 1);
    }
  }

  // ── claims hand over everything ───────────────────────────────────────

  function Under(conv: string): Message -> bool {
    (m: Message) => m.conv == conv
  }

  lemma {:induction false} TaggedUnder(conv: string, entries: seq<Entry>, other: string)
    ensures Filter(Under(other), Tagged(conv, entries)) == if conv == other then Tagged(conv, entries) else []
  {
    if entries != [] {
      TaggedUnder(conv, entries[..|entries| - 1], other);
      var init := Tagged(conv, entries[..|entries| - 1]);
      var all := Tagged(conv, entries);
      assert all[..|all| - 1] == init;
    }
  }

  /** What a claim hands over of one chat. */
  function ServedOf(s: State, profile: string, now: int, conv: string): seq<Message> {
    if Serves(s, profile, now, conv) then Tagged(conv, Readable(LinesOf(s, conv))) else []
  }

  lemma HandsOverMore(s: State, profile: string, now: int, convs: seq<string>)
    requires convs != []
    ensures HandedOver(s, profile, now, convs)
         == HandedOver(s, profile, now, convs[..|convs| - 1]) + ServedOf(s, profile, now, convs[|convs| - 1])
  {
    hide Serves, Tagged, Readable, LinesOf;
  }

  lemma ServedUnder(s: State, profile: string, now: int, conv: string, other: string)
    ensures Filter(Under(other), ServedOf(s, profile, now, conv))
         == if conv == other then ServedOf(s, profile, now, conv) else []
  {
    hide Serves, Tagged, Readable, LinesOf;
    TaggedUnder(conv, Readable(LinesOf(s, conv)), other);
  }

  lemma {:induction false} HandedOverUnder(s: State, profile: string, now: int, convs: seq<string>, conv: string)
    requires NoRepeats(convs)
    ensures Filter(Under(conv), HandedOver(s, profile, now, convs))
         == if conv in convs then ServedOf(s, profile, now, conv) else []
  {
    hide ServedOf, Tagged, Serves, Readable, Under;
    if convs == [] {
      assert HandedOver(s, profile, now, convs) == [];
    } else {
      hide HandedOver, Filter;
      var init, last := convs[..|convs| - 1], convs[|convs| - 1];
      HandedOverUnder(s, profile, now, init, conv);
      HandsOverMore(s, profile, now, convs);
      FilterAppend(Under(conv), HandedOver(s, profile, now, init), ServedOf(s, profile, now, last));
      ServedUnder(s, profile, now, last, conv);
      assert convs == init + [last];
    }
  }

  /** The profile may claim the chat: it is the owner, or nobody is, or the owner has been silent
      for 15 seconds. */
  predicate MayClaim(s: State, profile: string, now: int, conv: string) {
    conv !in s.bindings || s.bindings[conv].profile == profile || now - s.bindings[conv].lastBeat >= 15_000
  }

  /** A claim by the owner, or by anyone when the chat is unbound or stale, returns every
      readable entry of the chat in arrival order; any other claim returns none of them. */
  lemma ClaimReturnsEveryEntry(s: State, profile: string, now: int, convs: seq<string>, conv: string)
    requires NoRepeats(convs)
    ensures Filter(Under(conv), HandedOver(s, profile, now, convs))
         == if conv in convs && conv in s.files && MayClaim(s, profile, now, conv)
            then Tagged(conv, Readable(LinesOf(s, conv))) else []
  {
    HandedOverUnder(s, profile, now, convs, conv);
  }

  lemma {:induction false} SurvivorsContain(ops: seq<Op>, conv: string, i: nat, m: nat, k: nat)
    requires i <= m < k <= |ops|
    requires Arrival(ops[m], conv).Some? && !AckedIn(ops, conv, Arrival(ops[m], conv).value, m + 1, k)
    ensures Arrival(ops[m], conv).value in Survivors(ops, conv, i, k)
    decreases m - i
  {
    hide AckedIn, Arrival;
    if i < m {
      SurvivorsContain(ops, conv, i + 1, m, k);
    }
  }

  lemma {:induction false} TaggedMember(conv: string, entries: seq<Entry>, e: Entry)
    requires e in entries
    ensures Message(conv, e) in Tagged(conv, entries)
  {
    var init, last := entries[..|entries| - 1], entries[|entries| - 1];
    if e != last {
      TaggedMember(conv, init, e);
    }
  }

  /** A parked message that no later ack names is handed over by every claim that may have the
      chat, with its own id, text and time of arrival. */
  lemma ParkedMessagesAreClaimed(ops: seq<Op>, conv: string, m: nat, k: nat, profile: string, now: int, convs: seq<string>)
    requires m < k <= |ops| && ops[m].Park? && ops[m].conv == conv
    requires forall j :: m < j < k && ops[j].Ack? && ops[j].conv == conv ==> ops[m].id !in ops[j].ids
    requires NoRepeats(convs) && conv in convs && MayClaim(After(ops, k), profile, now, conv)
    ensures Message(conv, Entry(ops[m].id, ops[m].text, ops[m].now)) in HandedOver(After(ops, k), profile, now, convs)
  {
    hide Survivors, HandedOver, Step, FilterMap;
    var s, line := After(ops, k), ParkedLine(ops[m].id, ops[m].text, ops[m].now);
    var e := Entry(ops[m].id, ops[m].text, ops[m].now);
    SurvivorsContain(ops, conv, 0, m, k);
    MailboxConserves(ops, conv, k);
    assert line in LinesOf(s, conv) && AsEntry(line) == Some(e);
    FilterMapMember(AsEntry, LinesOf(s, conv), e);
    TaggedMember(conv, Readable(LinesOf(s, conv)), e);
    ClaimReturnsEveryEntry(s, profile, now, convs, conv);
    FilterMember(Under(conv), HandedOver(s, profile, now, convs), Message(conv, e));
  }

  lemma {:induction false} TaggedOnly(conv: string, entries: seq<Entry>, x: Message)
    requires x in Tagged(conv, entries)
    ensures x.conv == conv && x.entry in entries
  {
    var init, last := entries[..|entries| - 1], entries[|entries| - 1];
    if x != Message(conv, last) {
      TaggedOnly(conv, init, x);
    }
  }

  /** And whatever is handed over was parked on its chat, with that id, text and time. */
  lemma ClaimedMessagesWereParked(ops: seq<Op>, k: nat, profile: string, now: int, convs: seq<string>, x: Message)
    requires k <= |ops| && NoRepeats(convs) && x in HandedOver(After(ops, k), profile, now, convs)
    ensures MayClaim(After(ops, k), profile, now, x.conv)
    ensures exists m :: 0 <= m < k && ops[m] == Park(x.conv, x.entry.id, x.entry.text, x.entry.at)
  {
    hide Survivors, HandedOver, After, FilterMap, Tagged, Filter;
    var s := After(ops, k);
    FilterMember(Under(x.conv), HandedOver(s, profile, now, convs), x);
    ClaimReturnsEveryEntry(s, profile, now, convs, x.conv);
    TaggedOnly(x.conv, Readable(LinesOf(s, x.conv)), x);
    FilterMapMember(AsEntry, LinesOf(s, x.conv), x.entry);
    var line :| line in LinesOf(s, x.conv) && AsEntry(line) == Some(x.entry);
    MailboxConserves(ops, x.conv, k);
    SurvivorsArrived(ops, x.conv, 0, k, line);
    var m :| 0 <= m < k && Arrival(ops[m], x.conv) == Some(line);
    assert ops[m] == Park(x.conv, x.entry.id, x.entry.text, x.entry.at);
  }

  lemma {:induction false} SurvivorsArrived(ops: seq<Op>, conv: string, i: nat, k: nat, line: Line)
    requires i <= k <= |ops| && line in Survivors(ops, conv, i, k)
    ensures exists m :: i <= m < k && Arrival(ops[m], conv) == Some(line)
    decreases k - i
  {
    hide AckedIn, Arrival;
    if line in Survivors(ops, conv, i + 1, k) {
      SurvivorsArrived(ops, conv, i + 1, k, line);
    }
  }

  // ── an ack in two halves ──────────────────────────────────────────────

  /** The lines that arrive on a chat during operations `i` up to `k`. */
  function ParkedBetween(ops: seq<Op>, conv: string, i: nat, k: nat): seq<Line>
    requires i <= k <= |ops|
  {
    if k == i then []
    else
      var before := ParkedBetween(ops, conv, i, k - 1);
      if Arrival(ops[k - 1], conv).Some? then before + [Arrival(ops[k - 1], conv).value] else before
  }

  predicate NoAckBetween(ops: seq<Op>, conv: string, i: nat, k: nat)
    requires i <= k <= |ops|
  {
    k == i || (NoAckBetween(ops, conv, i, k - 1) && !(ops[k - 1].Ack? && ops[k - 1].conv == conv))
  }

  lemma {:induction false} LinesGrowBetween(ops: seq<Op>, conv: string, i: nat, k: nat)
    requires i <= k <= |ops| && NoAckBetween(ops, conv, i, k)
    ensures LinesOf(After(ops, k), conv) == LinesOf(After(ops, i), conv) + ParkedBetween(ops, conv, i, k)
    ensures conv in After(ops, i).files ==> conv in After(ops, k).files
  {
    if k > i {
      hide Step, Arrival;
      StepFiles(After(ops, k - 1), ops[k - 1], conv);
      LinesGrowBetween(ops, conv, i, k - 1);
      StepLines(After(ops, k - 1), ops[k - 1], conv);
    }
  }

  /** An ack that read the file before operation `i` and renames its copy into place
      before operation `k`; a missing file ends it at the read. */
  ghost function SplitAck(ops: seq<Op>, conv: string, ids: seq<int>, i: nat, k: nat): State
    requires i <= k <= |ops|
  {
    if ids == [] || conv !in After(ops, i).files then After(ops, k)
    else AckWritten(After(ops, k), conv, LinesOf(After(ops, i), conv), ids)
  }

  /** With parks, claims, beats, sweeps and unlinks in between, the file stood at its
      reading plus the lines parked since; the rename leaves the kept lines of the
      reading. So exactly the lines parked in between are lost. */
  lemma SplitAckLosesWhatArrived(ops: seq<Op>, conv: string, ids: seq<int>, i: nat, k: nat)
    requires i <= k <= |ops| && NoAckBetween(ops, conv, i, k)
    requires ids != [] && conv in After(ops, i).files
    ensures var parked := ParkedBetween(ops, conv, i, k);
      && LinesOf(After(ops, k), conv) == LinesOf(After(ops, i), conv) + parked
      && LinesOf(Acked(After(ops, k), conv, ids), conv)
         == LinesOf(SplitAck(ops, conv, ids, i, k), conv) + Remaining(parked, ids)
      && LinesOf(SplitAck(ops, conv, ids, i, k), conv) == Remaining(LinesOf(After(ops, i), conv), ids)
  {
    LinesGrowBetween(ops, conv, i, k);
    FilterAppend(Keeps(ids), LinesOf(After(ops, i), conv), ParkedBetween(ops, conv, i, k));
  }

  /** The split ack equals the atomic one exactly when it loses nothing it should keep. */
  lemma SplitAckIsSafeIff(ops: seq<Op>, conv: string, ids: seq<int>, i: nat, k: nat)
    requires i <= k <= |ops| && NoAckBetween(ops, conv, i, k)
    requires conv in After(ops, i).files
    ensures SplitAck(ops, conv, ids, i, k) == Acked(After(ops, k), conv, ids)
       <==> ids == [] || Remaining(ParkedBetween(ops, conv, i, k), ids) == []
  {
    LinesGrowBetween(ops, conv, i, k);
    if ids != [] {
      SplitAckLosesWhatArrived(ops, conv, ids, i, k);
      var a, b := SplitAck(ops, conv, ids, i, k), Acked(After(ops, k), conv, ids);
      var parked := Remaining(ParkedBetween(ops, conv, i, k), ids);
      if parked == [] {
        assert LinesOf(a, conv) + [] == LinesOf(a, conv);
      } else {
        assert |LinesOf(b, conv)| > |LinesOf(a, conv)|;
      }
    }
  }

  // ── acks among other acks ─────────────────────────────────────────────

  /** A line that no operation from `i` up to `k` acknowledges. */
  function Unacked(ops: seq<Op>, conv: string, i: nat, k: nat): Line -> bool
    requires i <= k <= |ops|
  {
    (line: Line) => !AckedIn(ops, conv, line, i, k)
  }

  lemma {:induction false} FilterBoth<T>(p: T -> bool, q: T -> bool, both: T -> bool, s: seq<T>)
    requires forall x :: x in s ==> (both(x) <==> p(x) && q(x))
    ensures Filter(p, Filter(q, s)) == Filter(both, s)
  {
    if s != [] {
      var init, last := s[..|s| - 1], s[|s| - 1];
      assert s == init + [last];
      FilterBoth(p, q, both, init);
      assert (Filter(q, init) + [last])[..|Filter(q, init)|] == Filter(q, init);
    }
  }

  lemma UnackedStep(ops: seq<Op>, conv: string, lines: seq<Line>, i: nat, k: nat)
    requires i <= k < |ops|
    ensures var kept := Filter(Unacked(ops, conv, i, k), lines);
      Filter(Unacked(ops, conv, i, k + 1), lines)
      == if ops[k].Ack? && ops[k].conv == conv then Remaining(kept, ops[k].ids) else kept
  {
    forall line | line in lines
      ensures AckedIn(ops, conv, line, i, k + 1) <==> AckedIn(ops, conv, line, i, k) || AckedBy(ops[k], conv, line)
    {
      AckedInSnoc(ops, conv, line, i, k);
    }
    var now, later := Unacked(ops, conv, i, k), Unacked(ops, conv, i, k + 1);
    if ops[k].Ack? && ops[k].conv == conv {
      FilterBoth(Keeps(ops[k].ids), now, later, lines);
    } else {
      SameFilter(now, later, lines);
    }
  }

  lemma {:induction false} SameFilter<T>(p: T -> bool, q: T -> bool, s: seq<T>)
    requires forall x :: x in s ==> (p(x) <==> q(x))
    ensures Filter(p, s) == Filter(q, s)
  {
    if s != [] {
      assert s == s[..|s| - 1] + [s[|s| - 1]];
      SameFilter(p, q, s[..|s| - 1]);
    }
  }

  /** Between two moments a chat's file loses what was acknowledged and gains what arrived and
      was not. */
  lemma {:induction false} LinesBetween(ops: seq<Op>, conv: string, i: nat, k: nat)
    requires i <= k <= |ops|
    ensures LinesOf(After(ops, k), conv)
         == Filter(Unacked(ops, conv, i, k), LinesOf(After(ops, i), conv)) + Survivors(ops, conv, i, k)
  {
    hide Step, AckedIn, LinesAfter, Remaining, Filter, Survivors, LinesOf;
    var lines := LinesOf(After(ops, i), conv);
    if k == i {
      NothingAcked(ops, conv, lines, i);
    } else {
      LinesBetween(ops, conv, i, k - 1);
      StepLines(After(ops, k - 1), ops[k - 1], conv);
      SurvivorsStep(ops, conv, i, k - 1);
      UnackedStep(ops, conv, lines, i, k - 1);
      LinesAfterAppend(Filter(Unacked(ops, conv, i, k - 1), lines), Survivors(ops, conv, i, k - 1), ops[k - 1], conv);
    }
  }

  lemma NothingAcked(ops: seq<Op>, conv: string, lines: seq<Line>, i: nat)
    requires i <= |ops|
    ensures Filter(Unacked(ops, conv, i, i), lines) + Survivors(ops, conv, i, i) == lines
  {
    FilterAll(Unacked(ops, conv, i, i), lines);
  }

  /** An ack whose halves stand apart, with any operations in between, other acks of the chat
      among them. It loses what arrived in between and would have stayed, and brings back what
      other acks removed in between: the atomic ack leaves the first list, the split one the
      second. */
  lemma SplitAckAmongOthers(ops: seq<Op>, conv: string, ids: seq<int>, i: nat, k: nat)
    requires i <= k <= |ops| && ids != [] && conv in After(ops, i).files
    ensures conv in After(ops, k).files
    ensures var read := LinesOf(After(ops, i), conv);
      && LinesOf(Acked(After(ops, k), conv, ids), conv)
         == Remaining(Filter(Unacked(ops, conv, i, k), read), ids) + Remaining(Survivors(ops, conv, i, k), ids)
      && LinesOf(SplitAck(ops, conv, ids, i, k), conv) == Remaining(read, ids)
  {
    hide Survivors, AckedIn;
    FilesStay(ops, conv, i, k);
    LinesBetween(ops, conv, i, k);
    FilterAppend(Keeps(ids), Filter(Unacked(ops, conv, i, k), LinesOf(After(ops, i), conv)), Survivors(ops, conv, i, k));
  }

  lemma {:induction false} FilesStay(ops: seq<Op>, conv: string, i: nat, k: nat)
    requires i <= k <= |ops| && conv in After(ops, i).files
    ensures conv in After(ops, k).files
  {
    if k > i {
      FilesStay(ops, conv, i, k - 1);
    }
  }

  /** Two acks that both read before either writes: the later write brings back every line
      that only the other one removed, yet the ids of both are recorded. They end as they would
      one after the other if and only if there is no such line. */
  lemma InterleavedAcks(s: State, conv: string, a: seq<int>, b: seq<int>)
    requires a != [] && b != [] && conv in s.files
    ensures var read := LinesOf(s, conv);
      var mixed := AckWritten(AckWritten(s, conv, read, a), conv, read, b);
      var ordered := Acked(Acked(s, conv, a), conv, b);
      && LinesOf(mixed, conv) == Remaining(read, b)
      && LinesOf(ordered, conv) == Remaining(Remaining(read, b), a)
      && AnsweredIds(mixed, conv) == AnsweredIds(ordered, conv)
      && (mixed == ordered <==> forall line :: line in Remaining(read, b) ==> !Drops(a, line))
  {
    var read := LinesOf(s, conv);
    FilterCommute(Keeps(b), Keeps(a), read);
    RemainsWholeIff(Remaining(read, b), a);
  }

  lemma RemainsWholeIff(lines: seq<Line>, ids: seq<int>)
    ensures Remaining(lines, ids) == lines <==> forall line :: line in lines ==> !Drops(ids, line)
  {
    if forall line :: line in lines ==> !Drops(ids, line) {
      FilterAll(Keeps(ids), lines);
    }
    forall line | line in lines && Drops(ids, line) ensures Remaining(lines, ids) != lines {
      FilterMember(Keeps(ids), lines, line);
    }
  }

  /** The write half of an ack that read the answered ids, too, some time ago. */
  function WrittenLate(s: State, conv: string, read: seq<Line>, known: seq<int>, ids: seq<int>): State {
    s.(files := s.files[conv := Remaining(read, ids)], answered := s.answered[conv := Newest(Distinct(known + ids))])
  }

  /** When the recording halves interleave as well, so that the second ack read the answered ids
      before the first wrote them, what only the first ack answered is forgotten, although the
      first had recorded it. While nothing is cut off, the ids come out as they would one ack
      after the other if and only if the first answers nothing by itself. */
  lemma InterleavedRecordsForget(s: State, conv: string, a: seq<int>, b: seq<int>)
    requires |Distinct(AnsweredIds(s, conv) + a + b)| <= ANSWERED_KEEP
    ensures var read, known := LinesOf(s, conv), AnsweredIds(s, conv);
      var first := AckWritten(s, conv, read, a);
      var mixed, ordered := WrittenLate(first, conv, read, known, b), AckWritten(first, conv, read, b);
      && (forall id :: id in AnsweredIds(first, conv) <==> id in known || id in a)
      && (forall id :: id in AnsweredIds(mixed, conv) <==> id in known || id in b)
      && (forall id :: id in AnsweredIds(ordered, conv) <==> id in known || id in a || id in b)
      && ((forall id :: id in AnsweredIds(mixed, conv) <==> id in AnsweredIds(ordered, conv))
          <==> forall id :: id in a ==> id in known || id in b)
  {
    hide Distinct, Remaining;
    var known := AnsweredIds(s, conv);
    DistinctGrows(known + a, b);
    RecordsAll(known, a);
    RecordsAll(Distinct(known + a), b);
    DistinctTwice(known + a, b);
    DistinctWithout(known, a, b);
    RecordsAll(known, b);
  }

  lemma RecordsAll(known: seq<int>, ids: seq<int>)
    ensures forall id :: id in Distinct(known + ids) <==> id in known || id in ids
  {
    DistinctIsASet(known + ids);
  }

  lemma {:induction false} DistinctTwice(a: seq<int>, b: seq<int>)
    ensures Distinct(Distinct(a) + b) == Distinct(a + b)
  {
    if b == [] {
      DistinctFixed(a);
      assert Distinct(a) + b == Distinct(a) && a + b == a;
    } else {
      DistinctTwice(a, b[..|b| - 1]);
      assert (a + b)[..|a + b| - 1] == a + b[..|b| - 1];
      assert (Distinct(a) + b)[..|Distinct(a) + b| - 1] == Distinct(a) + b[..|b| - 1];
    }
  }

  lemma {:induction false} DistinctFixed(a: seq<int>)
    ensures Distinct(Distinct(a)) == Distinct(a)
  {
    if a != [] {
      var init, last := a[..|a| - 1], a[|a| - 1];
      DistinctFixed(init);
      if last !in Distinct(init) {
        assert (Distinct(init) + [last])[..|Distinct(init)|] == Distinct(init);
      }
    }
  }

  lemma {:induction false} DistinctWithout(a: seq<int>, x: seq<int>, b: seq<int>)
    ensures |Distinct(a + b)| <= |Distinct(a + x + b)|
  {
    DistinctIsASet(a + b);
    DistinctIsASet(a + x + b);
    SmallerSet(Distinct(a + b), Distinct(a + x + b));
  }

  lemma {:induction false} SmallerSet(p: seq<int>, q: seq<int>)
    requires forall i, j :: 0 <= i < j < |p| ==> p[i] != p[j]
    requires forall x :: x in p ==> x in q
    ensures |p| <= |q|
  {
    if p != [] {
      var init, last := p[..|p| - 1], p[|p| - 1];
      assert last in p && p == init + [last];
      var k :| 0 <= k < |q| && q[k] == last;
      var rest := q[..k] + q[k + 1..];
      forall x | x in init ensures x in rest {
        var i :| 0 <= i < |init| && init[i] == x;
        assert p[i] == x && x in p;
        var j :| 0 <= j < |q| && q[j] == x;
        assert j != k;
        assert j < k ==> rest[j] == x;
        assert j > k ==> rest[j - 1] == x;
      }
      SmallerSet(init, rest);
    }
  }

  // ── answered ids ──────────────────────────────────────────────────────

  lemma {:induction false} DistinctIsASet(ids: seq<int>)
    ensures forall i, j :: 0 <= i < j < |Distinct(ids)| ==> Distinct(ids)[i] != Distinct(ids)[j]
    ensures forall x :: x in Distinct(ids) <==> x in ids
  {
    if ids != [] {
      DistinctIsASet(ids[..|ids| - 1]);
      assert ids == ids[..|ids| - 1] + [ids[|ids| - 1]];
    }
  }

  lemma {:induction false} DistinctGrows(a: seq<int>, b: seq<int>)
    ensures Distinct(a) <= Distinct(a + b)
  {
    if b == [] {
      assert a + b == a;
    } else {
      DistinctGrows(a, b[..|b| - 1]);
      assert (a + b)[..|a + b| - 1] == a + b[..|b| - 1];
    }
  }

  /** After an ack of a chat that has a file, at most a hundred answered ids are kept, all of
      them different. The list is the known one, then what is new of the ack, cut at the front:
      the newest hundred stay, and none is forgotten while they fit. */
  lemma AnsweredIdsAfterAck(s: State, conv: string, ids: seq<int>)
    requires ids != [] && conv in s.files
    ensures var known := AnsweredIds(s, conv);
      var all := Distinct(known + ids);
      var kept := AnsweredIds(Acked(s, conv, ids), conv);
      && Distinct(known) <= all && (forall x :: x in all <==> x in known || x in ids)
      && |kept| == (if |all| > ANSWERED_KEEP then ANSWERED_KEEP else |all|)
      && kept == all[|all| - |kept|..]
      && (forall i, j :: 0 <= i < j < |kept| ==> kept[i] != kept[j])
  {
    hide Distinct, Remaining;
    var known := AnsweredIds(s, conv);
    DistinctIsASet(known + ids);
    DistinctGrows(known, ids);
    var all := Distinct(known + ids);
    var kept := AnsweredIds(Acked(s, conv, ids), conv);
    assert kept == Newest(all) && all[0..] == all;
    var n := |all| - |kept|;
    forall i, j | 0 <= i < j < |kept| ensures kept[i] != kept[j] {
      assert kept[i] == all[n + i] && kept[j] == all[n + j];
    }
  }

  /** A chat has a mailbox file exactly when something was ever parked on it. */
  lemma StepFiles(s: State, op: Op, conv: string)
    ensures conv in Step(s, op).files <==> conv in s.files || Arrival(op, conv).Some?
  {
  }

  lemma {:induction false} FileIffSomethingArrived(ops: seq<Op>, conv: string, k: nat)
    requires k <= |ops|
    ensures conv in After(ops, k).files <==> exists i :: 0 <= i < k && Arrival(ops[i], conv).Some?
  {
    if k > 0 {
      hide Step, Arrival;
      FileIffSomethingArrived(ops, conv, k - 1);
      StepFiles(After(ops, k - 1), ops[k - 1], conv);
    }
  }

  /** The ids of an ack are recorded exactly when something was ever parked on the chat; on a
      chat without a file the ack changes nothing. */
  lemma AckIsRecordedIff(ops: seq<Op>, conv: string, ids: seq<int>, k: nat)
    requires k <= |ops| && ids != []
    ensures var s := After(ops, k);
      var known, recorded := AnsweredIds(s, conv), AnsweredIds(Acked(s, conv, ids), conv);
      if exists i :: 0 <= i < k && Arrival(ops[i], conv).Some? then recorded == Newest(Distinct(known + ids))
      else Acked(s, conv, ids) == s && recorded == []
  {
    hide Step;
    FileIffSomethingArrived(ops, conv, k);
    AnsweredNeedsAFile(ops, conv, k);
  }

  lemma {:induction false} AnsweredNeedsAFile(ops: seq<Op>, conv: string, k: nat)
    requires k <= |ops|
    ensures conv in After(ops, k).answered ==> conv in After(ops, k).files
  {
    hide Step;
    if k > 0 {
      AnsweredNeedsAFile(ops, conv, k - 1);
      StepFiles(After(ops, k - 1), ops[k - 1], conv);
      StepAnswered(After(ops, k - 1), ops[k - 1], conv);
    }
  }

  lemma StepAnswered(s: State, op: Op, conv: string)
    ensures conv in Step(s, op).answered ==> conv in s.answered || conv in s.files
  {
  }
}
