/** What expanding an SDP does to its lines, when its copies are lines of their own, and that
    expanding twice is expanding once. */
module SdpLines {
  import opened Lists
  import opened Mdns
  import opened Sdp

  // ── lines that a text can have ────────────────────────────────────────

  /** Only the first line has no break before it, and no break runs into the next. */
  ghost predicate WellFormed(lines: seq<Line>) {
    && lines != []
    && (forall i :: 0 <= i < |lines| ==> OneLine(lines[i].text))
    && (forall i :: 0 < i < |lines| ==> lines[i].brk != Start)
    && (forall i :: 0 < i < |lines| && lines[i].brk == LF ==> !(lines[i - 1].brk == CR && lines[i - 1].text == ""))
  }

  lemma {:induction false} LinesAreWellFormed(brk: Break, s: string)
    requires Closed(brk, s)
    ensures var lines := LinesFrom(brk, s);
      WellFormed(lines) && lines[0].brk == brk && Render(lines) == Chars(brk) + s
    decreases |s|
  {
    hide LinesFrom;
    var text, more, next, others := FirstBreak(s);
    if more {
      LinesAreWellFormed(next, others);
      MoreLines(brk, text, next, others);
      var tail := LinesFrom(next, others);
      var all := [Line(brk, text)] + tail;
      assert all[1..] == tail && forall i :: 0 < i < |all| ==> all[i] == tail[i - 1];
      assert brk == CR && text == "" ==> next != LF;
      ConcatAssoc(Chars(brk), text, Chars(next) + others);
    } else {
      LastLine(brk, text);
      RenderOne(Line(brk, text));
    }
  }

  lemma LinesOf(sdp: string)
    ensures WellFormed(Lines(sdp)) && Lines(sdp)[0].brk == Start && Render(Lines(sdp)) == sdp
  {
    LinesAreWellFormed(Start, sdp);
    assert Chars(Start) + sdp == sdp;
  }

  ghost function AfterBreak(lines: seq<Line>): string
    requires lines != []
  {
    lines[0].text + Render(lines[1..])
  }

  lemma RenderHead(lines: seq<Line>)
    requires lines != []
    ensures Render(lines) == Chars(lines[0].brk) + AfterBreak(lines)
  {
    ConcatAssoc(Chars(lines[0].brk), lines[0].text, Render(lines[1..]));
  }

  lemma AfterBreakIsClosed(lines: seq<Line>)
    requires WellFormed(lines)
    ensures Closed(lines[0].brk, AfterBreak(lines))
  {
    var l, s := lines[0], AfterBreak(lines);
    if l.brk == CR && s != "" {
      if l.text != "" {
        assert s[0] == l.text[0];
      } else {
        RenderHead(lines[1..]);
        assert s == Render(lines[1..]);
        assert s[0] == Chars(lines[1].brk)[0];
      }
    }
  }

  lemma WellFormedTail(lines: seq<Line>)
    requires WellFormed(lines) && |lines| > 1
    ensures WellFormed(lines[1..]) && lines[1].brk != Start && OneLine(lines[0].text)
  {
    var tail := lines[1..];
    assert forall i :: 0 <= i < |tail| ==> tail[i] == lines[i + 1];
  }

  lemma AfterBreakMore(lines: seq<Line>)
    requires |lines| > 1
    ensures AfterBreak(lines) == lines[0].text + (Chars(lines[1].brk) + AfterBreak(lines[1..]))
  {
    RenderHead(lines[1..]);
  }

  lemma {:induction false} RenderedLines(lines: seq<Line>)
    requires WellFormed(lines)
    ensures LinesFrom(lines[0].brk, AfterBreak(lines)) == lines
  {
    var l, tail := lines[0], lines[1..];
    if |lines| == 1 {
      assert AfterBreak(lines) == l.text;
      LastLine(l.brk, l.text);
    } else {
      WellFormedTail(lines);
      RenderedLines(tail);
      RenderedMore(l, tail);
      AfterBreakMore(lines);
      assert [l] + tail == lines;
    }
  }

  lemma RenderedMore(l: Line, tail: seq<Line>)
    requires WellFormed(tail) && tail[0].brk != Start && OneLine(l.text)
    requires LinesFrom(tail[0].brk, AfterBreak(tail)) == tail
    ensures LinesFrom(l.brk, l.text + (Chars(tail[0].brk) + AfterBreak(tail))) == [l] + tail
  {
    AfterBreakIsClosed(tail);
    MoreLines(l.brk, l.text, tail[0].brk, AfterBreak(tail));
  }

  // ── copies stay on their line ─────────────────────────────────────────

  lemma {:induction false} SplitStaysOnLine(s: string)
    requires OneLine(s)
    ensures forall i :: 0 <= i < |Split(s)| ==> OneLine(Split(s)[i])
  {
    if s != "" {
      SplitStaysOnLine(s[1..]);
    }
  }

  lemma {:induction false} JoinStaysOnLine(tokens: seq<string>)
    requires forall i :: 0 <= i < |tokens| ==> OneLine(tokens[i])
    ensures OneLine(Join(tokens))
  {
    if |tokens| > 1 {
      JoinStaysOnLine(tokens[1..]);
    }
  }

  ghost predicate AreAddresses(hosts: seq<string>) {
    hosts != [] && forall i :: 0 <= i < |hosts| ==> IsAddress(hosts[i])
  }

  lemma CopyIsOneLine(body: string, host: string)
    requires OneLine(body) && |Split(body)| >= FIELDS && IsAddress(host)
    ensures OneLine(CANDIDATE + WithAddress(body, host))
  {
    SplitStaysOnLine(body);
    JoinStaysOnLine(Split(body)[ADDRESS := host]);
    CandidateIsOneLine();
  }

  lemma {:induction false} CopyLineAt(brk: Break, body: string, hosts: seq<string>, i: nat)
    requires |Split(body)| >= FIELDS && i < |hosts|
    ensures CopyLines(brk, body, hosts)[i] == Line(brk, CANDIDATE + WithAddress(body, hosts[i]))
  {
    if i < |hosts| - 1 {
      CopyLineAt(brk, body, hosts[..|hosts| - 1], i);
    }
  }

  /** A `.local` candidate line becomes one line per host, in order and behind the same break,
      each the same in every token but the address; any other line stays as it is. */
  lemma ExpandedLine(l: Line, hosts: seq<string>)
    requires AreAddresses(hosts)
    ensures var r := ExpandLine(l, hosts);
      if LineExpands(l) then
        && |r| == |hosts|
        && (forall i :: 0 <= i < |r| ==> r[i].brk == l.brk && IsCandidate(r[i].text))
        && (forall i :: 0 <= i < |r| ==>
              Split(r[i].text[|CANDIDATE|..]) == Split(l.text[|CANDIDATE|..])[ADDRESS := hosts[i]])
      else r == [l]
  {
    if LineExpands(l) {
      var body, r := l.text[|CANDIDATE|..], ExpandLine(l, hosts);
      forall i | 0 <= i < |r|
        ensures r[i].brk == l.brk && IsCandidate(r[i].text)
             && Split(r[i].text[|CANDIDATE|..]) == Split(body)[ADDRESS := hosts[i]]
      {
        var copy := WithAddress(body, hosts[i]);
        CopyLineAt(l.brk, body, hosts, i);
        OnlyTheAddressChanges(body, hosts[i]);
        assert (CANDIDATE + copy)[|CANDIDATE|..] == copy && (CANDIDATE + copy)[..|CANDIDATE|] == CANDIDATE;
        assert copy != "";
      }
    }
  }

  lemma ExpandedLineIsWellFormed(l: Line, hosts: seq<string>)
    requires AreAddresses(hosts) && OneLine(l.text)
    requires l.brk != Start || |hosts| == 1 || !LineExpands(l)
    ensures var r := ExpandLine(l, hosts);
      && WellFormed(r) && r[0].brk == l.brk
      && (r[|r| - 1].brk == CR && r[|r| - 1].text == "" ==> r == [l])
  {
    if LineExpands(l) {
      var body, r := l.text[|CANDIDATE|..], ExpandLine(l, hosts);
      forall i | 0 <= i < |r| ensures r[i].brk == l.brk && OneLine(r[i].text) {
        CopyLineAt(l.brk, body, hosts, i);
        CopyIsOneLine(body, hosts[i]);
      }
    }
  }

  lemma WellFormedAppend(a: seq<Line>, b: seq<Line>)
    requires WellFormed(a) && WellFormed(b) && b[0].brk != Start
    requires b[0].brk == LF ==> !(a[|a| - 1].brk == CR && a[|a| - 1].text == "")
    ensures WellFormed(a + b)
  {
    var all := a + b;
    forall i | 0 < i < |all| && all[i].brk == LF ensures !(all[i - 1].brk == CR && all[i - 1].text == "") {
      if i < |a| {
        assert all[i - 1] == a[i - 1];
      } else {
        assert all[i] == b[i - |a|];
      }
    }
  }

  lemma {:induction false} ExpandedIsWellFormed(lines: seq<Line>, hosts: seq<string>)
    requires WellFormed(lines) && AreAddresses(hosts)
    requires lines[0].brk != Start || |hosts| == 1 || !LineExpands(lines[0])
    ensures WellFormed(ExpandLines(lines, hosts)) && ExpandLines(lines, hosts)[0].brk == lines[0].brk
  {
    var l, tail := lines[0], lines[1..];
    ExpandedLineIsWellFormed(l, hosts);
    var head := ExpandLine(l, hosts);
    if tail == [] {
      assert head + [] == head;
    } else {
      WellFormedTail(lines);
      ExpandedIsWellFormed(tail, hosts);
      WellFormedAppend(head, ExpandLines(tail, hosts));
    }
  }

  /** The lines of the expanded SDP are the expanded lines of the SDP, except for exactly one
      kind of input: an SDP that starts with an expandable candidate, on a machine with more
      than one address. There the copies of the first line run together. */
  lemma CopiesAreLinesIff(sdp: string, hosts: seq<string>)
    requires AreAddresses(hosts)
    ensures Lines(ExpandSdp(sdp, hosts)) == ExpandLines(Lines(sdp), hosts)
       <==> !(LineExpands(Lines(sdp)[0]) && |hosts| > 1)
  {
    var lines := Lines(sdp);
    var out := ExpandLines(lines, hosts);
    LinesOf(sdp);
    ExpansionIsByLine(sdp, hosts);
    if LineExpands(lines[0]) && |hosts| > 1 {
      CopyLineAt(Start, lines[0].text[|CANDIDATE|..], hosts, 1);
      assert out[1].brk == Start;
      LinesOf(ExpandSdp(sdp, hosts));
    } else {
      ExpandedIsWellFormed(lines, hosts);
      RenderedLines(out);
      RenderHead(out);
      assert Chars(Start) + AfterBreak(out) == AfterBreak(out);
    }
  }

  // ── expanding twice ───────────────────────────────────────────────────

  ghost predicate Settled(lines: seq<Line>) {
    forall i :: 0 <= i < |lines| ==> !LineExpands(lines[i])
  }

  lemma {:induction false} SettledIsFixed(lines: seq<Line>, hosts: seq<string>)
    requires Settled(lines)
    ensures ExpandLines(lines, hosts) == lines
  {
    if lines != [] {
      assert forall i :: 0 <= i < |lines| - 1 ==> lines[1..][i] == lines[i + 1];
      SettledIsFixed(lines[1..], hosts);
    }
  }

  ghost predicate ArePlainAddresses(hosts: seq<string>) {
    AreAddresses(hosts) && forall i :: 0 <= i < |hosts| ==> !EndsInLocal(hosts[i])
  }

  lemma CopySettles(brk: Break, body: string, host: string)
    requires |Split(body)| >= FIELDS && IsAddress(host) && !EndsInLocal(host)
    ensures !LineExpands(Line(brk, CANDIDATE + WithAddress(body, host)))
  {
    var copy := WithAddress(body, host);
    assert (CANDIDATE + copy)[|CANDIDATE|..] == copy;
    ExpandedIsNotExpandable(body, host);
  }

  lemma {:induction false} ExpandedIsSettled(lines: seq<Line>, hosts: seq<string>)
    requires ArePlainAddresses(hosts)
    ensures Settled(ExpandLines(lines, hosts))
  {
    if lines != [] {
      var l := lines[0];
      ExpandedIsSettled(lines[1..], hosts);
      if LineExpands(l) {
        var body := l.text[|CANDIDATE|..];
        forall i | 0 <= i < |hosts| ensures !LineExpands(ExpandLine(l, hosts)[i]) {
          CopyLineAt(l.brk, body, hosts, i);
          CopySettles(l.brk, body, hosts[i]);
        }
      }
    }
  }

  lemma {:induction false} SplitGrows(a: string, b: string)
    ensures |Split(a + b)| >= |Split(a)|
  {
    if a != "" {
      assert (a + b)[1..] == a[1..] + b;
      SplitGrows(a[1..], b);
    }
  }

  /** More text after a token that another token follows leaves it alone. */
  lemma {:induction false} SplitKeepsToken(a: string, b: string, n: nat)
    requires n + 1 < |Split(a)|
    ensures n < |Split(a + b)| && Split(a + b)[n] == Split(a)[n]
    decreases |a|
  {
    assert (a + b)[1..] == a[1..] + b;
    SplitGrows(a, b);
    if a[0] != ' ' {
      SplitKeepsToken(a[1..], b, n);
    } else if n > 0 {
      SplitKeepsToken(a[1..], b, n - 1);
    }
  }

  /** The copies of a first line, run together. */
  lemma {:induction false} CopiesRunTogether(body: string, hosts: seq<string>) returns (more: string)
    requires OneLine(body) && |Split(body)| >= FIELDS && AreAddresses(hosts)
    ensures Copies("", body, hosts) == CANDIDATE + WithAddress(body, hosts[0]) + more
    ensures OneLine(Copies("", body, hosts))
  {
    var init, last := hosts[..|hosts| - 1], hosts[|hosts| - 1];
    CopyIsOneLine(body, last);
    var copy := CANDIDATE + WithAddress(body, last);
    assert "" + CANDIDATE + WithAddress(body, last) == copy;
    if init == [] {
      more := "";
    } else {
      var before := CopiesRunTogether(body, init);
      more := before + copy;
    }
  }

  /** Copies that have run together are not expanded again. */
  lemma RunTogetherSettles(body: string, hosts: seq<string>)
    requires OneLine(body) && |Split(body)| >= FIELDS && ArePlainAddresses(hosts)
    ensures OneLine(Copies("", body, hosts)) && !LineExpands(Line(Start, Copies("", body, hosts)))
  {
    hide Copies, Split;
    var more := CopiesRunTogether(body, hosts);
    var copy, all := WithAddress(body, hosts[0]), Copies("", body, hosts);
    assert all[|CANDIDATE|..] == copy + more;
    OnlyTheAddressChanges(body, hosts[0]);
    SplitKeepsToken(copy, more, ADDRESS);
  }

  /** The first line may become any one line. */
  lemma FirstLineReplaced(text: string, tail: seq<Line>, l: Line, hosts: seq<string>)
    requires OneLine(text) && WellFormed([l] + tail) && AreAddresses(hosts)
    ensures WellFormed([Line(Start, text)] + ExpandLines(tail, hosts))
  {
    var first := [Line(Start, text)];
    if tail == [] {
      assert first + ExpandLines(tail, hosts) == first;
    } else {
      WellFormedTail([l] + tail);
      assert ([l] + tail)[1..] == tail;
      ExpandedIsWellFormed(tail, hosts);
      WellFormedAppend(first, ExpandLines(tail, hosts));
    }
  }

  lemma FirstLineRunsTogether(sdp: string, l: Line, tail: seq<Line>, hosts: seq<string>)
    requires Lines(sdp) == [l] + tail && l.brk == Start && LineExpands(l)
    ensures ExpandSdp(sdp, hosts) == Copies("", l.text[|CANDIDATE|..], hosts) + Render(ExpandLines(tail, hosts))
  {
    hide ExpandSdp, LinesFrom, Copies, Render, CopyLines;
    var body := l.text[|CANDIDATE|..];
    ExpansionIsByLine(sdp, hosts);
    assert ([l] + tail)[1..] == tail;
    RenderAppend(CopyLines(Start, body, hosts), ExpandLines(tail, hosts));
    RenderCopies(Start, body, hosts);
  }

  lemma SettledBehind(text: string, tail: seq<Line>, l: Line, hosts: seq<string>)
    requires OneLine(text) && !LineExpands(Line(Start, text)) && WellFormed([l] + tail) && ArePlainAddresses(hosts)
    ensures Settled(Lines(text + Render(ExpandLines(tail, hosts))))
  {
    hide LinesFrom, ExpandLines, LineExpands;
    var out := [Line(Start, text)] + ExpandLines(tail, hosts);
    FirstLineReplaced(text, tail, l, hosts);
    ExpandedIsSettled(tail, hosts);
    assert out[1..] == ExpandLines(tail, hosts);
    RenderedLines(out);
  }

  /** Whatever the first line is, no line of an expanded SDP can be expanded. */
  lemma ExpandedSdpIsSettled(sdp: string, hosts: seq<string>)
    requires ArePlainAddresses(hosts)
    ensures Settled(Lines(ExpandSdp(sdp, hosts)))
  {
    hide ExpandSdp, LinesFrom, Copies, ExpandLines, Render, Settled;
    LinesOf(sdp);
    var lines := Lines(sdp);
    var l, tail := lines[0], lines[1..];
    if LineExpands(l) && |hosts| > 1 {
      var body := l.text[|CANDIDATE|..];
      assert [l] + tail == lines;
      RunTogetherSettles(body, hosts);
      FirstLineRunsTogether(sdp, l, tail, hosts);
      SettledBehind(Copies("", body, hosts), tail, l, hosts);
    } else {
      CopiesAreLinesIff(sdp, hosts);
      ExpandedIsSettled(lines, hosts);
    }
  }

  /** Expanding twice is expanding once, for every SDP, when no host is a `.local` name. */
  lemma ExpandTwice(sdp: string, hosts: seq<string>)
    requires ArePlainAddresses(hosts)
    ensures ExpandSdp(ExpandSdp(sdp, hosts), hosts) == ExpandSdp(sdp, hosts)
  {
    var out := ExpandSdp(sdp, hosts);
    ExpandedSdpIsSettled(sdp, hosts);
    ExpansionIsByLine(out, hosts);
    SettledIsFixed(Lines(out), hosts);
    LinesOf(out);
  }
}
