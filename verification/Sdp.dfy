/** `expandLocalSdp` as a left-to-right match and replace over the text, and what that does
    to the lines. */
module Sdp {
  import opened Lists
  import opened Mdns

  const CANDIDATE := "a=candidate:"

  predicate EndsLine(c: char) {
    c == '\r' || c == '\n'
  }

  // ── the replacement ───────────────────────────────────────────────────

  /** How far the text runs before a `\r` or a `\n`. */
  function TextLength(s: string): (n: nat)
    ensures n <= |s|
    ensures n < |s| ==> EndsLine(s[n])
    ensures forall i :: 0 <= i < n ==> !EndsLine(s[i])
  {
    if s == "" || EndsLine(s[0]) then 0 else 1 + TextLength(s[1..])
  }

  predicate CandidateAt(s: string, p: nat) {
    p + |CANDIDATE| < |s| && s[p..p + |CANDIDATE|] == CANDIDATE && !EndsLine(s[p + |CANDIDATE|])
  }

  /** Where `a=candidate:` starts when the expression matches at the head of `s`. */
  function MatchAt(s: string, start: bool): Option<nat> {
    if start && CandidateAt(s, 0) then Some(0)
    else if |s| >= 2 && s[0] == '\r' && s[1] == '\n' && CandidateAt(s, 2) then Some(2)
    else if |s| >= 1 && s[0] == '\n' && CandidateAt(s, 1) then Some(1)
    else None
  }

  function Copies(prefix: string, body: string, hosts: seq<string>): string
    requires |Split(body)| >= FIELDS
  {
    if hosts == [] then ""
    else Copies(prefix, body, hosts[..|hosts| - 1]) + (prefix + CANDIDATE + WithAddress(body, hosts[|hosts| - 1]))
  }

  function Replacement(prefix: string, body: string, hosts: seq<string>): string {
    if Expandable(body) then Copies(prefix, body, hosts) else prefix + CANDIDATE + body
  }

  /** `sdp.replace(/(^|\r?\n)a=candidate:([^\r\n]+)/g, …)` from a position; `start` at the first. */
  function Replaced(s: string, start: bool, hosts: seq<string>): string
    decreases |s|
  {
    if s == "" then ""
    else
      var m := MatchAt(s, start);
      if m.None? then [s[0]] + Replaced(s[1..], false, hosts)
      else
        var at := m.value + |CANDIDATE|;
        var end := at + TextLength(s[at..]);
        Replacement(s[..m.value], s[at..end], hosts) + Replaced(s[end..], false, hosts)
  }

  /** `expandLocalSdp`. */
  function ExpandSdp(sdp: string, hosts: seq<string>): string {
    Replaced(sdp, true, hosts)
  }

  // ── lines ─────────────────────────────────────────────────────────────

  /** What comes before a line. A lone `\r` ends a candidate's text, but starts no match. */
  datatype Break = Start | LF | CRLF | CR

  function Chars(b: Break): string {
    match b
    case Start => []
    case LF => ['\n']
    case CRLF => ['\r', '\n']
    case CR => ['\r']
  }

  datatype Line = Line(brk: Break, text: string)

  function BreakAt(s: string): (b: Break)
    requires s != "" && EndsLine(s[0])
    ensures b != Start && |Chars(b)| <= |s| && s[..|Chars(b)|] == Chars(b)
    ensures b == CR ==> |s| == 1 || s[1] != '\n'
  {
    if s[0] == '\n' then LF else if |s| >= 2 && s[1] == '\n' then CRLF else CR
  }

  function LinesFrom(brk: Break, s: string): seq<Line>
    decreases |s|
  {
    var n := TextLength(s);
    if n == |s| then [Line(brk, s)]
    else
      var next := BreakAt(s[n..]);
      [Line(brk, s[..n])] + LinesFrom(next, s[n + |Chars(next)|..])
  }

  function Lines(s: string): seq<Line> {
    LinesFrom(Start, s)
  }

  function Render(lines: seq<Line>): string {
    if lines == [] then "" else Chars(lines[0].brk) + lines[0].text + Render(lines[1..])
  }

  predicate IsCandidate(text: string) {
    |text| > |CANDIDATE| && text[..|CANDIDATE|] == CANDIDATE
  }

  predicate LineExpands(l: Line) {
    l.brk != CR && IsCandidate(l.text) && Expandable(l.text[|CANDIDATE|..])
  }

  function CopyLines(brk: Break, body: string, hosts: seq<string>): (r: seq<Line>)
    requires |Split(body)| >= FIELDS
    ensures |r| == |hosts|
  {
    if hosts == [] then []
    else CopyLines(brk, body, hosts[..|hosts| - 1]) + [Line(brk, CANDIDATE + WithAddress(body, hosts[|hosts| - 1]))]
  }

  function ExpandLine(l: Line, hosts: seq<string>): seq<Line> {
    if LineExpands(l) then CopyLines(l.brk, l.text[|CANDIDATE|..], hosts) else [l]
  }

  function ExpandLines(lines: seq<Line>, hosts: seq<string>): seq<Line> {
    if lines == [] then [] else ExpandLine(lines[0], hosts) + ExpandLines(lines[1..], hosts)
  }

  // ── the lines of a text ───────────────────────────────────────────────

  ghost predicate OneLine(text: string) {
    forall i :: 0 <= i < |text| ==> !EndsLine(text[i])
  }

  lemma TextLengthIs(text: string, rest: string)
    requires OneLine(text) && (rest == "" || EndsLine(rest[0]))
    ensures TextLength(text + rest) == |text|
  {
    forall i | 0 <= i < |text| ensures !EndsLine((text + rest)[i]) {
      assert (text + rest)[i] == text[i];
    }
    assert rest != "" ==> (text + rest)[|text|] == rest[0];
  }

  /** A `\r` and a `\n` together are one break. */
  ghost predicate Closed(brk: Break, s: string) {
    brk == CR && s != "" ==> s[0] != '\n'
  }

  lemma LastLine(brk: Break, text: string)
    requires OneLine(text)
    ensures LinesFrom(brk, text) == [Line(brk, text)]
  {
    TextLengthIs(text, "");
    assert text + "" == text;
  }

  lemma BreakAtIs(brk: Break, s: string)
    requires brk != Start && Closed(brk, s)
    ensures BreakAt(Chars(brk) + s) == brk
  {
    if brk == CRLF {
      assert (Chars(brk) + s)[1] == '\n';
    } else if s != "" {
      assert (Chars(brk) + s)[1] == s[0];
    }
  }

  lemma LinesUnfold(brk: Break, s: string, n: nat, next: Break)
    requires n == TextLength(s) < |s| && next == BreakAt(s[n..])
    ensures LinesFrom(brk, s) == [Line(brk, s[..n])] + LinesFrom(next, s[n + |Chars(next)|..])
  {
  }

  lemma Parts(a: string, b: string, c: string)
    ensures var s := a + (b + c);
      |s| == |a| + |b| + |c| && s[..|a|] == a && s[|a|..] == b + c && s[|a| + |b|..] == c
  {
  }

  lemma MoreLines(brk: Break, text: string, next: Break, others: string)
    requires OneLine(text) && next != Start && Closed(next, others)
    ensures LinesFrom(brk, text + (Chars(next) + others)) == [Line(brk, text)] + LinesFrom(next, others)
  {
    hide LinesFrom, TextLength, BreakAt, OneLine, Closed;
    var rest := Chars(next) + others;
    assert rest != "" && EndsLine(rest[0]);
    TextLengthIs(text, rest);
    BreakAtIs(next, others);
    Parts(text, Chars(next), others);
    LinesUnfold(brk, text + rest, |text|, next);
  }

  // ── the replacement, line by line ─────────────────────────────────────

  lemma {:induction false} RenderAppend(a: seq<Line>, b: seq<Line>)
    ensures Render(a + b) == Render(a) + Render(b)
  {
    if a == [] {
      assert a + b == b;
    } else {
      RenderAppend(a[1..], b);
      assert (a + b)[1..] == a[1..] + b;
      ConcatAssoc(Chars(a[0].brk) + a[0].text, Render(a[1..]), Render(b));
    }
  }

  lemma RenderOne(l: Line)
    ensures Render([l]) == Chars(l.brk) + l.text
  {
  }

  lemma {:induction false} RenderCopies(brk: Break, body: string, hosts: seq<string>)
    requires |Split(body)| >= FIELDS
    ensures Render(CopyLines(brk, body, hosts)) == Copies(Chars(brk), body, hosts)
  {
    if hosts != [] {
      var init, last := hosts[..|hosts| - 1], hosts[|hosts| - 1];
      RenderCopies(brk, body, init);
      var l := Line(brk, CANDIDATE + WithAddress(body, last));
      RenderAppend(CopyLines(brk, body, init), [l]);
      RenderOne(l);
      ConcatAssoc(Chars(brk), CANDIDATE, WithAddress(body, last));
    }
  }

  lemma CopiesOne(s: string, hosts: seq<string>)
    requires s != "" && MatchAt(s, false).None?
    ensures Replaced(s, false, hosts) == [s[0]] + Replaced(s[1..], false, hosts)
  {
  }

  /** Text with no break in it is copied. */
  lemma {:induction false} TextIsCopied(text: string, rest: string, hosts: seq<string>)
    requires OneLine(text)
    ensures Replaced(text + rest, false, hosts) == text + Replaced(rest, false, hosts)
  {
    if text == "" {
      assert text + rest == rest;
    } else {
      var s := text + rest;
      assert s[0] == text[0] && s[1..] == text[1..] + rest;
      assert MatchAt(s, false).None?;
      CopiesOne(s, hosts);
      TextIsCopied(text[1..], rest, hosts);
      assert text == [text[0]] + text[1..];
      ConcatAssoc([text[0]], text[1..], Replaced(rest, false, hosts));
    }
  }

  lemma CandidateIsOneLine()
    ensures |CANDIDATE| == 12 && OneLine(CANDIDATE)
  {
  }

  lemma CandidateAtLine(left: string, text: string, rest: string)
    requires OneLine(text) && (rest == "" || EndsLine(rest[0]))
    ensures CandidateAt(left + text + rest, |left|) <==> IsCandidate(text)
  {
    var s, p, n := left + text + rest, |left|, |CANDIDATE|;
    CandidateIsOneLine();
    if |text| > n {
      assert s[p..p + n] == text[..n] && s[p + n] == text[n];
    } else if rest != "" {
      assert s[p + |text|] == rest[0];
      if |text| < n && p + n < |s| {
        assert s[p..p + n][|text|] == rest[0];
      }
    }
  }

  /** A match starts exactly at the break before a candidate line, or at the start. */
  lemma MatchIs(brk: Break, text: string, rest: string)
    requires OneLine(text) && (rest == "" || EndsLine(rest[0]))
    requires text == "" ==> Closed(brk, rest)
    requires brk != Start
    ensures MatchAt(Chars(brk) + text + rest, false)
         == if brk != CR && IsCandidate(text) then Some(|Chars(brk)|) else None
  {
    var s := Chars(brk) + text + rest;
    CandidateAtLine(Chars(brk), text, rest);
    if brk == CR && |s| > 1 {
      assert s[1] == if text != "" then text[0] else rest[0];
    }
  }

  /** What `Replaced` makes of one line and the break before it. */
  ghost function LineReplaced(l: Line, hosts: seq<string>): string {
    Render(ExpandLine(l, hosts))
  }

  lemma LineReplacedIs(l: Line, hosts: seq<string>)
    ensures LineReplaced(l, hosts)
         == if l.brk != CR && IsCandidate(l.text) then Replacement(Chars(l.brk), l.text[|CANDIDATE|..], hosts)
            else Chars(l.brk) + l.text
  {
    RenderOne(l);
    if LineExpands(l) {
      RenderCopies(l.brk, l.text[|CANDIDATE|..], hosts);
    } else if IsCandidate(l.text) {
      assert l.text == CANDIDATE + l.text[|CANDIDATE|..];
      ConcatAssoc(Chars(l.brk), CANDIDATE, l.text[|CANDIDATE|..]);
    }
  }

  /** A matched line is replaced whole. */
  lemma MatchedLine(left: string, text: string, rest: string, start: bool, hosts: seq<string>)
    requires OneLine(text) && (rest == "" || EndsLine(rest[0])) && IsCandidate(text)
    requires MatchAt(left + text + rest, start) == Some(|left|)
    ensures Replaced(left + text + rest, start, hosts)
         == Replacement(left, text[|CANDIDATE|..], hosts) + Replaced(rest, false, hosts)
  {
    hide MatchAt, Replacement, TextLength;
    var body := text[|CANDIDATE|..];
    TextLengthIs(body, rest);
    MatchedParts(left, text, rest);
    ReplacedMatch(left + text + rest, start, hosts, |left|, |left| + |text|);
  }

  lemma MatchedParts(left: string, text: string, rest: string)
    requires |text| >= |CANDIDATE|
    ensures var s, body, at := left + text + rest, text[|CANDIDATE|..], |left| + |CANDIDATE|;
      && s[..|left|] == left && s[at..] == body + rest
      && s[at..at + |body|] == body && s[at + |body|..] == rest
  {
  }

  lemma ReplacedMatch(s: string, start: bool, hosts: seq<string>, p: nat, end: nat)
    requires s != "" && MatchAt(s, start) == Some(p) && p + |CANDIDATE| <= end <= |s|
    requires end == p + |CANDIDATE| + TextLength(s[p + |CANDIDATE|..])
    ensures Replaced(s, start, hosts)
         == Replacement(s[..p], s[p + |CANDIDATE|..end], hosts) + Replaced(s[end..], false, hosts)
  {
    hide Replacement, TextLength, MatchAt;
  }

  /** A break character that starts no match is copied, and so is the text after it. */
  lemma UnmatchedChar(c: char, text: string, rest: string, hosts: seq<string>)
    requires OneLine(text) && MatchAt([c] + text + rest, false).None?
    ensures Replaced([c] + text + rest, false, hosts) == [c] + text + Replaced(rest, false, hosts)
  {
    hide MatchAt, Replaced;
    var tail := text + rest;
    assert [c] + text + rest == [c] + tail;
    CopiesChar(c, tail, hosts);
    TextIsCopied(text, rest, hosts);
    ConcatAssoc([c], text, Replaced(rest, false, hosts));
  }

  lemma CopiesChar(c: char, t: string, hosts: seq<string>)
    requires MatchAt([c] + t, false).None?
    ensures Replaced([c] + t, false, hosts) == [c] + Replaced(t, false, hosts)
  {
    CopiesOne([c] + t, hosts);
    assert ([c] + t)[1..] == t;
  }

  lemma UnmatchedCRLF(text: string, rest: string, hosts: seq<string>)
    requires OneLine(text) && (rest == "" || EndsLine(rest[0])) && !IsCandidate(text)
    ensures Replaced(Chars(CRLF) + text + rest, false, hosts) == Chars(CRLF) + text + Replaced(rest, false, hosts)
  {
    var t := ['\n'] + text + rest;
    assert Chars(CRLF) + text + rest == ['\r'] + t;
    MatchIs(CRLF, text, rest);
    MatchIs(LF, text, rest);
    CopiesChar('\r', t, hosts);
    UnmatchedChar('\n', text, rest, hosts);
    CRLFJoins(text, Replaced(rest, false, hosts));
  }

  lemma CRLFJoins(text: string, tail: string)
    ensures ['\r'] + (['\n'] + text + tail) == Chars(CRLF) + text + tail
  {
  }

  lemma UnmatchedBreak(brk: Break, text: string, rest: string, hosts: seq<string>)
    requires OneLine(text) && (rest == "" || EndsLine(rest[0])) && brk != Start
    requires text == "" ==> Closed(brk, rest)
    requires brk == CR || !IsCandidate(text)
    ensures Replaced(Chars(brk) + text + rest, false, hosts) == Chars(brk) + text + Replaced(rest, false, hosts)
  {
    match brk
    case CRLF => UnmatchedCRLF(text, rest, hosts);
    case LF =>
      MatchIs(LF, text, rest);
      UnmatchedChar('\n', text, rest, hosts);
    case CR =>
      MatchIs(CR, text, rest);
      UnmatchedChar('\r', text, rest, hosts);
    case Start =>
  }

  /** One line and its break are replaced independently of what follows. */
  lemma LineByLine(brk: Break, text: string, rest: string, hosts: seq<string>)
    requires OneLine(text) && (rest == "" || EndsLine(rest[0])) && brk != Start
    requires text == "" ==> Closed(brk, rest)
    ensures Replaced(Chars(brk) + text + rest, false, hosts)
         == LineReplaced(Line(brk, text), hosts) + Replaced(rest, false, hosts)
  {
    LineReplacedIs(Line(brk, text), hosts);
    if brk != CR && IsCandidate(text) {
      MatchIs(brk, text, rest);
      MatchedLine(Chars(brk), text, rest, false, hosts);
    } else {
      UnmatchedBreak(brk, text, rest, hosts);
    }
  }

  lemma FirstLine(text: string, rest: string, hosts: seq<string>)
    requires OneLine(text) && (rest == "" || EndsLine(rest[0]))
    ensures Replaced(text + rest, true, hosts)
         == LineReplaced(Line(Start, text), hosts) + Replaced(rest, false, hosts)
  {
    var s := text + rest;
    LineReplacedIs(Line(Start, text), hosts);
    CandidateAtLine([], text, rest);
    assert [] + text + rest == s && Chars(Start) + text == text;
    if IsCandidate(text) {
      MatchedLine([], text, rest, true, hosts);
    } else {
      assert MatchAt(s, true) == MatchAt(s, false);
      TextIsCopied(text, rest, hosts);
      SameUnmatched(s, hosts);
    }
  }

  lemma SameUnmatched(s: string, hosts: seq<string>)
    requires MatchAt(s, true) == MatchAt(s, false)
    ensures Replaced(s, true, hosts) == Replaced(s, false, hosts)
  {
    hide MatchAt, Replacement, TextLength;
  }

  lemma LastLineReplaced(brk: Break, text: string, hosts: seq<string>)
    requires OneLine(text)
    ensures Render(ExpandLines(LinesFrom(brk, text), hosts)) == LineReplaced(Line(brk, text), hosts)
  {
    var l := Line(brk, text);
    LastLine(brk, text);
    assert [l][1..] == [] && ExpandLines([], hosts) == [];
    assert ExpandLine(l, hosts) + [] == ExpandLine(l, hosts);
  }

  lemma MoreLinesReplaced(brk: Break, text: string, next: Break, others: string, hosts: seq<string>)
    requires OneLine(text) && next != Start && Closed(next, others)
    ensures Render(ExpandLines(LinesFrom(brk, text + (Chars(next) + others)), hosts))
         == LineReplaced(Line(brk, text), hosts) + Render(ExpandLines(LinesFrom(next, others), hosts))
  {
    MoreLines(brk, text, next, others);
    var l, tail := Line(brk, text), LinesFrom(next, others);
    assert ([l] + tail)[1..] == tail;
    RenderAppend(ExpandLine(l, hosts), ExpandLines(tail, hosts));
  }

  lemma HeadLine(brk: Break, text: string, rest: string, hosts: seq<string>)
    requires OneLine(text) && (rest == "" || EndsLine(rest[0]))
    requires text == "" ==> Closed(brk, rest)
    ensures Replaced(Chars(brk) + (text + rest), brk == Start, hosts)
         == LineReplaced(Line(brk, text), hosts) + Replaced(rest, false, hosts)
  {
    ConcatAssoc(Chars(brk), text, rest);
    if brk == Start {
      assert Chars(brk) + (text + rest) == text + rest;
      FirstLine(text, rest, hosts);
    } else {
      LineByLine(brk, text, rest, hosts);
    }
  }

  lemma BreakSplits(rest: string) returns (next: Break, others: string)
    requires rest != "" && EndsLine(rest[0])
    ensures rest == Chars(next) + others && next != Start && Closed(next, others) && |others| < |rest|
  {
    next := BreakAt(rest);
    others := rest[|Chars(next)|..];
    assert next == CR && others != "" ==> others[0] == rest[1];
  }

  /** Every string is one last line, or a line, a break and the rest. */
  lemma FirstBreak(s: string) returns (text: string, more: bool, next: Break, others: string)
    ensures OneLine(text)
    ensures more ==> s == text + (Chars(next) + others) && next != Start && Closed(next, others) && |others| < |s|
    ensures !more ==> s == text
  {
    var n := TextLength(s);
    text, more, next, others := s[..n], n < |s|, Start, "";
    if more {
      next, others := BreakSplits(s[n..]);
    }
  }

  lemma {:induction false} ReplacedLines(brk: Break, s: string, hosts: seq<string>)
    requires Closed(brk, s)
    ensures Replaced(Chars(brk) + s, brk == Start, hosts) == Render(ExpandLines(LinesFrom(brk, s), hosts))
    decreases |s|
  {
    var text, more, next, others := FirstBreak(s);
    if more {
      HeadLine(brk, text, Chars(next) + others, hosts);
      ReplacedLines(next, others, hosts);
      MoreLinesReplaced(brk, text, next, others, hosts);
    } else {
      HeadLine(brk, text, "", hosts);
      assert text + "" == text;
      LastLineReplaced(brk, text, hosts);
    }
  }

  /** On every SDP, the replacement expands each line by itself and leaves the rest in place. */
  lemma ExpansionIsByLine(sdp: string, hosts: seq<string>)
    ensures ExpandSdp(sdp, hosts) == Render(ExpandLines(Lines(sdp), hosts))
  {
    assert Chars(Start) + sdp == sdp;
    ReplacedLines(Start, sdp, hosts);
  }
}
