/** Splitting a reply into pieces for speech synthesis. */
module SpeechText {
  import opened Lists
  import opened Text

  predicate IsTerminator(c: char) {
    c == '.' || c == '!' || c == '?'
  }

  predicate IsCloser(c: char) {
    c == '"' || c == '\'' || c == ')' || c == ']'
  }

  // ── the regular expressions ───────────────────────────────────────────

  /** The longest prefix whose characters all satisfy `p`: one greedy class. */
  function Run(p: char -> bool, s: string): (n: nat)
    ensures n <= |s|
    ensures forall i :: 0 <= i < n ==> p(s[i])
    ensures n < |s| ==> !p(s[n])
  {
    if s != "" && p(s[0]) then 1 + Run(p, s[1..]) else 0
  }

  /** `replace(/\s+/g, " ")`. */
  function Collapse(s: string): string
    decreases |s|
  {
    if s == "" then ""
    else if IsSpace(s[0]) then " " + Collapse(s[Run(IsSpace, s)..])
    else [s[0]] + Collapse(s[1..])
  }

  function Normalized(text: string): string {
    Trim(Collapse(text))
  }

  /** How many closers and then white-space characters `s` starts with. */
  function Tail(s: string): (n: nat)
    ensures n <= |s|
  {
    var close := Run(IsCloser, s);
    close + Run(IsSpace, s[close..])
  }

  predicate IsBody(c: char) {
    !IsTerminator(c)
  }

  /** Where the terminators of a match end. */
  function Stop(s: string): (n: nat)
    ensures Run(IsBody, s) <= n <= |s|
  {
    var body := Run(IsBody, s);
    body + Run(IsTerminator, s[body..])
  }

  /** The length of the match that starts at a character other than a terminator:
      a body, its terminators, closing quotes and brackets, and white space. */
  function MatchLength(s: string): (m: nat)
    requires s != "" && !IsTerminator(s[0])
    ensures 1 <= m <= |s|
  {
    if Run(IsBody, s) == |s| then |s| else Stop(s) + Tail(s[Stop(s)..])
  }

  /** All matches of the sentence pattern; no match can start at a terminator. */
  function Sentences(s: string): seq<string>
    decreases |s|
  {
    if s == "" then []
    else if IsTerminator(s[0]) then Sentences(s[1..])
    else [s[..MatchLength(s)]] + Sentences(s[MatchLength(s)..])
  }

  function Parts(normalized: string): seq<string> {
    if Sentences(normalized) == [] then [normalized] else Sentences(normalized)
  }

  // ── packing ───────────────────────────────────────────────────────────

  /** The pieces finished so far and the one being filled. */
  datatype Packed = Packed(out: seq<string>, current: string)

  function Flush(p: Packed): Packed {
    Packed(if Trim(p.current) != "" then p.out + [Trim(p.current)] else p.out, "")
  }

  function WordCut(rest: string, max: nat): (cut: nat)
    requires 1 <= max < |rest|
    ensures 1 <= cut <= max
  {
    var space := LastIndexOf(rest, ' ', max);
    if space <= 0 then max else space
  }

  /** A long sentence is cut at the last space at or before `max`, and inside a word only when
      the first `max + 1` characters hold no space but perhaps the first. */
  lemma CutIsAtTheLastSpace(rest: string, max: nat)
    requires 1 <= max < |rest|
    ensures var cut := WordCut(rest, max);
      if exists j :: 1 <= j <= max && rest[j] == ' ' then
        rest[cut] == ' ' && forall j :: cut < j <= max ==> rest[j] != ' '
      else cut == max
  {
  }

  /** The loop over one sentence that is too long. */
  function Words(out: seq<string>, rest: string, max: nat): Packed
    requires max >= 1
    decreases |rest|
  {
    if |rest| <= max then Packed(out, if rest != "" then rest + " " else "")
    else
      var cut := WordCut(rest, max);
      Words(out + [Trim(rest[..cut])], Trim(rest[cut..]), max)
  }

  function Add(p: Packed, sentence: string, max: nat): Packed
    requires max >= 1
  {
    if |sentence| > max then Words(Flush(p).out, Trim(sentence), max)
    else if |p.current + sentence| > max then Flush(p).(current := sentence)
    else p.(current := p.current + sentence)
  }

  function Pack(parts: seq<string>, max: nat): Packed
    requires max >= 1
  {
    if parts == [] then Packed([], "") else Add(Pack(parts[..|parts| - 1], max), parts[|parts| - 1], max)
  }

  function Chunks(text: string, max: nat): seq<string>
    requires max >= 1
  {
    var normalized := Normalized(text);
    if normalized == "" then []
    else if |normalized| <= max then [normalized]
    else Flush(Pack(Parts(normalized), max)).out
  }

  method ChunkText(text: string, max: nat) returns (out: seq<string>)
    requires max >= 1
    ensures out == Chunks(text, max)
  {
    var normalized := Normalized(text);
    if normalized == "" {
      return [];
    }
    if |normalized| <= max {
      return [normalized];
    }
    var sentences := Parts(normalized);
    out := [];
    var current := "";
    for i := 0 to |sentences|
      invariant Packed(out, current) == Pack(sentences[..i], max)
    {
      assert sentences[..i + 1][..i] == sentences[..i];
      var sentence := sentences[i];
      if |sentence| > max {
        if Trim(current) != "" {
          out := out + [Trim(current)];
        }
        current := "";
        var rest := Trim(sentence);
        while |rest| > max
          invariant Words(out, rest, max) == Pack(sentences[..i + 1], max)
          decreases |rest|
        {
          var cut := LastIndexOf(rest, ' ', max);
          if cut <= 0 {
            cut := max;
          }
          out := out + [Trim(rest[..cut])];
          rest := Trim(rest[cut..]);
        }
        if rest != "" {
          current := rest + " ";
        }
        continue;
      }
      if |current + sentence| > max {
        if Trim(current) != "" {
          out := out + [Trim(current)];
        }
        current := sentence;
      } else {
        current := current + sentence;
      }
    }
    assert sentences[..|sentences|] == sentences;
    if Trim(current) != "" {
      out := out + [Trim(current)];
    }
  }

  // ── every piece fits ──────────────────────────────────────────────────

  predicate Fits(piece: string, max: nat) {
    0 < |piece| <= max
  }

  predicate AllFit(pieces: seq<string>, max: nat) {
    forall i :: 0 <= i < |pieces| ==> Fits(pieces[i], max)
  }

  lemma TrimSpaceAfter(s: string)
    ensures |Trim(s + " ")| <= |s|
  {
    hide TrimLeft, TrimRight;
    var t := s + [' '];
    var l := TrimLeft(t);
    TrimLeftDrops(t);
    if l != "" {
      assert l[|l| - 1] == t[|t| - 1];
      TrimRightShortens(l);
    }
  }

  lemma TrimRightShortens(s: string)
    requires s != "" && IsSpace(s[|s| - 1])
    ensures |TrimRight(s)| < |s|
  {
  }

  lemma {:induction false} WordsFit(out: seq<string>, rest: string, max: nat)
    requires max >= 1 && AllFit(out, max) && (rest != "" ==> !IsSpace(rest[0]))
    ensures AllFit(Words(out, rest, max).out, max)
    ensures |Trim(Words(out, rest, max).current)| <= max
    decreases |rest|
  {
    if |rest| <= max {
      TrimSpaceAfter(rest);
    } else {
      var cut := WordCut(rest, max);
      TrimEnds(rest[..cut]);
      assert !IsSpace(rest[..cut][0]);
      TrimEnds(rest[cut..]);
      WordsFit(out + [Trim(rest[..cut])], Trim(rest[cut..]), max);
    }
  }

  lemma AddFits(p: Packed, sentence: string, max: nat)
    requires max >= 1 && AllFit(p.out, max) && |Trim(p.current)| <= max
    ensures AllFit(Add(p, sentence, max).out, max) && |Trim(Add(p, sentence, max).current)| <= max
  {
    if |sentence| > max {
      TrimEnds(sentence);
      WordsFit(Flush(p).out, Trim(sentence), max);
    }
  }

  lemma {:induction false} PackFits(parts: seq<string>, max: nat)
    requires max >= 1
    ensures AllFit(Pack(parts, max).out, max) && |Trim(Pack(parts, max).current)| <= max
  {
    if parts != [] {
      PackFits(parts[..|parts| - 1], max);
      AddFits(Pack(parts[..|parts| - 1], max), parts[|parts| - 1], max);
    }
  }

  /** For every text and every `max` of at least 1, each piece is nonempty and at most
      `max` long. */
  lemma ChunksFit(text: string, max: nat)
    requires max >= 1
    ensures AllFit(Chunks(text, max), max)
  {
    PackFits(Parts(Normalized(text)), max);
  }

  // ── nothing but white space and terminators is lost ───────────────────

  /** The text without white space and terminators. */
  function Letters(s: string): string {
    Filter(IsLetter(), s)
  }

  function IsLetter(): char -> bool {
    (c: char) => !IsSpace(c) && !IsTerminator(c)
  }

  lemma {:induction false} CollapseKeeps(s: string)
    ensures NonSpace(Collapse(s)) == NonSpace(s)
    decreases |s|
  {
    if s != "" {
      if IsSpace(s[0]) {
        var n := Run(IsSpace, s);
        CollapseKeeps(s[n..]);
        assert s == s[..n] + s[n..];
        NonSpaceAppend(s[..n], s[n..]);
        NonSpaceAppend(" ", Collapse(s[n..]));
        FilterNone(Ink(), s[..n]);
        FilterNone(Ink(), " ");
      } else {
        CollapseKeeps(s[1..]);
        assert s == [s[0]] + s[1..];
        NonSpaceAppend([s[0]], s[1..]);
        NonSpaceAppend([s[0]], Collapse(s[1..]));
      }
    }
  }

  lemma NormalizedKeeps(text: string)
    ensures NonSpace(Normalized(text)) == NonSpace(text)
  {
    CollapseKeeps(text);
    NonSpaceTrim(Collapse(text));
  }

  /** All the ink of a packing, finished or not. */
  function PackedInk(p: Packed): string {
    NonSpace(Concat(p.out)) + NonSpace(p.current)
  }

  lemma ConcatSnoc(out: seq<string>, piece: string)
    ensures NonSpace(Concat(out + [piece])) == NonSpace(Concat(out)) + NonSpace(piece)
  {
    assert (out + [piece])[..|out|] == out;
    NonSpaceAppend(Concat(out), piece);
  }

  lemma FlushKeeps(p: Packed)
    ensures PackedInk(Flush(p)) == PackedInk(p)
    ensures NonSpace(Concat(Flush(p).out)) == PackedInk(p)
  {
    NonSpaceTrim(p.current);
    ConcatSnoc(p.out, Trim(p.current));
  }

  lemma LastWordKeeps(rest: string)
    ensures NonSpace(rest + " ") == NonSpace(rest)
    ensures rest == "" ==> NonSpace("") == NonSpace(rest)
  {
    hide Filter;
    NonSpaceAppend(rest, " ");
    FilterNone(Ink(), " ");
  }

  lemma {:induction false} WordsKeep(out: seq<string>, rest: string, max: nat)
    requires max >= 1
    ensures PackedInk(Words(out, rest, max)) == NonSpace(Concat(out)) + NonSpace(rest)
    decreases |rest|
  {
    hide NonSpace, Concat, Trim, WordCut;
    if |rest| <= max {
      LastWordKeeps(rest);
    } else {
      var cut := WordCut(rest, max);
      var a, b := rest[..cut], rest[cut..];
      WordsKeep(out + [Trim(a)], Trim(b), max);
      NonSpaceTrim(a);
      NonSpaceTrim(b);
      ConcatSnoc(out, Trim(a));
      assert rest == a + b;
      NonSpaceAppend(a, b);
      ConcatAssoc(NonSpace(Concat(out)), NonSpace(a), NonSpace(b));
    }
  }

  lemma AddKeeps(p: Packed, sentence: string, max: nat)
    requires max >= 1
    ensures PackedInk(Add(p, sentence, max)) == PackedInk(p) + NonSpace(sentence)
  {
    FlushKeeps(p);
    if |sentence| > max {
      WordsKeep(Flush(p).out, Trim(sentence), max);
      NonSpaceTrim(sentence);
    } else if |p.current + sentence| <= max {
      NonSpaceAppend(p.current, sentence);
      ConcatAssoc(NonSpace(Concat(p.out)), NonSpace(p.current), NonSpace(sentence));
    }
  }

  lemma {:induction false} PackKeeps(parts: seq<string>, max: nat)
    requires max >= 1
    ensures PackedInk(Pack(parts, max)) == NonSpace(Concat(parts))
  {
    if parts != [] {
      var init, last := parts[..|parts| - 1], parts[|parts| - 1];
      PackKeeps(init, max);
      AddKeeps(Pack(init, max), last, max);
      NonSpaceAppend(Concat(init), last);
    }
  }

  /** The sentences are the text less some terminators. */
  lemma {:induction false} SentencesKeepLetters(s: string)
    ensures Letters(Concat(Sentences(s))) == Letters(s)
    decreases |s|
  {
    hide Concat, MatchLength, Filter;
    if s == "" {
      NoSentences();
    } else if IsTerminator(s[0]) {
      SentencesKeepLetters(s[1..]);
      assert s == [s[0]] + s[1..];
      FilterAppend(IsLetter(), [s[0]], s[1..]);
      FilterNone(IsLetter(), [s[0]]);
      assert [] + Letters(s[1..]) == Letters(s[1..]);
    } else {
      var m := MatchLength(s);
      SentencesKeepLetters(s[m..]);
      assert s == s[..m] + s[m..];
      SentencesOfMatch(s, m);
      FilterAppend(IsLetter(), s[..m], s[m..]);
      FilterAppend(IsLetter(), s[..m], Concat(Sentences(s[m..])));
    }
  }

  lemma {:induction false} SentencesAreASubsequence(s: string)
    ensures Subsequence(Concat(Sentences(s)), s)
    decreases |s|
  {
    if s != "" {
      if IsTerminator(s[0]) {
        SentencesAreASubsequence(s[1..]);
        assert s == [s[0]] + s[1..];
        SubsequenceAppend("", Concat(Sentences(s[1..])), [s[0]], s[1..]);
        assert "" + Concat(Sentences(s[1..])) == Concat(Sentences(s[1..]));
      } else {
        var m := MatchLength(s);
        SentencesAreASubsequence(s[m..]);
        assert s == s[..m] + s[m..];
        ConcatCons(s[..m], Sentences(s[m..]));
        SubsequenceRefl(s[..m]);
        SubsequenceAppend(s[..m], Concat(Sentences(s[m..])), s[..m], s[m..]);
      }
    }
  }

  lemma ConcatCons(piece: string, rest: seq<string>)
    ensures Concat([piece] + rest) == piece + Concat(rest)
    ensures Concat([piece]) == piece
  {
    ConcatAppend([piece], rest);
    assert [piece][..0] == [] && "" + piece == piece;
  }

  /** `a` is what remains of `b` after leaving out some characters. */
  predicate Subsequence(a: string, b: string) {
    || a == ""
    || (b != "" && a[|a| - 1] == b[|b| - 1] && Subsequence(a[..|a| - 1], b[..|b| - 1]))
    || (b != "" && Subsequence(a, b[..|b| - 1]))
  }

  lemma {:induction false} SubsequenceRefl(a: string)
    ensures Subsequence(a, a)
  {
    if a != "" {
      SubsequenceRefl(a[..|a| - 1]);
    }
  }

  lemma {:induction false} SubsequenceAppend(a: string, c: string, b: string, d: string)
    requires Subsequence(a, b) && Subsequence(c, d)
    ensures Subsequence(a + c, b + d)
    decreases |d|
  {
    if d == "" {
      assert a + c == a && b + d == b;
    } else {
      assert (b + d)[..|b + d| - 1] == b + d[..|d| - 1];
      if c == "" {
        SubsequenceAppend(a, c, b, d[..|d| - 1]);
      } else if c[|c| - 1] == d[|d| - 1] && Subsequence(c[..|c| - 1], d[..|d| - 1]) {
        SubsequenceAppend(a, c[..|c| - 1], b, d[..|d| - 1]);
        assert (a + c)[..|a + c| - 1] == a + c[..|c| - 1];
      } else {
        SubsequenceAppend(a, c, b, d[..|d| - 1]);
      }
    }
  }

  lemma {:induction false} SubsequenceFiltered(p: char -> bool, a: string, b: string)
    requires Subsequence(a, b)
    ensures Subsequence(Filter(p, a), Filter(p, b))
    decreases |b|
  {
    if a != "" {
      if a[|a| - 1] == b[|b| - 1] && Subsequence(a[..|a| - 1], b[..|b| - 1]) {
        SubsequenceFiltered(p, a[..|a| - 1], b[..|b| - 1]);
      } else {
        SubsequenceFiltered(p, a, b[..|b| - 1]);
      }
      SubsequenceLonger(Filter(p, a), Filter(p, b[..|b| - 1]), b[|b| - 1]);
    }
  }

  lemma SubsequenceLonger(a: string, b: string, x: char)
    ensures Subsequence(a, b) ==> Subsequence(a, b + [x])
    ensures a != "" && a[|a| - 1] == x && Subsequence(a[..|a| - 1], b) ==> Subsequence(a, b + [x])
  {
    assert (b + [x])[..|b|] == b;
  }

  lemma {:induction false} FilteredSubsequence(p: char -> bool, s: string)
    ensures Subsequence(Filter(p, s), s)
  {
    if s != "" {
      FilteredSubsequence(p, s[..|s| - 1]);
    }
  }

  lemma {:induction false} SubsequenceTrans(a: string, b: string, c: string)
    requires Subsequence(a, b) && Subsequence(b, c)
    ensures Subsequence(a, c)
    decreases |c|
  {
    if a != "" && b != "" {
      if b[|b| - 1] == c[|c| - 1] && Subsequence(b[..|b| - 1], c[..|c| - 1]) {
        if a[|a| - 1] == b[|b| - 1] && Subsequence(a[..|a| - 1], b[..|b| - 1]) {
          SubsequenceTrans(a[..|a| - 1], b[..|b| - 1], c[..|c| - 1]);
        } else {
          SubsequenceTrans(a, b[..|b| - 1], c[..|c| - 1]);
        }
      } else {
        SubsequenceTrans(a, b, c[..|c| - 1]);
      }
    }
  }

  lemma LettersOfInk(s: string)
    ensures Letters(NonSpace(s)) == Letters(s)
  {
    FilterStronger(IsLetter(), Ink(), s);
  }

  lemma ChunksInk(text: string, max: nat)
    requires max >= 1
    ensures var normalized := Normalized(text);
      NonSpace(Concat(Chunks(text, max)))
      == if |normalized| <= max then NonSpace(text) else NonSpace(Concat(Parts(normalized)))
  {
    var normalized := Normalized(text);
    NormalizedKeeps(text);
    if normalized == "" {
    } else if |normalized| <= max {
      ConcatCons(normalized, []);
    } else {
      PackKeeps(Parts(normalized), max);
      FlushKeeps(Pack(Parts(normalized), max));
    }
  }

  lemma PartsKeep(normalized: string)
    ensures Letters(Concat(Parts(normalized))) == Letters(normalized)
    ensures Subsequence(Concat(Parts(normalized)), normalized)
  {
    SentencesKeepLetters(normalized);
    SentencesAreASubsequence(normalized);
    if Sentences(normalized) == [] {
      ConcatCons(normalized, []);
      SubsequenceRefl(normalized);
    }
  }

  /** Leaving out white space and terminators, the pieces put together are the text. */
  lemma ChunksKeepLetters(text: string, max: nat)
    requires max >= 1
    ensures Letters(Concat(Chunks(text, max))) == Letters(text)
  {
    var normalized := Normalized(text);
    ChunksInk(text, max);
    NormalizedKeeps(text);
    PartsKeep(normalized);
    LettersOfInk(Concat(Chunks(text, max)));
    LettersOfInk(Concat(Parts(normalized)));
    LettersOfInk(normalized);
    LettersOfInk(text);
  }

  /** Apart from white space the pieces add, move and repeat nothing. */
  lemma ChunksAreASubsequence(text: string, max: nat)
    requires max >= 1
    ensures Subsequence(NonSpace(Concat(Chunks(text, max))), text)
  {
    var normalized := Normalized(text);
    ChunksInk(text, max);
    NormalizedKeeps(text);
    PartsKeep(normalized);
    SubsequenceFiltered(Ink(), Concat(Parts(normalized)), normalized);
    FilteredSubsequence(Ink(), text);
    SubsequenceTrans(NonSpace(Concat(Parts(normalized))), NonSpace(text), text);
  }

  // ── exactly when the sentences leave something out ────────────────────

  /** A terminator, then closers or white space, then a terminator again. */
  predicate GapAt(s: string, i: nat)
    requires i < |s|
  {
    var n := Tail(s[i + 1..]);
    IsTerminator(s[i]) && n > 0 && i + 1 + n < |s| && IsTerminator(s[i + 1 + n])
  }

  /** The text starts with a terminator or has a gap between two of them, as in `"Well." ...`. */
  ghost predicate Skips(s: string) {
    (s != "" && IsTerminator(s[0])) || HasGap(s)
  }

  lemma TailHasNoTerminator(s: string)
    ensures forall i :: 0 <= i < Tail(s) ==> !IsTerminator(s[i])
  {
    var close := Run(IsCloser, s);
    assert forall i :: close <= i < Tail(s) ==> s[i] == s[close..][i - close];
  }

  lemma StopParts(s: string)
    requires s != "" && !IsTerminator(s[0])
    ensures forall i :: 0 <= i < Stop(s) ==> (IsTerminator(s[i]) <==> i >= Run(IsBody, s))
    ensures Run(IsBody, s) < |s| ==> Run(IsBody, s) < Stop(s)
    ensures Stop(s) < |s| ==> !IsTerminator(s[Stop(s)])
  {
    hide IsTerminator, Run;
    var body := Run(IsBody, s);
    var rest := s[body..];
    var n := Run(IsTerminator, rest);
    forall i | 0 <= i < Stop(s) ensures IsTerminator(s[i]) <==> i >= body {
      if i < body {
        assert IsBody(s[i]);
      } else {
        assert s[i] == rest[i - body];
      }
    }
    assert body < |s| ==> !IsBody(s[body]) && rest[0] == s[body];
    assert body + n < |s| ==> rest[n] == s[body + n];
  }

  lemma MatchTail(s: string)
    requires s != "" && !IsTerminator(s[0])
    ensures Stop(s) <= MatchLength(s)
    ensures forall i :: Stop(s) <= i < MatchLength(s) ==> !IsTerminator(s[i])
  {
    var rest := s[Stop(s)..];
    TailHasNoTerminator(rest);
    assert forall i :: Stop(s) <= i < |s| ==> s[i] == rest[i - Stop(s)];
  }

  lemma GapMoves(left: string, right: string, i: nat)
    requires i < |right|
    ensures GapAt(left + right, |left| + i) == GapAt(right, i)
  {
    var s := left + right;
    assert s[|left| + i + 1..] == right[i + 1..];
  }

  /** A terminator just before another has no gap behind it. */
  lemma NoGapWithin(s: string, i: nat)
    requires i + 1 < |s| && IsTerminator(s[i + 1])
    ensures !GapAt(s, i)
  {
    assert s[i + 1..][0] == s[i + 1];
  }

  /** A gap of `s` that starts in its first match starts at the last of its terminators. */
  lemma GapIsAtStop(s: string, i: nat)
    requires s != "" && !IsTerminator(s[0]) && i < MatchLength(s) && GapAt(s, i)
    ensures i + 1 == Stop(s) && Run(IsBody, s) < |s|
  {
    StopParts(s);
    MatchTail(s);
    assert IsTerminator(s[i]);
    if i + 1 < |s| && IsTerminator(s[i + 1]) {
      NoGapWithin(s, i);
    }
  }

  /** A gap of `s` that starts in its first match leads to the end of that match. */
  lemma GapInMatch(s: string, i: nat)
    requires s != "" && !IsTerminator(s[0]) && i < MatchLength(s) && GapAt(s, i)
    ensures MatchLength(s) < |s| && IsTerminator(s[MatchLength(s)])
  {
    GapIsAtStop(s, i);
  }

  lemma GapAtMatchEnd(s: string)
    requires s != "" && !IsTerminator(s[0]) && MatchLength(s) < |s| && IsTerminator(s[MatchLength(s)])
    ensures HasGap(s)
  {
    StopParts(s);
    assert GapAt(s, Stop(s) - 1);
  }

  ghost predicate HasGap(s: string) {
    exists i :: 0 <= i < |s| && GapAt(s, i)
  }

  lemma HasGapMoves(left: string, right: string)
    requires HasGap(right)
    ensures HasGap(left + right)
  {
    var i :| 0 <= i < |right| && GapAt(right, i);
    GapMoves(left, right, i);
    assert GapAt(left + right, |left| + i);
  }

  lemma GapBehind(left: string, right: string, s: string, i: nat)
    requires s == left + right && |left| <= i < |s| && GapAt(s, i)
    ensures HasGap(right)
  {
    assert s[i + 1..] == right[i - |left| + 1..];
    assert GapAt(right, i - |left|);
  }

  lemma SomeGap(s: string) returns (i: nat)
    requires HasGap(s)
    ensures i < |s| && GapAt(s, i)
  {
    i :| 0 <= i < |s| && GapAt(s, i);
  }

  lemma GapIsInEither(left: string, right: string) returns (i: nat)
    requires HasGap(left + right)
    ensures HasGap(right) || (i < |left| && GapAt(left + right, i))
  {
    var s := left + right;
    i := SomeGap(s);
    if i >= |left| {
      GapBehind(left, right, s, i);
    }
  }

  lemma SkipsInMatch(s: string)
    requires s != "" && !IsTerminator(s[0]) && Skips(s)
    ensures Skips(s[MatchLength(s)..])
  {
    hide HasGap, GapAt;
    var left, right := s[..MatchLength(s)], s[MatchLength(s)..];
    assert s == left + right;
    var i := GapIsInEither(left, right);
    if !HasGap(right) {
      GapInMatch(s, i);
    }
  }

  lemma GapStays(s: string, m: nat)
    requires m <= |s| && HasGap(s[m..])
    ensures HasGap(s)
  {
    hide HasGap;
    HasGapMoves(s[..m], s[m..]);
    assert s[..m] + s[m..] == s;
  }

  lemma SkipsAfterMatch(s: string)
    requires s != "" && !IsTerminator(s[0]) && Skips(s[MatchLength(s)..])
    ensures Skips(s)
  {
    var m := MatchLength(s);
    if m < |s| && IsTerminator(s[m]) {
      GapAtMatchEnd(s);
    } else {
      GapStays(s, m);
    }
  }

  lemma SkipsIff(s: string, m: nat)
    requires s != "" && !IsTerminator(s[0]) && m == MatchLength(s)
    ensures Skips(s) <==> Skips(s[m..])
  {
    if Skips(s) {
      SkipsInMatch(s);
    } else if Skips(s[m..]) {
      SkipsAfterMatch(s);
    }
  }

  lemma {:induction false} SentencesAreNoLonger(s: string)
    ensures |Concat(Sentences(s))| <= |s|
    decreases |s|
  {
    if s != "" {
      if IsTerminator(s[0]) {
        SentencesAreNoLonger(s[1..]);
      } else {
        var m := MatchLength(s);
        SentencesAreNoLonger(s[m..]);
        ConcatCons(s[..m], Sentences(s[m..]));
      }
    }
  }

  lemma SentencesOfMatch(s: string, m: nat)
    requires s != "" && !IsTerminator(s[0]) && m == MatchLength(s)
    ensures Concat(Sentences(s)) == s[..m] + Concat(Sentences(s[m..]))
  {
    ConcatCons(s[..m], Sentences(s[m..]));
  }

  lemma WholeIff(s: string, m: nat, tail: string)
    requires m <= |s|
    ensures s[..m] + tail == s <==> tail == s[m..]
  {
    assert (s[..m] + tail)[m..] == tail;
    assert s[..m] + s[m..] == s;
  }

  /** No match attempt ever meets a terminator. */
  ghost predicate Lossless(s: string)
    decreases |s|
  {
    s == "" || (!IsTerminator(s[0]) && Lossless(s[MatchLength(s)..]))
  }

  lemma {:induction false} LosslessIff(s: string)
    ensures Lossless(s) <==> !Skips(s)
    decreases |s|
  {
    if s != "" && !IsTerminator(s[0]) {
      LosslessIff(s[MatchLength(s)..]);
      SkipsIff(s, MatchLength(s));
    }
  }

  lemma {:induction false} LosslessKeepsAll(s: string)
    ensures Concat(Sentences(s)) == s <==> Lossless(s)
    decreases |s|
  {
    if s != "" {
      if IsTerminator(s[0]) {
        SentencesAreNoLonger(s[1..]);
      } else {
        var m := MatchLength(s);
        LosslessKeepsAll(s[m..]);
        SentencesOfMatch(s, m);
        WholeIff(s, m, Concat(Sentences(s[m..])));
      }
    }
  }

  /** The sentences together are the whole text exactly when no terminator stands first or
      behind another one's closers and spaces; otherwise they are shorter. */
  lemma SentencesAreTheTextIff(s: string)
    ensures Concat(Sentences(s)) == s <==> !Skips(s)
    ensures |Concat(Sentences(s))| <= |s|
  {
    LosslessKeepsAll(s);
    LosslessIff(s);
    SentencesAreNoLonger(s);
  }

  /** Losing a terminator is losing ink. */
  lemma {:induction false} SentencesKeepInkIff(s: string)
    ensures |NonSpace(Concat(Sentences(s)))| <= |NonSpace(s)|
    ensures NonSpace(Concat(Sentences(s))) == NonSpace(s) <==> Concat(Sentences(s)) == s
    decreases |s|
  {
    hide NonSpace, Concat, MatchLength;
    if s == "" {
      NoSentences();
    } else if IsTerminator(s[0]) {
      SentencesKeepInkIff(s[1..]);
      TerminatorIsInk(s);
    } else {
      var m := MatchLength(s);
      var a, rest := s[..m], s[m..];
      SentencesKeepInkIff(rest);
      SentencesOfMatch(s, m);
      NonSpaceAppend(a, Concat(Sentences(rest)));
      assert s == a + rest;
      NonSpaceAppend(a, rest);
      WholeIff(s, m, Concat(Sentences(rest)));
      SamePrefixIff(NonSpace(a), NonSpace(Concat(Sentences(rest))), NonSpace(rest));
    }
  }

  lemma NoSentences()
    ensures Concat(Sentences("")) == ""
  {
  }

  lemma TerminatorIsInk(s: string)
    requires s != "" && IsTerminator(s[0])
    ensures |NonSpace(s)| == |NonSpace(s[1..])| + 1
  {
    assert s == [s[0]] + s[1..];
    NonSpaceAppend([s[0]], s[1..]);
    FilterAll(Ink(), [s[0]]);
  }

  lemma SamePrefixIff(a: string, b: string, c: string)
    ensures a + b == a + c <==> b == c
  {
    assert (a + b)[|a|..] == b && (a + c)[|a|..] == c;
  }

  /** The pieces hold every character but white space if and only if the text fits one piece, has
      no sentence, or leaves no terminator out in the sense of `Skips`. */
  lemma ChunksKeepInkIff(text: string, max: nat)
    requires max >= 1
    ensures var normalized := Normalized(text);
      NonSpace(Concat(Chunks(text, max))) == NonSpace(text)
      <==> |normalized| <= max || Sentences(normalized) == [] || !Skips(normalized)
  {
    hide Skips, Chunks, NonSpace, Concat, Sentences;
    var normalized := Normalized(text);
    ChunksInk(text, max);
    NormalizedKeeps(text);
    SentencesKeepInkIff(normalized);
    SentencesAreTheTextIff(normalized);
    ConcatCons(normalized, []);
    assert [normalized] + [] == [normalized];
  }
}
