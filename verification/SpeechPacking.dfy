/** What the pieces of a reply are, told from its words and sentences. */
module SpeechPacking {
  import opened Lists
  import opened Text
  import opened SpeechText

  // ── the normalized text ───────────────────────────────────────────────

  predicate IsInk(c: char) {
    !IsSpace(c)
  }

  /** The words of a text: its longest stretches without white space. */
  function WordsOf(s: string): seq<string>
    decreases |s|
  {
    if s == "" then []
    else if IsSpace(s[0]) then WordsOf(s[1..])
    else [s[..Run(IsInk, s)]] + WordsOf(s[Run(IsInk, s)..])
  }

  /** The words with one space between. */
  function Spaced(words: seq<string>): string {
    if words == [] then ""
    else if |words| == 1 then words[0]
    else words[0] + " " + Spaced(words[1..])
  }

  lemma {:induction false} SkipSpaces(s: string, n: nat)
    requires n <= |s| && AllSpace(s[..n])
    ensures WordsOf(s) == WordsOf(s[n..])
    decreases n
  {
    if n == 0 {
      assert s[0..] == s;
    } else {
      assert s[..n][0] == s[0] && s[1..][..n - 1] == s[..n][1..];
      SkipSpaces(s[1..], n - 1);
      assert s[1..][n - 1..] == s[n..];
    }
  }

  lemma {:induction false} CollapseInk(s: string, n: nat)
    requires n <= |s| && forall i :: 0 <= i < n ==> IsInk(s[i])
    ensures Collapse(s) == s[..n] + Collapse(s[n..])
    decreases n
  {
    hide Collapse;
    if n == 0 {
      assert s[..0] == "" && s[0..] == s;
    } else {
      CollapseStep(s);
      CollapseInk(s[1..], n - 1);
      assert s[1..][n - 1..] == s[n..] && s[..n] == [s[0]] + s[1..][..n - 1];
      ConcatAssoc([s[0]], s[1..][..n - 1], Collapse(s[n..]));
    }
  }

  lemma CollapseStep(s: string)
    requires s != "" && IsInk(s[0])
    ensures Collapse(s) == [s[0]] + Collapse(s[1..])
  {
  }

  lemma CollapseSpaces(s: string)
    requires s != "" && IsSpace(s[0])
    ensures var n := Run(IsSpace, s);
      && n > 0 && Collapse(s) == " " + Collapse(s[n..]) && WordsOf(s) == WordsOf(s[n..])
      && (n < |s| ==> !IsSpace(s[n]))
  {
    var n := Run(IsSpace, s);
    SkipSpaces(s, n);
  }

  lemma SpacedMore(word: string, words: seq<string>)
    requires words != []
    ensures Spaced([word] + words) == word + " " + Spaced(words)
  {
    assert ([word] + words)[1..] == words;
  }

  lemma FirstWord(s: string)
    requires s != "" && IsInk(s[0])
    ensures var n := Run(IsInk, s);
      && 0 < n <= |s| && WordsOf(s) == [s[..n]] + WordsOf(s[n..])
      && (forall i :: 0 <= i < n ==> IsInk(s[i])) && (n < |s| ==> IsSpace(s[n]))
  {
  }

  lemma SpacedEnds(words: seq<string>, word: string)
    requires word != "" && IsInk(word[0]) && words != []
    requires var w := Spaced(words); w != "" && IsInk(w[|w| - 1])
    ensures var w := word + " " + Spaced(words); w != "" && IsInk(w[0]) && IsInk(w[|w| - 1])
  {
  }

  /** A text that starts with a word collapses to its words, and perhaps a space. */
  lemma {:induction false} CollapsedWords(s: string) returns (last: string)
    requires s != "" && IsInk(s[0])
    ensures last == "" || last == " "
    ensures WordsOf(s) != [] && Collapse(s) == Spaced(WordsOf(s)) + last
    ensures var w := Spaced(WordsOf(s)); w != "" && IsInk(w[0]) && IsInk(w[|w| - 1])
    decreases |s|
  {
    hide Collapse, Spaced, WordsOf, Run;
    FirstWord(s);
    var n := Run(IsInk, s);
    var word, more := s[..n], s[n..];
    assert IsInk(word[0]) && IsInk(word[|word| - 1]);
    CollapseInk(s, n);
    if more == "" {
      last := "";
      SpacedOne(word);
      CollapsedNothing();
      assert WordsOf(s) == [word];
    } else {
      CollapseSpaces(more);
      var rest := more[Run(IsSpace, more)..];
      if rest == "" {
        last := " ";
        SpacedOne(word);
        CollapsedNothing();
        assert WordsOf(s) == [word] && Spaced([word]) == word;
      } else {
        last := CollapsedWords(rest);
        SpacedMore(word, WordsOf(rest));
        SpacedEnds(WordsOf(rest), word);
        assert word + (" " + (Spaced(WordsOf(rest)) + last)) == word + " " + Spaced(WordsOf(rest)) + last;
      }
    }
  }

  lemma SpacedOne(word: string)
    ensures Spaced([word]) == word
  {
  }

  lemma CollapsedNothing()
    ensures Collapse("") == "" && WordsOf("") == []
  {
  }

  lemma TrimOne(s: string, last: string)
    requires s != "" && IsInk(s[0]) && IsInk(s[|s| - 1]) && (last == "" || last == " ")
    ensures Trim(s + last) == s && Trim(" " + (s + last)) == s
  {
    assert (s + last)[0] == s[0] && (" " + (s + last))[1..] == s + last;
    assert TrimLeft(s + last) == s + last && TrimLeft(" " + (s + last)) == TrimLeft(s + last);
    if last == "" {
      assert s + last == s;
    } else {
      assert (s + last)[..|s + last| - 1] == s;
      assert TrimRight(s) == s && TrimRight(s + last) == TrimRight(s);
    }
  }

  /** The normalized text is the words of the text with one space between. */
  lemma NormalizedIsItsWords(text: string)
    ensures Normalized(text) == Spaced(WordsOf(text))
  {
    hide Collapse, Spaced, Trim;
    if text == "" {
      BlankNormalizes();
    } else if IsInk(text[0]) {
      var last := CollapsedWords(text);
      TrimOne(Spaced(WordsOf(text)), last);
    } else {
      CollapseSpaces(text);
      var rest := text[Run(IsSpace, text)..];
      if rest == "" {
        BlankNormalizes();
      } else {
        var last := CollapsedWords(rest);
        TrimOne(Spaced(WordsOf(rest)), last);
      }
    }
  }

  lemma BlankNormalizes()
    ensures Collapse("") == "" && Trim("") == "" && Trim(" " + "") == "" && WordsOf("") == [] && Spaced([]) == ""
  {
    assert " " + "" == " ";
    assert " "[1..] == "";
  }

  // ── the sentences ─────────────────────────────────────────────────────

  /** A sentence and what follows it: text without terminators, then terminators, closers and
      white space, each as long as it goes; a text that ends without a terminator is one too. */
  ghost predicate IsSentence(t: string, after: string) {
    exists b, r, c :: Cuts(t, after, b, r, c)
  }

  ghost predicate Cuts(t: string, after: string, b: int, r: int, c: int) {
    && 0 < b <= r <= c <= |t|
    && (forall i :: 0 <= i < b ==> !IsTerminator(t[i]))
    && (forall i :: b <= i < r ==> IsTerminator(t[i]))
    && (forall i :: r <= i < c ==> IsCloser(t[i]))
    && (forall i :: c <= i < |t| ==> IsSpace(t[i]))
    && (if b == r then b == |t| && after == ""
        else after == "" || (!IsSpace(after[0]) && (c == |t| ==> !IsCloser(after[0])) && (r == |t| ==> !IsTerminator(after[0]))))
  }

  /** The list is the sentences of the text, in order; between them only terminators are skipped. */
  ghost predicate AreSentences(s: string, list: seq<string>)
    decreases |list|
  {
    if list == [] then forall i :: 0 <= i < |s| ==> IsTerminator(s[i])
    else exists k :: StartsAt(s, list[0], k) && AreSentences(s[k + |list[0]|..], list[1..])
  }

  ghost predicate StartsAt(s: string, t: string, k: int) {
    && 0 <= k && k + |t| <= |s| && (forall i :: 0 <= i < k ==> IsTerminator(s[i]))
    && t != "" && s[k..k + |t|] == t && IsSentence(t, s[k + |t|..])
  }

  lemma CutsAtPlaces(s: string, m: nat, b: nat, r: nat, c: nat)
    requires 0 < b < r <= c <= m <= |s|
    requires forall i :: 0 <= i < r ==> (IsTerminator(s[i]) <==> i >= b)
    requires r < |s| ==> !IsTerminator(s[r])
    requires forall i :: r <= i < c ==> IsCloser(s[i])
    requires forall i :: c <= i < m ==> IsSpace(s[i])
    requires m < |s| ==> !IsSpace(s[m])
    requires m < |s| && c == m ==> !IsCloser(s[m])
    ensures IsSentence(s[..m], s[m..])
  {
    hide IsTerminator, IsCloser, IsSpace;
    assert forall i :: 0 <= i < m ==> s[..m][i] == s[i];
    assert m < |s| ==> s[m..][0] == s[m];
    assert Cuts(s[..m], s[m..], b, r, c);
  }

  lemma MatchIsASentence(s: string)
    requires s != "" && !IsTerminator(s[0])
    ensures var m := MatchLength(s); IsSentence(s[..m], s[m..])
  {
    hide IsTerminator, IsCloser, IsSpace, IsSentence;
    var m, b := MatchLength(s), Run(IsBody, s);
    BodyIsNotEmpty(s);
    if b == |s| {
      assert s[..m] == s && s[m..] == "";
      WholeIsASentence(s);
    } else {
      var r := Stop(s);
      StopParts(s);
      var close := Run(IsCloser, s[r..]);
      TailCuts(s, r, close, Run(IsSpace, s[r..][close..]));
      CutsAtPlaces(s, m, b, r, r + close);
    }
  }

  lemma BodyIsNotEmpty(s: string)
    requires s != "" && !IsTerminator(s[0])
    ensures Run(IsBody, s) > 0
  {
  }

  lemma WholeIsASentence(s: string)
    requires s != "" && Run(IsBody, s) == |s|
    ensures IsSentence(s, "")
  {
    assert forall i :: 0 <= i < |s| ==> IsBody(s[i]);
    assert Cuts(s, "", |s|, |s|, |s|);
  }

  lemma TailCuts(s: string, r: nat, close: nat, spaces: nat)
    requires r <= |s| && close == Run(IsCloser, s[r..]) && spaces == Run(IsSpace, s[r..][close..])
    ensures var m := r + close + spaces;
      && m <= |s|
      && (forall i :: r <= i < r + close ==> IsCloser(s[i]))
      && (forall i :: r + close <= i < m ==> IsSpace(s[i]))
      && (m < |s| ==> !IsSpace(s[m]))
      && (m < |s| && spaces == 0 ==> !IsCloser(s[m]))
  {
    hide IsCloser, IsSpace;
    var rest := s[r..];
    var blank := rest[close..];
    assert forall i :: r <= i < |s| ==> s[i] == rest[i - r];
    assert forall i :: r + close <= i < |s| ==> s[i] == blank[i - r - close];
  }

  lemma SkipsATerminator(s: string, list: seq<string>)
    requires s != "" && IsTerminator(s[0]) && AreSentences(s[1..], list)
    ensures AreSentences(s, list)
  {
    hide IsTerminator, IsSentence;
    assert forall i :: 1 <= i < |s| ==> s[i] == s[1..][i - 1];
    if list != [] {
      var k :| StartsAt(s[1..], list[0], k) && AreSentences(s[1..][k + |list[0]|..], list[1..]);
      assert s[1..][k + |list[0]|..] == s[k + 1 + |list[0]|..];
      assert s[1..][k..k + |list[0]|] == s[k + 1..k + 1 + |list[0]|];
      assert StartsAt(s, list[0], k + 1);
    }
  }

  /** The sentence pattern matches exactly the sentences of the text. */
  lemma {:induction false} SentencesAre(s: string)
    ensures AreSentences(s, Sentences(s))
    decreases |s|
  {
    hide IsTerminator, MatchLength, IsSentence;
    if s != "" {
      if IsTerminator(s[0]) {
        SentencesAre(s[1..]);
        SkipsATerminator(s, Sentences(s));
      } else {
        var m := MatchLength(s);
        SentencesAre(s[m..]);
        MatchIsASentence(s);
        var list := Sentences(s);
        assert list[0] == s[..m] && list[1..] == Sentences(s[m..]);
        assert StartsAt(s, list[0], 0);
      }
    }
  }

  // ── packing ───────────────────────────────────────────────────────────

  /** Where a text that is too long is cut: at the last space at or before `max` but the first
      character, or at `max` when there is none. */
  ghost predicate CutsAt(rest: string, max: nat, cut: int) {
    && 1 <= cut <= max < |rest|
    && (forall j :: cut < j <= max ==> rest[j] != ' ')
    && (rest[cut] == ' ' || (cut == max && forall j :: 1 <= j <= max ==> rest[j] != ' '))
  }

  /** The pieces of one long sentence, each cut that way and trimmed, and what is left over. */
  ghost predicate AreCuts(rest: string, max: nat, pieces: seq<string>, left: string)
    decreases |pieces|
  {
    if pieces == [] then left == rest && |rest| <= max
    else exists cut :: CutsAt(rest, max, cut) && pieces[0] == Trim(rest[..cut])
                       && AreCuts(Trim(rest[cut..]), max, pieces[1..], left)
  }

  /** The pieces with the one in hand, unless that is blank. */
  function Closed(p: Packed): seq<string> {
    if AllSpace(p.current) then p.out else p.out + [Trim(p.current)]
  }

  /** What one more sentence does: it goes with the piece in hand if they fit, else it begins a
      piece; a sentence that is too long for any piece is cut, and its end begins a piece. */
  ghost predicate Follows(p: Packed, sentence: string, max: nat, q: Packed) {
    if |sentence| > max then
      exists pieces, left :: AreCuts(Trim(sentence), max, pieces, left) && q.out == Closed(p) + pieces
                             && q.current == if left == "" then "" else left + " "
    else if |p.current + sentence| <= max then q == Packed(p.out, p.current + sentence)
    else q == Packed(Closed(p), sentence)
  }

  lemma FlushIs(p: Packed)
    ensures Flush(p) == Packed(Closed(p), "")
  {
    TrimEnds(p.current);
  }

  lemma WordCutCutsAt(rest: string, max: nat)
    requires 1 <= max < |rest|
    ensures CutsAt(rest, max, WordCut(rest, max))
  {
  }

  lemma {:induction false} WordsAreCuts(out: seq<string>, rest: string, max: nat) returns (pieces: seq<string>, left: string)
    requires max >= 1
    ensures AreCuts(rest, max, pieces, left)
    ensures Words(out, rest, max) == Packed(out + pieces, if left == "" then "" else left + " ")
    decreases |rest|
  {
    hide WordCut, Trim, CutsAt;
    if |rest| <= max {
      pieces, left := [], rest;
      assert out + [] == out;
    } else {
      var cut := WordCut(rest, max);
      WordCutCutsAt(rest, max);
      var first := Trim(rest[..cut]);
      var more, l := WordsAreCuts(out + [first], Trim(rest[cut..]), max);
      pieces, left := [first] + more, l;
      assert pieces[1..] == more;
      ConcatAssoc(out, [first], more);
    }
  }

  lemma AddFollows(p: Packed, sentence: string, max: nat)
    requires max >= 1
    ensures Follows(p, sentence, max, Add(p, sentence, max))
  {
    hide AreCuts, Words, Closed;
    FlushIs(p);
    if |sentence| > max {
      var pieces, left := WordsAreCuts(Flush(p).out, Trim(sentence), max);
    }
  }

  /** The stages of a packing: it begins with nothing and takes one sentence after the other. */
  ghost predicate Packs(parts: seq<string>, max: nat, stages: seq<Packed>) {
    && |stages| == |parts| + 1 && stages[0] == Packed([], "")
    && forall i {:trigger parts[i]} :: 0 <= i < |parts| ==> Follows(stages[i], parts[i], max, stages[i + 1])
  }

  lemma {:induction false} PackPacks(parts: seq<string>, max: nat) returns (stages: seq<Packed>)
    requires max >= 1
    ensures Packs(parts, max, stages) && stages[|parts|] == Pack(parts, max)
  {
    hide Add, Follows;
    if parts == [] {
      stages := [Packed([], "")];
    } else {
      var init, last := parts[..|parts| - 1], parts[|parts| - 1];
      var before := PackPacks(init, max);
      AddFollows(Pack(init, max), last, max);
      stages := before + [Pack(parts, max)];
      forall i {:trigger parts[i]} | 0 <= i < |parts| ensures Follows(stages[i], parts[i], max, stages[i + 1]) {
        if i < |init| {
          assert parts[i] == init[i];
        }
      }
    }
  }

  /** How a text is split, for every text and every `max` of at least 1: a text whose words fit one
      piece is that piece; of any other the sentences (or, without one, the whole) are packed in
      order, and the last piece in hand is closed. */
  lemma ChunksArePacked(text: string, max: nat) returns (sentences: seq<string>, stages: seq<Packed>)
    requires max >= 1
    ensures var normalized := Spaced(WordsOf(text));
      if |normalized| <= max then Chunks(text, max) == if normalized == "" then [] else [normalized]
      else
        && AreSentences(normalized, sentences)
        && Packs(if sentences == [] then [normalized] else sentences, max, stages)
        && Chunks(text, max) == Closed(stages[|stages| - 1])
  {
    hide Packs, Spaced, Pack, Flush, Sentences, AreSentences, Normalized, Closed, WordsOf;
    NormalizedIsItsWords(text);
    var normalized := Normalized(text);
    sentences := Sentences(normalized);
    SentencesAre(normalized);
    stages := PackPacks(Parts(normalized), max);
    PacksLength(Parts(normalized), max, stages);
    FlushIs(Pack(Parts(normalized), max));
  }

  lemma PacksLength(parts: seq<string>, max: nat, stages: seq<Packed>)
    requires Packs(parts, max, stages)
    ensures |stages| == |parts| + 1
  {
  }
}
