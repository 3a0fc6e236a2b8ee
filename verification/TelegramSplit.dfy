/** Splitting long text into messages: once in the bridge, once in the bot. */
module TelegramSplit {
  import opened Lists
  import opened Text

  predicate AllNewlines(s: string) {
    forall i :: 0 <= i < |s| ==> s[i] == '\n'
  }

  /** `replace(/^\n+/, "")`. */
  function StripNewlines(s: string): (r: string)
    ensures |r| <= |s|
  {
    if s != "" && s[0] == '\n' then StripNewlines(s[1..]) else s
  }

  /** Where a text that is too long is cut: at the last newline of the window, unless
      that lies in the first half. */
  function Cut(rest: string, size: nat): (cut: nat)
    requires 1 <= size < |rest|
    ensures 1 <= cut <= size
  {
    var newline := LastIndexOf(rest, '\n', size);
    if 2 * newline < size then size else newline
  }

  /** The pieces of the cutting loop and of the tail after it. */
  function Pieces(rest: string, size: nat): seq<string>
    requires size >= 1
    decreases |rest|
  {
    if |rest| <= size then (if Trim(rest) != "" then [rest] else [])
    else
      var cut := Cut(rest, size);
      [rest[..cut]] + Pieces(StripNewlines(rest[cut..]), size)
  }

  function Split(text: string, size: nat): seq<string>
    requires size >= 1
  {
    if |text| <= size then [text] else Pieces(text, size)
  }

  method ChunkForTelegram(text: string, size: nat) returns (parts: seq<string>)
    requires size >= 1
    ensures parts == Split(text, size)
  {
    if |text| <= size {
      return [text];
    }
    parts := [];
    var rest := text;
    while |rest| > size
      invariant parts + Pieces(rest, size) == Pieces(text, size)
      decreases |rest|
    {
      var cut := LastIndexOf(rest, '\n', size);
      if 2 * cut < size {
        cut := size;
      }
      ConcatAssoc(parts, [rest[..cut]], Pieces(StripNewlines(rest[cut..]), size));
      parts := parts + [rest[..cut]];
      rest := StripNewlines(rest[cut..]);
    }
    if Trim(rest) != "" {
      parts := parts + [rest];
    }
  }

  /** The bot's own copy of the splitter. */
  method Chunk(text: string, size: nat) returns (parts: seq<string>)
    requires size >= 1
    ensures parts == Split(text, size)
  {
    if |text| <= size {
      return [text];
    }
    var rest := text;
    parts := [];
    while |rest| > size
      invariant parts + Pieces(rest, size) == Pieces(text, size)
      decreases |rest|
    {
      var newline := LastIndexOf(rest, '\n', size);
      var cut := if 2 * newline < size then size else newline;
      ConcatAssoc(parts, [rest[..cut]], Pieces(StripNewlines(rest[cut..]), size));
      parts, rest := parts + [rest[..cut]], StripNewlines(rest[cut..]);
    }
    if Trim(rest) != "" {
      parts := parts + [rest];
    }
  }

  /** The two copies agree, piece by piece, whatever the text. */
  method BothSplittersAgree(text: string, size: nat) returns (bridge: seq<string>, bot: seq<string>)
    requires size >= 1
    ensures bridge == bot == Split(text, size)
  {
    bridge := ChunkForTelegram(text, size);
    bot := Chunk(text, size);
  }

  // ── what the pieces are ───────────────────────────────────────────────

  lemma {:induction false} StripsARun(s: string) returns (run: string)
    ensures AllNewlines(run) && s == run + StripNewlines(s)
    ensures StripNewlines(s) != "" ==> StripNewlines(s)[0] != '\n'
  {
    if s != "" && s[0] == '\n' {
      var rest := StripsARun(s[1..]);
      run := ['\n'] + rest;
      assert s == ['\n'] + s[1..];
    } else {
      run := "";
    }
  }

  /** Every piece fits, for every text and size. */
  lemma {:induction false} PiecesFit(rest: string, size: nat, i: nat)
    requires size >= 1 && i < |Pieces(rest, size)|
    ensures 0 < |Pieces(rest, size)[i]| <= size
    decreases |rest|
  {
    if |rest| > size {
      var cut := Cut(rest, size);
      if i > 0 {
        PiecesFit(StripNewlines(rest[cut..]), size, i - 1);
      }
    } else {
      TrimEnds(rest);
    }
  }

  lemma SplitFits(text: string, size: nat, i: nat)
    requires size >= 1 && i < |Split(text, size)|
    ensures |Split(text, size)[i]| <= size
  {
    if |text| > size {
      PiecesFit(text, size, i);
    }
  }

  /** The pieces, each followed by what was left out after it. */
  function Weave(pieces: seq<string>, gaps: seq<string>): string
    requires |pieces| == |gaps|
  {
    if pieces == [] then "" else pieces[0] + gaps[0] + Weave(pieces[1..], gaps[1..])
  }

  ghost predicate Rejoins(text: string, pieces: seq<string>, gaps: seq<string>, tail: string) {
    && |pieces| == |gaps|
    && (forall i :: 0 <= i < |gaps| ==> AllNewlines(gaps[i]))
    && AllSpace(tail)
    && text == Weave(pieces, gaps) + tail
  }

  lemma WeaveCons(piece: string, gap: string, pieces: seq<string>, gaps: seq<string>, rest: string, tail: string)
    requires Rejoins(rest, pieces, gaps, tail) && AllNewlines(gap)
    ensures Rejoins(piece + gap + rest, [piece] + pieces, [gap] + gaps, tail)
  {
    var ps, gs := [piece] + pieces, [gap] + gaps;
    assert ps[1..] == pieces && gs[1..] == gaps;
    assert piece + gap + (Weave(pieces, gaps) + tail) == (piece + gap + Weave(pieces, gaps)) + tail;
  }

  lemma WeaveOne(piece: string)
    ensures Rejoins(piece, [piece], [""], "")
  {
    var ps, gs := [piece], [""];
    assert ps[1..] == [] && gs[1..] == [];
  }

  lemma CutRejoins(rest: string, cut: nat) returns (run: string)
    requires cut <= |rest|
    ensures AllNewlines(run) && rest == rest[..cut] + run + StripNewlines(rest[cut..])
  {
    run := StripsARun(rest[cut..]);
    ConcatAssoc(rest[..cut], run, StripNewlines(rest[cut..]));
  }

  /** The text is its pieces in order; only runs of newlines after the cuts and a tail of
      white space are left out. */
  lemma {:induction false} PiecesRejoin(rest: string, size: nat) returns (gaps: seq<string>, tail: string)
    requires size >= 1
    ensures Rejoins(rest, Pieces(rest, size), gaps, tail)
    decreases |rest|
  {
    if |rest| > size {
      var cut := Cut(rest, size);
      var next := StripNewlines(rest[cut..]);
      gaps, tail := PiecesRejoin(next, size);
      var run := CutRejoins(rest, cut);
      WeaveCons(rest[..cut], run, Pieces(next, size), gaps, next, tail);
      gaps := [run] + gaps;
    } else if Trim(rest) != "" {
      WeaveOne(rest);
      gaps, tail := [""], "";
    } else {
      TrimEnds(rest);
      gaps, tail := [], rest;
    }
  }

  lemma SplitRejoins(text: string, size: nat) returns (gaps: seq<string>, tail: string)
    requires size >= 1
    ensures Rejoins(text, Split(text, size), gaps, tail)
  {
    if |text| <= size {
      WeaveOne(text);
      gaps, tail := [""], "";
    } else {
      gaps, tail := PiecesRejoin(text, size);
    }
  }

  // ── where the pieces end ──────────────────────────────────────────────

  /** A text is cut at the latest newline of its window that lies in the second half; only
      when there is none is a line broken, and then the piece is full. */
  lemma CutIsAtTheLatestNewline(rest: string, size: nat)
    requires 1 <= size < |rest|
    ensures var cut := Cut(rest, size);
      && 2 * cut >= size
      && (rest[cut] == '\n' || cut == size)
      && (forall j :: cut < j <= size ==> rest[j] != '\n')
      && (cut == size && rest[cut] != '\n' ==> forall j :: 0 <= j <= size && 2 * j >= size ==> rest[j] != '\n')
  {
  }

  /** A newline in the second half of the window, or just behind it. */
  predicate BreaksAt(rest: string, size: nat, j: int) {
    0 <= j <= size && j < |rest| && 2 * j >= size && rest[j] == '\n'
  }

  ghost predicate BreaksLastAt(rest: string, size: nat, j: int) {
    BreaksAt(rest, size, j) && forall k :: BreaksAt(rest, size, k) ==> k <= j
  }

  /** The piece that a remainder must begin with. A remainder that fits is a piece as it is; a
      longer one is cut at the latest newline of its window that lies in the second half, and
      only when there is none is a line broken, and then the piece is full. */
  ghost predicate Begins(rest: string, size: nat, piece: string) {
    if |rest| <= size then piece == rest && !AllSpace(rest)
    else if exists j :: BreaksAt(rest, size, j) then
      exists j :: BreaksLastAt(rest, size, j) && piece == rest[..j]
    else piece == rest[..size]
  }

  lemma CutBegins(rest: string, size: nat)
    requires 1 <= size < |rest|
    ensures Begins(rest, size, rest[..Cut(rest, size)])
  {
    var cut := Cut(rest, size);
    CutIsAtTheLatestNewline(rest, size);
    if BreaksAt(rest, size, cut) {
      assert BreaksLastAt(rest, size, cut);
    } else {
      assert cut == size && forall j :: !BreaksAt(rest, size, j);
    }
  }

  /** What is left to be sent before piece `i`. */
  function Remainder(pieces: seq<string>, gaps: seq<string>, tail: string, i: nat): string
    requires |pieces| == |gaps| && i <= |pieces|
  {
    Weave(pieces[i..], gaps[i..]) + tail
  }

  /** Every piece is the right beginning of what was left before it, and what is left after it
      does not start with a newline. */
  ghost predicate CutRight(size: nat, pieces: seq<string>, gaps: seq<string>, tail: string)
    requires |pieces| == |gaps|
  {
    forall i :: 0 <= i < |pieces| ==>
      && Begins(Remainder(pieces, gaps, tail, i), size, pieces[i])
      && (|Remainder(pieces, gaps, tail, i)| > size ==> !StartsLine(Remainder(pieces, gaps, tail, i + 1)))
  }

  predicate StartsLine(s: string) {
    s != "" && s[0] == '\n'
  }

  lemma RemainderCons(piece: string, gap: string, pieces: seq<string>, gaps: seq<string>, tail: string, i: nat)
    requires |pieces| == |gaps| && i <= |pieces|
    ensures Remainder([piece] + pieces, [gap] + gaps, tail, i + 1) == Remainder(pieces, gaps, tail, i)
  {
    assert ([piece] + pieces)[i + 1..] == pieces[i..] && ([gap] + gaps)[i + 1..] == gaps[i..];
  }

  lemma CutRightCons(size: nat, piece: string, gap: string, pieces: seq<string>, gaps: seq<string>, rest: string, next: string, tail: string)
    requires Rejoins(next, pieces, gaps, tail) && CutRight(size, pieces, gaps, tail)
    requires Rejoins(rest, [piece] + pieces, [gap] + gaps, tail) && Begins(rest, size, piece) && !StartsLine(next)
    ensures CutRight(size, [piece] + pieces, [gap] + gaps, tail)
  {
    hide Begins, StartsLine, Weave;
    var ps, gs := [piece] + pieces, [gap] + gaps;
    assert ps[0..] == ps && gs[0..] == gs && pieces[0..] == pieces && gaps[0..] == gaps;
    forall i | 0 <= i < |ps|
      ensures Begins(Remainder(ps, gs, tail, i), size, ps[i])
      ensures |Remainder(ps, gs, tail, i)| > size ==> !StartsLine(Remainder(ps, gs, tail, i + 1))
    {
      RemainderCons(piece, gap, pieces, gaps, tail, i);
      if i > 0 {
        RemainderCons(piece, gap, pieces, gaps, tail, i - 1);
        assert ps[i] == pieces[i - 1];
      }
    }
  }

  lemma {:induction false} PiecesCutRight(rest: string, size: nat) returns (gaps: seq<string>, tail: string)
    requires size >= 1
    ensures Rejoins(rest, Pieces(rest, size), gaps, tail) && CutRight(size, Pieces(rest, size), gaps, tail)
    ensures |tail| <= size
    decreases |rest|
  {
    hide Begins, Weave, Rejoins, CutRight, Cut;
    if |rest| > size {
      var cut := Cut(rest, size);
      var piece, next := rest[..cut], StripNewlines(rest[cut..]);
      gaps, tail := PiecesCutRight(next, size);
      var run := CutRejoins(rest, cut);
      var strip := StripsARun(rest[cut..]);
      WeaveCons(piece, run, Pieces(next, size), gaps, next, tail);
      CutBegins(rest, size);
      SameSize(next, Pieces(next, size), gaps, tail);
      CutRightCons(size, piece, run, Pieces(next, size), gaps, rest, next, tail);
      gaps := [run] + gaps;
    } else if Trim(rest) != "" {
      WeaveOne(rest);
      gaps, tail := [""], "";
      OnePieceIsRight(rest, size);
    } else {
      TrimEnds(rest);
      gaps, tail := [], rest;
      NoPieceIsRight(rest, size);
    }
  }

  lemma SameSize(text: string, pieces: seq<string>, gaps: seq<string>, tail: string)
    requires Rejoins(text, pieces, gaps, tail)
    ensures |pieces| == |gaps|
  {
  }

  lemma OnePieceIsRight(rest: string, size: nat)
    requires |rest| <= size && Trim(rest) != ""
    ensures CutRight(size, [rest], [""], "")
  {
    TrimEnds(rest);
    WeaveOne(rest);
    var ps, gs := [rest], [""];
    assert ps[0..] == ps && gs[0..] == gs && ps[1..] == [] && gs[1..] == [];
  }

  lemma NoPieceIsRight(rest: string, size: nat)
    requires AllSpace(rest)
    ensures Rejoins(rest, [], [], rest) && CutRight(size, [], [], rest)
  {
  }

  /** For every text and size: the text is its pieces in order, of what is left out every part is
      a run of newlines behind a piece or a blank tail that fits one message, and every piece ends
      where it must. */
  lemma SplitIsCutRight(text: string, size: nat) returns (gaps: seq<string>, tail: string)
    requires size >= 1 && |text| > size
    ensures Rejoins(text, Split(text, size), gaps, tail) && CutRight(size, Split(text, size), gaps, tail)
    ensures |tail| <= size
  {
    gaps, tail := PiecesCutRight(text, size);
  }

  lemma ShortTextIsOnePiece(text: string, size: nat)
    requires size >= 1
    ensures Split(text, size) == [text] <==> |text| <= size
  {
    if |text| > size {
      if Split(text, size) == [text] {
        SplitFits(text, size, 0);
      }
    }
  }

  /** In particular the first piece. */
  lemma FirstPieceEnds(text: string, size: nat)
    requires 1 <= size < |text|
    ensures var pieces := Split(text, size);
      && pieces != []
      && (forall j :: 0 <= j <= size && 2 * j >= size && text[j] == '\n' && (forall k :: j < k <= size ==> text[k] != '\n')
            ==> pieces[0] == text[..j])
      && ((forall j :: 0 <= j <= size && 2 * j >= size ==> text[j] != '\n') ==> pieces[0] == text[..size])
  {
    var cut := Cut(text, size);
  }
}
