/** Strings as the programs see them: a `char` stands for one UTF-16 code unit.
    Only equality with a few ASCII characters and the white-space class below are
    ever used, so how the remaining code units are numbered does not matter. */
module Text {
  import opened Lists

  /** The class `\s` of the source's regular expressions, which is also what
      `String.prototype.trim` removes. */
  predicate IsSpace(c: char) {
    || c == ' ' || c == '\t' || c == '\n' || c == '\r'
    || c == '\U{0B}' || c == '\U{0C}' || c == '\U{A0}' || c == '\U{FEFF}'
    || c == '\U{1680}' || '\U{2000}' <= c <= '\U{200A}'
    || c == '\U{2028}' || c == '\U{2029}' || c == '\U{202F}' || c == '\U{205F}' || c == '\U{3000}'
  }

  predicate AllSpace(s: string) {
    forall i :: 0 <= i < |s| ==> IsSpace(s[i])
  }

  function TrimLeft(s: string): (r: string)
    ensures |r| <= |s|
  {
    if s != [] && IsSpace(s[0]) then TrimLeft(s[1..]) else s
  }

  function TrimRight(s: string): (r: string)
    ensures |r| <= |s|
  {
    if s != [] && IsSpace(s[|s| - 1]) then TrimRight(s[..|s| - 1]) else s
  }

  /** `s.trim()`. */
  function Trim(s: string): (r: string)
    ensures |r| <= |s|
  {
    TrimRight(TrimLeft(s))
  }

  lemma {:induction false} TrimLeftDrops(s: string)
    ensures var r := TrimLeft(s);
      && r == s[|s| - |r|..] && AllSpace(s[..|s| - |r|])
      && (r != "" ==> !IsSpace(r[0]))
  {
    if s != [] && IsSpace(s[0]) {
      TrimLeftDrops(s[1..]);
      var r := TrimLeft(s);
      assert s[..|s| - |r|] == [s[0]] + s[1..][..|s| - 1 - |r|];
    }
  }

  lemma {:induction false} TrimRightDrops(s: string)
    ensures var r := TrimRight(s);
      && r == s[..|r|] && AllSpace(s[|r|..])
      && (r != "" ==> !IsSpace(r[|r| - 1]))
  {
    if s != [] && IsSpace(s[|s| - 1]) {
      TrimRightDrops(s[..|s| - 1]);
      var r := TrimRight(s);
      assert s[|r|..] == s[..|s| - 1][|r|..] + [s[|s| - 1]];
    }
  }

  /** What is left neither starts nor ends with white space, and nothing is left
      exactly when there was nothing but white space. */
  lemma TrimEnds(s: string)
    ensures var r := Trim(s);
      && (r != "" ==> !IsSpace(r[0]) && !IsSpace(r[|r| - 1]))
      && (r == "" <==> AllSpace(s))
  {
    var l := TrimLeft(s);
    TrimLeftDrops(s);
    TrimRightDrops(l);
    var r := TrimRight(l);
    assert l == "" ==> s[..|s| - |l|] == s;
    assert l != "" ==> s[|s| - |l|] == l[0];
    assert r == "" ==> l[|r|..] == l;
  }

  lemma TrimFixed(s: string)
    requires s != "" && !IsSpace(s[0]) && !IsSpace(s[|s| - 1])
    ensures Trim(s) == s
  {
  }

  /** The position of the last `c` at or before `from`, or -1. */
  function LastIndexOf(s: string, c: char, from: int): (i: int)
    requires -1 <= from < |s|
    ensures -1 <= i <= from
    ensures i >= 0 ==> s[i] == c
    ensures forall j :: i < j <= from ==> s[j] != c
    decreases from
  {
    if from < 0 then -1
    else if s[from] == c then from
    else LastIndexOf(s, c, from - 1)
  }

  /** All pieces in order, with nothing between them. */
  function Concat(pieces: seq<string>): string {
    if pieces == [] then "" else Concat(pieces[..|pieces| - 1]) + pieces[|pieces| - 1]
  }

  function Ink(): char -> bool {
    (c: char) => !IsSpace(c)
  }

  /** The text without its white space. */
  function NonSpace(s: string): string {
    Filter(Ink(), s)
  }

  lemma {:induction false} ConcatAppend(a: seq<string>, b: seq<string>)
    ensures Concat(a + b) == Concat(a) + Concat(b)
  {
    if b == [] {
      assert a + b == a;
    } else {
      ConcatAppend(a, b[..|b| - 1]);
      assert (a + b)[..|a + b| - 1] == a + b[..|b| - 1];
    }
  }

  lemma NonSpaceAppend(a: string, b: string)
    ensures NonSpace(a + b) == NonSpace(a) + NonSpace(b)
  {
    FilterAppend(Ink(), a, b);
  }

  lemma NonSpaceTrimLeft(s: string)
    ensures NonSpace(TrimLeft(s)) == NonSpace(s)
  {
    TrimLeftDrops(s);
    var n := |s| - |TrimLeft(s)|;
    assert s == s[..n] + s[n..];
    NonSpaceAppend(s[..n], s[n..]);
    FilterNone(Ink(), s[..n]);
  }

  lemma NonSpaceTrimRight(s: string)
    ensures NonSpace(TrimRight(s)) == NonSpace(s)
  {
    TrimRightDrops(s);
    var n := |TrimRight(s)|;
    assert s == s[..n] + s[n..];
    NonSpaceAppend(s[..n], s[n..]);
    FilterNone(Ink(), s[n..]);
  }

  /** Trimming removes white space only. */
  lemma NonSpaceTrim(s: string)
    ensures NonSpace(Trim(s)) == NonSpace(s)
  {
    NonSpaceTrimLeft(s);
    NonSpaceTrimRight(TrimLeft(s));
  }
}
