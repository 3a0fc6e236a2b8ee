/** Rewriting mDNS host names in ICE candidates: one candidate's text (the candidate
    attribute of section 5.1 of RFC 8839, split at spaces). */
module Mdns {
  import opened Lists
  import opened Text

  // ── splitting at spaces ───────────────────────────────────────────────

  function Split(s: string): (tokens: seq<string>)
    ensures |tokens| >= 1
  {
    if s == "" then [""]
    else
      var rest := Split(s[1..]);
      if s[0] == ' ' then [""] + rest else [[s[0]] + rest[0]] + rest[1..]
  }

  function Join(tokens: seq<string>): string {
    if tokens == [] then ""
    else if |tokens| == 1 then tokens[0]
    else tokens[0] + [' '] + Join(tokens[1..])
  }

  predicate NoSpace(s: string) {
    ' ' !in s
  }

  ghost predicate Plain(tokens: seq<string>) {
    forall i :: 0 <= i < |tokens| ==> NoSpace(tokens[i])
  }

  lemma JoinCons(token: string, tokens: seq<string>)
    requires tokens != []
    ensures Join([token] + tokens) == token + [' '] + Join(tokens)
  {
    assert ([token] + tokens)[1..] == tokens;
  }

  /** A character put before a text goes into its first token. */
  lemma JoinGrows(c: char, tokens: seq<string>)
    requires tokens != []
    ensures Join([[c] + tokens[0]] + tokens[1..]) == [c] + Join(tokens)
  {
    var grown := [[c] + tokens[0]] + tokens[1..];
    assert grown[1..] == tokens[1..];
    if |tokens| > 1 {
      assert [c] + tokens[0] + [' '] + Join(tokens[1..]) == [c] + (tokens[0] + [' '] + Join(tokens[1..]));
    }
  }

  lemma {:induction false} JoinSplit(s: string)
    ensures Join(Split(s)) == s && Plain(Split(s))
  {
    hide Join;
    if s == "" {
      JoinOne("");
    } else {
      JoinSplit(s[1..]);
      var rest := Split(s[1..]);
      if s[0] == ' ' {
        JoinCons("", rest);
      } else {
        JoinGrows(s[0], rest);
      }
      assert s == [s[0]] + s[1..];
    }
  }

  lemma JoinOne(token: string)
    ensures Join([token]) == token
  {
  }

  /** Splitting a token and more text at the space between them. */
  lemma {:induction false} SplitToken(token: string, more: string)
    requires NoSpace(token)
    ensures Split(token + [' '] + more) == [token] + Split(more)
  {
    var s := token + [' '] + more;
    if token == "" {
      assert s == [' '] + more;
      assert s[1..] == more;
    } else {
      SplitToken(token[1..], more);
      assert s[1..] == token[1..] + [' '] + more;
      assert token == [token[0]] + token[1..];
    }
  }

  lemma {:induction false} SplitOne(token: string)
    requires NoSpace(token)
    ensures Split(token) == [token]
  {
    if token != "" {
      SplitOne(token[1..]);
      assert token == [token[0]] + token[1..];
    }
  }

  lemma {:induction false} SplitJoin(tokens: seq<string>)
    requires tokens != [] && Plain(tokens)
    ensures Split(Join(tokens)) == tokens
  {
    if |tokens| == 1 {
      SplitOne(tokens[0]);
    } else {
      SplitJoin(tokens[1..]);
      SplitToken(tokens[0], Join(tokens[1..]));
      assert tokens == [tokens[0]] + tokens[1..];
    }
  }

  // ── `.local` ──────────────────────────────────────────────────────────

  /** `.local` at a position, in either case. */
  predicate LocalAt(s: string, i: int) {
    && 0 <= i && i + 6 <= |s| && s[i] == '.'
    && s[i + 1] in {'l', 'L'} && s[i + 2] in {'o', 'O'} && s[i + 3] in {'c', 'C'}
    && s[i + 4] in {'a', 'A'} && s[i + 5] in {'l', 'L'}
  }

  /** The expression `/\.local$/i`. */
  predicate EndsInLocal(s: string) {
    LocalAt(s, |s| - 6)
  }

  /** The expression `/\.local(?:\s|$)/i`. */
  predicate MentionsLocal(s: string) {
    exists i :: 0 <= i < |s| && LocalAt(s, i) && (i + 6 == |s| || IsSpace(s[i + 6]))
  }

  const FIELDS := 6
  const ADDRESS := 4

  predicate Expandable(text: string) {
    MentionsLocal(text) && |Split(text)| >= FIELDS && EndsInLocal(Split(text)[ADDRESS])
  }

  function WithAddress(text: string, host: string): string
    requires |Split(text)| >= FIELDS
  {
    Join(Split(text)[ADDRESS := host])
  }

  /** A host the machine may put in a candidate: an address, on one line and in one token. */
  ghost predicate IsAddress(host: string) {
    NoSpace(host) && '\r' !in host && '\n' !in host
  }

  /** The new text differs from the old one in the address token, and in nothing else. */
  lemma OnlyTheAddressChanges(text: string, host: string)
    requires |Split(text)| >= FIELDS && IsAddress(host)
    ensures Split(WithAddress(text, host)) == Split(text)[ADDRESS := host]
  {
    JoinSplit(text);
    SplitJoin(Split(text)[ADDRESS := host]);
  }

  /** A token that ends in `.local` and has another token after it makes the text mention one. */
  lemma {:induction false} TokenIsMentioned(s: string, n: nat)
    requires n + 1 < |Split(s)| && EndsInLocal(Split(s)[n])
    ensures MentionsLocal(s)
    decreases n
  {
    var token, others := Split(s)[0], Split(s)[1..];
    var rest := Join(others);
    JoinSplit(s);
    assert s == token + [' '] + rest;
    if n == 0 {
      assert LocalAt(s, |token| - 6) && IsSpace(s[|token|]);
    } else {
      SplitJoin(others);
      TokenIsMentioned(rest, n - 1);
      var i :| 0 <= i < |rest| && LocalAt(rest, i) && (i + 6 == |rest| || IsSpace(rest[i + 6]));
      MentionMoves(token + [' '], rest, i);
    }
  }

  lemma MentionMoves(left: string, right: string, i: nat)
    requires i < |right| && LocalAt(right, i) && (i + 6 == |right| || IsSpace(right[i + 6]))
    ensures MentionsLocal(left + right)
  {
    assert LocalAt(left + right, |left| + i);
  }

  /** The whole-text test never decides: the test of the address token implies it. */
  lemma WholeTextTestIsImplied(text: string)
    requires |Split(text)| >= FIELDS && EndsInLocal(Split(text)[ADDRESS])
    ensures MentionsLocal(text)
  {
    TokenIsMentioned(text, ADDRESS);
  }

  lemma ExpandedIsNotExpandable(text: string, host: string)
    requires |Split(text)| >= FIELDS && IsAddress(host) && !EndsInLocal(host)
    ensures !Expandable(WithAddress(text, host))
  {
    OnlyTheAddressChanges(text, host);
  }

  // ── a candidate object ────────────────────────────────────────────────

  /** `text` is the candidate property when that is a string; the other properties ride along. */
  datatype Candidate = Candidate(text: Option<string>, others: string)

  function TextOf(c: Candidate): string {
    if c.text.Some? then c.text.value else ""
  }

  function Rewritten(c: Candidate, hosts: seq<string>): (r: seq<Candidate>)
    requires |Split(TextOf(c))| >= FIELDS
    ensures |r| == |hosts|
  {
    if hosts == [] then []
    else Rewritten(c, hosts[..|hosts| - 1])
         + [Candidate(Some(WithAddress(TextOf(c), hosts[|hosts| - 1])), c.others)]
  }

  /** `expandLocalCandidate`. */
  function Expand(c: Candidate, hosts: seq<string>): seq<Candidate> {
    if Expandable(TextOf(c)) then Rewritten(c, hosts) else [c]
  }

  function ExpandAll(list: seq<Candidate>, hosts: seq<string>): seq<Candidate> {
    if list == [] then [] else ExpandAll(list[..|list| - 1], hosts) + Expand(list[|list| - 1], hosts)
  }

  lemma {:induction false} RewrittenAt(c: Candidate, hosts: seq<string>, i: nat)
    requires |Split(TextOf(c))| >= FIELDS && i < |hosts|
    ensures Rewritten(c, hosts)[i] == Candidate(Some(WithAddress(TextOf(c), hosts[i])), c.others)
  {
    if i < |hosts| - 1 {
      RewrittenAt(c, hosts[..|hosts| - 1], i);
    }
  }

  /** A `.local` candidate becomes one candidate per host, in order, each the same in every
      token and property but the address; any other candidate is kept as it is. */
  lemma ExpandIs(c: Candidate, hosts: seq<string>)
    requires forall i :: 0 <= i < |hosts| ==> IsAddress(hosts[i])
    ensures var tokens := Split(TextOf(c)); var r := Expand(c, hosts);
      if |tokens| >= FIELDS && EndsInLocal(tokens[ADDRESS]) then
        && |r| == |hosts|
        && (forall i :: 0 <= i < |hosts| ==> r[i].others == c.others && r[i].text.Some?)
        && (forall i :: 0 <= i < |hosts| ==> Split(TextOf(r[i])) == tokens[ADDRESS := hosts[i]])
      else r == [c]
  {
    var tokens := Split(TextOf(c));
    if |tokens| >= FIELDS && EndsInLocal(tokens[ADDRESS]) {
      WholeTextTestIsImplied(TextOf(c));
      forall i | 0 <= i < |hosts|
        ensures Expand(c, hosts)[i].others == c.others && Expand(c, hosts)[i].text.Some?
        ensures Split(TextOf(Expand(c, hosts)[i])) == tokens[ADDRESS := hosts[i]]
      {
        RewrittenAt(c, hosts, i);
        OnlyTheAddressChanges(TextOf(c), hosts[i]);
      }
    }
  }

  lemma {:induction false} ExpandAllAppend(a: seq<Candidate>, b: seq<Candidate>, hosts: seq<string>)
    ensures ExpandAll(a + b, hosts) == ExpandAll(a, hosts) + ExpandAll(b, hosts)
  {
    hide Expand;
    if b == [] {
      assert a + b == a;
    } else {
      var init, last, all := b[..|b| - 1], b[|b| - 1], a + b;
      ExpandAllAppend(a, init, hosts);
      assert all[..|all| - 1] == a + init && all[|all| - 1] == last;
      ConcatAssoc(ExpandAll(a, hosts), ExpandAll(init, hosts), Expand(last, hosts));
    }
  }

  lemma {:induction false} ExpandAllFixed(list: seq<Candidate>, hosts: seq<string>)
    requires forall i :: 0 <= i < |list| ==> !Expandable(TextOf(list[i]))
    ensures ExpandAll(list, hosts) == list
  {
    hide Expandable, Expand;
    if list != [] {
      var init, last := list[..|list| - 1], list[|list| - 1];
      ExpandAllFixed(init, hosts);
      ExpandFixed(last, hosts);
      assert list == init + [last];
    }
  }

  lemma ExpandFixed(c: Candidate, hosts: seq<string>)
    requires !Expandable(TextOf(c))
    ensures Expand(c, hosts) == [c]
  {
  }

  /** Expanding a list twice is expanding it once, when no host is itself a `.local` name. */
  lemma {:induction false} ExpandAllTwice(list: seq<Candidate>, hosts: seq<string>)
    requires forall i :: 0 <= i < |hosts| ==> IsAddress(hosts[i]) && !EndsInLocal(hosts[i])
    ensures ExpandAll(ExpandAll(list, hosts), hosts) == ExpandAll(list, hosts)
  {
    if list != [] {
      var init, c := list[..|list| - 1], list[|list| - 1];
      ExpandAllTwice(init, hosts);
      ExpandAllAppend(ExpandAll(init, hosts), Expand(c, hosts), hosts);
      forall i | 0 <= i < |Expand(c, hosts)| ensures !Expandable(TextOf(Expand(c, hosts)[i])) {
        if Expandable(TextOf(c)) {
          RewrittenAt(c, hosts, i);
          ExpandedIsNotExpandable(TextOf(c), hosts[i]);
        }
      }
      ExpandAllFixed(Expand(c, hosts), hosts);
    }
  }

  // ── what becomes of a list of candidates ──────────────────────────────

  /** The candidate has an address, and that is a `.local` name. */
  predicate IsLocal(c: Candidate) {
    |Split(TextOf(c))| >= 6 && EndsInLocal(Split(TextOf(c))[4])
  }

  /** `x` is `c` with the host for its address: the same in every other token and property. */
  predicate IsCopyOf(x: Candidate, c: Candidate, host: string) {
    && x.others == c.others && x.text.Some?
    && |Split(TextOf(c))| >= 6 && Split(TextOf(x)) == Split(TextOf(c))[4 := host]
  }

  /** `x` is `c` itself, or, for a `.local` name, a copy of it for one of the hosts. */
  ghost predicate ComesFrom(x: Candidate, c: Candidate, hosts: seq<string>) {
    if IsLocal(c) then exists i :: 0 <= i < |hosts| && IsCopyOf(x, c, hosts[i]) else x == c
  }

  ghost predicate HasCopy(list: seq<Candidate>, c: Candidate, host: string) {
    exists x :: x in list && IsCopyOf(x, c, host)
  }

  /** A list has the candidate itself, or, for a `.local` name, a copy of it for every host. */
  ghost predicate IsServed(c: Candidate, hosts: seq<string>, list: seq<Candidate>) {
    if IsLocal(c) then forall i :: 0 <= i < |hosts| ==> HasCopy(list, c, hosts[i]) else c in list
  }

  ghost predicate ArePlainHosts(hosts: seq<string>) {
    forall i :: 0 <= i < |hosts| ==> IsAddress(hosts[i]) && !EndsInLocal(hosts[i])
  }

  lemma ExpandServes(c: Candidate, hosts: seq<string>)
    requires ArePlainHosts(hosts)
    ensures IsServed(c, hosts, Expand(c, hosts))
    ensures forall x :: x in Expand(c, hosts) ==> ComesFrom(x, c, hosts) && !IsLocal(x)
  {
    hide Split, EndsInLocal, Expand;
    ExpandIs(c, hosts);
    var r := Expand(c, hosts);
    if IsLocal(c) {
      forall i | 0 <= i < |hosts| ensures HasCopy(r, c, hosts[i]) {
        assert r[i] in r && IsCopyOf(r[i], c, hosts[i]);
      }
      forall x | x in r ensures ComesFrom(x, c, hosts) && !IsLocal(x) {
        var i :| 0 <= i < |r| && r[i] == x;
        assert IsCopyOf(x, c, hosts[i]);
      }
    }
  }

  lemma ServedByMore(c: Candidate, hosts: seq<string>, list: seq<Candidate>, more: seq<Candidate>)
    requires IsServed(c, hosts, list) && forall x :: x in list ==> x in more
    ensures IsServed(c, hosts, more)
  {
    hide IsCopyOf, IsLocal;
    if IsLocal(c) {
      forall i | 0 <= i < |hosts| ensures HasCopy(more, c, hosts[i]) {
        assert HasCopy(list, c, hosts[i]);
        var x :| x in list && IsCopyOf(x, c, hosts[i]);
      }
    }
  }

  /** Of an expanded list no candidate is a `.local` name, every candidate of the list is served,
      and nothing else is in it. */
  lemma {:induction false} ExpandAllServes(list: seq<Candidate>, hosts: seq<string>)
    requires ArePlainHosts(hosts)
    ensures forall c :: c in list ==> IsServed(c, hosts, ExpandAll(list, hosts))
    ensures forall x :: x in ExpandAll(list, hosts) ==> !IsLocal(x) && exists c :: c in list && ComesFrom(x, c, hosts)
  {
    hide IsServed, ComesFrom, IsLocal, Expand;
    if list != [] {
      var init, last := list[..|list| - 1], list[|list| - 1];
      assert list == init + [last];
      var all := ExpandAll(list, hosts);
      ExpandAllServes(init, hosts);
      ExpandServes(last, hosts);
      forall c | c in list ensures IsServed(c, hosts, all) {
        if c in init {
          ServedByMore(c, hosts, ExpandAll(init, hosts), all);
        } else {
          ServedByMore(c, hosts, Expand(last, hosts), all);
        }
      }
    }
  }
}
