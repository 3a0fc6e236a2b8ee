/** A channel keeps the newest signals; what a cursor reader gets from it. */
module SignalWindow {
  import opened Lists
  import opened Signaling

  function Numbered(posts: seq<Post>): seq<Signal> {
    if posts == [] then [] else Numbered(posts[..|posts| - 1]) + [Signal(|posts|, posts[|posts| - 1])]
  }

  /** The channel after these posts, whatever the clock says at each. */
  ghost predicate Holds(ch: Chan, posts: seq<Post>) {
    ch.signals == Last(Numbered(posts), MAX_SIGNALS) && ch.nextSeq == |posts| + 1
  }

  lemma {:induction false} NumberedSeq(posts: seq<Post>, i: nat)
    requires i < |posts|
    ensures |Numbered(posts)| == |posts| && Numbered(posts)[i] == Signal(i + 1, posts[i])
  {
    if i < |posts| - 1 {
      NumberedSeq(posts[..|posts| - 1], i);
    } else if |posts| > 1 {
      NumberedSeq(posts[..|posts| - 1], 0);
    }
  }

  lemma {:induction false} NumberedLength(posts: seq<Post>)
    ensures |Numbered(posts)| == |posts|
  {
    if posts != [] {
      NumberedLength(posts[..|posts| - 1]);
    }
  }

  lemma NewChanHolds(profile: string, code: Option<Code>, now: int)
    ensures Holds(NewChan(profile, code, now), [])
  {
  }

  /** Every append keeps exactly the newest signals. */
  lemma AppendHolds(ch: Chan, posts: seq<Post>, post: Post, now: int)
    requires Holds(ch, posts)
    ensures Holds(Appended(ch, post, now), posts + [post])
  {
    var all := Numbered(posts);
    NumberedLength(posts);
    assert (posts + [post])[..|posts|] == posts;
    assert Numbered(posts + [post]) == all + [Signal(|posts| + 1, post)];
    LastOfSnoc(all, Signal(|posts| + 1, post), MAX_SIGNALS);
  }

  lemma LastOfSnoc<T>(s: seq<T>, x: T, n: nat)
    requires n > 0
    ensures Last(Last(s, n) + [x], n) == Last(s + [x], n)
  {
  }

  /** The retained numbers are always the consecutive block that ends at `nextSeq - 1`,
      as long as the history and at most 500 long. */
  lemma RetainedBlock(ch: Chan, posts: seq<Post>)
    requires Holds(ch, posts)
    ensures |ch.signals| == if |posts| > MAX_SIGNALS then MAX_SIGNALS else |posts|
    ensures forall i :: 0 <= i < |ch.signals| ==> ch.signals[i].seqNo == ch.nextSeq - |ch.signals| + i
  {
    NumberedLength(posts);
    forall i | 0 <= i < |ch.signals| ensures ch.signals[i].seqNo == ch.nextSeq - |ch.signals| + i {
      NumberedSeq(posts, |posts| - |ch.signals| + i);
    }
  }

  /** What a reader at `after` gets: everything newer, less what has left the window. */
  lemma FeedIs(ch: Chan, posts: seq<Post>, after: nat)
    requires Holds(ch, posts) && after <= |posts|
    ensures |Numbered(posts)| == |posts|
    ensures var lost := if |posts| > MAX_SIGNALS then |posts| - MAX_SIGNALS else 0;
      Feed(ch, after) == Numbered(posts)[if after > lost then after else lost..]
  {
    hide Numbered, Holds, Filter;
    NumberedLength(posts);
    RetainedBlock(ch, posts);
    RetainedAre(ch, posts);
    var lost := |posts| - |ch.signals|;
    var n := if after > lost then after - lost else 0;
    FilterSplit(IsAfter(after), ch.signals, n);
    DropTwice(Numbered(posts), lost, n);
  }

  lemma RetainedAre(ch: Chan, posts: seq<Post>)
    requires Holds(ch, posts) && |Numbered(posts)| == |posts|
    ensures |ch.signals| <= |posts| && ch.signals == Numbered(posts)[|posts| - |ch.signals|..]
    ensures ch.nextSeq == |posts| + 1
  {
    hide Numbered;
    var all := Numbered(posts);
    assert all[0..] == all;
  }

  lemma DropTwice<T>(s: seq<T>, a: nat, b: nat)
    requires a + b <= |s|
    ensures s[a..][b..] == s[a + b..]
  {
  }

  /** A feed has no gap exactly when the reader is at most 500 signals behind. */
  lemma FeedIsGaplessIff(ch: Chan, posts: seq<Post>, after: nat)
    requires Holds(ch, posts) && after <= |posts|
    ensures |Numbered(posts)| == |posts|
    ensures Feed(ch, after) == Numbered(posts)[after..] <==> |posts| - after <= MAX_SIGNALS
  {
    FeedIs(ch, posts, after);
  }

  // ── readers over whole runs ───────────────────────────────────────────

  datatype Event = Posts(post: Post, now: int) | Polls

  datatype Reader = Reader(read: seq<Signal>, cursor: nat)

  /** One reader that polls the channel and remembers the last number it saw. */
  datatype World = World(ch: Chan, posts: seq<Post>, reader: Reader)

  function Poll(ch: Chan, r: Reader): Reader {
    var entries := Feed(ch, r.cursor);
    if entries == [] then r else Reader(r.read + entries, entries[|entries| - 1].seqNo)
  }

  function StepWorld(w: World, e: Event): World {
    match e
    case Posts(post, now) => w.(ch := Appended(w.ch, post, now), posts := w.posts + [post])
    case Polls => w.(reader := Poll(w.ch, w.reader))
  }

  function RunWorld(w: World, events: seq<Event>, k: nat): World
    requires k <= |events|
  {
    if k == 0 then w else StepWorld(RunWorld(w, events, k - 1), events[k - 1])
  }

  ghost predicate KeepsUp(w: World, events: seq<Event>, k: nat)
    requires k <= |events|
  {
    k == 0 || (KeepsUp(w, events, k - 1)
      && (events[k - 1].Polls? ==>
            var s := RunWorld(w, events, k - 1); |s.posts| - s.reader.cursor <= MAX_SIGNALS))
  }

  function FreshWorld(ch: Chan): World {
    World(ch, [], Reader([], 0))
  }

  lemma PollReads(w: World)
    requires Holds(w.ch, w.posts) && |Numbered(w.posts)| == |w.posts| && w.reader.cursor <= |w.posts|
    ensures Poll(w.ch, w.reader).cursor == |w.posts|
    ensures |w.posts| - w.reader.cursor <= MAX_SIGNALS && w.reader.read == Numbered(w.posts)[..w.reader.cursor]
      ==> Poll(w.ch, w.reader).read == Numbered(w.posts)
    ensures |Poll(w.ch, w.reader).read| <= |w.reader.read| + |w.posts| - w.reader.cursor
    ensures |w.posts| - w.reader.cursor > MAX_SIGNALS
      ==> |Poll(w.ch, w.reader).read| < |w.reader.read| + |w.posts| - w.reader.cursor
  {
    hide Numbered, Holds, Feed;
    var all := Numbered(w.posts);
    FeedIs(w.ch, w.posts, w.reader.cursor);
    if Feed(w.ch, w.reader.cursor) != [] {
      NumberedSeq(w.posts, |w.posts| - 1);
    } else {
      assert all[..|all|] == all;
    }
    assert all[..w.reader.cursor] + all[w.reader.cursor..] == all;
  }

  lemma NumberedPrefix(posts: seq<Post>, post: Post)
    ensures Numbered(posts + [post]) == Numbered(posts) + [Signal(|posts| + 1, post)]
  {
    assert (posts + [post])[..|posts|] == posts;
  }

  /** The reader has the first signals without a gap, or has lost some, depending on `gapless`. */
  ghost predicate HasRead(w: World, gapless: bool) {
    && Holds(w.ch, w.posts) && |Numbered(w.posts)| == |w.posts|
    && |w.reader.read| <= w.reader.cursor <= |w.posts|
    && (gapless ==> w.reader.read == Numbered(w.posts)[..w.reader.cursor])
    && (!gapless ==> |w.reader.read| < w.reader.cursor)
  }

  lemma PostsKeepReading(w: World, gapless: bool, post: Post, now: int)
    requires HasRead(w, gapless)
    ensures HasRead(StepWorld(w, Posts(post, now)), gapless)
  {
    AppendHolds(w.ch, w.posts, post, now);
    NumberedPrefix(w.posts, post);
  }

  lemma PollKeepsReading(w: World, gapless: bool)
    requires HasRead(w, gapless)
    ensures HasRead(StepWorld(w, Polls), gapless && |w.posts| - w.reader.cursor <= MAX_SIGNALS)
  {
    PollReads(w);
    var all := Numbered(w.posts);
    assert all[..|all|] == all;
  }

  lemma {:induction false} ReaderReads(w: World, events: seq<Event>, k: nat)
    requires k <= |events| && HasRead(w, true)
    ensures HasRead(RunWorld(w, events, k), KeepsUp(w, events, k))
  {
    hide HasRead, StepWorld;
    if k > 0 {
      ReaderReads(w, events, k - 1);
      var s, gapless := RunWorld(w, events, k - 1), KeepsUp(w, events, k - 1);
      match events[k - 1]
      case Posts(post, now) => PostsKeepReading(s, gapless, post, now);
      case Polls => PollKeepsReading(s, gapless);
    }
  }

  /** From the creation of a channel on, a reader has got every signal up to its cursor once and
      in order if and only if it was never more than 500 signals behind at a poll. */
  lemma ReaderGetsEverythingIff(profile: string, code: Option<Code>, now: int, events: seq<Event>)
    ensures var first := FreshWorld(NewChan(profile, code, now));
      var w := RunWorld(first, events, |events|);
      && w.reader.cursor <= |Numbered(w.posts)|
      && (w.reader.read == Numbered(w.posts)[..w.reader.cursor] <==> KeepsUp(first, events, |events|))
  {
    NewChanHolds(profile, code, now);
    ReaderReads(FreshWorld(NewChan(profile, code, now)), events, |events|);
  }
}
