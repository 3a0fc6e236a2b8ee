/** Frames that reach a fresh datachannel before the session listens to it. */
module EarlyFrames {

  const MAX_EARLY := 200

  datatype Event = Frame(text: string) | Attach

  /** Whether a handler is attached, what waits for it, and what handlers have been given. */
  datatype Gate = Gate(attached: bool, early: seq<string>, given: seq<string>)

  function Step(g: Gate, e: Event): Gate {
    match e
    case Frame(text) =>
      if g.attached then g.(given := g.given + [text])
      else if |g.early| < MAX_EARLY then g.(early := g.early + [text])
      else g
    case Attach => Gate(true, [], g.given + g.early)
  }

  class FrameGate {
    var attached: bool
    var early: seq<string>
    var given: seq<string>

    constructor ()
      ensures View() == Gate(false, [], [])
    {
      attached, early, given := false, [], [];
    }

    function View(): Gate
      reads this
    {
      Gate(attached, early, given)
    }

    /** `dc.onmessage`. */
    method OnFrame(text: string)
      modifies this
      ensures View() == Step(old(View()), Frame(text))
    {
      if attached {
        given := given + [text];
      } else if |early| < MAX_EARLY {
        early := early + [text];
      }
    }

    /** `onMessage`, which also replaces an earlier handler. */
    method OnMessage()
      modifies this
      ensures View() == Step(old(View()), Attach)
    {
      attached := true;
      var waiting := early;
      early := [];
      for i := 0 to |waiting|
        invariant attached && early == [] && given == old(given) + waiting[..i]
      {
        assert waiting[..i + 1] == waiting[..i] + [waiting[i]];
        given := given + [waiting[i]];
      }
      assert waiting[..|waiting|] == waiting;
    }
  }

  function After(events: seq<Event>, k: nat): Gate
    requires k <= |events|
  {
    if k == 0 then Gate(false, [], []) else Step(After(events, k - 1), events[k - 1])
  }

  /** The frames among the first `k` events. */
  function Frames(events: seq<Event>, k: nat): seq<string>
    requires k <= |events|
  {
    if k == 0 then []
    else Frames(events, k - 1) + if events[k - 1].Frame? then [events[k - 1].text] else []
  }

  /** The frames that arrived while nothing was attached. */
  function Before(events: seq<Event>, k: nat): seq<string>
    requires k <= |events|
  {
    if k == 0 then []
    else
      Before(events, k - 1)
      + if events[k - 1].Frame? && !After(events, k - 1).attached then [events[k - 1].text] else []
  }

  function Kept(frames: seq<string>): seq<string> {
    if |frames| > MAX_EARLY then frames[..MAX_EARLY] else frames
  }

  /** The frames before a handler came first, then the others. */
  ghost predicate Split(g: Gate, before: seq<string>, frames: seq<string>) {
    && before <= frames
    && (!g.attached ==> before == frames && g.early == Kept(before) && g.given == [])
    && (g.attached ==> g.early == [] && g.given == Kept(before) + frames[|before|..])
  }

  lemma StepKeepsSplit(g: Gate, e: Event, before: seq<string>, frames: seq<string>)
    requires Split(g, before, frames)
    ensures var more := if e.Frame? then [e.text] else [];
      Split(Step(g, e), before + (if g.attached then [] else more), frames + more)
  {
    if e.Frame? {
      if g.attached {
        assert before + [] == before;
        assert (frames + [e.text])[|before|..] == frames[|before|..] + [e.text];
      }
    } else {
      assert before + [] == before && frames + [] == frames;
      if !g.attached {
        assert frames[|before|..] == [];
      }
    }
  }

  /** Over every run the handlers get, in order, the first 200 of the frames that came before
      a handler did, and all the frames that came after. */
  lemma {:induction false} FramesInOrder(events: seq<Event>, k: nat)
    requires k <= |events|
    ensures Split(After(events, k), Before(events, k), Frames(events, k))
  {
    if k > 0 {
      FramesInOrder(events, k - 1);
      StepKeepsSplit(After(events, k - 1), events[k - 1], Before(events, k - 1), Frames(events, k - 1));
    }
  }

  /** Once a handler is attached, no frame is missing if and only if at most 200 came before. */
  lemma NoFrameIsMissingIff(events: seq<Event>)
    requires After(events, |events|).attached
    ensures After(events, |events|).given == Frames(events, |events|)
       <==> |Before(events, |events|)| <= MAX_EARLY
  {
    FramesInOrder(events, |events|);
    var before, frames := Before(events, |events|), Frames(events, |events|);
    assert before + frames[|before|..] == frames;
  }
}
