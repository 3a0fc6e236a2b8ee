/** The channel as a running process: the bindings map and the mailbox and answered files,
    each changed in place. Every method is proved against the operations of `Telegram`. */
module TelegramChannel {
  import opened Lists
  import opened Telegram

  class Channel {
    var bindings: map<string, Binding>
    var files: map<string, seq<Line>>
    var answered: map<string, seq<int>>

    constructor ()
      ensures View() == INIT
    {
      bindings, files, answered := map[], map[], map[];
    }

    function View(): State
      reads this
    {
      State(bindings, files, answered)
    }

    method ParkMessage(conv: string, id: int, text: string, now: int)
      modifies this`files
      ensures View() == Step(old(View()), Park(conv, id, text, now))
    {
      files := files[conv := LinesOf(View(), conv) + [ParkedLine(id, text, now)]];
    }

    method ReadMailbox(conv: string) returns (entries: seq<Entry>)
      ensures entries == Readable(LinesOf(View(), conv))
    {
      entries := [];
      var lines := LinesOf(View(), conv);
      for i := 0 to |lines|
        invariant entries == Readable(lines[..i])
      {
        assert lines[..i + 1][..i] == lines[..i];
        var line := lines[i];
        if line.Torn? || line.id.None? || line.text.None? {
          continue;
        }
        entries := entries + [Entry(line.id.value, line.text.value, if line.at.Some? then line.at.value else 0)];
      }
      assert lines[..|lines|] == lines;
    }

    /** The body of the claim loop: one chat that has a mailbox file. */
    method ClaimChat(conv: string, profile: string, now: int)
        returns (served: bool, entries: seq<Entry>, linked: bool)
      requires conv in files
      modifies this`bindings
      ensures bindings == Bound(old(bindings), conv, AfterClaim(old(View()), profile, now, conv))
      ensures served <==> Serves(old(View()), profile, now, conv)
      ensures served ==> entries == Readable(LinesOf(old(View()), conv))
      ensures served ==> conv in bindings && bindings[conv] == AfterClaim(old(View()), profile, now, conv).value
      ensures linked <==> Links(old(View()), profile, now, conv)
    {
      served, entries, linked := false, [], false;
      var handover := None;
      if conv in bindings && bindings[conv].profile != profile {
        if now - bindings[conv].lastBeat < TTL {
          return;
        }
        handover := Some(bindings[conv].epoch);
        bindings := bindings - {conv};
      }
      entries := ReadMailbox(conv);
      if entries == [] {
        return;
      }
      served := true;
      if conv !in bindings {
        bindings := bindings[conv := Binding(profile, if handover.Some? then handover.value + 1 else 0, now)];
        linked := true;
      } else {
        bindings := bindings[conv := bindings[conv].(lastBeat := now)];
      }
    }

    /** The claim loop over the chats that have a mailbox file, in directory order. */
    method ClaimEach(profile: string, now: int, convs: seq<string>)
        returns (messages: seq<Message>, claimed: seq<string>, epochs: map<string, nat>, known: map<string, seq<int>>)
      requires forall conv :: conv in convs ==> conv in files
      requires NoRepeats(convs)
      modifies this`bindings
      ensures bindings == BoundBy(old(View()), profile, now, convs)
      ensures messages == HandedOver(old(View()), profile, now, convs)
      ensures Reply(claimed, epochs, known) == ReplyTo(old(View()), profile, now, convs)
    {
      ghost var before := View();
      messages, claimed, epochs, known := [], [], map[], map[];
      for i := 0 to |convs|
        invariant bindings == BoundBy(before, profile, now, convs[..i])
        invariant messages == HandedOver(before, profile, now, convs[..i])
        invariant Reply(claimed, epochs, known) == ReplyTo(before, profile, now, convs[..i])
      {
        var conv := convs[i];
        NextChat(before, profile, now, convs, i);
        NotYetBound(before, profile, now, convs, i);
        assert View() == before.(bindings := BoundBy(before, profile, now, convs[..i]));
        var served, entries, linked := ClaimChat(conv, profile, now);
        if linked {
          claimed := claimed + [conv];
        }
        if served {
          epochs := epochs[conv := bindings[conv].epoch];
          known := known[conv := AnsweredIds(View(), conv)];
          messages := messages + Tagged(conv, entries);
        }
      }
      assert convs[..|convs|] == convs;
    }

    method ClaimPending(profile: string, now: int, convs: seq<string>)
        returns (messages: seq<Message>, claimed: seq<string>, epochs: map<string, nat>, known: map<string, seq<int>>)
      requires forall conv :: conv in convs <==> conv in files
      requires NoRepeats(convs)
      modifies this`bindings
      ensures View() == Step(old(View()), Claim(profile, now))
      ensures messages == HandedOver(old(View()), profile, now, convs)
      ensures Reply(claimed, epochs, known) == ReplyTo(old(View()), profile, now, convs)
    {
      messages, claimed, epochs, known := ClaimEach(profile, now, convs);
      BoundByIsClaimed(old(View()), profile, now, convs);
    }

    method BeatProfile(profile: string, now: int)
      modifies this`bindings
      ensures View() == Step(old(View()), Beat(profile, now))
    {
      hide Gathered;
      var todo := bindings.Keys;
      while todo != {}
        invariant todo <= bindings.Keys == old(bindings).Keys
        invariant forall conv :: conv in bindings ==>
          bindings[conv] == (if conv in todo then old(bindings)[conv] else BeatBinding(old(bindings)[conv], profile, now))
      {
        var conv :| conv in todo;
        todo := todo - {conv};
        var binding := bindings[conv];
        if binding.profile == profile && now - binding.lastBeat >= BEAT_EVERY {
          bindings := bindings[conv := binding.(lastBeat := now)];
        }
      }
    }

    method SweepOnce(now: int)
      modifies this`bindings
      ensures View() == Step(old(View()), Sweep(now))
    {
      var todo := bindings.Keys;
      while todo != {}
        invariant todo <= bindings.Keys <= old(bindings).Keys
        invariant forall conv :: conv in bindings <==> conv in old(bindings) && (conv in todo || !Stale(old(bindings)[conv], now))
        invariant forall conv :: conv in bindings ==> bindings[conv] == old(bindings)[conv]
      {
        var conv :| conv in todo;
        todo := todo - {conv};
        if now - bindings[conv].lastBeat >= TTL {
          bindings := bindings - {conv};
        }
      }
    }

    method BridgeOff(conv: string)
      modifies this`bindings
      ensures View() == Step(old(View()), Off(conv))
    {
      bindings := bindings - {conv};
    }

    /** The read half of an ack: the lines to write back, or nothing when there is no file. */
    method AckRead(conv: string, ids: seq<int>) returns (kept: Option<seq<Line>>)
      ensures kept == if ids == [] || conv !in files then None else Some(Remaining(files[conv], ids))
    {
      if ids == [] || conv !in files {
        return None;
      }
      var lines, out := files[conv], [];
      for i := 0 to |lines|
        invariant out == Remaining(lines[..i], ids)
      {
        assert lines[..i + 1][..i] == lines[..i];
        var line := lines[i];
        if line.Torn? || line.id.None? || line.id.value !in ids {
          out := out + [line];
        }
      }
      assert lines[..|lines|] == lines;
      kept := Some(out);
    }

    /** The write half: the rename, then the answered list. */
    method AckWrite(conv: string, kept: seq<Line>, ids: seq<int>)
      modifies this`files, this`answered
      ensures View() == old(View()).(
        files := old(files)[conv := kept],
        answered := old(answered)[conv := Newest(Distinct(AnsweredIds(old(View()), conv) + ids))])
    {
      files := files[conv := kept];
      MarkAnswered(conv, ids);
    }

    method MarkAnswered(conv: string, ids: seq<int>)
      modifies this`answered
      ensures answered == old(answered)[conv := Newest(Distinct(AnsweredIds(old(View()), conv) + ids))]
    {
      var all := AnsweredIds(View(), conv) + ids;
      var list := [];
      for i := 0 to |all|
        invariant list == Distinct(all[..i])
      {
        assert all[..i + 1][..i] == all[..i];
        if all[i] !in list {
          list := list + [all[i]];
        }
      }
      assert all[..|all|] == all;
      answered := answered[conv := Newest(list)];
    }

    method AckMessages(conv: string, ids: seq<int>)
      modifies this`files, this`answered
      ensures View() == Step(old(View()), Ack(conv, ids))
    {
      var kept := AckRead(conv, ids);
      if kept.Some? {
        AckWrite(conv, kept.value, ids);
      }
    }

    /** The relay route's decision to send, before it does. */
    method RelayGuard(conv: string, profile: Option<string>, epoch: Option<int>) returns (pass: bool)
      ensures pass == RelayPasses(View(), conv, profile, epoch)
    {
      if profile.Some? && profile.value != "" {
        var owner := if conv in bindings then bindings[conv].profile else "";
        if owner != "" && owner != profile.value {
          return false;
        }
      }
      var current := if conv in bindings then bindings[conv].epoch else 0;
      pass := !(epoch.Some? && epoch.value < current);
    }
  }

  /** The chat is newly bound to the claimer by this claim. */
  predicate Links(s: State, profile: string, now: int, conv: string) {
    Serves(s, profile, now, conv) && !(conv in s.bindings && s.bindings[conv].profile == profile)
  }

  function Bound(m: map<string, Binding>, conv: string, b: Option<Binding>): map<string, Binding> {
    if b.Some? then m[conv := b.value] else m - {conv}
  }

  /** The bindings once the claim loop has gone through these chats. */
  function BoundBy(s: State, profile: string, now: int, done: seq<string>): map<string, Binding> {
    if done == [] then s.bindings
    else Bound(BoundBy(s, profile, now, done[..|done| - 1]), done[|done| - 1], AfterClaim(s, profile, now, done[|done| - 1]))
  }

  /** What the claimer is told besides the messages: the chats newly linked, the epoch of
      every chat served, and the ids answered there. */
  datatype Reply = Reply(claimed: seq<string>, epochs: map<string, nat>, known: map<string, seq<int>>)

  function ReplyTo(s: State, profile: string, now: int, convs: seq<string>): Reply {
    if convs == [] then Reply([], map[], map[])
    else
      var r, conv := ReplyTo(s, profile, now, convs[..|convs| - 1]), convs[|convs| - 1];
      if Serves(s, profile, now, conv) then
        Reply(if Links(s, profile, now, conv) then r.claimed + [conv] else r.claimed,
              r.epochs[conv := AfterClaim(s, profile, now, conv).value.epoch],
              r.known[conv := AnsweredIds(s, conv)])
      else r
  }

  lemma {:induction false} BoundByPointwise(s: State, profile: string, now: int, done: seq<string>, conv: string)
    ensures Lookup(BoundBy(s, profile, now, done), conv)
         == if conv in done then AfterClaim(s, profile, now, conv) else Lookup(s.bindings, conv)
  {
    if done != [] {
      BoundByPointwise(s, profile, now, done[..|done| - 1], conv);
      assert conv in done <==> conv in done[..|done| - 1] || conv == done[|done| - 1];
    }
  }

  lemma NextChat(s: State, profile: string, now: int, convs: seq<string>, i: nat)
    requires i < |convs|
    ensures var conv := convs[i];
      && BoundBy(s, profile, now, convs[..i + 1])
         == Bound(BoundBy(s, profile, now, convs[..i]), conv, AfterClaim(s, profile, now, conv))
      && HandedOver(s, profile, now, convs[..i + 1])
         == HandedOver(s, profile, now, convs[..i])
            + (if Serves(s, profile, now, conv) then Tagged(conv, Readable(LinesOf(s, conv))) else [])
      && var r, t := ReplyTo(s, profile, now, convs[..i]), ReplyTo(s, profile, now, convs[..i + 1]);
        if Serves(s, profile, now, conv) then
          && t.claimed == (if Links(s, profile, now, conv) then r.claimed + [conv] else r.claimed)
          && t.epochs == r.epochs[conv := AfterClaim(s, profile, now, conv).value.epoch]
          && t.known == r.known[conv := AnsweredIds(s, conv)]
        else t == r
  {
    assert convs[..i + 1][..i] == convs[..i];
  }

  /** A claim of a later chat sees what it would have seen at the start. */
  lemma NotYetBound(s: State, profile: string, now: int, convs: seq<string>, i: nat)
    requires i < |convs| && NoRepeats(convs)
    ensures var t, conv := s.(bindings := BoundBy(s, profile, now, convs[..i])), convs[i];
      && AfterClaim(t, profile, now, conv) == AfterClaim(s, profile, now, conv)
      && Serves(t, profile, now, conv) == Serves(s, profile, now, conv)
      && Links(t, profile, now, conv) == Links(s, profile, now, conv)
      && LinesOf(t, conv) == LinesOf(s, conv) && AnsweredIds(t, conv) == AnsweredIds(s, conv)
  {
    BoundByPointwise(s, profile, now, convs[..i], convs[i]);
    var t, conv := s.(bindings := BoundBy(s, profile, now, convs[..i])), convs[i];
    assert Lookup(t.bindings, conv) == Lookup(s.bindings, conv);
    assert conv in t.bindings <==> conv in s.bindings;
  }

  lemma BoundByIsClaimed(s: State, profile: string, now: int, convs: seq<string>)
    requires forall conv :: conv in convs <==> conv in s.files
    ensures BoundBy(s, profile, now, convs) == Claimed(s, profile, now).bindings
  {
    forall conv ensures Lookup(BoundBy(s, profile, now, convs), conv) == Lookup(Claimed(s, profile, now).bindings, conv) {
      BoundByPointwise(s, profile, now, convs, conv);
    }
    SameBindings(BoundBy(s, profile, now, convs), Claimed(s, profile, now).bindings);
  }

  /** The reply names an epoch for exactly the chats served, and it is the epoch the chat
      has after the claim; a relay that carries it passes the guard. */
  lemma {:induction false} RepliesCarryTheEpoch(s: State, profile: string, now: int, convs: seq<string>, conv: string)
    requires forall c :: c in convs ==> c in s.files
    ensures var r := ReplyTo(s, profile, now, convs);
      && (conv in r.epochs <==> conv in convs && Serves(s, profile, now, conv))
      && (conv in r.claimed <==> conv in convs && Links(s, profile, now, conv))
      && (conv in r.epochs ==>
            && Lookup(Claimed(s, profile, now).bindings, conv) == Some(Binding(profile, r.epochs[conv], now))
            && RelayPasses(Claimed(s, profile, now), conv, Some(profile), Some(r.epochs[conv]))
            && conv in r.known && r.known[conv] == AnsweredIds(s, conv))
  {
    hide Gathered, HasWaiting, Newest, Distinct;
    if convs != [] {
      var init, last := convs[..|convs| - 1], convs[|convs| - 1];
      RepliesCarryTheEpoch(s, profile, now, init, conv);
      assert conv in convs <==> conv in init || conv == last;
    }
  }

  lemma SameBindings(a: map<string, Binding>, b: map<string, Binding>)
    requires forall conv :: Lookup(a, conv) == Lookup(b, conv)
    ensures a == b
  {
    forall conv ensures conv in a <==> conv in b {
      assert Lookup(a, conv) == Lookup(b, conv);
    }
    forall conv | conv in a ensures a[conv] == b[conv] {
      assert Lookup(a, conv) == Lookup(b, conv);
    }
  }
}
