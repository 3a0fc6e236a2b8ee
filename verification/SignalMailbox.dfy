/** The pairing mailbox as objects: channels whose fields change in place, in a map that
    iterates in the order of creation. */
module SignalMailbox {
  import opened Lists
  import opened PairingCodes
  import opened Signaling

  /** The iteration order lists every key once. */
  ghost predicate Listing(keys: set<string>, order: seq<string>) {
    Distinct(order) && forall id :: id in order <==> id in keys
  }

  lemma ListAdded(keys: set<string>, order: seq<string>, id: string)
    requires Listing(keys, order) && id !in keys
    ensures Listing(keys + {id}, order + [id])
  {
    assert (order + [id])[..|order|] == order;
  }

  lemma ListRemoved(keys: set<string>, order: seq<string>, id: string)
    requires Listing(keys, order)
    ensures Listing(keys - {id}, Filter(IsNot(id), order))
  {
    FilterListing(IsNot(id), order);
  }

  class MailboxChannel {
    const id: string
    var profile: string
    var code: Option<Code>
    var used: bool
    var failedJoins: nat
    var lastActivity: int
    var signals: seq<Signal>
    var nextSeq: nat
    var closed: bool

    constructor (id: string, profile: string, now: int)
      ensures this.id == id && View() == NewChan(profile, None, now)
    {
      this.id := id;
      this.profile, code, used, failedJoins, lastActivity := profile, None, false, 0, now;
      signals, nextSeq, closed := [], 1, false;
    }

    function View(): Chan
      reads this
    {
      Chan(profile, code, used, failedJoins, lastActivity, signals, nextSeq, closed)
    }

    /** `append`, which also works on a channel that is no longer listed. */
    method Append(from: Side, kind: string, payload: string, now: int) returns (entry: Signal)
      modifies this
      ensures View() == Appended(old(View()), Post(from, kind, payload), now)
      ensures entry == Signal(old(nextSeq), Post(from, kind, payload)) && entry in signals
    {
      entry := Signal(nextSeq, Post(from, kind, payload));
      nextSeq := nextSeq + 1;
      signals := signals + [entry];
      assert signals[|signals| - 1] == entry;
      if |signals| > MAX_SIGNALS {
        signals := signals[|signals| - MAX_SIGNALS..];
        assert signals[|signals| - 1] == entry;
      }
      lastActivity := now;
    }

    /** `feed`: the retained entries above a cursor, in order. */
    method Read(after: int) returns (entries: seq<Signal>)
      ensures entries == Feed(View(), after)
    {
      entries := [];
      for i := 0 to |signals|
        invariant entries == Filter(IsAfter(after), signals[..i])
      {
        assert signals[..i + 1][..i] == signals[..i];
        if signals[i].seqNo > after {
          entries := entries + [signals[i]];
        }
      }
      assert signals[..|signals|] == signals;
    }
  }

  class Mailbox {
    var channels: map<string, MailboxChannel>
    var order: seq<string>

    constructor ()
      ensures Valid() && View() == NO_CHANNELS
    {
      channels, order := map[], [];
    }

    ghost predicate Valid()
      reads this, channels.Values
    {
      (forall id :: id in channels ==> channels[id].id == id) && Listing(channels.Keys, order)
    }

    ghost function Views(ids: set<string>): (m: map<string, Chan>)
      requires ids <= channels.Keys
      reads this, channels.Values
      ensures m.Keys == ids
      ensures forall id :: id in m ==> m[id] == channels[id].View()
      decreases ids
    {
      if ids == {} then map[]
      else
        var id :| id in ids;
        Views(ids - {id})[id := channels[id].View()]
    }

    ghost function View(): Table
      reads this, channels.Values
    {
      Table(Views(channels.Keys), order)
    }

    twostate lemma ListedView(id: string, new ch: MailboxChannel)
      requires id !in old(channels) && channels == old(channels)[id := ch] && order == old(order) + [id]
      requires forall other :: other in old(channels) ==> old(channels)[other].View() == old(channels[other].View())
      ensures View() == Created(old(View()), id, ch.View())
    {
      hide Views;
    }

    /** Lists a new channel; every id drawn is new, as they are random. */
    method List(ch: MailboxChannel)
      requires Valid() && ch.id !in channels
      modifies this
      ensures Valid() && channels == old(channels)[ch.id := ch]
      ensures View() == Created(old(View()), ch.id, ch.View())
    {
      ListAdded(channels.Keys, order, ch.id);
      channels, order := channels[ch.id := ch], order + [ch.id];
      assert channels.Keys == old(channels.Keys) + {ch.id};
      ListedView(ch.id, ch);
    }

    /** `createReconnect`: a channel without a code. */
    method CreateReconnect(id: string, profile: string, now: int) returns (ch: MailboxChannel)
      requires Valid() && id !in channels
      modifies this
      ensures Valid() && fresh(ch) && ch.id == id && channels == old(channels)[id := ch]
      ensures ch.View() == NewChan(profile, None, now)
      ensures View() == Created(old(View()), id, NewChan(profile, None, now))
    {
      ch := new MailboxChannel(id, profile, now);
      List(ch);
    }

    /** `createPairing`: the code is set on the channel after it has been listed. */
    method CreatePairing(id: string, profile: string, digits: string, now: int) returns (shown: string)
      requires Valid() && id !in channels && |digits| == 8
      modifies this
      ensures Valid() && shown == Shown(digits)
      ensures View() == Created(old(View()), id, NewChan(profile, Some(Code(digits, now + CODE_TTL)), now))
    {
      hide Views, Listing, Filter;
      var ch := CreateReconnect(id, profile, now);
      ghost var code := Code(digits, now + CODE_TTL);
      SetTwice(old(View()).chans, id, NewChan(profile, None, now), NewChan(profile, Some(code), now));
      SetCode(ch, Code(digits, now + CODE_TTL));
      shown := digits[..4] + "-" + digits[4..];
    }

    method SetCode(ch: MailboxChannel, code: Code)
      requires Valid() && ch.id in channels && channels[ch.id] == ch
      modifies ch
      ensures Valid()
      ensures View() == old(View()).(chans := old(View()).chans[ch.id := old(ch.View()).(code := Some(code))])
    {
      ch.code := Some(code);
      ChangedView(ch.id);
    }

    twostate lemma UnlistedView(id: string)
      requires channels == old(channels) - {id} && order == Filter(IsNot(id), old(order))
      requires forall other :: other in channels ==> channels[other].View() == old(channels[other].View())
      ensures View() == Removed(old(View()), id)
    {
      hide Views;
    }

    /** `channels.delete`. */
    method Unlist(id: string)
      requires Valid()
      modifies this
      ensures Valid() && channels == old(channels) - {id} && order == Filter(IsNot(id), old(order))
    {
      ListRemoved(channels.Keys, order, id);
      channels, order := channels - {id}, Filter(IsNot(id), order);
      assert channels.Keys == old(channels.Keys) - {id};
    }

    /** `remove`: the channel object outlives its listing, closed. */
    method Remove(id: string)
      requires Valid()
      modifies this, if id in channels then {channels[id]} else {}
      ensures Valid() && channels == old(channels) - {id}
      ensures View() == Removed(old(View()), id)
      ensures id in old(channels) ==> old(channels)[id].closed
    {
      hide Views;
      if id in channels {
        channels[id].closed := true;
      }
      Unlist(id);
      UnlistedView(id);
    }

    /** `close`, which may be given a channel that is no longer listed. */
    method Close(ch: MailboxChannel)
      requires Valid()
      modifies this, ch
      ensures Valid() && ch.closed
      ensures View() == Removed(old(View()), ch.id)
    {
      hide Views;
      ch.closed := true;
      Unlist(ch.id);
      UnlistedView(ch.id);
    }

    /** `append` through the mailbox: a listed channel's entry changes, and nothing else. */
    method Append(ch: MailboxChannel, from: Side, kind: string, payload: string, now: int) returns (entry: Signal)
      requires Valid() && (ch.id in channels ==> channels[ch.id] == ch)
      modifies ch
      ensures Valid() && ch.View() == Appended(old(ch.View()), Post(from, kind, payload), now)
      ensures View() == Outcome(old(View()), Signals(ch.id, Post(from, kind, payload), now)).table
    {
      hide Views;
      entry := ch.Append(from, kind, payload, now);
    }

    twostate lemma ChangedView(id: string)
      requires channels == old(channels) && order == old(order) && id in channels
      requires forall other :: other in channels && other != id ==>
        channels[other].View() == old(channels[other].View())
      ensures View() == old(View()).(chans := old(View()).chans[id := channels[id].View()])
    {
      hide Views;
    }

    /** Counts a failed join; the tenth removes the channel. */
    method Miss(ch: MailboxChannel)
      requires Valid() && ch.id in channels && channels[ch.id] == ch
      modifies this, ch
      ensures Valid()
      ensures View() == if old(ch.failedJoins) + 1 >= MAX_FAILED_JOINS then Removed(old(View()), ch.id)
                        else old(View()).(chans := old(View()).chans[ch.id := old(ch.View()).(failedJoins := old(ch.failedJoins) + 1)])
      ensures old(ch.failedJoins) + 1 >= MAX_FAILED_JOINS ==> ch.closed
    {
      hide Views;
      ch.failedJoins := ch.failedJoins + 1;
      if ch.failedJoins >= MAX_FAILED_JOINS {
        ch.closed := true;
        Unlist(ch.id);
        UnlistedView(ch.id);
      } else {
        ChangedView(ch.id);
      }
    }

    method Spend(ch: MailboxChannel, profile: string, now: int)
      requires Valid() && ch.id in channels && channels[ch.id] == ch
      modifies ch
      ensures Valid()
      ensures View() == old(View()).(chans := old(View()).chans[ch.id := Spent(old(ch.View()), profile, now)])
    {
      hide Views;
      ch.used := true;
      ch.profile := if profile != "" then profile else ch.profile;
      ch.lastActivity := now;
      ChangedView(ch.id);
    }

    method JoinChannel(id: string, code: string, profile: string, now: int) returns (result: JoinResult)
      requires Valid()
      modifies this, if id in channels then {channels[id]} else {}
      ensures Valid()
      ensures JoinOutcome(View(), result) == Join(old(View()), id, code, profile, now)
    {
      hide Views, Listing, HexOnly, Filter, Removed, Spent;
      assert View().chans.Keys == channels.Keys;
      if id !in channels || channels[id].closed {
        return UnknownOrClosed;
      }
      var ch := channels[id];
      if ch.used {
        return AlreadyUsed;
      }
      if ch.code.None? {
        return NotJoinable;
      }
      if now > ch.code.value.expiresAt {
        return Expired;
      }
      if HexOnly(code) != ch.code.value.digits {
        Miss(ch);
        return Mismatch;
      }
      if profile != "" && ch.profile != "" && profile != ch.profile {
        return OtherProfile;
      }
      Spend(ch, profile, now);
      result := Joined(id);
    }

    method JoinAny(code: string, now: int) returns (result: JoinResult)
      requires Valid()
      modifies channels.Values
      ensures Valid()
      ensures JoinOutcome(View(), result) == JoinByCode(old(View()), code, now)
    {
      hide Views;
      var normalized := HexOnly(code);
      assert order[0..] == order;
      for i := 0 to |order|
        invariant View() == old(View())
        invariant FirstAnswering(View(), order, code, now) == FirstAnswering(View(), order[i..], code, now)
      {
        var ch := channels[order[i]];
        assert order[i..][1..] == order[i + 1..];
        if !ch.closed && !ch.used && ch.code.Some? && now <= ch.code.value.expiresAt
           && normalized == ch.code.value.digits {
          Spend(ch, "", now);
          return Joined(ch.id);
        }
      }
      result := InvalidCode;
    }

    method CloseAll()
      requires Valid()
      modifies this, channels.Values
      ensures Valid() && View() == NO_CHANNELS
      ensures forall id :: id in old(channels) ==> old(channels)[id].closed
    {
      for i := 0 to |order|
        invariant channels == old(channels) && order == old(order) && Valid()
        invariant forall j :: 0 <= j < i ==> channels[order[j]].closed
      {
        channels[order[i]].closed := true;
      }
      channels, order := map[], [];
    }

    method PruneOne(ch: MailboxChannel, now: int)
      requires Valid() && ch.id in channels && channels[ch.id] == ch
      modifies this, ch
      ensures Valid() && View() == if old(Outdated(ch.View(), now)) then Removed(old(View()), ch.id) else old(View())
      ensures channels == if old(Outdated(ch.View(), now)) then old(channels) - {ch.id} else old(channels)
      ensures ch.id !in channels ==> ch.closed
    {
      if now - ch.lastActivity > if ch.used then CHANNEL_TTL else CODE_TTL {
        Remove(ch.id);
      }
    }

    /** What is listed is part of `all`; the rest of `all` is closed. */
    ghost predicate Retired(all: map<string, MailboxChannel>)
      reads this, all.Values
    {
      && (forall id :: id in channels ==> id in all && channels[id] == all[id])
      && (forall id :: id in all && id !in channels ==> all[id].closed)
    }

    method PruneNext(now: int, ghost t: Table, ghost done: seq<string>, id: string, ghost rest: seq<string>,
                     ghost all: map<string, MailboxChannel>)
      requires Apart(done, id, rest) && id in t.chans
      requires Valid() && View() == PrunedUpTo(t, now, done, [id] + rest) && Retired(all)
      modifies this, if id in channels then {channels[id]} else {}
      ensures Valid() && View() == PrunedUpTo(t, now, done + [id], rest) && Retired(all)
    {
      hide PrunedUpTo, Removed, Outdated, Filter, Listing;
      PruneStep(t, now, done, id, rest);
      assert id in View().chans;
      PruneOne(channels[id], now);
    }

    method Prune(now: int)
      requires Valid()
      modifies this, channels.Values
      ensures Valid() && View() == Pruned(old(View()), now)
      ensures forall id :: id in old(channels) && id !in channels ==> old(channels)[id].closed
    {
      var ids := order;
      ghost var t, all := View(), channels;
      PrunedNone(t, now);
      for i := 0 to |ids|
        invariant Valid() && View() == PrunedUpTo(t, now, ids[..i], ids[i..]) && Retired(all)
      {
        PruneSplits(ids, i);
        PruneNext(now, t, ids[..i], ids[i], ids[i + 1..], all);
      }
      PrunedAll(t, now);
    }
  }

  lemma SetTwice<K, V>(m: map<K, V>, k: K, a: V, b: V)
    ensures m[k := a][k := b] == m[k := b]
  {
  }

  /** The sweep when it has looked at the channels in `done` and has yet to look at `rest`. */
  ghost function PrunedUpTo(t: Table, now: int, done: seq<string>, rest: seq<string>): Table {
    Table(t.chans - (set id | id in t.chans && id in done && Outdated(t.chans[id], now)),
          Filter(Lives(t, now), done) + rest)
  }

  ghost predicate Apart(left: seq<string>, id: string, right: seq<string>) {
    id !in left && id !in right
  }

  lemma SplitsAt(ids: seq<string>, i: nat)
    requires i < |ids|
    ensures ids[i..] == [ids[i]] + ids[i + 1..] && ids[..i + 1] == ids[..i] + [ids[i]]
  {
  }

  lemma PruneSplits(ids: seq<string>, i: nat)
    requires Distinct(ids) && i < |ids|
    ensures Apart(ids[..i], ids[i], ids[i + 1..])
    ensures ids[i..] == [ids[i]] + ids[i + 1..] && ids[..i + 1] == ids[..i] + [ids[i]]
  {
    hide Distinct;
    DistinctTail(ids, i);
    SplitsAt(ids, i);
  }

  lemma {:induction false} DistinctTail(ids: seq<string>, i: nat)
    requires Distinct(ids) && i < |ids|
    ensures ids[i] !in ids[..i] && ids[i] !in ids[i + 1..]
  {
    if i < |ids| - 1 {
      var init, last := ids[..|ids| - 1], ids[|ids| - 1];
      DistinctTail(init, i);
      assert ids[..i] == init[..i] && ids[i + 1..] == init[i + 1..] + [last];
      assert ids[i] in init;
    }
  }

  lemma FilterDrops(left: seq<string>, id: string, right: seq<string>)
    requires id !in left && id !in right
    ensures Filter(IsNot(id), left + [id] + right) == left + right
  {
    FilterAppend(IsNot(id), left + [id], right);
    FilterAppend(IsNot(id), left, [id]);
    FilterAll(IsNot(id), left);
    FilterAll(IsNot(id), right);
    FilterNone(IsNot(id), [id]);
  }

  lemma PruneStepOrder(p: string -> bool, left: seq<string>, id: string, right: seq<string>)
    requires Apart(left, id, right)
    ensures Filter(p, left + [id]) + right
         == if p(id) then Filter(p, left) + ([id] + right) else Filter(IsNot(id), Filter(p, left) + ([id] + right))
  {
    assert (left + [id])[..|left|] == left;
    ConcatAssoc(Filter(p, left), [id], right);
    if !p(id) {
      FilterMember(p, left, id);
      FilterDrops(Filter(p, left), id, right);
    }
  }

  lemma PruneStepChans(t: Table, now: int, done: seq<string>, id: string, rest: seq<string>)
    requires id !in done && id in t.chans
    ensures var before := PrunedUpTo(t, now, done, [id] + rest).chans;
      && id in before && before[id] == t.chans[id]
      && PrunedUpTo(t, now, done + [id], rest).chans
         == if Outdated(t.chans[id], now) then before - {id} else before
  {
    hide Outdated, Filter;
  }

  lemma PruneStep(t: Table, now: int, done: seq<string>, id: string, rest: seq<string>)
    requires Apart(done, id, rest) && id in t.chans
    ensures var before := PrunedUpTo(t, now, done, [id] + rest);
      && id in before.chans && before.chans[id] == t.chans[id]
      && PrunedUpTo(t, now, done + [id], rest)
         == if Outdated(t.chans[id], now) then Removed(before, id) else before
  {
    hide Outdated, Filter;
    PruneStepChans(t, now, done, id, rest);
    PruneStepOrder(Lives(t, now), done, id, rest);
  }

  lemma PrunedNone(t: Table, now: int)
    ensures PrunedUpTo(t, now, t.order[..0], t.order[0..]) == t
  {
    assert t.order[0..] == t.order;
  }

  lemma PrunedAll(t: Table, now: int)
    requires forall id :: id in t.chans ==> id in t.order
    ensures PrunedUpTo(t, now, t.order[..|t.order|], t.order[|t.order|..]) == Pruned(t, now)
  {
    assert t.order[..|t.order|] == t.order;
  }
}
