/** What every run of the pairing mailbox keeps: codes are spent once, the table holds open
    channels only, and guesses are bounded. */
module PairingCodes {
  import opened Lists
  import opened Signaling

  // ── one join ──────────────────────────────────────────────────────────

  /** The conditions under which a join by channel id succeeds, all of them needed. */
  ghost predicate CanSpend(t: Table, id: string, code: string, profile: string, now: int) {
    && id in t.chans && !t.chans[id].closed && !t.chans[id].used
    && t.chans[id].code.Some? && now <= t.chans[id].code.value.expiresAt
    && HexOnly(code) == t.chans[id].code.value.digits
    && (profile == "" || t.chans[id].profile == "" || profile == t.chans[id].profile)
  }

  lemma JoinSucceedsIff(t: Table, id: string, code: string, profile: string, now: int)
    ensures var o := Join(t, id, code, profile, now);
      && (o.result.Joined? <==> CanSpend(t, id, code, profile, now))
      && (o.result.Joined? ==> o.result.id == id && id in o.table.chans && o.table.chans[id].used)
  {
  }

  /** What a successful join by id leaves: the channel is spent, belongs to the joining profile if
      that has a name, and counts as active now; nothing else changes. */
  lemma JoinSpends(t: Table, id: string, code: string, profile: string, now: int)
    requires Join(t, id, code, profile, now).result.Joined?
    ensures var u := Join(t, id, code, profile, now).table;
      && id in t.chans && id in u.chans && SameElsewhere(t, u, id) && u.order == t.order
      && u.chans[id].used && u.chans[id].lastActivity == now
      && u.chans[id].profile == (if profile != "" then profile else t.chans[id].profile)
      && u.chans[id].(used := t.chans[id].used, lastActivity := t.chans[id].lastActivity, profile := t.chans[id].profile)
         == t.chans[id]
  {
  }

  /** A join by code alone leaves the profile as it was. */
  lemma JoinByCodeSpends(t: Table, code: string, now: int)
    requires JoinByCode(t, code, now).result.Joined?
    ensures var id, u := JoinByCode(t, code, now).result.id, JoinByCode(t, code, now).table;
      && id in t.chans && id in u.chans && SameElsewhere(t, u, id) && u.order == t.order
      && u.chans[id] == t.chans[id].(used := true, lastActivity := now)
  {
  }

  /** The sweep keeps exactly the channels that were active within the last 30 minutes when they
      are spent and within the last 10 minutes when they are not, as they are and in their order. */
  lemma PruneKeepsIff(t: Table, now: int, id: string)
    ensures var u := Pruned(t, now);
      && (id in u.chans <==>
            id in t.chans && now - t.chans[id].lastActivity <= (if t.chans[id].used then 1_800_000 else 600_000))
      && (id in u.chans ==> u.chans[id] == t.chans[id])
      && (id in u.order <==> id in t.order && id in u.chans)
  {
    FilterMember(Lives(t, now), t.order, id);
  }

  ghost predicate SameElsewhere(t: Table, u: Table, id: string) {
    && (forall other :: other != id ==> (other in t.chans <==> other in u.chans))
    && (forall other :: other != id && other in t.chans && other in u.chans ==> u.chans[other] == t.chans[other])
  }

  /** A refused join changes nothing, or counts one failure on the channel it named, or,
      on the tenth, removes exactly that channel. A failure is counted exactly for a wrong code
      on an open, unspent, unexpired channel. */
  lemma RefusedJoin(t: Table, id: string, code: string, profile: string, now: int)
    requires !Join(t, id, code, profile, now).result.Joined?
    ensures var o := Join(t, id, code, profile, now);
      if o.result != Mismatch then o.table == t
      else
        && SameElsewhere(t, o.table, id) && id in t.chans
        && (t.chans[id].failedJoins + 1 < 10 ==>
              o.table == t.(chans := t.chans[id := t.chans[id].(failedJoins := t.chans[id].failedJoins + 1)]))
        && (t.chans[id].failedJoins + 1 >= 10 ==>
              id !in o.table.chans && o.table.order == Filter(IsNot(id), t.order))
    ensures Join(t, id, code, profile, now).result == Mismatch <==>
      && id in t.chans && !t.chans[id].closed && !t.chans[id].used
      && t.chans[id].code.Some? && now <= t.chans[id].code.value.expiresAt
      && HexOnly(code) != t.chans[id].code.value.digits
  {
  }

  /** `ids[i]` is the first of the ids whose channel the code fits. */
  ghost predicate FirstAt(t: Table, ids: seq<string>, code: string, now: int, i: int) {
    && 0 <= i < |ids| && ids[i] in t.chans && Answers(t.chans[ids[i]], code, now)
    && (forall j :: 0 <= j < i && ids[j] in t.chans ==> !Answers(t.chans[ids[j]], code, now))
  }

  lemma {:induction false} FirstAnsweringIs(t: Table, ids: seq<string>, code: string, now: int)
    ensures var found := FirstAnswering(t, ids, code, now);
      && (found.None? <==> forall i :: 0 <= i < |ids| && ids[i] in t.chans ==> !Answers(t.chans[ids[i]], code, now))
      && (found.Some? ==> exists i :: FirstAt(t, ids, code, now, i) && ids[i] == found.value)
  {
    if ids != [] && !(ids[0] in t.chans && Answers(t.chans[ids[0]], code, now)) {
      var rest := ids[1..];
      FirstAnsweringIs(t, rest, code, now);
      assert forall i :: 1 <= i < |ids| ==> ids[i] == rest[i - 1];
      if FirstAnswering(t, rest, code, now).Some? {
        var found := FirstAnswering(t, rest, code, now).value;
        var i :| FirstAt(t, rest, code, now, i) && rest[i] == found;
        assert FirstAt(t, ids, code, now, i + 1) && ids[i + 1] == found;
      }
    }
  }

  /** A bare code is refused exactly when it fits no channel, and a refusal changes nothing;
      otherwise it spends the oldest channel it fits and touches no other. */
  lemma JoinByCodeIs(t: Table, code: string, now: int)
    requires forall id :: id in t.chans ==> id in t.order
    ensures var o := JoinByCode(t, code, now);
      && (o.result == InvalidCode <==> forall id :: id in t.chans ==> !Answers(t.chans[id], code, now))
      && (o.result == InvalidCode ==> o.table == t)
      && (o.result != InvalidCode ==>
            (&& o.result.Joined? && SameElsewhere(t, o.table, o.result.id)
             && o.result.id in o.table.chans && o.table.chans[o.result.id].used
             && (exists i :: FirstAt(t, t.order, code, now, i) && t.order[i] == o.result.id)))
  {
    FirstAnsweringIs(t, t.order, code, now);
    if FirstAnswering(t, t.order, code, now).Some? {
      var i :| FirstAt(t, t.order, code, now, i) && t.order[i] == FirstAnswering(t, t.order, code, now).value;
    }
  }

  /** A join by code alone does to the channel it spends what a join by that channel's id would,
      without a profile; and it is refused exactly when no such join would succeed. */
  lemma BareJoinIsANamedJoin(t: Table, code: string, now: int)
    requires forall id :: id in t.chans ==> id in t.order
    ensures var o := JoinByCode(t, code, now);
      && (o.result.Joined? ==> o == Join(t, o.result.id, code, "", now))
      && (o.result == InvalidCode <==> forall id :: id in t.chans ==> !Join(t, id, code, "", now).result.Joined?)
  {
    JoinByCodeIs(t, code, now);
    forall id | id in t.chans ensures Answers(t.chans[id], code, now) <==> Join(t, id, code, "", now).result.Joined? {
      JoinSucceedsIff(t, id, code, "", now);
    }
  }

  // ── runs ──────────────────────────────────────────────────────────────

  datatype Op =
    | Create(id: string, profile: string, pairing: Option<Code>, now: int)
    | JoinNamed(id: string, code: string, profile: string, now: int)
    | JoinBare(code: string, now: int)
    | Signals(id: string, post: Post, now: int)
    | Close(id: string)
    | CloseAll
    | Prune(now: int)

  /** The table, and every id handed out so far. */
  datatype State = State(table: Table, issued: set<string>)

  const START := State(NO_CHANNELS, {})

  function Outcome(t: Table, op: Op): JoinOutcome {
    match op
    case Create(id, profile, pairing, now) => JoinOutcome(Created(t, id, NewChan(profile, pairing, now)), InvalidCode)
    case JoinNamed(id, code, profile, now) => Join(t, id, code, profile, now)
    case JoinBare(code, now) => JoinByCode(t, code, now)
    case Signals(id, post, now) =>
      JoinOutcome(if id in t.chans then t.(chans := t.chans[id := Appended(t.chans[id], post, now)]) else t, InvalidCode)
    case Close(id) => JoinOutcome(Removed(t, id), InvalidCode)
    case CloseAll => JoinOutcome(NO_CHANNELS, InvalidCode)
    case Prune(now) => JoinOutcome(Pruned(t, now), InvalidCode)
  }

  function Step(s: State, op: Op): State {
    State(Outcome(s.table, op).table, if op.Create? then s.issued + {op.id} else s.issued)
  }

  function After(ops: seq<Op>, k: nat): State
    requires k <= |ops|
  {
    if k == 0 then START else Step(After(ops, k - 1), ops[k - 1])
  }

  /** Channel ids are random; no id is drawn twice. */
  ghost predicate FreshIds(ops: seq<Op>, k: nat)
    requires k <= |ops|
  {
    k == 0 || (FreshIds(ops, k - 1) && (ops[k - 1].Create? ==> ops[k - 1].id !in After(ops, k - 1).issued))
  }

  /** How often the code of a channel has been spent. */
  function Spends(ops: seq<Op>, k: nat, id: string): nat
    requires k <= |ops|
  {
    if k == 0 then 0
    else Spends(ops, k - 1, id) + if Outcome(After(ops, k - 1).table, ops[k - 1]).result == Joined(id) then 1 else 0
  }

  /** How often a wrong code has been tried against a channel. */
  function Misses(ops: seq<Op>, k: nat, id: string): nat
    requires k <= |ops|
  {
    if k == 0 then 0
    else Misses(ops, k - 1, id) +
         if ops[k - 1].JoinNamed? && ops[k - 1].id == id
              && Outcome(After(ops, k - 1).table, ops[k - 1]).result == Mismatch then 1 else 0
  }

  ghost predicate Distinct(ids: seq<string>) {
    ids == [] || (ids[|ids| - 1] !in ids[..|ids| - 1] && Distinct(ids[..|ids| - 1]))
  }

  ghost predicate Sound(ch: Chan) {
    !ch.closed && ch.failedJoins < MAX_FAILED_JOINS
  }

  /** The table lists open channels only, each once, none with ten failures. */
  ghost predicate Inv(s: State) {
    && (forall id :: id in s.table.chans ==> Sound(s.table.chans[id]) && id in s.issued)
    && (forall id :: id in s.table.order <==> id in s.table.chans)
    && Distinct(s.table.order)
  }

  lemma {:induction false} FilterDistinct(p: string -> bool, ids: seq<string>)
    requires Distinct(ids)
    ensures Distinct(Filter(p, ids))
  {
    if ids != [] {
      var init, last := ids[..|ids| - 1], ids[|ids| - 1];
      FilterDistinct(p, init);
      FilterMember(p, init, last);
      assert (Filter(p, init) + [last])[..|Filter(p, init)|] == Filter(p, init);
    }
  }

  /** Filtering the listing keeps it free of repeats, and lists what passes. */
  lemma FilterListing(p: string -> bool, ids: seq<string>)
    requires Distinct(ids)
    ensures Distinct(Filter(p, ids))
    ensures forall id :: id in Filter(p, ids) <==> id in ids && p(id)
  {
    FilterDistinct(p, ids);
    forall id ensures id in Filter(p, ids) <==> id in ids && p(id) {
      FilterMember(p, ids, id);
    }
  }

  lemma CreateKeeps(s: State, op: Op)
    requires Inv(s) && op.Create? && op.id !in s.issued
    ensures Inv(Step(s, op))
  {
    assert (s.table.order + [op.id])[..|s.table.order|] == s.table.order;
  }

  lemma RemovedKeeps(s: State, id: string)
    requires Inv(s)
    ensures Inv(s.(table := Removed(s.table, id)))
  {
    FilterListing(IsNot(id), s.table.order);
  }

  lemma PruneKeeps(s: State, now: int)
    requires Inv(s)
    ensures Inv(s.(table := Pruned(s.table, now)))
  {
    FilterListing(Lives(s.table, now), s.table.order);
  }

  lemma UpdateKeeps(s: State, id: string, ch: Chan)
    requires Inv(s) && id in s.table.chans && Sound(ch)
    ensures Inv(s.(table := s.table.(chans := s.table.chans[id := ch])))
  {
  }

  lemma JoinKeeps(s: State, id: string, code: string, profile: string, now: int)
    requires Inv(s)
    ensures Inv(s.(table := Join(s.table, id, code, profile, now).table))
  {
    var t := s.table;
    if id in t.chans {
      var ch := t.chans[id];
      if ch.failedJoins + 1 < MAX_FAILED_JOINS {
        UpdateKeeps(s, id, ch.(failedJoins := ch.failedJoins + 1));
      }
      UpdateKeeps(s, id, Spent(ch, profile, now));
      RemovedKeeps(s, id);
    }
  }

  lemma JoinByCodeKeeps(s: State, code: string, now: int)
    requires Inv(s)
    ensures Inv(s.(table := JoinByCode(s.table, code, now).table))
  {
    var t := s.table;
    var found := FirstAnswering(t, t.order, code, now);
    if found.Some? && found.value in t.chans {
      UpdateKeeps(s, found.value, Spent(t.chans[found.value], "", now));
    }
  }

  lemma StepKeeps(s: State, op: Op)
    requires Inv(s) && (op.Create? ==> op.id !in s.issued)
    ensures Inv(Step(s, op))
  {
    hide Join, JoinByCode, Removed, Pruned;
    var t := s.table;
    match op
    case Create(id, profile, pairing, now) => CreateKeeps(s, op);
    case JoinNamed(id, code, profile, now) => JoinKeeps(s, id, code, profile, now);
    case JoinBare(code, now) => JoinByCodeKeeps(s, code, now);
    case Signals(id, post, now) =>
      if id in t.chans { UpdateKeeps(s, id, Appended(t.chans[id], post, now)); }
    case Close(id) => RemovedKeeps(s, id);
    case CloseAll =>
    case Prune(now) => PruneKeeps(s, now);
  }

  /** Over every run, the table holds only open channels, listed once each, and every held
      channel has fewer than ten failed joins. */
  lemma {:induction false} TableStaysSound(ops: seq<Op>, k: nat)
    requires k <= |ops| && FreshIds(ops, k)
    ensures Inv(After(ops, k))
  {
    if k > 0 {
      TableStaysSound(ops, k - 1);
      StepKeeps(After(ops, k - 1), ops[k - 1]);
    }
  }

  // ── single use, and the guess budget ──────────────────────────────────

  /** What the table remembers of a channel's history. */
  ghost predicate Remembers(s: State, id: string, spends: nat, misses: nat) {
    && (id !in s.issued ==> spends == 0 && misses == 0)
    && spends <= 1 && misses <= MAX_FAILED_JOINS
    && (id in s.table.chans ==>
          (&& id in s.issued && (spends == 1 <==> s.table.chans[id].used)
           && s.table.chans[id].failedJoins == misses < MAX_FAILED_JOINS))
  }

  lemma JoinRemembers(s: State, op: Op, id: string, spends: nat, misses: nat)
    requires Remembers(s, id, spends, misses) && op.JoinNamed?
    ensures var r := Outcome(s.table, op).result;
      Remembers(Step(s, op), id,
                spends + if r == Joined(id) then 1 else 0,
                misses + if op.id == id && r == Mismatch then 1 else 0)
  {
  }

  lemma JoinBareRemembers(s: State, op: Op, id: string, spends: nat, misses: nat)
    requires Remembers(s, id, spends, misses) && op.JoinBare?
    ensures var r := Outcome(s.table, op).result;
      Remembers(Step(s, op), id, spends + if r == Joined(id) then 1 else 0, misses)
  {
    FirstAnsweringIs(s.table, s.table.order, op.code, op.now);
  }

  lemma OtherOpsRemember(s: State, op: Op, id: string, spends: nat, misses: nat)
    requires Remembers(s, id, spends, misses) && !op.JoinNamed? && !op.JoinBare?
    requires op.Create? ==> op.id !in s.issued
    ensures Remembers(Step(s, op), id, spends, misses)
  {
  }

  lemma {:induction false} HistoryIsRemembered(ops: seq<Op>, k: nat, id: string)
    requires k <= |ops| && FreshIds(ops, k)
    ensures Remembers(After(ops, k), id, Spends(ops, k, id), Misses(ops, k, id))
  {
    if k > 0 {
      HistoryIsRemembered(ops, k - 1, id);
      var s, op := After(ops, k - 1), ops[k - 1];
      var spends, misses := Spends(ops, k - 1, id), Misses(ops, k - 1, id);
      if op.JoinNamed? {
        JoinRemembers(s, op, id, spends, misses);
      } else if op.JoinBare? {
        JoinBareRemembers(s, op, id, spends, misses);
      } else {
        OtherOpsRemember(s, op, id, spends, misses);
      }
    }
  }

  /** A channel's code is spent at most once over every run, by whichever kind of join, and
      at most ten wrong codes are ever counted against it. */
  lemma CodesAreSingleUse(ops: seq<Op>, id: string)
    requires FreshIds(ops, |ops|)
    ensures Spends(ops, |ops|, id) <= 1
    ensures Misses(ops, |ops|, id) <= MAX_FAILED_JOINS
    ensures var t := After(ops, |ops|).table;
      id in t.chans ==>
        (Misses(ops, |ops|, id) < MAX_FAILED_JOINS && (t.chans[id].used <==> Spends(ops, |ops|, id) == 1))
  {
    HistoryIsRemembered(ops, |ops|, id);
  }

  /** A channel created for a reconnect carries no code, and no join ever spends it. */
  lemma {:induction false} ReconnectChannelsAreNeverSpent(ops: seq<Op>, k: nat, i: nat)
    requires i < k <= |ops| && FreshIds(ops, k)
    requires ops[i].Create? && ops[i].pairing.None?
    ensures Spends(ops, k, ops[i].id) == 0
    ensures ops[i].id in After(ops, k).issued
    ensures var t := After(ops, k).table; ops[i].id in t.chans ==> t.chans[ops[i].id].code.None?
  {
    var id := ops[i].id;
    if k == i + 1 {
      HistoryIsRemembered(ops, i, id);
    } else {
      ReconnectChannelsAreNeverSpent(ops, k - 1, i);
      var s, op := After(ops, k - 1), ops[k - 1];
      if op.JoinBare? {
        FirstAnsweringIs(s.table, s.table.order, op.code, op.now);
      }
    }
  }

  // ── the code a person types ───────────────────────────────────────────

  predicate IsDigits(s: string) {
    forall i :: 0 <= i < |s| ==> '0' <= s[i] <= '9'
  }

  /** The code as displayed, `ABCD-1234`. */
  function Shown(code: string): string
    requires |code| == 8
  {
    code[..4] + "-" + code[4..]
  }

  lemma ShownNormalizes(code: string)
    requires |code| == 8 && IsDigits(code)
    ensures HexOnly(Shown(code)) == code
  {
    var left, right := code[..4], code[4..];
    FilterAppend(IsHex, left + "-", right);
    FilterAppend(IsHex, left, "-");
    FilterAll(IsHex, left);
    FilterAll(IsHex, right);
    FilterNone(IsHex, "-");
    assert left + right == code;
  }

  /** The displayed code joins its own channel until it expires, and only once. */
  lemma ShownCodeJoinsOnce(t: Table, id: string, profile: string, digits: string, now: int, soon: int, later: int)
    requires id !in t.chans && |digits| == 8 && IsDigits(digits)
    ensures var made := Created(t, id, NewChan(profile, Some(Code(digits, now + CODE_TTL)), now));
            var first := Join(made, id, Shown(digits), profile, soon);
      && (first.result == Joined(id) <==> soon <= now + CODE_TTL)
      && (first.result == Joined(id) ==> Join(first.table, id, Shown(digits), profile, later).result == AlreadyUsed)
  {
    ShownNormalizes(digits);
  }
}
