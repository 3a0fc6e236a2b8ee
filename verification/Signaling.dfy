/** The pairing mailbox as values: channels with single-use codes, and each channel's
    bounded window of signals. */
module Signaling {
  import opened Lists

  const CODE_TTL := 10 * 60_000
  const CHANNEL_TTL := 30 * 60_000
  const MAX_SIGNALS := 500
  const MAX_FAILED_JOINS := 10

  // ── one channel ───────────────────────────────────────────────────────

  datatype Side = Offerer | Answerer

  datatype Post = Post(from: Side, kind: string, payload: string)

  datatype Signal = Signal(seqNo: nat, post: Post)

  /** A pairing code is compared by hash; codes are taken to be equal when their hashes are. */
  datatype Code = Code(digits: string, expiresAt: int)

  datatype Chan = Chan(
    profile: string, code: Option<Code>, used: bool, failedJoins: nat,
    lastActivity: int, signals: seq<Signal>, nextSeq: nat, closed: bool)

  function NewChan(profile: string, code: Option<Code>, now: int): Chan {
    Chan(profile, code, false, 0, now, [], 1, false)
  }

  function Last<T>(s: seq<T>, n: nat): seq<T> {
    if |s| > n then s[|s| - n..] else s
  }

  function Appended(ch: Chan, post: Post, now: int): Chan {
    ch.(signals := Last(ch.signals + [Signal(ch.nextSeq, post)], MAX_SIGNALS),
        nextSeq := ch.nextSeq + 1, lastActivity := now)
  }

  function IsAfter(after: int): Signal -> bool {
    (s: Signal) => s.seqNo > after
  }

  function Feed(ch: Chan, after: int): seq<Signal> {
    Filter(IsAfter(after), ch.signals)
  }

  /** `replace(/[^0-9A-Fa-f]/g, "")`. */
  predicate IsHex(c: char) {
    '0' <= c <= '9' || 'A' <= c <= 'F' || 'a' <= c <= 'f'
  }

  function HexOnly(code: string): string {
    Filter(IsHex, code)
  }

  // ── the table ─────────────────────────────────────────────────────────

  /** The channel map; `order` is the order in which it iterates. */
  datatype Table = Table(chans: map<string, Chan>, order: seq<string>)

  const NO_CHANNELS := Table(map[], [])

  function IsNot(id: string): string -> bool {
    (other: string) => other != id
  }

  function Removed(t: Table, id: string): Table {
    Table(t.chans - {id}, Filter(IsNot(id), t.order))
  }

  function Created(t: Table, id: string, ch: Chan): Table {
    Table(t.chans[id := ch], t.order + [id])
  }

  datatype JoinResult =
    | Joined(id: string)
    | UnknownOrClosed | AlreadyUsed | NotJoinable | Expired | Mismatch | OtherProfile
    | InvalidCode

  datatype JoinOutcome = JoinOutcome(table: Table, result: JoinResult)

  function Spent(ch: Chan, profile: string, now: int): Chan {
    ch.(used := true, profile := if profile != "" then profile else ch.profile, lastActivity := now)
  }

  /** `join`: spend the code of a named channel. */
  function Join(t: Table, id: string, code: string, profile: string, now: int): JoinOutcome {
    if id !in t.chans || t.chans[id].closed then JoinOutcome(t, UnknownOrClosed)
    else
      var ch := t.chans[id];
      if ch.used then JoinOutcome(t, AlreadyUsed)
      else if ch.code.None? then JoinOutcome(t, NotJoinable)
      else if now > ch.code.value.expiresAt then JoinOutcome(t, Expired)
      else if HexOnly(code) != ch.code.value.digits then
        if ch.failedJoins + 1 >= MAX_FAILED_JOINS then JoinOutcome(Removed(t, id), Mismatch)
        else JoinOutcome(t.(chans := t.chans[id := ch.(failedJoins := ch.failedJoins + 1)]), Mismatch)
      else if profile != "" && ch.profile != "" && profile != ch.profile then JoinOutcome(t, OtherProfile)
      else JoinOutcome(t.(chans := t.chans[id := Spent(ch, profile, now)]), Joined(id))
  }

  /** A channel that a bare code can spend. */
  predicate Answers(ch: Chan, code: string, now: int) {
    !ch.closed && !ch.used && ch.code.Some? && now <= ch.code.value.expiresAt && HexOnly(code) == ch.code.value.digits
  }

  function FirstAnswering(t: Table, ids: seq<string>, code: string, now: int): Option<string> {
    if ids == [] then None
    else if ids[0] in t.chans && Answers(t.chans[ids[0]], code, now) then Some(ids[0])
    else FirstAnswering(t, ids[1..], code, now)
  }

  /** `joinByCode`: spend the code of the first channel it fits. */
  function JoinByCode(t: Table, code: string, now: int): JoinOutcome {
    var id := FirstAnswering(t, t.order, code, now);
    if id.Some? && id.value in t.chans then
      JoinOutcome(t.(chans := t.chans[id.value := Spent(t.chans[id.value], "", now)]), Joined(id.value))
    else JoinOutcome(t, InvalidCode)
  }

  predicate Outdated(ch: Chan, now: int) {
    now - ch.lastActivity > if ch.used then CHANNEL_TTL else CODE_TTL
  }

  function Lives(t: Table, now: int): string -> bool {
    (id: string) => id in t.chans && !Outdated(t.chans[id], now)
  }

  function Pruned(t: Table, now: int): Table {
    Table(t.chans - (set id | id in t.chans && Outdated(t.chans[id], now)), Filter(Lives(t, now), t.order))
  }
}
