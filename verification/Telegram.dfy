/** The Telegram channel: a mailbox file per chat, bindings of chats to profiles, and
    the guard in front of the relay. Chats are named by their conversation key. */
module Telegram {
  import opened Lists

  /** Silence after which a binding counts as stale, in milliseconds. */
  const TTL := 15_000
  const BEAT_EVERY := 1_000
  const ANSWERED_KEEP := 100

  datatype Binding = Binding(profile: string, epoch: nat, lastBeat: int)

  /** A nonblank line of a mailbox file, parsed: a JSON object with the fields that have
      the expected type, or something that does not parse. */
  datatype Line =
    | Json(id: Option<int>, text: Option<string>, at: Option<int>)
    | Torn(raw: string)

  datatype Entry = Entry(id: int, text: string, at: int)

  datatype State = State(
    bindings: map<string, Binding>,
    files: map<string, seq<Line>>,
    answered: map<string, seq<int>>)

  const INIT := State(map[], map[], map[])

  function Lookup<T>(m: map<string, T>, conv: string): Option<T> {
    if conv in m then Some(m[conv]) else None
  }

  function LinesOf(s: State, conv: string): seq<Line> {
    if conv in s.files then s.files[conv] else []
  }

  // ── the mailbox ───────────────────────────────────────────────────────

  function ParkedLine(id: int, text: string, now: int): Line {
    Json(Some(id), Some(text), Some(now))
  }

  function AsEntry(line: Line): Option<Entry> {
    if line.Json? && line.id.Some? && line.text.Some? then
      Some(Entry(line.id.value, line.text.value, if line.at.Some? then line.at.value else 0))
    else None
  }

  function Readable(lines: seq<Line>): seq<Entry> {
    FilterMap(AsEntry, lines)
  }

  /** An ack of these ids removes the line; a torn line is never removed. */
  predicate Drops(ids: seq<int>, line: Line) {
    line.Json? && line.id.Some? && line.id.value in ids
  }

  function Keeps(ids: seq<int>): Line -> bool {
    (line: Line) => !Drops(ids, line)
  }

  function Remaining(lines: seq<Line>, ids: seq<int>): seq<Line> {
    Filter(Keeps(ids), lines)
  }

  /** First occurrences only, in order: what a `Set` built from the list iterates over. */
  function Distinct(ids: seq<int>): seq<int> {
    if ids == [] then []
    else
      var init, last := Distinct(ids[..|ids| - 1]), ids[|ids| - 1];
      if last in init then init else init + [last]
  }

  function Newest(ids: seq<int>): seq<int> {
    if |ids| > ANSWERED_KEEP then ids[|ids| - ANSWERED_KEEP..] else ids
  }

  function AnsweredIds(s: State, conv: string): seq<int> {
    if conv in s.answered then s.answered[conv] else []
  }

  /** The write half of an ack: the kept lines of an earlier reading replace the file. */
  function AckWritten(s: State, conv: string, read: seq<Line>, ids: seq<int>): State {
    s.(files := s.files[conv := Remaining(read, ids)],
       answered := s.answered[conv := Newest(Distinct(AnsweredIds(s, conv) + ids))])
  }

  function Acked(s: State, conv: string, ids: seq<int>): State {
    if ids == [] || conv !in s.files then s else AckWritten(s, conv, s.files[conv], ids)
  }

  // ── bindings ──────────────────────────────────────────────────────────

  predicate Stale(b: Binding, now: int) {
    now - b.lastBeat >= TTL
  }

  /** Another profile holds the chat and its heartbeat is fresh. */
  predicate OwnedElsewhere(b: Option<Binding>, profile: string, now: int) {
    b.Some? && b.value.profile != profile && !Stale(b.value, now)
  }

  /** A claim's effect on the binding of one chat that has a mailbox file. */
  function ClaimedBinding(b: Option<Binding>, waiting: bool, profile: string, now: int): Option<Binding> {
    if OwnedElsewhere(b, profile, now) then b
    else if b.Some? && b.value.profile == profile then
      if waiting then Some(b.value.(lastBeat := now)) else b
    else if !waiting then None
    else Some(Binding(profile, if b.Some? then b.value.epoch + 1 else 0, now))
  }

  predicate HasWaiting(s: State, conv: string) {
    Readable(LinesOf(s, conv)) != []
  }

  /** The binding of any chat after a claim. */
  function AfterClaim(s: State, profile: string, now: int, conv: string): Option<Binding> {
    if conv in s.files then ClaimedBinding(Lookup(s.bindings, conv), HasWaiting(s, conv), profile, now)
    else Lookup(s.bindings, conv)
  }

  /** The map with what `f` gives for each of these chats. */
  ghost function Gathered(convs: set<string>, f: string -> Option<Binding>): (m: map<string, Binding>)
    ensures forall conv :: conv in m <==> conv in convs && f(conv).Some?
    ensures forall conv :: conv in m ==> m[conv] == f(conv).value
  {
    if convs == {} then map[]
    else
      var conv :| conv in convs;
      var rest := Gathered(convs - {conv}, f);
      if f(conv).Some? then rest[conv := f(conv).value] else rest
  }

  ghost function Claimed(s: State, profile: string, now: int): State {
    s.(bindings := Gathered(s.bindings.Keys + s.files.Keys, conv => AfterClaim(s, profile, now, conv)))
  }

  /** The claim hands over this chat's entries. */
  predicate Serves(s: State, profile: string, now: int, conv: string) {
    conv in s.files && HasWaiting(s, conv) && !OwnedElsewhere(Lookup(s.bindings, conv), profile, now)
  }

  function BeatBinding(b: Binding, profile: string, now: int): Binding {
    if b.profile == profile && now - b.lastBeat >= BEAT_EVERY then b.(lastBeat := now) else b
  }

  function AfterBeat(s: State, profile: string, now: int, conv: string): Option<Binding> {
    if conv in s.bindings then Some(BeatBinding(s.bindings[conv], profile, now)) else None
  }

  ghost function Beaten(s: State, profile: string, now: int): State {
    s.(bindings := Gathered(s.bindings.Keys, conv => AfterBeat(s, profile, now, conv)))
  }

  function Swept(s: State, now: int): State {
    s.(bindings := s.bindings - (set conv | conv in s.bindings && Stale(s.bindings[conv], now)))
  }

  function Unlinked(s: State, conv: string): State {
    s.(bindings := s.bindings - {conv})
  }

  /** The relay guard: `None` for a request that names no profile or no epoch; an empty profile
      names none either. */
  predicate RelayPasses(s: State, conv: string, profile: Option<string>, epoch: Option<int>) {
    var b := Lookup(s.bindings, conv);
    && !(profile.Some? && profile.value != "" && b.Some? && b.value.profile != "" && b.value.profile != profile.value)
    && !(epoch.Some? && epoch.value < (if b.Some? then b.value.epoch else 0))
  }

  // ── messages handed over ──────────────────────────────────────────────

  datatype Message = Message(conv: string, entry: Entry)

  function Tagged(conv: string, entries: seq<Entry>): seq<Message> {
    if entries == [] then [] else Tagged(conv, entries[..|entries| - 1]) + [Message(conv, entries[|entries| - 1])]
  }

  ghost predicate NoRepeats(convs: seq<string>) {
    forall i, j :: 0 <= i < j < |convs| ==> convs[i] != convs[j]
  }

  /** What a claim returns when the mailbox directory lists the chats in this order. */
  function HandedOver(s: State, profile: string, now: int, convs: seq<string>): seq<Message> {
    if convs == [] then []
    else
      var before, conv := HandedOver(s, profile, now, convs[..|convs| - 1]), convs[|convs| - 1];
      if Serves(s, profile, now, conv) then before + Tagged(conv, Readable(LinesOf(s, conv))) else before
  }

  // ── operations ────────────────────────────────────────────────────────

  datatype Op =
    | Park(conv: string, id: int, text: string, now: int)
    | Tear(conv: string, raw: string)
    | Claim(profile: string, now: int)
    | Beat(profile: string, now: int)
    | Sweep(now: int)
    | Off(conv: string)
    | Ack(conv: string, ids: seq<int>)

  function Stored(s: State, conv: string, line: Line): State {
    s.(files := s.files[conv := LinesOf(s, conv) + [line]])
  }

  /** `Tear` is a crash in the middle of an append. */
  ghost function Step(s: State, op: Op): State {
    match op
    case Park(conv, id, text, now) => Stored(s, conv, ParkedLine(id, text, now))
    case Tear(conv, raw) => Stored(s, conv, Torn(raw))
    case Claim(profile, now) => Claimed(s, profile, now)
    case Beat(profile, now) => Beaten(s, profile, now)
    case Sweep(now) => Swept(s, now)
    case Off(conv) => Unlinked(s, conv)
    case Ack(conv, ids) => Acked(s, conv, ids)
  }

  /** The state after the first `k` operations of a run. */
  ghost function After(ops: seq<Op>, k: nat): State
    requires k <= |ops|
  {
    if k == 0 then INIT else Step(After(ops, k - 1), ops[k - 1])
  }
}
