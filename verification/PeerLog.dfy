/** The desktop copy of a tab's run log: row normalisation, the handshake, the
    append, the retention trim and the window read. */
module PeerLog {
  import opened Lists
  import opened Text

  /** Rows larger than this keep their address and a preview. */
  const MAX_CONTENT := 256 * 1024
  const PREVIEW := 4 * 1024
  const MAX_BATCH_ROWS := 500
  const MAX_KIND := 64

  // ── rows ──────────────────────────────────────────────────────────────

  /** `JSON.stringify(content)`: the text, and what its `status` field says. */
  datatype WireContent =
    | Json(text: string, status: Option<string>)
    | Unserializable

  /** One element of a batch as it arrives. A numeric field is `None` when
      `Number(field)` is not finite, a text field when it is not a string. */
  datatype Wire =
    | NotAnObject
    | Wire(seqNo: Option<int>, runId: Option<string>, definitionId: Option<string>,
           branchPath: Option<string>, iteration: Option<int>, scopeId: Option<int>,
           kind: Option<string>, content: WireContent)

  datatype Content =
    | Full(text: string, status: Option<string>)
    | Truncated(bytes: nat, preview: string)
    | Note

  datatype Row = Row(
    seqNo: int, runId: string, definitionId: string,
    branchPath: Option<string>, iteration: Option<int>, scopeId: Option<int>,
    kind: string, content: Content)

  function OrEmpty(s: Option<string>): string {
    if s.Some? then s.value else ""
  }

  function StoreContent(c: WireContent): (r: Content)
    ensures r.Full? ==> |r.text| <= MAX_CONTENT
    ensures r.Truncated? ==> r.bytes > MAX_CONTENT && |r.preview| == PREVIEW
  {
    match c
    case Unserializable => Note
    case Json(text, status) =>
      if |text| > MAX_CONTENT then Truncated(|text|, text[..PREVIEW]) else Full(text, status)
  }

  function Normalize(raw: Wire): (r: Option<Row>)
    ensures r.Some? ==> r.value.seqNo > 0 && 0 < |r.value.kind| <= MAX_KIND
  {
    if raw.NotAnObject? then None
    else
      var kind := Trim(OrEmpty(raw.kind));
      if raw.seqNo.None? || raw.seqNo.value <= 0 || kind == "" then None
      else
        Some(Row(raw.seqNo.value, OrEmpty(raw.runId), OrEmpty(raw.definitionId),
                 raw.branchPath, raw.iteration, raw.scopeId,
                 kind[..if |kind| > MAX_KIND then MAX_KIND else |kind|], StoreContent(raw.content)))
  }

  /** The rows of a wire list that can be stored, in order. */
  function Storable(events: seq<Wire>): seq<Row> {
    FilterMap(Normalize, events)
  }

  function IsAbove(cursor: int): Row -> bool {
    (r: Row) => r.seqNo > cursor
  }

  /** The rows with an address above `cursor`, in order. */
  function Above(rows: seq<Row>, cursor: int): (r: seq<Row>)
    ensures |r| <= |rows|
  {
    Filter(IsAbove(cursor), rows)
  }

  ghost predicate Ascending(rows: seq<Row>) {
    forall i, j :: 0 <= i < j < |rows| ==> rows[i].seqNo < rows[j].seqNo
  }

  /** Put a row in its place in a sorted list, after rows with the same address. */
  function Place(rows: seq<Row>, r: Row): seq<Row> {
    if rows == [] || r.seqNo < rows[0].seqNo then [r] + rows
    else [rows[0]] + Place(rows[1..], r)
  }

  /** `rows.sort((a, b) => a.seq - b.seq)`, which keeps the order of equal addresses. */
  function SortBySeq(rows: seq<Row>): seq<Row> {
    if rows == [] then [] else Place(SortBySeq(rows[..|rows| - 1]), rows[|rows| - 1])
  }

  predicate Holds(rows: seq<Row>, seqNo: int) {
    exists i :: 0 <= i < |rows| && rows[i].seqNo == seqNo
  }

  /** `INSERT OR IGNORE` into a table keyed and read by `seq`. */
  function Insert(rows: seq<Row>, r: Row): seq<Row> {
    if Holds(rows, r.seqNo) then rows else Place(rows, r)
  }

  function InsertAll(rows: seq<Row>, batch: seq<Row>): seq<Row> {
    if batch == [] then rows
    else Insert(InsertAll(rows, batch[..|batch| - 1]), batch[|batch| - 1])
  }

  /** The largest address of a list, or `start` when that is larger. */
  function High(rows: seq<Row>, start: nat): (h: nat)
    ensures h >= start
  {
    if rows == [] then start
    else
      var h := High(rows[..|rows| - 1], start);
      if rows[|rows| - 1].seqNo > h then rows[|rows| - 1].seqNo else h
  }

  // ── the store, as a value ─────────────────────────────────────────────

  datatype Store = Store(epoch: Option<string>, cursor: nat, rows: seq<Row>)

  const EMPTY := Store(None, 0, [])

  /** The handshake, after its refusal of a blank epoch. */
  function Handshaken(st: Store, epoch: string, max: Option<int>): Store {
    if st.epoch == None then st.(epoch := Some(epoch))
    else if Resets(st, epoch, max) then Store(Some(epoch), 0, [])
    else st
  }

  /** A handshake clears the copy: another epoch, or a `max` below the cursor. */
  predicate Resets(st: Store, epoch: string, max: Option<int>) {
    st.epoch.Some? && (st.epoch.value != epoch || Regressed(st, max))
  }

  predicate Regressed(st: Store, max: Option<int>) {
    max.Some? && (if max.value < 0 then 0 else max.value) < st.cursor
  }

  predicate Accepts(st: Store, epoch: string) {
    st.epoch == Some(epoch) && epoch != ""
  }

  function Capped(events: seq<Wire>): seq<Wire> {
    if |events| > MAX_BATCH_ROWS then events[..MAX_BATCH_ROWS] else events
  }

  /** The rows a batch offers above the cursor, sorted. */
  function Offered(st: Store, events: seq<Wire>): seq<Row> {
    SortBySeq(Above(Storable(Capped(events)), st.cursor))
  }

  /** One accepted or refused batch, before the trim. */
  function Appended(st: Store, epoch: string, events: seq<Wire>): Store {
    if Accepts(st, epoch) then
      var batch := Offered(st, events);
      st.(rows := InsertAll(st.rows, batch), cursor := High(batch, st.cursor))
    else st
  }

  /** The rows kept when the file is over its budget. */
  function Trimmed(st: Store, oversized: bool): Store {
    var keep := 3 * |st.rows| / 4;
    if !oversized || keep <= 0 then st
    else st.(rows := Above(st.rows, st.rows[|st.rows| - keep].seqNo))
  }

  datatype Status = Status(epoch: string, cursor: nat, total: nat)

  function StatusOf(st: Store): Status {
    Status(OrEmpty(st.epoch), st.cursor, |st.rows|)
  }

  datatype AppendResult = AppendResult(status: Status, inserted: nat, skipped: nat, refused: bool)

  // ── reading ───────────────────────────────────────────────────────────

  datatype Query = Query(kinds: seq<string>, errorOnly: bool, limit: Option<int>, after: Option<int>)

  const MAX_KINDS := 20

  function KindFilter(kinds: seq<string>): seq<string> {
    var named := FilterMap(TrimmedName, kinds);
    if |named| > MAX_KINDS then named[..MAX_KINDS] else named
  }

  function TrimmedName(kind: string): Option<string> {
    if Trim(kind) != "" then Some(Trim(kind)) else None
  }

  predicate IsError(r: Row) {
    || r.kind in ["llm_error", "tool_error"]
    || (r.kind == "web_turn_end" && r.content.Full? && r.content.status == Some("error"))
  }

  predicate Matches(q: Query, r: Row) {
    if q.errorOnly then IsError(r)
    else KindFilter(q.kinds) == [] || r.kind in KindFilter(q.kinds)
  }

  function EffectiveLimit(q: Query): (n: nat)
    ensures 1 <= n <= 1000
  {
    var asked := if q.limit.None? || q.limit.value == 0 then 20 else q.limit.value;
    if asked > 1000 then 1000 else if asked < 1 then 1 else asked
  }

  function EffectiveAfter(q: Query): nat {
    if q.after.Some? && q.after.value > 0 then q.after.value else 0
  }

  function MatchesQuery(q: Query): Row -> bool {
    (r: Row) => Matches(q, r)
  }

  function Select(q: Query, rows: seq<Row>): (r: seq<Row>)
    ensures |r| <= |rows|
  {
    Filter(MatchesQuery(q), rows)
  }

  /** The window: the next rows after a cursor, or the newest ones; ascending. */
  function Window(q: Query, rows: seq<Row>): (r: seq<Row>)
    ensures |r| <= EffectiveLimit(q)
  {
    var limit := EffectiveLimit(q);
    if EffectiveAfter(q) > 0 then
      var hits := Select(q, Above(rows, EffectiveAfter(q)));
      if |hits| > limit then hits[..limit] else hits
    else
      var hits := Select(q, rows);
      if |hits| > limit then hits[|hits| - limit..] else hits
  }
}
