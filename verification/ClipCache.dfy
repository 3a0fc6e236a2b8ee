/** The synthesized-clip cache: first in, first out within a byte budget, filled by calls
    that may overlap. */
module ClipCache {
  import opened Lists

  const CACHE_MAX := 48 * 1024 * 1024

  /** A clip and the key it was synthesized for. */
  datatype Clip = Clip(source: string, size: nat, audio: nat)

  datatype Entry = Entry(key: string, clip: Clip)

  // ── the map, in insertion order ───────────────────────────────────────

  /** The position of a key, or the length when it is absent. */
  function Position(entries: seq<Entry>, key: string): (i: nat)
    ensures i <= |entries|
    ensures i < |entries| ==> entries[i].key == key
    ensures forall j :: 0 <= j < i ==> entries[j].key != key
  {
    if entries == [] || entries[0].key == key then 0 else 1 + Position(entries[1..], key)
  }

  predicate Has(entries: seq<Entry>, key: string) {
    Position(entries, key) < |entries|
  }

  /** `Map.set`: a known key keeps its place, a new one goes last. */
  function Put(entries: seq<Entry>, key: string, clip: Clip): seq<Entry> {
    if Has(entries, key) then entries[Position(entries, key) := Entry(key, clip)]
    else entries + [Entry(key, clip)]
  }

  function Sum(entries: seq<Entry>): nat {
    if entries == [] then 0 else entries[0].clip.size + Sum(entries[1..])
  }

  datatype Cache = Cache(entries: seq<Entry>, bytes: int)

  function Evict(c: Cache): Cache
    decreases |c.entries|
  {
    if c.bytes <= CACHE_MAX || c.entries == [] then c
    else Evict(Cache(c.entries[1..], c.bytes - c.entries[0].clip.size))
  }

  function Insert(c: Cache, key: string, clip: Clip): Cache {
    if clip.size > CACHE_MAX then c
    else Evict(Cache(Put(c.entries, key, clip), c.bytes + clip.size))
  }

  class ClipStore {
    var entries: seq<Entry>
    var bytes: int

    constructor ()
      ensures View() == Cache([], 0)
    {
      entries, bytes := [], 0;
    }

    function View(): Cache
      reads this
    {
      Cache(entries, bytes)
    }

    method Lookup(key: string) returns (hit: Option<Clip>)
      ensures hit.Some? <==> Has(entries, key)
      ensures hit.Some? ==> Entry(key, hit.value) in entries
    {
      var i := Position(entries, key);
      hit := if i < |entries| then Some(entries[i].clip) else None;
    }

    /** The second half of a miss, once the clip has been synthesized. */
    method Store(key: string, clip: Clip)
      modifies this
      ensures View() == Insert(old(View()), key, clip)
    {
      if clip.size > CACHE_MAX {
        return;
      }
      entries := Put(entries, key, clip);
      bytes := bytes + clip.size;
      while bytes > CACHE_MAX
        invariant Evict(View()) == Insert(old(View()), key, clip)
        decreases |entries|
      {
        if entries == [] {
          break;
        }
        bytes := bytes - entries[0].clip.size;
        entries := entries[1..];
      }
    }
  }

  // ── the counter and the real sum ──────────────────────────────────────

  /** How far the counter is above the bytes really cached. */
  function Drift(c: Cache): int {
    c.bytes - Sum(c.entries)
  }

  /** The size of the clip an insertion replaces. */
  function Replaced(entries: seq<Entry>, key: string): nat {
    if Has(entries, key) then entries[Position(entries, key)].clip.size else 0
  }

  lemma {:induction false} SumPut(entries: seq<Entry>, key: string, clip: Clip)
    ensures Sum(Put(entries, key, clip)) + Replaced(entries, key) == Sum(entries) + clip.size
  {
    if entries == [] {
      assert Put(entries, key, clip) == [Entry(key, clip)];
      assert [Entry(key, clip)][1..] == [];
    } else if entries[0].key == key {
      assert Put(entries, key, clip)[1..] == entries[1..];
    } else {
      SumPut(entries[1..], key, clip);
      assert Put(entries, key, clip)[1..] == Put(entries[1..], key, clip);
    }
  }

  lemma {:induction false} EvictKeepsDrift(c: Cache)
    ensures Drift(Evict(c)) == Drift(c)
    ensures Evict(c).bytes <= CACHE_MAX || Evict(c).entries == []
    ensures |Evict(c).entries| <= |c.entries|
    ensures Evict(c).entries == c.entries[|c.entries| - |Evict(c).entries|..]
    decreases |c.entries|
  {
    if c.bytes > CACHE_MAX && c.entries != [] {
      EvictKeepsDrift(Cache(c.entries[1..], c.bytes - c.entries[0].clip.size));
    }
  }

  /** An insertion moves the drift up by exactly the size of the clip it replaces, and
      eviction never moves it. */
  lemma InsertMovesDrift(c: Cache, key: string, clip: Clip)
    ensures Drift(Insert(c, key, clip)) == Drift(c) + if clip.size <= CACHE_MAX then Replaced(c.entries, key) else 0
  {
    if clip.size <= CACHE_MAX {
      SumPut(c.entries, key, clip);
      EvictKeepsDrift(Cache(Put(c.entries, key, clip), c.bytes + clip.size));
    }
  }

  lemma {:induction false} ReplacedIsCounted(entries: seq<Entry>, key: string)
    ensures Replaced(entries, key) <= Sum(entries)
  {
    if entries != [] && entries[0].key != key {
      ReplacedIsCounted(entries[1..], key);
    }
  }

  /** A counter that is at least the sum and within the budget stays so. */
  lemma InsertKeepsCounter(c: Cache, key: string, clip: Clip)
    requires Drift(c) >= 0 && c.bytes <= CACHE_MAX
    ensures Drift(Insert(c, key, clip)) >= 0 && Insert(c, key, clip).bytes <= CACHE_MAX
  {
    InsertMovesDrift(c, key, clip);
    ReplacedIsCounted(c.entries, key);
    if clip.size <= CACHE_MAX {
      EvictKeepsDrift(Cache(Put(c.entries, key, clip), c.bytes + clip.size));
    }
  }

  ghost predicate Distinct(entries: seq<Entry>) {
    forall i, j :: 0 <= i < j < |entries| ==> entries[i].key != entries[j].key
  }

  lemma {:induction false} SumOfSuffix(entries: seq<Entry>, p: nat)
    requires p <= |entries|
    ensures Sum(entries[p..]) <= Sum(entries)
  {
    if p == 0 {
      assert entries[0..] == entries;
    } else {
      SumOfSuffix(entries[1..], p - 1);
      assert entries[1..][p - 1..] == entries[p..];
    }
  }

  /** Eviction from the front spares the entry at `p` exactly when that entry, those behind it
      and the drift fit the budget. */
  lemma {:induction false} SparedIff(c: Cache, p: nat)
    requires p < |c.entries|
    ensures |c.entries| - |Evict(c).entries| <= p <==> Drift(c) + Sum(c.entries[p..]) <= CACHE_MAX
    decreases |c.entries|
  {
    EvictKeepsDrift(c);
    SumOfSuffix(c.entries, p);
    if c.bytes > CACHE_MAX {
      var next := Cache(c.entries[1..], c.bytes - c.entries[0].clip.size);
      if p == 0 {
        assert c.entries[0..] == c.entries;
        EvictKeepsDrift(next);
      } else {
        assert next.entries[p - 1..] == c.entries[p..];
        SparedIff(next, p - 1);
      }
    }
  }

  lemma SuffixHasIff(entries: seq<Entry>, n: nat, p: nat)
    requires Distinct(entries) && n <= |entries| && p < |entries|
    ensures Has(entries[n..], entries[p].key) <==> n <= p
    ensures n <= p ==> entries[p] in entries[n..]
  {
    var rest, key := entries[n..], entries[p].key;
    assert forall i :: 0 <= i < |rest| ==> rest[i] == entries[n + i];
    if n <= p {
      assert rest[p - n] == entries[p];
    }
  }

  lemma PutAt(entries: seq<Entry>, key: string, clip: Clip)
    ensures var put := Put(entries, key, clip); var p := Position(entries, key);
      p < |put| && put[p] == Entry(key, clip)
    ensures Distinct(entries) ==> Distinct(Put(entries, key, clip))
  {
  }

  /** `Map.set` touches no other key, keeps a known key in its place and lists a new one last. */
  lemma PutIs(entries: seq<Entry>, key: string, clip: Clip)
    ensures var put := Put(entries, key, clip);
      if exists i :: 0 <= i < |entries| && entries[i].key == key then
        && |put| == |entries|
        && exists p :: 0 <= p < |entries| && entries[p].key == key && put == entries[p := Entry(key, clip)]
      else put == entries + [Entry(key, clip)]
  {
    var p := Position(entries, key);
    if p < |entries| {
      assert entries[p].key == key && Put(entries, key, clip) == entries[p := Entry(key, clip)];
    }
  }

  /** What an insertion leaves is all but the oldest entries, and no more of them go than must:
      the rest fits the budget together with the drift, and one entry more would not. */
  lemma InsertLeaves(c: Cache, key: string, clip: Clip) returns (n: nat)
    requires clip.size <= CACHE_MAX
    ensures var put, drift := Put(c.entries, key, clip), Drift(c) + Replaced(c.entries, key);
      && n <= |put| && Insert(c, key, clip).entries == put[n..]
      && (n < |put| ==> drift + Sum(put[n..]) <= CACHE_MAX)
      && (n > 0 ==> drift + Sum(put[n - 1..]) > CACHE_MAX)
  {
    hide Evict, Put, Sum;
    var put := Put(c.entries, key, clip);
    var mid := Cache(put, c.bytes + clip.size);
    SumPut(c.entries, key, clip);
    EvictKeepsDrift(mid);
    n := |put| - |Evict(mid).entries|;
    if n < |put| {
      SparedIff(mid, n);
    }
    if n > 0 {
      SparedIff(mid, n - 1);
    }
  }

  /** Every clip, older ones and the inserted one alike, is cached after an insertion exactly when
      it and all younger ones fit the budget together with the drift after the insertion. */
  lemma EverySurvivorIff(c: Cache, key: string, clip: Clip, i: nat)
    requires Distinct(c.entries) && clip.size <= CACHE_MAX && i < |Put(c.entries, key, clip)|
    ensures var put := Put(c.entries, key, clip);
      && (put[i] in Insert(c, key, clip).entries <==>
            Drift(c) + Replaced(c.entries, key) + Sum(put[i..]) <= CACHE_MAX)
      && (put[i] in Insert(c, key, clip).entries <==> Has(Insert(c, key, clip).entries, put[i].key))
  {
    hide Evict, Put, Sum, Position, Has, Distinct;
    var put := Put(c.entries, key, clip);
    var mid := Cache(put, c.bytes + clip.size);
    PutAt(c.entries, key, clip);
    SumPut(c.entries, key, clip);
    EvictKeepsDrift(mid);
    SparedIff(mid, i);
    SuffixHasIff(put, |put| - |Evict(mid).entries|, i);
    MemberHasKey(Evict(mid).entries, put[i]);
  }

  lemma MemberHasKey(entries: seq<Entry>, e: Entry)
    ensures e in entries ==> Has(entries, e.key)
  {
  }

  /** So an insertion that stays within the budget evicts nothing. */
  lemma NothingIsEvictedWithinTheBudget(c: Cache, key: string, clip: Clip)
    requires clip.size <= CACHE_MAX
    requires Drift(c) + Replaced(c.entries, key) + Sum(Put(c.entries, key, clip)) <= CACHE_MAX
    ensures Insert(c, key, clip).entries == Put(c.entries, key, clip)
  {
    hide Insert, Put, Sum;
    var put := Put(c.entries, key, clip);
    var n := InsertLeaves(c, key, clip);
    assert put[0..] == put;
    if n > 0 {
      SumOfSuffix(put, n - 1);
    }
  }

  /** A clip outlives its own insertion exactly when the entries from its place on, with the
      drift after the insertion, fit the budget. A clip that replaces one keeps the old place,
      with everything younger behind it. */
  lemma SurvivesIff(c: Cache, key: string, clip: Clip)
    requires Distinct(c.entries) && clip.size <= CACHE_MAX
    ensures var put := Put(c.entries, key, clip); var p := Position(c.entries, key);
      && p < |put|
      && (Has(Insert(c, key, clip).entries, key) <==>
            Drift(c) + Replaced(c.entries, key) + Sum(put[p..]) <= CACHE_MAX)
      && (Has(Insert(c, key, clip).entries, key) ==> Entry(key, clip) in Insert(c, key, clip).entries)
  {
    hide Evict, Put, Sum, Position, Has, Distinct;
    var put, p := Put(c.entries, key, clip), Position(c.entries, key);
    var mid := Cache(put, c.bytes + clip.size);
    PutAt(c.entries, key, clip);
    SumPut(c.entries, key, clip);
    EvictKeepsDrift(mid);
    SparedIff(mid, p);
    SuffixHasIff(put, |put| - |Evict(mid).entries|, p);
  }

  /** Under a new key, that is exactly when the drift leaves room for the clip alone. */
  lemma NewestSurvivesIff(c: Cache, key: string, clip: Clip)
    requires Distinct(c.entries) && !Has(c.entries, key) && clip.size <= CACHE_MAX
    ensures Has(Insert(c, key, clip).entries, key) <==> Drift(c) + clip.size <= CACHE_MAX
  {
    hide Insert, Drift;
    SurvivesIff(c, key, clip);
    var e := Entry(key, clip);
    assert (c.entries + [e])[|c.entries|..] == [e];
    assert [e][1..] == [];
  }

  /** Under a stored key room is not enough: a clip of two bytes that replaces the oldest one,
      of a single byte, in a full cache without drift is evicted by its own insertion. */
  lemma ReplacementIsEvicted(key: string, other: string, a: Clip, b: Clip, clip: Clip)
    requires key != other && a.size == 1 && b.size == CACHE_MAX - 1 && clip.size == 2
    ensures var c := Cache([Entry(key, a), Entry(other, b)], CACHE_MAX);
      && Drift(c) == 0 && Drift(c) + clip.size <= CACHE_MAX
      && !Has(Insert(c, key, clip).entries, key)
  {
    var entries := [Entry(key, a), Entry(other, b)];
    var c := Cache(entries, CACHE_MAX);
    PairSums(Entry(key, a), Entry(other, b));
    PairSums(Entry(key, clip), Entry(other, b));
    var put := Put(entries, key, clip);
    assert Position(entries, key) == 0 && put == [Entry(key, clip), Entry(other, b)];
    assert put[0..] == put;
    SurvivesIff(c, key, clip);
  }

  lemma PairSums(x: Entry, y: Entry)
    ensures Sum([x, y]) == x.clip.size + y.clip.size
  {
    assert [x, y][1..] == [y] && [y][1..] == [];
    assert Sum([y]) == y.clip.size;
  }

  // ── runs of overlapping calls ─────────────────────────────────────────

  datatype Event =
    | Begin(call: nat, key: string)
    | Finish(call: nat, clip: Clip)
    | Fail(call: nat)

  /** `waiting` holds the key of every call that missed and still synthesizes; `returned`
      lists what hits returned. */
  datatype World = World(cache: Cache, waiting: map<nat, string>, returned: seq<Entry>)

  const IDLE := World(Cache([], 0), map[], [])

  /** A call has one fresh number, ends once, and is answered with audio for its key. */
  predicate Enabled(w: World, e: Event) {
    match e
    case Begin(call, key) => call !in w.waiting
    case Finish(call, clip) => call in w.waiting && clip.source == w.waiting[call]
    case Fail(call) => call in w.waiting
  }

  function Step(w: World, e: Event): World
    requires Enabled(w, e)
  {
    match e
    case Begin(call, key) =>
      if Has(w.cache.entries, key) then
        w.(returned := w.returned + [Entry(key, w.cache.entries[Position(w.cache.entries, key)].clip)])
      else w.(waiting := w.waiting[call := key])
    case Finish(call, clip) =>
      w.(cache := Insert(w.cache, w.waiting[call], clip), waiting := w.waiting - {call})
    case Fail(call) => w.(waiting := w.waiting - {call})
  }

  ghost predicate Sourced(entries: seq<Entry>) {
    forall i :: 0 <= i < |entries| ==> entries[i].clip.source == entries[i].key
  }

  ghost predicate Sound(w: World) {
    && Drift(w.cache) >= 0 && w.cache.bytes <= CACHE_MAX
    && Sourced(w.cache.entries) && Sourced(w.returned) && Distinct(w.cache.entries)
  }

  lemma PutKeepsEntries(entries: seq<Entry>, key: string, clip: Clip)
    requires Sourced(entries) && Distinct(entries) && clip.source == key
    ensures Sourced(Put(entries, key, clip)) && Distinct(Put(entries, key, clip))
  {
  }

  lemma PutHas(entries: seq<Entry>, key: string, clip: Clip, k: string)
    ensures Has(Put(entries, key, clip), k) ==> k == key || Has(entries, k)
  {
    var mid := Put(entries, key, clip);
    var i := Position(mid, k);
    if i < |mid| && k != key {
      assert mid[i] == entries[i];
    }
  }

  lemma SuffixKeepsEntries(entries: seq<Entry>, n: nat)
    requires n <= |entries| && Sourced(entries) && Distinct(entries)
    ensures Sourced(entries[n..]) && Distinct(entries[n..])
  {
  }

  lemma SuffixHas(entries: seq<Entry>, n: nat, k: string)
    requires n <= |entries|
    ensures Has(entries[n..], k) ==> Has(entries, k)
  {
    var i := Position(entries[n..], k);
    if i < |entries[n..]| {
      assert entries[n + i].key == k;
    }
  }

  lemma InsertKeepsEntries(c: Cache, key: string, clip: Clip)
    requires Sourced(c.entries) && Distinct(c.entries) && clip.source == key
    ensures Sourced(Insert(c, key, clip).entries) && Distinct(Insert(c, key, clip).entries)
    ensures forall k :: Has(Insert(c, key, clip).entries, k) ==> k == key || Has(c.entries, k)
  {
    if clip.size <= CACHE_MAX {
      var mid := Put(c.entries, key, clip);
      EvictKeepsDrift(Cache(mid, c.bytes + clip.size));
      var n := |mid| - |Insert(c, key, clip).entries|;
      PutKeepsEntries(c.entries, key, clip);
      SuffixKeepsEntries(mid, n);
      forall k ensures Has(Insert(c, key, clip).entries, k) ==> k == key || Has(c.entries, k) {
        SuffixHas(mid, n, k);
        PutHas(c.entries, key, clip, k);
      }
    }
  }

  lemma StepKeepsSound(w: World, e: Event)
    requires Sound(w) && Enabled(w, e)
    ensures Sound(Step(w, e))
  {
    if e.Finish? {
      InsertKeepsCounter(w.cache, w.waiting[e.call], e.clip);
      InsertKeepsEntries(w.cache, w.waiting[e.call], e.clip);
    }
  }

  ghost predicate Runs(worlds: seq<World>, events: seq<Event>) {
    && |worlds| == |events| + 1 && worlds[0] == IDLE
    && forall i {:trigger events[i]} :: 0 <= i < |events| ==> Enabled(worlds[i], events[i]) && worlds[i + 1] == Step(worlds[i], events[i])
  }

  /** Over every interleaving of overlapping calls the counter is at least the real sum and
      within the budget, and every hit returned a clip made for its key. */
  lemma {:induction false} EveryRunIsSound(worlds: seq<World>, events: seq<Event>, i: nat)
    requires Runs(worlds, events) && i < |worlds|
    ensures Sound(worlds[i])
  {
    hide Sound;
    if i == 0 {
      IdleIsSound();
    } else {
      EveryRunIsSound(worlds, events, i - 1);
      assert Enabled(worlds[i - 1], events[i - 1]);
      StepKeepsSound(worlds[i - 1], events[i - 1]);
    }
  }

  lemma IdleIsSound()
    ensures Sound(IDLE)
  {
  }

  /** So the cached bytes and the drift share the budget, and the drift never goes down. */
  lemma {:induction false} DriftIsBoundedAndGrows(worlds: seq<World>, events: seq<Event>, i: nat, j: nat)
    requires Runs(worlds, events) && i <= j < |worlds|
    ensures 0 <= Drift(worlds[i].cache) <= Drift(worlds[j].cache) <= CACHE_MAX
    ensures Sum(worlds[j].cache.entries) <= CACHE_MAX - Drift(worlds[i].cache)
  {
    hide Insert;
    EveryRunIsSound(worlds, events, i);
    if i < j {
      DriftIsBoundedAndGrows(worlds, events, i, j - 1);
      EveryRunIsSound(worlds, events, j);
      var w, e := worlds[j - 1], events[j - 1];
      assert Enabled(w, e) && worlds[j] == Step(w, e);
      if e.Finish? {
        InsertMovesDrift(w.cache, w.waiting[e.call], e.clip);
      }
    }
  }

  /** Once the drift has left less room than a size, no clip of that size or more is held at any
      later moment of the run, under any key. */
  lemma DriftTakesRoomForGood(worlds: seq<World>, events: seq<Event>, i: nat, j: nat, size: nat)
    requires Runs(worlds, events) && i <= j < |worlds| && Drift(worlds[i].cache) > CACHE_MAX - size
    ensures forall e :: e in worlds[j].cache.entries ==> e.clip.size < size
  {
    hide Runs, Drift;
    DriftIsBoundedAndGrows(worlds, events, i, j);
    var entries := worlds[j].cache.entries;
    forall e | e in entries ensures e.clip.size < size {
      var p :| 0 <= p < |entries| && entries[p] == e;
      SumOfSuffix(entries, p);
    }
  }

  /** Two calls that miss the same key at the same time. */
  function Overlapping(key: string, a: Clip, b: Clip): seq<Event> {
    [Begin(0, key), Begin(1, key), Finish(0, a), Finish(1, b)]
  }

  /** That is how the drift comes about: from an empty cache it ends at the size of the first
      clip. With a first clip of 48 MB nothing but empty clips is ever cached again. */
  lemma OverlapDrifts(worlds: seq<World>, key: string, a: Clip, b: Clip)
    requires Runs(worlds, Overlapping(key, a, b)) && a.size <= CACHE_MAX && b.size <= CACHE_MAX
    ensures Drift(worlds[4].cache) == a.size
  {
    var events := Overlapping(key, a, b);
    assert worlds[1] == Step(worlds[0], events[0]);
    assert worlds[2] == Step(worlds[1], events[1]);
    assert worlds[3] == Step(worlds[2], events[2]);
    assert worlds[4] == Step(worlds[3], events[3]);
    FirstInsert(key, a);
    InsertMovesDrift(worlds[3].cache, key, b);
  }

  lemma FirstInsert(key: string, a: Clip)
    requires a.size <= CACHE_MAX
    ensures Insert(Cache([], 0), key, a) == Cache([Entry(key, a)], a.size)
    ensures Replaced([Entry(key, a)], key) == a.size && Sum([Entry(key, a)]) == a.size
  {
    assert [] + [Entry(key, a)] == [Entry(key, a)];
    assert [Entry(key, a)][1..] == [];
  }

  /** Such runs exist for all clips that were made for the key. */
  lemma OverlapHappens(key: string, a: Clip, b: Clip) returns (worlds: seq<World>)
    requires a.source == key && b.source == key && a.size <= CACHE_MAX && b.size <= CACHE_MAX
    ensures Runs(worlds, Overlapping(key, a, b))
  {
    var events := Overlapping(key, a, b);
    var w1 := Step(IDLE, events[0]);
    var w2 := Step(w1, events[1]);
    var w3 := Step(w2, events[2]);
    worlds := [IDLE, w1, w2, w3, Step(w3, events[3])];
  }

  /** No call begins for a key that another call is waiting for. */
  ghost predicate NoOverlap(worlds: seq<World>, events: seq<Event>)
    requires |worlds| == |events| + 1
  {
    forall i {:trigger events[i]} :: 0 <= i < |events| && events[i].Begin? ==> events[i].key !in worlds[i].waiting.Values
  }

  /** Waiting keys are all different and none of them is cached. */
  ghost predicate Separate(w: World) {
    && (forall a, b :: a in w.waiting && b in w.waiting && a != b ==> w.waiting[a] != w.waiting[b])
    && (forall a :: a in w.waiting ==> !Has(w.cache.entries, w.waiting[a]))
  }

  lemma SeparateStep(w: World, e: Event)
    requires Sound(w) && Separate(w) && Drift(w.cache) == 0 && Enabled(w, e)
    requires e.Begin? ==> e.key !in w.waiting.Values
    ensures Drift(Step(w, e).cache) == 0 && Separate(Step(w, e))
  {
    hide Insert, Position;
    if e.Finish? {
      InsertMovesDrift(w.cache, w.waiting[e.call], e.clip);
      InsertKeepsEntries(w.cache, w.waiting[e.call], e.clip);
    }
  }

  lemma {:induction false} WithoutOverlapTheCounterIsExact(worlds: seq<World>, events: seq<Event>, i: nat)
    requires Runs(worlds, events) && NoOverlap(worlds, events) && i < |worlds|
    ensures Drift(worlds[i].cache) == 0 && Separate(worlds[i])
  {
    if i > 0 {
      WithoutOverlapTheCounterIsExact(worlds, events, i - 1);
      EveryRunIsSound(worlds, events, i - 1);
      var w, e := worlds[i - 1], events[i - 1];
      assert Enabled(w, e) && worlds[i] == Step(w, e);
      SeparateStep(w, e);
    }
  }

  /** Then every clip that is cached at all survives the eviction of its own insertion. */
  lemma WithoutOverlapTheNewestSurvives(worlds: seq<World>, events: seq<Event>, i: nat)
    requires Runs(worlds, events) && NoOverlap(worlds, events) && i < |events|
    requires events[i].Finish? && events[i].clip.size <= CACHE_MAX
    ensures events[i].call in worlds[i].waiting
    ensures Has(worlds[i + 1].cache.entries, worlds[i].waiting[events[i].call])
  {
    hide Insert, Has;
    WithoutOverlapTheCounterIsExact(worlds, events, i);
    EveryRunIsSound(worlds, events, i);
    assert Enabled(worlds[i], events[i]) && worlds[i + 1] == Step(worlds[i], events[i]);
    NewestSurvivesIff(worlds[i].cache, worlds[i].waiting[events[i].call], events[i].clip);
  }
}
