/**
 * Rebuilding the Redis projection from history: two keyset loops over houses, the second writing
 * the newest reading of each house in the lookback window with the same compare-and-set as live ingestion.
 */
module Rebuild {
  import opened Common
  import opened Domain
  import opened Ordering
  import opened Telemetry
  import opened History
  import opened Projection
  import opened HouseStatus

  // ---------------------------------------------------------------------------------------
  // The page query: newest reading per house

  /** Houses with a reading at or after `since`. */
  function HousesSince(t: Tables, since: int): set<string> {
    set k <- t.readings | k.time >= since :: t.readings[k].houseId
  }

  /** The query's order: microsecond time, then seq. */
  predicate Later(a: ReadingKey, b: ReadingKey) {
    a.time > b.time || (a.time == b.time && a.seqNo > b.seqNo)
  }

  predicate Candidate(t: Tables, since: int, h: string, k: ReadingKey) {
    k in t.readings && t.readings[k].houseId == h && k.time >= since
  }

  ghost predicate IsNewest(t: Tables, since: int, h: string, k: ReadingKey) {
    Candidate(t, since, h, k) && forall k' <- t.readings :: Candidate(t, since, h, k') ==> !Later(k', k)
  }

  method NewestKey(t: Tables, since: int, h: string) returns (k: ReadingKey)
    requires h in HousesSince(t, since)
    ensures IsNewest(t, since, h, k)
  {
    k :| k in t.readings && Candidate(t, since, h, k);
    var todo := t.readings.Keys;
    while todo != {}
      invariant todo <= t.readings.Keys
      invariant Candidate(t, since, h, k)
      invariant forall k' <- t.readings :: k' !in todo && Candidate(t, since, h, k') ==> !Later(k', k)
      decreases |todo|
    {
      var next :| next in todo;
      todo := todo - {next};
      if Candidate(t, since, h, next) && Later(next, k) { k := next; }
    }
  }

  /** keys[i] is the newest reading of ids[i]. */
  ghost predicate NewestOf(t: Tables, since: int, ids: seq<string>, keys: seq<ReadingKey>) {
    |keys| == |ids| && forall i :: 0 <= i < |ids| ==> IsNewest(t, since, ids[i], keys[i])
  }

  /** The readings of one moment with the storage rows of another. */
  function Mixed(t: Tables, u: Tables): Tables {
    Tables(t.readings, u.assets)
  }

  /** A house's newest reading, and the tables it was put together from. */
  datatype Pick = Pick(t: Tables, id: string, key: ReadingKey)

  ghost predicate Loadable(xs: seq<Pick>) {
    forall i :: 0 <= i < |xs| ==> xs[i].key in xs[i].t.readings
  }

  ghost predicate LoadedFrom(xs: seq<Pick>, out: seq<MeterReading>) {
    |out| == |xs| && Loadable(xs) && forall i :: 0 <= i < |xs| ==> out[i] == Selected(LoadReading(xs[i].t, xs[i].key))
  }

  /** The page query does not select the weather columns, which the projection has no use for. */
  function Selected(r: MeterReading): MeterReading {
    r.(irradiance := None, cloudCover := None)
  }

  /** One row of the page query, its assets still missing. */
  function SelectRow(t: Tables, k: ReadingKey): (r: MeterReading)
    requires k in t.readings
    ensures r == Selected(LoadReading(t, k)).(assets := [])
  {
    var row := t.readings[k];
    MeterReading(row.schemaVersion, k.meterId, row.houseId, row.gridId, row.deviceClass, k.time, k.seqNo,
                 row.solarKw, row.consumptionKw, row.netKw, [], None, None)
  }

  /** The parent rows of a page, their assets still missing. */
  method NewestRows(t: Tables, since: int, ids: seq<string>)
    returns (out: seq<MeterReading>, ghost keys: seq<ReadingKey>)
    requires forall i :: 0 <= i < |ids| ==> ids[i] in HousesSince(t, since)
    ensures NewestOf(t, since, ids, keys) && |out| == |ids|
    ensures forall j :: 0 <= j < |out| ==>
              keys[j] in t.readings && out[j] == SelectRow(t, keys[j])
  {
    out, keys := [], [];
    for i := 0 to |ids|
      invariant |out| == |keys| == i
      invariant forall j :: 0 <= j < i ==> IsNewest(t, since, ids[j], keys[j])
      invariant forall j :: 0 <= j < i ==> out[j] == SelectRow(t, keys[j])
    {
      var k := NewestKey(t, since, ids[i]);
      out := out + [SelectRow(t, k)];
      keys := keys + [k];
    }
  }

  lemma PageInTable(ids: set<string>, after: string, limit: nat)
    ensures forall i :: 0 <= i < |Page(ids, after, limit)| ==> Page(ids, after, limit)[i] in ids
  {
    PageIsPage(ids, after, limit);
    assert forall i :: 0 <= i < |Page(ids, after, limit)| ==> Page(ids, after, limit)[i] in Page(ids, after, limit);
  }

  /** What the statements of a page find: the rows at one moment, the storage rows of each at its own later one. */
  ghost function PicksOf(history: nat -> Tables, at: nat, ids: seq<string>, keys: seq<ReadingKey>): seq<Pick>
    requires |ids| == |keys|
  {
    seq(|ids|, i requires 0 <= i < |ids| => Pick(Mixed(history(at), history(at + 1 + i)), ids[i], keys[i]))
  }

  lemma PicksLoadable(history: nat -> Tables, at: nat, since: int, ids: seq<string>, keys: seq<ReadingKey>)
    requires NewestOf(history(at), since, ids, keys)
    ensures Loadable(PicksOf(history, at, ids, keys))
  {
    var xs := PicksOf(history, at, ids, keys);
    forall i | 0 <= i < |xs| ensures xs[i].key in xs[i].t.readings {
      assert xs[i] == Pick(Mixed(history(at), history(at + 1 + i)), ids[i], keys[i]);
      assert IsNewest(history(at), since, ids[i], keys[i]);
    }
  }

  /** Reads the storage assets of each row, every one in a statement of its own, and fills them in. */
  method FillAssets(history: nat -> Tables, at: nat, rows: seq<MeterReading>, ghost ids: seq<string>,
                    ghost keys: seq<ReadingKey>)
    returns (out: seq<MeterReading>)
    requires |rows| == |ids| == |keys| && Loadable(PicksOf(history, at, ids, keys))
    requires forall j :: 0 <= j < |rows| ==>
               keys[j] in history(at).readings && rows[j] == SelectRow(history(at), keys[j])
    ensures LoadedFrom(PicksOf(history, at, ids, keys), out)
  {
    out := rows;
    ghost var xs := PicksOf(history, at, ids, keys);
    for i := 0 to |out|
      invariant |out| == |rows|
      invariant forall j :: 0 <= j < i ==> out[j] == Selected(LoadReading(xs[j].t, xs[j].key))
      invariant forall j :: i <= j < |out| ==> out[j] == rows[j]
    {
      var u := history(at + 1 + i);
      assert xs[i] == Pick(Mixed(history(at), u), ids[i], keys[i]);
      out := out[i := out[i].(assets := AssetsAt(u.assets, out[i].eventTime, out[i].meterId))];
    }
  }

  /** The ids of a page, as the statement at that moment finds them. */
  function PageIds(history: nat -> Tables, at: nat, since: int, after: string, limit: nat): seq<string> {
    Page(HousesSince(history(at), since), after, limit)
  }

  lemma LoadedIds(history: nat -> Tables, at: nat, since: int, ids: seq<string>, keys: seq<ReadingKey>,
                  out: seq<MeterReading>)
    requires NewestOf(history(at), since, ids, keys) && LoadedFrom(PicksOf(history, at, ids, keys), out)
    ensures |out| == |ids|
    ensures forall i :: 0 <= i < |out| ==> out[i].houseId == ids[i] && out[i].eventTime >= since
  {
    var xs := PicksOf(history, at, ids, keys);
    forall i | 0 <= i < |out| ensures out[i].houseId == ids[i] && out[i].eventTime >= since {
      assert IsNewest(history(at), since, ids[i], keys[i]);
      assert xs[i] == Pick(Mixed(history(at), history(at + 1 + i)), ids[i], keys[i]);
    }
  }

  /**
   * One page: the parent rows in one statement, then the storage assets of each row in a statement of its own.
   * `history` gives the tables each statement finds.
   */
  method LatestReadingsPage(history: nat -> Tables, at: nat, since: int, after: string, limit: nat)
    returns (out: seq<MeterReading>, ghost keys: seq<ReadingKey>)
    ensures NewestOf(history(at), since, PageIds(history, at, since, after, limit), keys)
    ensures LoadedFrom(PicksOf(history, at, PageIds(history, at, since, after, limit), keys), out)
    ensures |out| == |PageIds(history, at, since, after, limit)|
    ensures forall i :: 0 <= i < |out| ==>
              out[i].houseId == PageIds(history, at, since, after, limit)[i] && out[i].eventTime >= since
  {
    var t := history(at);
    var ids := PageIds(history, at, since, after, limit);
    PageInTable(HousesSince(t, since), after, limit);
    var rows;
    rows, keys := NewestRows(t, since, ids);
    PicksLoadable(history, at, since, ids, keys);
    out := FillAssets(history, at, rows, ids, keys);
    LoadedIds(history, at, since, ids, keys, out);
  }

  // ---------------------------------------------------------------------------------------
  // Walking a table that grows

  /**
   * Everything listed so far, in order and once each, reaches the cursor and misses nothing that was present from the
   * start.
   */
  ghost predicate Walked(ids: seq<string>, after: string, present: set<string>) {
    && Ascending(ids)
    && after == (if ids == [] then "" else ids[|ids| - 1])
    && forall x <- present :: x == "" || x in ids || Less(after, x)
  }

  lemma WalkBegins(present: set<string>)
    ensures Walked([], "", present)
  {
    forall x <- present | x != "" ensures Less("", x) { LessTotal("", x); }
  }

  lemma WalkAscends(ids: seq<string>, page: seq<string>, after: string)
    requires Ascending(ids) && Ascending(page) && after == (if ids == [] then "" else ids[|ids| - 1])
    requires forall x <- page :: Less(after, x)
    ensures Ascending(ids + page)
  {
    forall i, j | 0 <= i < |ids| && 0 <= j < |page| ensures Less(ids[i], page[j]) {
      assert page[j] in page;
      if i < |ids| - 1 { LessTransitive(ids[i], after, page[j]); }
    }
  }

  /** A page moves the walk on; an empty one ends it with nothing missed. */
  lemma WalkStep(ids: seq<string>, after: string, present: set<string>, table: set<string>, limit: nat)
    requires Walked(ids, after, present) && present <= table && limit > 0
    ensures forall x <- Page(table, after, limit) :: x in table && Less(after, x)
    ensures Page(table, after, limit) != [] ==>
              Walked(ids + Page(table, after, limit), Page(table, after, limit)[|Page(table, after, limit)| - 1],
                     present)
    ensures Page(table, after, limit) == [] ==> forall x <- present :: x == "" || x in ids
  {
    var page := Page(table, after, limit);
    PageIsPage(table, after, limit);
    WalkAscends(ids, page, after);
    if page != [] {
      var last := page[|page| - 1];
      assert last in page && (ids + page)[|ids + page| - 1] == last;
      forall x <- present ensures x == "" || x in ids + page || Less(last, x) {
        if x != "" && x !in ids && x !in page { assert Less(after, x); }
      }
    }
  }

  /** What the walk may still meet. */
  ghost function Ahead(universe: set<string>, after: string): set<string> {
    set x <- universe | Less(after, x)
  }

  lemma WalkShrinks(universe: set<string>, after: string, last: string)
    requires last in universe && Less(after, last)
    ensures Ahead(universe, last) < Ahead(universe, after)
  {
    forall x <- Ahead(universe, last) ensures x in Ahead(universe, after) { LessTransitive(after, last, x); }
    LessIrreflexive(last);
    assert last in Ahead(universe, after) && last !in Ahead(universe, last);
  }

  /** One page of the walk: it moves on and nears its end, or it is over and missed nothing. */
  lemma WalkPage(ids: seq<string>, after: string, present: set<string>, table: set<string>, universe: set<string>,
                 limit: nat, page: seq<string>)
    requires Walked(ids, after, present) && present <= table <= universe && limit > 0
             && page == Page(table, after, limit)
    ensures Ascending(ids + page)
    ensures page == [] ==> forall x <- present :: x == "" || x in ids
    ensures page != [] ==> Walked(ids + page, page[|page| - 1], present)
                           && Ahead(universe, page[|page| - 1]) < Ahead(universe, after)
  {
    PageIsPage(table, after, limit);
    WalkStep(ids, after, present, table, limit);
    WalkAscends(ids, page, after);
    if page != [] {
      assert page[|page| - 1] in page;
      WalkShrinks(universe, after, page[|page| - 1]);
    }
  }

  // ---------------------------------------------------------------------------------------
  // First loop: memberships and statuses

  datatype Result = Result(houses: nat, memberships: nat, statusRestored: nat, latest: nat, latestApplied: nat)

  const DEFAULT_PAGE_SIZE := 500

  function PageLimit(requested: int): (limit: nat)
    ensures limit > 0
    ensures requested > 0 ==> limit == requested
    ensures requested <= 0 ==> limit == 500
  {
    if requested <= 0 then DEFAULT_PAGE_SIZE else requested
  }

  /** A house as the first loop reads it. */
  datatype HouseInfo = HouseInfo(gridId: string, lastHeartbeatAt: Option<int>)

  type Houses = map<string, HouseInfo>

  /** When each house is written, and the time the rebuild took as its own. */
  datatype Clocks = Clocks(now: int, write: string -> int)

  /** Which page reads and which writes fail. */
  datatype Faults = Faults(read: nat -> bool, add: string -> bool, restore: string -> bool, publish: string -> bool)

  datatype Visited = Visited(id: string, info: HouseInfo)

  predicate Restorable(info: HouseInfo, now: int) {
    info.lastHeartbeatAt.Some? && Remaining(info.lastHeartbeatAt.value, now) >= SECOND
  }

  ghost function Ids(xs: seq<Visited>): seq<string> {
    seq(|xs|, i requires 0 <= i < |xs| => xs[i].id)
  }

  /** Houses of the list whose window is still open. */
  function OpenWindows(xs: seq<Visited>, now: int): nat {
    if xs == [] then 0 else OpenWindows(xs[..|xs| - 1], now) + if Restorable(xs[|xs| - 1].info, now) then 1 else 0
  }

  /** One write to Redis: the rebuild's membership, the status it restores, or a live heartbeat. */
  datatype HouseWrite =
    | Join(gridId: string, id: string)
    | Revive(gridId: string, id: string, last: int, clock: int)
    | Beat(gridId: string, id: string, at: int, clock: int)

  type LiveBeat = w: HouseWrite | w.Beat? witness Beat("", "", 0, 0)

  datatype Redis = Redis(members: set<(string, string)>, statuses: Statuses)

  function Put(s: Redis, w: HouseWrite, now: int): Redis {
    match w
    case Join(g, h) => s.(members := s.members + {(g, h)})
    case Revive(g, h, last, clock) =>
      var (statuses, restored) := Restore(s.statuses, h, last, now, clock);
      Redis(if restored then s.members + {(g, h)} else s.members, statuses)
    case Beat(g, h, at, clock) => Redis(s.members + {(g, h)}, Update(s.statuses, h, at, clock))
  }

  function PutAll(s: Redis, ws: seq<HouseWrite>, now: int): Redis {
    if ws == [] then s else Put(PutAll(s, ws[..|ws| - 1], now), ws[|ws| - 1], now)
  }

  /** The write sets its house's status. */
  predicate Shows(w: HouseWrite, now: int) {
    w.Beat? || (w.Revive? && Remaining(w.last, now) >= SECOND)
  }

  function Shown(w: HouseWrite, now: int): Status
    requires Shows(w, now)
  {
    match w
    case Beat(_, _, at, clock) => Status(at / SECOND, clock + HEARTBEAT_TTL)
    case Revive(_, _, last, clock) => Status(last / SECOND, RestoredExpiry(last, now, clock))
  }

  /** However the writes interleave, a house's status is what the last write to it said. */
  lemma {:induction false} LastWriteShows(s: Redis, ws: seq<HouseWrite>, now: int, i: nat)
    requires i < |ws| && Shows(ws[i], now)
    requires forall j :: i < j < |ws| && ws[j].id == ws[i].id ==> !Shows(ws[j], now)
    ensures var m := PutAll(s, ws, now).statuses; ws[i].id in m && m[ws[i].id] == Shown(ws[i], now)
  {
    assert HEARTBEAT_TTL / SECOND * SECOND == HEARTBEAT_TTL;
    if i < |ws| - 1 { LastWriteShows(s, ws[..|ws| - 1], now, i); }
  }

  ghost predicate SameStatus(m: Statuses, n: Statuses, h: string) {
    (h in m <==> h in n) && (h in m ==> m[h] == n[h])
  }

  lemma {:induction false} UnwrittenKept(s: Redis, ws: seq<HouseWrite>, now: int, h: string)
    requires forall j :: 0 <= j < |ws| && ws[j].id == h ==> !Shows(ws[j], now)
    ensures SameStatus(PutAll(s, ws, now).statuses, s.statuses, h)
  {
    if ws != [] { UnwrittenKept(s, ws[..|ws| - 1], now, h); }
  }

  /** Exactly the writes make members. */
  lemma {:induction false} MembersExact(s: Redis, ws: seq<HouseWrite>, now: int, g: string, h: string)
    ensures (g, h) in PutAll(s, ws, now).members <==>
            (g, h) in s.members || exists w <- ws :: w.gridId == g && w.id == h && (w.Join? || Shows(w, now))
  {
    if ws != [] {
      var n := |ws| - 1;
      MembersExact(s, ws[..n], now, g, h);
      assert forall w :: w in ws <==> w in ws[..n] || w == ws[n];
    }
  }

  /** The rebuild's own writes for a house: the membership, then the status if there is one. */
  function WritesOf(x: Visited, c: Clocks): seq<HouseWrite> {
    [Join(x.info.gridId, x.id)]
    + if x.info.lastHeartbeatAt.None? then []
      else [Revive(x.info.gridId, x.id, x.info.lastHeartbeatAt.value, c.write(x.id))]
  }

  function WritesFor(xs: seq<Visited>, c: Clocks): seq<HouseWrite> {
    if xs == [] then [] else WritesFor(xs[..|xs| - 1], c) + WritesOf(xs[|xs| - 1], c)
  }

  /** The rebuild's own writes among all. */
  ghost function OwnWrites(log: seq<HouseWrite>): seq<HouseWrite> {
    if log == [] then []
    else OwnWrites(log[..|log| - 1]) + if log[|log| - 1].Beat? then [] else [log[|log| - 1]]
  }

  lemma {:induction false} OwnAmongAll(log: seq<HouseWrite>, w: HouseWrite)
    ensures w in OwnWrites(log) <==> w in log && !w.Beat?
  {
    if log != [] {
      OwnAmongAll(log[..|log| - 1], w);
      assert log == log[..|log| - 1] + [log[|log| - 1]];
    }
  }

  lemma {:induction false} WritesOfVisits(xs: seq<Visited>, c: Clocks, w: HouseWrite)
    ensures w in WritesFor(xs, c) <==> exists i :: 0 <= i < |xs| && w in WritesOf(xs[i], c)
  {
    if xs != [] {
      var n := |xs| - 1;
      WritesOfVisits(xs[..n], c, w);
      if i :| 0 <= i < |xs| && w in WritesOf(xs[i], c) {
        assert i == n || w in WritesOf(xs[..n][i], c);
      }
    }
  }

  ghost predicate OwnFor(log: seq<HouseWrite>, xs: seq<Visited>, c: Clocks) {
    OwnWrites(log) == WritesFor(xs, c)
  }

  /** A house that was neither visited nor heard from keeps its memberships and its status. */
  lemma UnvisitedKept(s: Redis, log: seq<HouseWrite>, xs: seq<Visited>, c: Clocks, h: string)
    requires OwnFor(log, xs, c) && (forall i :: 0 <= i < |xs| ==> xs[i].id != h)
    requires forall w <- log :: w.Beat? ==> w.id != h
    ensures forall g :: (g, h) in PutAll(s, log, c.now).members <==> (g, h) in s.members
    ensures SameStatus(PutAll(s, log, c.now).statuses, s.statuses, h)
  {
    forall w <- log ensures w.id != h {
      OwnAmongAll(log, w);
      WritesOfVisits(xs, c, w);
    }
    UnwrittenKept(s, log, c.now, h);
    forall g ensures (g, h) in PutAll(s, log, c.now).members <==> (g, h) in s.members {
      MembersExact(s, log, c.now, g, h);
    }
  }

  /** With no house visited twice, the writes for the i-th are those of its own visit. */
  lemma OwnOfVisit(log: seq<HouseWrite>, xs: seq<Visited>, c: Clocks, i: nat, w: HouseWrite)
    requires OwnFor(log, xs, c) && Ascending(Ids(xs)) && i < |xs| && w.id == xs[i].id && !w.Beat?
    ensures w in log <==> w in WritesOf(xs[i], c)
  {
    OwnAmongAll(log, w);
    WritesOfVisits(xs, c, w);
    if w in log {
      var j :| 0 <= j < |xs| && w in WritesOf(xs[j], c);
      LessIrreflexive(xs[i].id);
      assert Ids(xs)[j] == xs[j].id && Ids(xs)[i] == xs[i].id;
    }
  }

  /** The i-th house visited is a member of its own grid, and of no other that it was not in and did not report from. */
  lemma VisitJoins(s: Redis, log: seq<HouseWrite>, xs: seq<Visited>, c: Clocks, i: nat, g: string)
    requires OwnFor(log, xs, c) && Ascending(Ids(xs)) && i < |xs|
    ensures (g, xs[i].id) in PutAll(s, log, c.now).members <==>
            || (g, xs[i].id) in s.members
            || g == xs[i].info.gridId
            || exists w <- log :: w.Beat? && w.gridId == g && w.id == xs[i].id
  {
    var h := xs[i].id;
    MembersExact(s, log, c.now, g, h);
    OwnOfVisit(log, xs, c, i, Join(xs[i].info.gridId, h));
    forall w <- log | w.id == h && !w.Beat? ensures w.gridId == xs[i].info.gridId { OwnOfVisit(log, xs, c, i, w); }
  }

  /**
   * What the first loop leaves for the i-th house visited, if no heartbeat of it came meanwhile: the restored status
   * exactly while its liveness window is open, otherwise the status it had.
   */
  lemma VisitExact(s: Redis, log: seq<HouseWrite>, xs: seq<Visited>, c: Clocks, i: nat)
    requires OwnFor(log, xs, c) && Ascending(Ids(xs)) && i < |xs|
    requires forall w <- log :: w.Beat? ==> w.id != xs[i].id
    ensures var m, h := PutAll(s, log, c.now).statuses, xs[i].id;
            if Restorable(xs[i].info, c.now)
            then h in m && m[h] == Restore(s.statuses, h, xs[i].info.lastHeartbeatAt.value, c.now, c.write(h)).0[h]
            else SameStatus(m, s.statuses, h)
  {
    var h := xs[i].id;
    forall w <- log | w.id == h ensures w in WritesOf(xs[i], c) { OwnOfVisit(log, xs, c, i, w); }
    if Restorable(xs[i].info, c.now) {
      var w := Revive(xs[i].info.gridId, h, xs[i].info.lastHeartbeatAt.value, c.write(h));
      OwnOfVisit(log, xs, c, i, w);
      var j := LastOf(log, w);
      LastWriteShows(s, log, c.now, j);
    } else {
      UnwrittenKept(s, log, c.now, h);
    }
  }

  lemma {:induction false} LastOf(log: seq<HouseWrite>, w: HouseWrite) returns (j: nat)
    requires w in log
    ensures j < |log| && log[j] == w && forall k :: j < k < |log| ==> log[k] != w
  {
    j := |log| - 1;
    if log[j] != w { j := LastOf(log[..j], w); }
  }

  /** Redis is what the writes make of it, and every heartbeat among them came from live ingestion. */
  ghost predicate HouseLogged(s: Redis, live: nat -> seq<LiveBeat>, log: seq<HouseWrite>, now: int, current: Redis) {
    current == PutAll(s, log, now) && forall w <- log :: w.Beat? ==> exists n: nat :: w in live(n)
  }

  lemma LogWrite(s: Redis, live: nat -> seq<LiveBeat>, log: seq<HouseWrite>, now: int, current: Redis, w: HouseWrite)
    requires HouseLogged(s, live, log, now, current) && (w.Beat? ==> exists n: nat :: w in live(n))
    ensures HouseLogged(s, live, log + [w], now, Put(current, w, now))
    ensures OwnWrites(log + [w]) == OwnWrites(log) + if w.Beat? then [] else [w]
  {
    var more := log + [w];
    assert more[..|more| - 1] == log && more[|more| - 1] == w;
  }

  /** Live ingestion writes heartbeats meanwhile. */
  method LetBeats(store: HouseStore, live: nat -> seq<LiveBeat>, n: nat, now: int, ghost s: Redis,
                  ghost log: seq<HouseWrite>)
    returns (ghost log': seq<HouseWrite>)
    requires HouseLogged(s, live, log, now, Redis(store.members, store.statuses))
    modifies store
    ensures HouseLogged(s, live, log', now, Redis(store.members, store.statuses)) && OwnWrites(log') == OwnWrites(log)
  {
    log' := log;
    for i := 0 to |live(n)|
      invariant HouseLogged(s, live, log', now, Redis(store.members, store.statuses))
                && OwnWrites(log') == OwnWrites(log)
    {
      var w := live(n)[i];
      assert w in live(n);
      LogWrite(s, live, log', now, Redis(store.members, store.statuses), w);
      store.UpdateHeartbeat(w.gridId, w.id, w.at, w.clock);
      log' := log' + [w];
    }
  }

  /** Read from some page's snapshot; the status part is missing only where its write failed. */
  ghost predicate FromSnapshot(snaps: nat -> Houses, x: Visited, whole: bool) {
    exists p: nat :: x.id in snaps(p) && InfoOf(snaps(p)[x.id], x.info, whole)
  }

  predicate InfoOf(row: HouseInfo, info: HouseInfo, whole: bool) {
    info == row || (!whole && info == row.(lastHeartbeatAt := None))
  }

  /** SADD. */
  method JoinGrid(store: HouseStore, h: string, info: HouseInfo, now: int, live: nat -> seq<LiveBeat>, ghost s: Redis,
                  ghost log: seq<HouseWrite>)
    returns (ghost log': seq<HouseWrite>)
    requires HouseLogged(s, live, log, now, Redis(store.members, store.statuses))
    modifies store
    ensures HouseLogged(s, live, log', now, Redis(store.members, store.statuses))
    ensures OwnWrites(log') == OwnWrites(log) + [Join(info.gridId, h)]
  {
    LogWrite(s, live, log, now, Redis(store.members, store.statuses), Join(info.gridId, h));
    store.AddHouseToGrid(info.gridId, h);
    log' := log + [Join(info.gridId, h)];
  }

  method ReviveStatus(store: HouseStore, h: string, g: string, last: int, c: Clocks, live: nat -> seq<LiveBeat>,
                      ghost s: Redis, ghost log: seq<HouseWrite>)
    returns (restored: bool, ghost log': seq<HouseWrite>)
    requires HouseLogged(s, live, log, c.now, Redis(store.members, store.statuses))
    modifies store
    ensures HouseLogged(s, live, log', c.now, Redis(store.members, store.statuses))
    ensures OwnWrites(log') == OwnWrites(log) + [Revive(g, h, last, c.write(h))]
    ensures restored <==> Remaining(last, c.now) >= SECOND
  {
    LogWrite(s, live, log, c.now, Redis(store.members, store.statuses), Revive(g, h, last, c.write(h)));
    restored := store.RestoreHeartbeat(g, h, last, c.now, c.write(h));
    log' := log + [Revive(g, h, last, c.write(h))];
  }

  /** One house: SADD, then the status if there is one, live ingestion writing before each. */
  method VisitOne(store: HouseStore, h: string, info: HouseInfo, c: Clocks, f: Faults, before: nat,
                  live: nat -> seq<LiveBeat>, n: nat, ghost s: Redis, ghost log: seq<HouseWrite>)
    returns (ok: bool, joined: bool, restored: nat, ghost done: Option<Visited>, ghost log': seq<HouseWrite>)
    requires HouseLogged(s, live, log, c.now, Redis(store.members, store.statuses))
    modifies store
    ensures joined <==> done.Some?
    ensures ok ==> joined
    ensures joined ==> done.value.id == h && InfoOf(info, done.value.info, ok)
    ensures !ok ==> f.add(h) || f.restore(h)
    ensures HouseLogged(s, live, log', c.now, Redis(store.members, store.statuses))
    ensures OwnWrites(log') == OwnWrites(log) + if joined then WritesOf(done.value, c) else []
    ensures restored == before + if joined && Restorable(done.value.info, c.now) then 1 else 0
  {
    restored, joined, done := before, false, None;
    log' := LetBeats(store, live, 2 * n, c.now, s, log);
    if f.add(h) { return false, joined, restored, done, log'; }
    log' := JoinGrid(store, h, info, c.now, live, s, log');
    joined, done := true, Some(Visited(h, info.(lastHeartbeatAt := None)));
    if info.lastHeartbeatAt.Some? {
      log' := LetBeats(store, live, 2 * n + 1, c.now, s, log');
      if f.restore(h) { return false, joined, restored, done, log'; }
      var wrote;
      wrote, log' := ReviveStatus(store, h, info.gridId, info.lastHeartbeatAt.value, c, live, s, log');
      if wrote { restored := restored + 1; }
    }
    ok, done := true, Some(Visited(h, info));
  }

  /** The rebuild's part of the log, and its counter, after some visits. */
  ghost predicate Visits(xs: seq<Visited>, c: Clocks, dryRun: bool, own: seq<HouseWrite>, restored: nat) {
    if dryRun then own == [] && restored == 0 else own == WritesFor(xs, c) && restored == OpenWindows(xs, c.now)
  }

  lemma VisitsGrow(xs: seq<Visited>, c: Clocks, own: seq<HouseWrite>, restored: nat, x: Visited)
    requires Visits(xs, c, false, own, restored)
    ensures Visits(xs + [x], c, false, own + WritesOf(x, c), restored + if Restorable(x.info, c.now) then 1 else 0)
  {
    assert (xs + [x])[..|xs|] == xs;
  }

  /** What the first loop has done so far. */
  ghost predicate HousesDone(snaps: nat -> Houses, live: nat -> seq<LiveBeat>, s: Redis, xs: seq<Visited>,
                             log: seq<HouseWrite>, c: Clocks, dryRun: bool, ok: bool, current: Redis, restored: nat) {
    && VisitsOk(snaps, xs, ok)
    && HouseLogged(s, live, log, c.now, current)
    && Visits(xs, c, dryRun, OwnWrites(log), restored)
  }

  /** The visits so far came from the snapshots, in ascending order. */
  ghost predicate VisitsOk(snaps: nat -> Houses, xs: seq<Visited>, whole: bool) {
    Ascending(Ids(xs)) && forall i :: 0 <= i < |xs| ==> FromSnapshot(snaps, xs[i], whole || i < |xs| - 1)
  }

  lemma PartlyOk(snaps: nat -> Houses, xs: seq<Visited>)
    requires VisitsOk(snaps, xs, true)
    ensures VisitsOk(snaps, xs, false)
  {
    forall i | 0 <= i < |xs| ensures FromSnapshot(snaps, xs[i], false) {
      assert FromSnapshot(snaps, xs[i], true);
    }
  }

  lemma VisitsExtend(snaps: nat -> Houses, xs: seq<Visited>, p: nat, x: Visited, ok: bool)
    requires VisitsOk(snaps, xs, true) && Ascending(Ids(xs) + [x.id])
    requires x.id in snaps(p) && InfoOf(snaps(p)[x.id], x.info, ok)
    ensures VisitsOk(snaps, xs + [x], ok) && Ids(xs + [x]) == Ids(xs) + [x.id]
  {
    var all := xs + [x];
    assert Ids(all) == Ids(xs) + [x.id];
    forall i | 0 <= i < |all| ensures FromSnapshot(snaps, all[i], ok || i < |all| - 1) {
      if i < |xs| { assert FromSnapshot(snaps, xs[i], true); }
    }
  }

  lemma PrefixAscends(ids: seq<string>, page: seq<string>, i: nat)
    requires Ascending(ids + page) && i < |page|
    ensures Ascending(ids + page[..i] + [page[i]]) && ids + page[..i] + [page[i]] == ids + page[..i + 1]
  {
    assert ids + page[..i] + [page[i]] == (ids + page)[..|ids| + i + 1];
  }

  /** Visits one house, or only counts it. */
  method VisitNext(snaps: nat -> Houses, p: nat, store: HouseStore, h: string, c: Clocks, f: Faults, dryRun: bool,
                   before: nat, live: nat -> seq<LiveBeat>, n: nat, ghost s: Redis, ghost xs: seq<Visited>,
                   ghost log: seq<HouseWrite>)
    returns (ok: bool, joined: bool, restored: nat, ghost xs': seq<Visited>, ghost log': seq<HouseWrite>)
    requires h in snaps(p) && Ascending(Ids(xs) + [h])
    requires HousesDone(snaps, live, s, xs, log, c, dryRun, true, Redis(store.members, store.statuses), before)
    modifies store
    ensures HousesDone(snaps, live, s, xs', log', c, dryRun, ok, Redis(store.members, store.statuses), restored)
    ensures |xs'| == |xs| + (if joined then 1 else 0) && (ok ==> joined && Ids(xs') == Ids(xs) + [h])
  {
    var info := snaps(p)[h];
    if dryRun {
      VisitsExtend(snaps, xs, p, Visited(h, info), true);
      log' := LetBeats(store, live, 2 * n, c.now, s, log);
      return true, true, before, xs + [Visited(h, info)], log';
    }
    ghost var done;
    ok, joined, restored, done, log' := VisitOne(store, h, info, c, f, before, live, n, s, log);
    if joined {
      VisitsExtend(snaps, xs, p, done.value, ok);
      VisitsGrow(xs, c, OwnWrites(log), before, done.value);
      xs' := xs + [done.value];
    } else {
      PartlyOk(snaps, xs);
      xs' := xs;
    }
  }

  method VisitPage(snaps: nat -> Houses, p: nat, store: HouseStore, page: seq<string>, c: Clocks, f: Faults,
                   dryRun: bool, before: nat, live: nat -> seq<LiveBeat>, n: nat, ghost s: Redis,
                   ghost xs: seq<Visited>, ghost log: seq<HouseWrite>)
    returns (ok: bool, started: nat, added: nat, restored: nat, ghost xs': seq<Visited>, ghost log': seq<HouseWrite>)
    requires (forall i :: 0 <= i < |page| ==> page[i] in snaps(p)) && Ascending(Ids(xs) + page)
    requires HousesDone(snaps, live, s, xs, log, c, dryRun, true, Redis(store.members, store.statuses), before)
    modifies store
    ensures HousesDone(snaps, live, s, xs', log', c, dryRun, ok, Redis(store.members, store.statuses), restored)
    ensures |xs'| == |xs| + added && (started == added || (!ok && started == added + 1))
    ensures ok ==> started == |page| && Ids(xs') == Ids(xs) + page
  {
    ok, started, added, restored, xs', log' := true, 0, 0, before, xs, log;
    for i := 0 to |page|
      invariant ok && started == added == i && |xs'| == |xs| + i && Ids(xs') == Ids(xs) + page[..i]
      invariant HousesDone(snaps, live, s, xs', log', c, dryRun, true, Redis(store.members, store.statuses), restored)
    {
      started := started + 1;
      PrefixAscends(Ids(xs), page, i);
      var joined;
      ok, joined, restored, xs', log' :=
        VisitNext(snaps, p, store, page[i], c, f, dryRun, restored, live, n + i, s, xs', log');
      if joined { added := added + 1; }
      if !ok { return; }
    }
    assert page[..|page|] == page;
  }

  /**
   * First loop, over a registry that may grow from page to page, heartbeats that live ingestion writes meanwhile and
   * stores that may fail. It ends; no house is visited twice; its own writes are exactly those of its visits, in
   * order, and the counters count them; and without a failure every house registered from the start was visited.
   */
  method RestoreHouses(snaps: nat -> Houses, store: HouseStore, limit: nat, c: Clocks, f: Faults, dryRun: bool,
                       live: nat -> seq<LiveBeat>, ghost universe: set<string>)
    returns (ok: bool, count: nat, joined: nat, restored: nat, ghost visits: seq<Visited>, ghost log: seq<HouseWrite>)
    requires limit > 0 && forall p: nat :: snaps(0).Keys <= snaps(p).Keys <= universe
    modifies store
    ensures HousesDone(snaps, live, Redis(old(store.members), old(store.statuses)), visits, log, c, dryRun, ok,
                       Redis(store.members, store.statuses), restored)
    ensures joined == |visits| && (count == |visits| || (!ok && count == |visits| + 1))
    ensures ok ==> count == |visits| && forall h <- snaps(0) :: h == "" || h in Ids(visits)
  {
    ghost var s, present := Redis(store.members, store.statuses), snaps(0).Keys;
    var after, p := "", 0;
    ok, count, joined, restored, visits, log := true, 0, 0, 0, [], [];
    WalkBegins(present);
    assert Ids(visits) == [];
    while true
      invariant ok && count == joined == |visits| && Walked(Ids(visits), after, present)
      invariant HousesDone(snaps, live, s, visits, log, c, dryRun, true, Redis(store.members, store.statuses), restored)
      decreases Ahead(universe, after)
    {
      if f.read(p) {
        PartlyOk(snaps, visits);
        ok := false;
        return;
      }
      var page := Page(snaps(p).Keys, after, limit);
      WalkPage(Ids(visits), after, present, snaps(p).Keys, universe, limit, page);
      if |page| == 0 { return; }
      PageInTable(snaps(p).Keys, after, limit);
      var started, added;
      ok, started, added, restored, visits, log :=
        VisitPage(snaps, p, store, page, c, f, dryRun, restored, live, count, s, visits, log);
      count, joined := count + started, joined + added;
      if !ok { return; }
      after, p := page[|page| - 1], p + 1;
    }
  }

  // ---------------------------------------------------------------------------------------
  // Second loop: latest readings

  ghost function Projections(t: Tables, keys: seq<ReadingKey>): seq<MeterProjection>
    requires forall i :: 0 <= i < |keys| ==> keys[i] in t.readings
  {
    seq(|keys|, i requires 0 <= i < |keys| => Project(LoadReading(t, keys[i])))
  }

  /** The newest reading of its house as one statement found it, with the storage rows a later one found. */
  ghost predicate Picked(history: nat -> Tables, since: int, x: Pick) {
    && IsNewest(x.t, since, x.id, x.key)
    && exists a: nat, b: nat :: a <= b && x.t == Mixed(history(a), history(b))
  }

  ghost predicate PicksOk(history: nat -> Tables, since: int, xs: seq<Pick>) {
    Ascending(PickIds(xs)) && forall i :: 0 <= i < |xs| ==> Picked(history, since, xs[i])
  }

  ghost function PickIds(xs: seq<Pick>): seq<string> {
    seq(|xs|, i requires 0 <= i < |xs| => xs[i].id)
  }

  ghost function PickProjections(xs: seq<Pick>): seq<MeterProjection>
    requires Loadable(xs)
  {
    seq(|xs|, i requires 0 <= i < |xs| => Project(LoadReading(xs[i].t, xs[i].key)))
  }

  /** One compare-and-set on the cache, the rebuild's own or somebody else's. */
  datatype Write = Write(own: bool, p: MeterProjection)

  ghost function Bodies(log: seq<Write>): seq<MeterProjection> {
    seq(|log|, i requires 0 <= i < |log| => log[i].p)
  }

  /** The rebuild's own writes, in order. */
  ghost function Own(log: seq<Write>): seq<MeterProjection> {
    if log == [] then [] else Own(log[..|log| - 1]) + if log[|log| - 1].own then [log[|log| - 1].p] else []
  }

  /** How many of them found something older, or nothing. */
  ghost function OwnApplied(m: Latest, log: seq<Write>): nat {
    if log == [] then 0
    else
      var init, w := log[..|log| - 1], log[|log| - 1];
      OwnApplied(m, init) + if w.own && SetIfNewer(ApplyAll(m, Bodies(init)), w.p).1 then 1 else 0
  }

  /** The cache and the counter are what the writes so far, in their order, make of the cache at the start. */
  ghost predicate Tracks(m: Latest, log: seq<Write>, entries: Latest, applied: nat) {
    entries == ApplyAll(m, Bodies(log)) && applied == OwnApplied(m, log)
  }

  ghost predicate FromLive(log: seq<Write>, live: nat -> seq<MeterProjection>) {
    forall i :: 0 <= i < |log| && !log[i].own ==> exists n: nat :: log[i].p in live(n)
  }

  lemma TrackWrite(m: Latest, log: seq<Write>, entries: Latest, applied: nat, w: Write)
    requires Tracks(m, log, entries, applied)
    ensures var (entries', newer) := SetIfNewer(entries, w.p);
            && Tracks(m, log + [w], entries', applied + if w.own && newer then 1 else 0)
            && Own(log + [w]) == Own(log) + if w.own then [w.p] else []
  {
    var more := log + [w];
    assert more[..|more| - 1] == log && more[|more| - 1] == w;
    assert Bodies(more)[..|more| - 1] == Bodies(log) && Bodies(more)[|more| - 1] == w.p;
  }

  /** Live ingestion writes the cache meanwhile. */
  method LetOthersWrite(store: LatestStore, live: nat -> seq<MeterProjection>, n: nat, ghost m: Latest,
                        ghost log: seq<Write>, ghost applied: nat)
    returns (ghost log': seq<Write>)
    requires Tracks(m, log, store.entries, applied) && FromLive(log, live)
    modifies store
    ensures Tracks(m, log', store.entries, applied) && FromLive(log', live) && Own(log') == Own(log)
  {
    log' := log;
    for i := 0 to |live(n)|
      invariant Tracks(m, log', store.entries, applied) && FromLive(log', live) && Own(log') == Own(log)
    {
      TrackWrite(m, log', store.entries, applied, Write(false, live(n)[i]));
      assert live(n)[i] in live(n);
      var newer := store.SetLatestIfNewer(live(n)[i]);
      log' := log' + [Write(false, live(n)[i])];
    }
  }

  /** The cache and the counter follow from the writes, and every write not the rebuild's own was live ingestion's. */
  ghost predicate Logged(m: Latest, live: nat -> seq<MeterProjection>, log: seq<Write>, entries: Latest, applied: nat) {
    Tracks(m, log, entries, applied) && FromLive(log, live)
  }

  /** A write of the rebuild's own is logged. */
  lemma LogOwn(m: Latest, live: nat -> seq<MeterProjection>, log: seq<Write>, entries: Latest, applied: nat,
               own: seq<MeterProjection>, p: MeterProjection)
    requires Logged(m, live, log, entries, applied) && Own(log) == own
    ensures var (entries', newer) := SetIfNewer(entries, p);
            Logged(m, live, log + [Write(true, p)], entries', applied + if newer then 1 else 0)
    ensures Own(log + [Write(true, p)]) == own + [p]
  {
    TrackWrite(m, log, entries, applied, Write(true, p));
  }

  /** One reading written with the compare-and-set. */
  method Publish(store: LatestStore, r: MeterReading, live: nat -> seq<MeterProjection>, ghost m: Latest,
                 ghost log: seq<Write>, before: nat)
    returns (applied: nat, ghost log': seq<Write>)
    requires Logged(m, live, log, store.entries, before)
    modifies store
    ensures Logged(m, live, log', store.entries, applied) && Own(log') == Own(log) + [Project(r)]
  {
    var p := ProjectionOf(r);
    LogOwn(m, live, log, store.entries, before, Own(log), p);
    var newer := store.SetLatestIfNewer(p);
    applied, log' := if newer then before + 1 else before, log + [Write(true, p)];
  }

  lemma PrefixGrows(own: seq<MeterProjection>, ps: seq<MeterProjection>, i: nat)
    requires i < |ps|
    ensures own + ps[..i] + [ps[i]] == own + ps[..i + 1]
  {}

  /** Applies one page of readings, one compare-and-set each, up to the first that fails. */
  method ApplyPage(store: LatestStore, page: seq<MeterReading>, ghost xs: seq<Pick>, f: Faults, dryRun: bool,
                   live: nat -> seq<MeterProjection>, n: nat, ghost m: Latest, ghost log: seq<Write>, before: nat)
    returns (ok: bool, done: nat, applied: nat, ghost log': seq<Write>)
    requires LoadedFrom(xs, page) && Logged(m, live, log, store.entries, before)
    modifies store
    ensures if ok then done == |page| else done < |page|
    ensures Logged(m, live, log', store.entries, applied)
    ensures Own(log') == Own(log) + if dryRun then [] else PickProjections(xs)[..done]
  {
    applied, log' := before, log;
    ghost var ps := PickProjections(xs);
    assert Own(log) + [] == Own(log);
    for i := 0 to |page|
      invariant Logged(m, live, log', store.entries, applied)
      invariant Own(log') == Own(log) + if dryRun then [] else ps[..i]
    {
      log' := LetOthersWrite(store, live, n + i, m, log', applied);
      if dryRun { continue; }
      if f.publish(page[i].houseId) { return false, i, applied, log'; }
      applied, log' := Publish(store, page[i], live, m, log', applied);
      PrefixGrows(Own(log), ps, i);
    }
    return true, |page|, applied, log';
  }

  lemma PicksExtend(history: nat -> Tables, since: int, xs: seq<Pick>, at: nat, ids: seq<string>,
                    keys: seq<ReadingKey>, n: nat)
    requires PicksOk(history, since, xs) && NewestOf(history(at), since, ids, keys) && n <= |ids|
             && Ascending(PickIds(xs) + ids)
    ensures var more := PicksOf(history, at, ids, keys)[..n];
            && PicksOk(history, since, xs + more)
            && Loadable(xs) && Loadable(PicksOf(history, at, ids, keys)) && Loadable(xs + more)
            && PickProjections(xs + more) == PickProjections(xs) + PickProjections(PicksOf(history, at, ids, keys))[..n]
            && (n == |ids| ==> PickIds(xs + more) == PickIds(xs) + ids)
  {
    PicksLoadable(history, at, since, ids, keys);
    var more := PicksOf(history, at, ids, keys)[..n];
    var all := xs + more;
    forall i | 0 <= i < |xs| ensures xs[i].key in xs[i].t.readings { assert Picked(history, since, xs[i]); }
    forall i | 0 <= i < |all| ensures Picked(history, since, all[i]) && PickIds(all)[i] == (PickIds(xs) + ids)[i] {
      if i < |xs| {
        assert Picked(history, since, xs[i]);
      } else {
        PickedAt(history, since, at, ids, keys, i - |xs|);
      }
    }
  }

  lemma PickedAt(history: nat -> Tables, since: int, at: nat, ids: seq<string>, keys: seq<ReadingKey>, i: nat)
    requires NewestOf(history(at), since, ids, keys) && i < |ids|
    ensures Picked(history, since, PicksOf(history, at, ids, keys)[i])
  {
    var x := PicksOf(history, at, ids, keys)[i];
    assert IsNewest(history(at), since, ids[i], keys[i]);
    assert x.t == Mixed(history(at), history(at + 1 + i));
    forall k <- x.t.readings | Candidate(x.t, since, x.id, k) ensures !Later(k, x.key) {
      assert Candidate(history(at), since, ids[i], k);
    }
  }

  /** The second loop's account: what was picked, what was written, and that they match. */
  ghost predicate Account(history: nat -> Tables, since: int, live: nat -> seq<MeterProjection>, dryRun: bool,
                          m: Latest, picks: seq<Pick>, log: seq<Write>, entries: Latest, applied: nat) {
    && PicksOk(history, since, picks) && Loadable(picks)
    && Logged(m, live, log, entries, applied)
    && Own(log) == if dryRun then [] else PickProjections(picks)
  }

  lemma AccountBegins(history: nat -> Tables, since: int, live: nat -> seq<MeterProjection>, dryRun: bool, m: Latest)
    ensures Account(history, since, live, dryRun, m, [], [], m, 0) && PickIds([]) == []
  {
    assert Bodies([]) == [];
  }

  /** The account after the first n readings of a page. */
  lemma AccountExtends(history: nat -> Tables, since: int, live: nat -> seq<MeterProjection>, dryRun: bool, m: Latest,
                       picks: seq<Pick>, log: seq<Write>, was: Latest, before: nat, at: nat, ids: seq<string>,
                       keys: seq<ReadingKey>, n: nat, log': seq<Write>, entries: Latest, applied: nat)
    requires Account(history, since, live, dryRun, m, picks, log, was, before)
    requires NewestOf(history(at), since, ids, keys) && n <= |ids| && Ascending(PickIds(picks) + ids)
    requires Loadable(PicksOf(history, at, ids, keys)) && Logged(m, live, log', entries, applied)
    requires Own(log') == Own(log) + if dryRun then [] else PickProjections(PicksOf(history, at, ids, keys))[..n]
    ensures var picks' := picks + PicksOf(history, at, ids, keys)[..n];
            && Account(history, since, live, dryRun, m, picks', log', entries, applied)
            && |picks'| == |picks| + n && (n == |ids| ==> PickIds(picks') == PickIds(picks) + ids)
  {
    PicksExtend(history, since, picks, at, ids, keys, n);
  }

  /** One page read and applied. */
  method RestorePage(history: nat -> Tables, at: nat, store: LatestStore, since: int, after: string, limit: nat,
                     f: Faults, dryRun: bool, live: nat -> seq<MeterProjection>, n: nat, ghost m: Latest,
                     ghost picks: seq<Pick>, ghost log: seq<Write>, before: nat)
    returns (ok: bool, size: nat, done: nat, applied: nat, last: string, ghost picks': seq<Pick>,
             ghost log': seq<Write>)
    requires Account(history, since, live, dryRun, m, picks, log, store.entries, before)
    requires Ascending(PickIds(picks) + PageIds(history, at, since, after, limit))
    modifies store
    ensures Account(history, since, live, dryRun, m, picks', log', store.entries, applied)
    ensures size == |PageIds(history, at, since, after, limit)| && |picks'| == |picks| + done
    ensures if ok then done == size else done < size
    ensures ok ==> PickIds(picks') == PickIds(picks) + PageIds(history, at, since, after, limit)
    ensures size > 0 ==> last == PageIds(history, at, since, after, limit)[size - 1]
  {
    ghost var ids, was := PageIds(history, at, since, after, limit), store.entries;
    var page, keys := LatestReadingsPage(history, at, since, after, limit);
    ghost var xs := PicksOf(history, at, ids, keys);
    size, last := |page|, after;
    if size > 0 { last := page[size - 1].houseId; }
    ok, done, applied, log' := ApplyPage(store, page, xs, f, dryRun, live, n, m, log, before);
    AccountExtends(history, since, live, dryRun, m, picks, log, was, before, at, ids, keys, done, log', store.entries,
                   applied);
    picks' := picks + xs[..done];
  }

  /** The walk goes on with a page, or is over. */
  method NextPage(history: nat -> Tables, at: nat, store: LatestStore, since: int, after: string, limit: nat,
                  f: Faults, dryRun: bool, live: nat -> seq<MeterProjection>, n: nat, ghost m: Latest,
                  ghost picks: seq<Pick>, ghost log: seq<Write>, before: nat, ghost present: set<string>,
                  ghost universe: set<string>)
    returns (ok: bool, size: nat, done: nat, applied: nat, last: string, ghost picks': seq<Pick>,
             ghost log': seq<Write>)
    requires Account(history, since, live, dryRun, m, picks, log, store.entries, before)
    requires Walked(PickIds(picks), after, present) && limit > 0
    requires present <= HousesSince(history(at), since) <= universe
    modifies store
    ensures Account(history, since, live, dryRun, m, picks', log', store.entries, applied)
    ensures |picks'| == |picks| + done && if ok then done == size else done < size
    ensures ok && size == 0 ==> forall x <- present :: x == "" || x in PickIds(picks')
    ensures ok && size > 0 ==> Walked(PickIds(picks'), last, present) && Ahead(universe, last) < Ahead(universe, after)
  {
    ghost var ids := PageIds(history, at, since, after, limit);
    WalkPage(PickIds(picks), after, present, HousesSince(history(at), since), universe, limit, ids);
    ok, size, done, applied, last, picks', log' :=
      RestorePage(history, at, store, since, after, limit, f, dryRun, live, n, m, picks, log, before);
  }

  /**
   * Second loop, over a history that may grow from statement to statement, a cache that live ingestion writes
   * meanwhile and stores that may fail. It ends; no house is taken twice; its own writes are exactly the newest
   * readings it took, in order, and the counter says how many were newer; and without a failure every house with a
   * reading in the window from the start was taken.
   */
  method RestoreLatest(history: nat -> Tables, store: LatestStore, since: int, limit: nat, f: Faults, dryRun: bool,
                       live: nat -> seq<MeterProjection>, ghost universe: set<string>)
    returns (ok: bool, count: nat, applied: nat, ghost picks: seq<Pick>, ghost log: seq<Write>)
    requires limit > 0 && forall p: nat :: HousesSince(history(0), since) <= HousesSince(history(p), since) <= universe
    modifies store
    ensures Account(history, since, live, dryRun, old(store.entries), picks, log, store.entries, applied)
    ensures count == |picks| || (!ok && count == |picks| + 1)
    ensures ok ==> count == |picks| && forall h <- HousesSince(history(0), since) :: h == "" || h in PickIds(picks)
  {
    ghost var m, present := store.entries, HousesSince(history(0), since);
    var after, at, page, n := "", 0, 0, 0;
    ok, count, applied, picks, log := true, 0, 0, [], [];
    WalkBegins(present);
    AccountBegins(history, since, live, dryRun, m);
    while true
      invariant ok && count == |picks| && Account(history, since, live, dryRun, m, picks, log, store.entries, applied)
      invariant Walked(PickIds(picks), after, present)
      decreases Ahead(universe, after)
    {
      if f.read(page) { ok := false; return; }
      var size, done, last;
      ok, size, done, applied, last, picks, log :=
        NextPage(history, at, store, since, after, limit, f, dryRun, live, n, m, picks, log, applied, present,
                 universe);
      if !ok { return false, count + done + 1, applied, picks, log; }
      if size == 0 { return; }
      count, after, at, page, n := count + size, last, at + 1 + size, page + 1, n + size;
    }
  }

  /**
   * However others write meanwhile, the cache ends up holding, for each house taken, an entry at least as new as what
   * was written.
   */
  lemma {:induction false} WritesHold(m: Latest, ps: seq<MeterProjection>, i: nat)
    requires i < |ps|
    ensures var key := Key(ps[i]);
            key in ApplyAll(m, ps) && ApplyAll(m, ps)[key].Entry? && AtLeast(ApplyAll(m, ps)[key].p, ps[i])
  {
    if i < |ps| - 1 { WritesHold(m, ps[..|ps| - 1], i); }
  }

  lemma {:induction false} OwnInBodies(log: seq<Write>, p: MeterProjection)
    requires p in Own(log)
    ensures p in Bodies(log)
  {
    var n := |log| - 1;
    assert Bodies(log) == Bodies(log[..n]) + [log[n].p];
    if p in Own(log[..n]) { OwnInBodies(log[..n], p); }
  }

  /** With nobody else writing, the writes are the rebuild's own. */
  lemma {:induction false} QuietIsOwn(log: seq<Write>, live: nat -> seq<MeterProjection>)
    requires FromLive(log, live) && forall n: nat :: live(n) == []
    ensures Own(log) == Bodies(log)
  {
    if log != [] {
      var n := |log| - 1;
      QuietIsOwn(log[..n], live);
      assert Bodies(log) == Bodies(log[..n]) + [log[n].p];
    }
  }

  /** Every house taken holds, after the second loop, an entry at least as new as the reading taken for it. */
  lemma EveryPickHolds(history: nat -> Tables, since: int, live: nat -> seq<MeterProjection>, m: Latest,
                       picks: seq<Pick>, log: seq<Write>, entries: Latest, applied: nat, i: nat)
    requires Account(history, since, live, false, m, picks, log, entries, applied) && i < |picks|
    ensures var p := PickProjections(picks)[i];
            Key(p) in entries && entries[Key(p)].Entry? && AtLeast(entries[Key(p)].p, p)
  {
    var p := PickProjections(picks)[i];
    assert p in Own(log);
    OwnInBodies(log, p);
    var j :| 0 <= j < |Bodies(log)| && Bodies(log)[j] == p;
    WritesHold(m, Bodies(log), j);
  }

  /** The start of the window: the lookback before now, an hour of nanoseconds unless told otherwise. */
  function Since(now: int, lookback: int): (since: int)
    ensures since < now
    ensures lookback > 0 ==> now - since == lookback
    ensures lookback <= 0 ==> now - since == 60 * 60 * 1_000_000_000
  {
    now - (if lookback <= 0 then 3_600_000_000_000 else lookback)
  }

  /** History only grows, so houses of the window stay. */
  lemma HousesStay(t: Tables, t': Tables, since: int)
    requires Extends(t, t')
    ensures HousesSince(t, since) <= HousesSince(t', since)
  {}

  /** The whole command: the second loop runs only after the first succeeded. */
  method Run(houses: nat -> Houses, history: nat -> Tables, latest: LatestStore, store: HouseStore, c: Clocks,
             lookback: int, pageSize: int, f: Faults, dryRun: bool, beats: nat -> seq<LiveBeat>,
             live: nat -> seq<MeterProjection>, ghost universe: set<string>)
    returns (ok: bool, res: Result, ghost visits: seq<Visited>, ghost houseLog: seq<HouseWrite>, ghost picks: seq<Pick>,
             ghost log: seq<Write>)
    requires forall p: nat :: houses(0).Keys <= houses(p).Keys <= universe
    requires forall p: nat :: Extends(history(0), history(p))
    requires forall p: nat :: HousesSince(history(p), Since(c.now, lookback)) <= universe
    modifies latest, store
    ensures HousesDone(houses, beats, Redis(old(store.members), old(store.statuses)), visits, houseLog, c, dryRun, ok,
                       Redis(store.members, store.statuses), res.statusRestored)
    ensures Account(history, Since(c.now, lookback), live, dryRun, old(latest.entries), picks, log, latest.entries,
                    res.latestApplied)
    ensures res.memberships == if dryRun then 0 else |visits|
    ensures res.houses == |visits| || (!ok && res.houses == |visits| + 1)
    ensures res.latest == |picks| || (!ok && res.latest == |picks| + 1)
    ensures ok ==> res.houses == |visits| && res.latest == |picks|
    ensures ok ==> forall h <- houses(0) :: h == "" || h in Ids(visits)
    ensures ok ==> forall h <- HousesSince(history(0), Since(c.now, lookback)) :: h == "" || h in PickIds(picks)
  {
    var limit, since := PageLimit(pageSize), Since(c.now, lookback);
    var seen, joined, restored, found, applied;
    ok, seen, joined, restored, visits, houseLog := RestoreHouses(houses, store, limit, c, f, dryRun, beats, universe);
    picks, log := [], [];
    AccountBegins(history, since, live, dryRun, latest.entries);
    res := Result(seen, if dryRun then 0 else joined, restored, 0, 0);
    if !ok { return; }
    forall p: nat ensures HousesSince(history(0), since) <= HousesSince(history(p), since) {
      HousesStay(history(0), history(p), since);
    }
    ok, found, applied, picks, log := RestoreLatest(history, latest, since, limit, f, dryRun, live, universe);
    if !ok { PartlyOk(houses, visits); }
    res := res.(latest := found, latestApplied := applied);
  }
}
