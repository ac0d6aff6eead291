/** When the rebuilt projection is the one live ingestion would have left. */
module Agreement {
  import opened Common
  import opened Domain
  import opened Ordering
  import opened Identity
  import opened LuaNumber
  import opened Telemetry
  import opened History
  import opened Projection
  import opened Rebuild
  import opened HouseStatus

  /** A reading as the decoder hands it on: valid identity, distinct assets, a time and seq the wire format allows. */
  ghost predicate Decoded(r: MeterReading) {
    && ValidIdentity(r.gridId, r.houseId, r.meterId)
    && DistinctIds(r.assets)
    && 0 <= UnixMilli(r.eventTime) <= EXACT
    && r.seqNo >= 0
  }

  /** `live` is what live ingestion applied for this history: every stored reading, in any order, perhaps repeated. */
  ghost predicate LiveFor(t: Tables, live: seq<MeterReading>) {
    && (forall i :: 0 <= i < |live| ==> Decoded(live[i]) && InHistory(t, live[i]))
    && (forall k <- t.readings :: exists i :: 0 <= i < |live| && KeyOf(live[i]) == k)
  }

  ghost function LiveProjections(live: seq<MeterReading>): seq<MeterProjection> {
    seq(|live|, i requires 0 <= i < |live| => Project(live[i]))
  }

  ghost function LiveCache(live: seq<MeterReading>): Latest {
    ApplyAll(map[], LiveProjections(live))
  }

  lemma LiveReadingOf(t: Tables, live: seq<MeterReading>, k: ReadingKey) returns (i: nat)
    requires LiveFor(t, live) && k in t.readings
    ensures i < |live| && KeyOf(live[i]) == k && InHistory(t, live[i]) && Decoded(live[i])
  {
    i :| 0 <= i < |live| && KeyOf(live[i]) == k;
  }

  /** Stored rows carry the identity and the millisecond of the reading that wrote them. */
  lemma RowFacts(t: Tables, r: MeterReading)
    requires InHistory(t, r)
    ensures KeyOf(r) in t.readings
    ensures var row := t.readings[KeyOf(r)]; row.houseId == r.houseId && row.gridId == r.gridId
    ensures UnixMilli(KeyOf(r).time) == UnixMilli(r.eventTime)
  {
    TruncationKeepsMillis(r.eventTime);
  }

  ghost function RebuiltEntry(t: Tables, k: ReadingKey): MeterProjection
    requires k in t.readings
  {
    Project(LoadReading(t, k))
  }

  /** The live entry of the house of a stored reading comes from a live reading of that house. */
  lemma LiveEntry(t: Tables, live: seq<MeterReading>, k: ReadingKey) returns (e: nat)
    requires LiveFor(t, live) && k in t.readings
    ensures var key := Key(RebuiltEntry(t, k));
            && key in LiveCache(live) && LiveCache(live)[key].Entry?
            && e < |live| && LiveCache(live)[key].p == Project(live[e])
            && live[e].houseId == t.readings[k].houseId && live[e].gridId == t.readings[k].gridId
    ensures forall i :: 0 <= i < |live| && live[i].houseId == t.readings[k].houseId ==>
              AtLeast(Project(live[e]), Project(live[i]))
  {
    var n := LiveReadingOf(t, live, k);
    RowFacts(t, live[n]);
    e := LiveEntryOf(live, n);
  }

  lemma LiveEntryOf(live: seq<MeterReading>, n: nat) returns (e: nat)
    requires n < |live| && forall i :: 0 <= i < |live| ==> Decoded(live[i])
    ensures var key := Key(Project(live[n]));
            && key in LiveCache(live) && e < |live| && LiveCache(live)[key] == Entry(Project(live[e]))
            && live[e].houseId == live[n].houseId && live[e].gridId == live[n].gridId
    ensures forall i :: 0 <= i < |live| && live[i].houseId == live[n].houseId ==>
              AtLeast(Project(live[e]), Project(live[i]))
  {
    var ps := LiveProjections(live);
    e := EntryIndex(ps, n);
    SameKeySameReadings(live[n], live[e]);
    forall i | 0 <= i < |live| && live[i].houseId == live[n].houseId
      ensures AtLeast(Project(live[e]), Project(live[i]))
    {
      SameKeySameReadings(live[n], live[i]);
      EntryAtLeast(ps, i);
    }
  }

  lemma EntryAtLeast(ps: seq<MeterProjection>, i: nat)
    requires i < |ps|
    ensures var m, key := ApplyAll(map[], ps), Key(ps[i]); key in m && m[key].Entry? && AtLeast(m[key].p, ps[i])
  {
    LatestIsNewest(ps, Key(ps[i]));
  }

  /** Decoded readings share a key exactly when they share their house, and then their grid. */
  lemma SameKeySameReadings(a: MeterReading, b: MeterReading)
    requires Decoded(a) && Decoded(b)
    ensures Key(Project(a)) == Key(Project(b)) <==> a.houseId == b.houseId
    ensures a.houseId == b.houseId ==> a.gridId == b.gridId
  {
    KeysDistinct(a.gridId, a.houseId, b.gridId, b.houseId);
    if a.houseId == b.houseId { HouseDeterminesIdentity(a.gridId, b.gridId, a.houseId, a.meterId, b.meterId); }
  }

  lemma EntryIndex(ps: seq<MeterProjection>, i: nat) returns (j: nat)
    requires i < |ps|
    ensures j < |ps| && Key(ps[j]) == Key(ps[i])
    ensures Key(ps[i]) in ApplyAll(map[], ps) && ApplyAll(map[], ps)[Key(ps[i])] == Entry(ps[j])
  {
    var key := Key(ps[i]);
    LatestIsNewest(ps, key);
    var cache := ApplyAll(map[], ps);
    j :| 0 <= j < |ps| && ps[j] == cache[key].p;
  }

  /** Some reading of the house shares the newest reading's millisecond but has a larger seq. */
  ghost predicate Overtaken(t: Tables, h: string, k: ReadingKey) {
    exists k' <- t.readings :: t.readings[k'].houseId == h && UnixMilli(k'.time) == UnixMilli(k.time)
                               && ToNumber(k'.seqNo) > ToNumber(k.seqNo)
  }

  /** The newest reading of the window is at or after every reading of its house. */
  lemma NewestIsLast(t: Tables, since: int, h: string, k: ReadingKey, k': ReadingKey)
    requires IsNewest(t, since, h, k) && k' in t.readings && t.readings[k'].houseId == h
    ensures !Later(k', k)
  {}

  lemma SameMillis(p: MeterProjection, q: MeterProjection)
    requires 0 <= p.ms <= EXACT && 0 <= q.ms <= EXACT
    ensures AtLeast(p, q) <==> p.ms > q.ms || (p.ms == q.ms && ToNumber(p.seqNo) >= ToNumber(q.seqNo))
  {}

  /**
   * Whatever the times: the rebuilt entry has the millisecond live ingestion would leave and is never ahead
   * of it; it is as new as the live one exactly when no reading of the house overtakes it within that millisecond.
   */
  lemma RebuiltKeyExact(t: Tables, since: int, h: string, k: ReadingKey, live: seq<MeterReading>)
    requires LiveFor(t, live) && IsNewest(t, since, h, k)
    ensures var p := RebuiltEntry(t, k);
            && Key(p) in LiveCache(live) && LiveCache(live)[Key(p)].Entry?
            && var e := LiveCache(live)[Key(p)].p;
               e.ms == p.ms && AtLeast(e, p) && (AtLeast(p, e) <==> !Overtaken(t, h, k))
  {
    var p := RebuiltEntry(t, k);
    var e := LiveEntry(t, live, k);
    var n := LiveReadingOf(t, live, k);
    var pe, pn := Project(live[e]), Project(live[n]);
    RowFacts(t, live[e]);
    RowFacts(t, live[n]);
    var ke := KeyOf(live[e]);
    NewestIsLast(t, since, h, k, ke);
    assert pe.ms <= p.ms by { DivMonotoneMillis(ke.time, k.time); }
    SameMillis(pe, pn);
    SameMillis(p, pe);
    SameMillis(pe, p);
    if Overtaken(t, h, k) {
      var k' :| k' in t.readings && t.readings[k'].houseId == h && UnixMilli(k'.time) == UnixMilli(k.time)
                && ToNumber(k'.seqNo) > ToNumber(k.seqNo);
      var i := LiveReadingOf(t, live, k');
      RowFacts(t, live[i]);
      SameMillis(pe, Project(live[i]));
    } else {
      assert ToNumber(ke.seqNo) <= ToNumber(k.seqNo);
    }
  }

  lemma DivMonotoneMillis(a: int, b: int)
    requires a <= b
    ensures UnixMilli(a) <= UnixMilli(b)
  {}

  /** Event times of the house are whole milliseconds and its seqs are exact as doubles. */
  ghost predicate WholeMillis(t: Tables, h: string) {
    forall k <- t.readings :: t.readings[k].houseId == h ==> k.time % 1_000_000 == 0 && 0 <= k.seqNo <= EXACT
  }

  /** With whole-millisecond times the window's newest reading is never overtaken. */
  lemma WholeMillisNotOvertaken(t: Tables, since: int, h: string, k: ReadingKey)
    requires IsNewest(t, since, h, k) && WholeMillis(t, h)
    ensures !Overtaken(t, h, k)
  {}

  /** Under those hypotheses the live entry is the projection of the very reading the rebuild picked. */
  lemma SameReadingPicked(t: Tables, since: int, h: string, k: ReadingKey, live: seq<MeterReading>) returns (e: nat)
    requires LiveFor(t, live) && IsNewest(t, since, h, k) && WholeMillis(t, h)
    ensures e < |live| && KeyOf(live[e]) == k && InHistory(t, live[e]) && Decoded(live[e])
    ensures Key(RebuiltEntry(t, k)) in LiveCache(live)
            && LiveCache(live)[Key(RebuiltEntry(t, k))] == Entry(Project(live[e]))
  {
    e := LiveEntry(t, live, k);
    var n := LiveReadingOf(t, live, k);
    RowFacts(t, live[e]);
    RowFacts(t, live[n]);
    var ke := KeyOf(live[e]);
    NewestIsLast(t, since, h, k, ke);
    DivMonotoneMillis(ke.time, k.time);
    SameMillis(Project(live[e]), Project(live[n]));
    ExactBelow(ke.seqNo);
    ExactBelow(k.seqNo);
    assert UnixMilli(ke.time) == UnixMilli(k.time) && ke.time == k.time && ke.seqNo == k.seqNo;
    HouseDeterminesIdentity(live[n].gridId, live[e].gridId, live[n].houseId, live[n].meterId, live[e].meterId);
  }

  /** The i-th live reading is the stored one at k, projected as e, and no other seq stored assets at its tick. */
  ghost predicate OwnTickOf(t: Tables, live: seq<MeterReading>, k: ReadingKey, e: MeterProjection, i: nat) {
    i < |live| && Project(live[i]) == e && KeyOf(live[i]) == k && TickIsOwn(t, live[i])
  }

  /** What a rebuild loads for a durable reading is that reading, its assets exactly when they are alone at the tick. */
  lemma LoadedMatches(t: Tables, r: MeterReading)
    requires Keyed(t) && InHistory(t, r) && Decoded(r)
    ensures RebuiltEntry(t, KeyOf(r)).(assets := []) == Project(r).(assets := [])
    ensures multiset(RebuiltEntry(t, KeyOf(r)).assets) == multiset(r.assets) <==> TickIsOwn(t, r)
  {
    RowFacts(t, r);
    ReplayExact(t, r);
    assert LoadReading(t, KeyOf(r)).(assets := []) == Normalize(r).(assets := []);
  }

  /**
   * With whole-millisecond times, the rebuilt entry is the live entry in every scalar, and in its assets up to
   * order exactly when no other seq stored assets at that tick.
   */
  lemma RebuiltMatchesLive(t: Tables, since: int, h: string, k: ReadingKey, live: seq<MeterReading>)
    requires Keyed(t) && LiveFor(t, live) && IsNewest(t, since, h, k) && WholeMillis(t, h)
    ensures var p := RebuiltEntry(t, k);
            && Key(p) in LiveCache(live) && LiveCache(live)[Key(p)].Entry?
            && var e := LiveCache(live)[Key(p)].p;
               && e.(assets := []) == p.(assets := [])
               && (multiset(e.assets) == multiset(p.assets) <==> exists i: nat :: OwnTickOf(t, live, k, e, i))
  {
    var n := SameReadingPicked(t, since, h, k, live);
    LoadedMatches(t, live[n]);
    var e := Project(live[n]);
    if i: nat :| OwnTickOf(t, live, k, e, i) {
      LoadedMatches(t, live[i]);
    }
    assert TickIsOwn(t, live[n]) ==> OwnTickOf(t, live, k, e, n);
  }

  lemma AscendingInjective(ids: seq<string>, i: nat, j: nat)
    requires Ascending(ids) && i < |ids| && j < |ids| && ids[i] == ids[j]
    ensures i == j
  {
    LessIrreflexive(ids[i]);
  }

  /** The rebuilt cache, started empty, holds for each house of the window exactly its newest reading. */
  lemma RebuiltCache(t: Tables, since: int, ids: seq<string>, keys: seq<ReadingKey>, live: seq<MeterReading>, i: nat)
    requires LiveFor(t, live) && Ascending(ids) && NewestOf(t, since, ids, keys) && i < |keys|
    ensures var p := RebuiltEntry(t, keys[i]);
            var cache := ApplyAll(map[], Projections(t, keys));
            Key(p) in cache && cache[Key(p)] == Entry(p)
  {
    var ps := Projections(t, keys);
    var j := EntryIndex(ps, i);
    assert ps[i] == RebuiltEntry(t, keys[i]) && ps[j] == RebuiltEntry(t, keys[j]);
    assert IsNewest(t, since, ids[i], keys[i]) && IsNewest(t, since, ids[j], keys[j]);
    var x := LiveReadingOf(t, live, keys[i]);
    var y := LiveReadingOf(t, live, keys[j]);
    RowFacts(t, live[x]);
    RowFacts(t, live[y]);
    SameKeySameReadings(live[x], live[y]);
    AscendingInjective(ids, i, j);
  }

  /** Both caches hold an entry at the key, equal in everything but the order and choice of assets. */
  ghost predicate SameScalars(m: Latest, n: Latest, key: string) {
    && key in m && key in n && m[key].Entry? && n[key].Entry?
    && m[key].p.(assets := []) == n[key].p.(assets := [])
  }

  /**
   * What a rebuild into an empty store leaves for a house: the live entry, with its assets exactly when they are
   * alone at the tick.
   */
  ghost predicate HouseRestored(t: Tables, since: int, m: Latest, live: seq<MeterReading>, h: string, k: ReadingKey) {
    && IsNewest(t, since, h, k)
    && var key := Key(RebuiltEntry(t, k));
       && SameScalars(m, LiveCache(live), key)
       && (multiset(m[key].p.assets) == multiset(LiveCache(live)[key].p.assets) <==>
           exists j: nat :: OwnTickOf(t, live, k, LiveCache(live)[key].p, j))
  }

  /**
   * After Redis loss, a rebuild leaves every house of the window at the entry live ingestion of the whole history
   * would leave; its assets too, up to order, exactly when no other seq stored assets at that tick.
   */
  lemma RebuildRestoresLive(t: Tables, since: int, keys: seq<ReadingKey>, live: seq<MeterReading>, i: nat)
    requires Keyed(t) && LiveFor(t, live) && NewestOf(t, since, Listing(HousesSince(t, since)), keys) && i < |keys|
    requires WholeMillis(t, Listing(HousesSince(t, since))[i])
    ensures HouseRestored(t, since, ApplyAll(map[], Projections(t, keys)), live, Listing(HousesSince(t, since))[i],
                          keys[i])
  {
    var ids := Listing(HousesSince(t, since));
    ListingSorted(HousesSince(t, since));
    assert IsNewest(t, since, ids[i], keys[i]);
    RebuiltCache(t, since, ids, keys, live, i);
    RebuiltMatchesLive(t, since, ids[i], keys[i], live);
  }

  lemma EveryHouseRestored(t: Tables, since: int, keys: seq<ReadingKey>, live: seq<MeterReading>, h: string)
    requires Keyed(t) && LiveFor(t, live) && NewestOf(t, since, Listing(HousesSince(t, since)), keys)
    requires h in HousesSince(t, since) && WholeMillis(t, h)
    ensures exists k :: HouseRestored(t, since, ApplyAll(map[], Projections(t, keys)), live, h, k)
  {
    var ids := Listing(HousesSince(t, since));
    ListingSorted(HousesSince(t, since));
    var i :| 0 <= i < |ids| && ids[i] == h;
    RebuildRestoresLive(t, since, keys, live, i);
  }

  /** Stored houses have valid ids, so none is empty. */
  lemma HousesNamed(t: Tables, since: int, live: seq<MeterReading>)
    requires LiveFor(t, live)
    ensures "" !in HousesSince(t, since)
  {
    forall k <- t.readings ensures t.readings[k].houseId != "" {
      var i := LiveReadingOf(t, live, k);
      RowFacts(t, live[i]);
      GridIsPrefix(live[i].houseId, live[i].gridId);
    }
  }

  ghost function PickKeys(xs: seq<Pick>): seq<ReadingKey> {
    seq(|xs|, i requires 0 <= i < |xs| => xs[i].key)
  }

  lemma PickAt(t: Tables, since: int, snaps: nat -> Tables, picks: seq<Pick>, i: nat)
    requires PicksOk(snaps, since, picks) && (forall p: nat :: snaps(p) == t) && i < |picks|
    ensures picks[i].t == t && IsNewest(t, since, picks[i].id, picks[i].key) && picks[i].id in HousesSince(t, since)
  {
    assert Picked(snaps, since, picks[i]);
    var a: nat, b: nat :| picks[i].t == Mixed(snaps(a), snaps(b));
  }

  lemma PicksListed(since: int, t: Tables, ids: seq<string>)
    requires Ascending(ids) && "" !in HousesSince(t, since)
    requires forall i :: 0 <= i < |ids| ==> ids[i] in HousesSince(t, since)
    requires forall h <- HousesSince(t, since) :: h == "" || h in ids
    ensures ids == Listing(HousesSince(t, since))
  {
    ListingSorted(HousesSince(t, since));
    AscendingUnique(ids, Listing(HousesSince(t, since)));
  }

  /** A finished walk over one history picks, house by house in listing order, the newest reading of each. */
  lemma PicksAreNewest(t: Tables, since: int, snaps: nat -> Tables, picks: seq<Pick>)
    requires PicksOk(snaps, since, picks) && (forall p: nat :: snaps(p) == t) && "" !in HousesSince(t, since)
    requires forall h <- HousesSince(t, since) :: h == "" || h in PickIds(picks)
    ensures NewestOf(t, since, Listing(HousesSince(t, since)), PickKeys(picks))
    ensures Loadable(picks) && PickProjections(picks) == Projections(t, PickKeys(picks))
  {
    forall i | 0 <= i < |picks|
      ensures picks[i].t == t && IsNewest(t, since, PickIds(picks)[i], PickKeys(picks)[i])
              && PickIds(picks)[i] in HousesSince(t, since)
    {
      PickAt(t, since, snaps, picks, i);
    }
    PicksListed(since, t, PickIds(picks));
  }

  /**
   * The command run after Redis lost its data, over a history that stands still meanwhile. If no store fails, every
   * house of the window whose times are whole milliseconds gets the entry that live ingestion of its whole history
   * would have left.
   */
  method RebuildAfterLoss(t: Tables, houses: nat -> Houses, latest: LatestStore, store: HouseStore, c: Clocks,
                          lookback: int, pageSize: int, f: Faults, beats: nat -> seq<LiveBeat>,
                          ghost live: seq<MeterReading>, ghost universe: set<string>)
    returns (ok: bool, res: Result)
    requires Keyed(t) && LiveFor(t, live) && latest.entries == map[]
    requires (forall p: nat :: houses(0).Keys <= houses(p).Keys <= universe)
             && HousesSince(t, Since(c.now, lookback)) <= universe
    modifies latest, store
    ensures ok ==> res.latest == |HousesSince(t, Since(c.now, lookback))|
    ensures ok ==> forall h <- HousesSince(t, Since(c.now, lookback)) :: WholeMillis(t, h) ==>
              exists k :: HouseRestored(t, Since(c.now, lookback), latest.entries, live, h, k)
  {
    ghost var since := Since(c.now, lookback);
    HousesNamed(t, since, live);
    var still := (p: nat) => t;
    var quiet := (n: nat) => [];
    ghost var visits, houseLog, picks, log;
    ok, res, visits, houseLog, picks, log :=
      Rebuild.Run(houses, still, latest, store, c, lookback, pageSize, f, false, beats, quiet, universe);
    if ok {
      QuietIsOwn(log, quiet);
      PicksAreNewest(t, since, still, picks);
      ListingSorted(HousesSince(t, since));
      forall h <- HousesSince(t, since) | WholeMillis(t, h)
        ensures exists k :: HouseRestored(t, since, latest.entries, live, h, k)
      {
        EveryHouseRestored(t, since, PickKeys(picks), live, h);
      }
    }
  }

  // ---------------------------------------------------------------------------------------
  // Where it falls behind

  /** Two readings of one house in one millisecond, the later microsecond with the smaller seq. */
  ghost predicate Crossed(a: MeterReading, b: MeterReading) {
    && Decoded(a) && Decoded(b) && b.houseId == a.houseId && b.gridId == a.gridId && b.meterId == a.meterId
    && a.assets == [] && b.assets == []
    && UnixMilli(a.eventTime) == UnixMilli(b.eventTime) && TruncateMicros(a.eventTime) < TruncateMicros(b.eventTime)
    && b.seqNo < a.seqNo <= EXACT
  }

  lemma CrossedStored(a: MeterReading, b: MeterReading)
    requires Crossed(a, b)
    ensures var t := History.Run(EMPTY, [a, b]);
            && t.readings == map[KeyOf(a) := RowOf(a), KeyOf(b) := RowOf(b)] && t.assets == map[]
            && LiveFor(t, [a, b]) && KeyOf(a) != KeyOf(b)
  {
    var t1 := Tables(map[KeyOf(a) := RowOf(a)], map[]);
    assert AddAssets(EMPTY.assets, a, a.assets) == Some(map[]);
    assert Insert(EMPTY, a).0 == t1;
    assert [a][..0] == [] && History.Run(EMPTY, []) == EMPTY;
    assert History.Run(EMPTY, [a]) == t1;
    assert AddAssets(t1.assets, b, b.assets) == Some(map[]);
    assert [a, b][..1] == [a] && History.Run(EMPTY, [a, b]) == Insert(t1, b).0;
    var t := Insert(t1, b).0;
    assert [a, b][0] == a && [a, b][1] == b;
    assert LiveFor(t, [a, b]);
  }

  lemma CrossedLive(a: MeterReading, b: MeterReading)
    requires Crossed(a, b)
    ensures var key := Key(Project(b));
            key in LiveCache([a, b]) && LiveCache([a, b])[key] == Entry(Project(a))
  {
    var p, q := Project(a), Project(b);
    assert LiveProjections([a, b]) == [p, q];
    assert [p, q][..1] == [p] && [p][..0] == [];
    assert ApplyAll(map[], []) == map[];
    assert ApplyAll(map[], [p]) == map[Key(p) := Entry(p)];
    ScriptOrderTrue(q, p);
    assert ApplyAll(map[], [p, q]) == SetIfNewer(ApplyAll(map[], [p]), q).0;
  }

  /**
   * Every such pair, at any millisecond, makes the rebuild fall behind: from the history of the two it restores b,
   * while live ingestion of the two leaves a, which is newer.
   */
  lemma RebuildCanFallBehind(a: MeterReading, b: MeterReading, since: int)
    requires Crossed(a, b) && since <= KeyOf(b).time
    ensures var t := History.Run(EMPTY, [a, b]);
            var key := Key(Project(b));
            && IsNewest(t, since, b.houseId, KeyOf(b))
            && RebuiltEntry(t, KeyOf(b)).(assets := []) == Project(b).(assets := [])
            && key in LiveCache([a, b]) && LiveCache([a, b])[key] == Entry(Project(a))
            && Newer(Project(a), RebuiltEntry(t, KeyOf(b)))
  {
    var t := History.Run(EMPTY, [a, b]);
    CrossedStored(a, b);
    CrossedLive(a, b);
    RowFacts(t, b);
  }

  /** Such pairs exist at every millisecond the script holds exactly. */
  lemma CrossedPairs(ms: nat)
    requires ms <= EXACT
    ensures exists a, b :: Crossed(a, b) && UnixMilli(a.eventTime) == ms
  {
    var a := MeterReading("1.0", "meter-g-house1", "g-house1", "g", Consumer, ms * 1_000_000 + 1000, 2, 0.0, 0.0, 0.0,
                          [], None, None);
    var b := a.(eventTime := ms * 1_000_000 + 2000, seqNo := 1);
    HouseShape("g-house1", "g", "1");
    assert ValidIdentity(a.gridId, a.houseId, a.meterId);
    assert Crossed(a, b);
  }
}
