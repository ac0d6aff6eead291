/** What any run of inserts keeps: rows never change, and exactly which repeats are recognised as replays. */
module History {
  import opened Domain
  import opened Ordering
  import opened Telemetry

  /** Everything stored in t is stored unchanged in t'. */
  ghost predicate Extends(t: Tables, t': Tables) {
    && (forall k <- t.readings :: k in t'.readings && t'.readings[k] == t.readings[k])
    && (forall k <- t.assets :: k in t'.assets && t'.assets[k] == t.assets[k])
  }

  /** The row says, column by column, what the reading says. */
  ghost predicate StoredAs(row: ReadingRow, r: MeterReading) {
    && row.houseId == r.houseId && row.gridId == r.gridId && row.deviceClass == r.deviceClass
    && row.schemaVersion == r.schemaVersion && row.solarKw == r.solarKw && row.consumptionKw == r.consumptionKw
    && row.netKw == r.netKw && row.irradiance == r.irradiance && row.cloudCover == r.cloudCover
  }

  /** The reading is durable: its row is stored with its exact values, and so is each of its assets. */
  ghost predicate InHistory(t: Tables, r: MeterReading) {
    && KeyOf(r) in t.readings && StoredAs(t.readings[KeyOf(r)], r)
    && forall a <- r.assets :: AssetKeyOf(r, a) in t.assets && t.assets[AssetKeyOf(r, a)].asset == a
  }

  lemma InHistoryStable(t: Tables, t': Tables, r: MeterReading)
    requires Extends(t, t') && InHistory(t, r)
    ensures InHistory(t', r)
  {}

  // ---------------------------------------------------------------------------------------
  // One insert

  /** Every asset's row stands as given. */
  ghost predicate Added(assets: map<AssetKey, AssetRow>, r: MeterReading, todo: seq<StorageAsset>,
                        added: map<AssetKey, AssetRow>) {
    && (forall k <- assets :: k in added && added[k] == assets[k])
    && (forall i :: 0 <= i < |todo| ==>
          AssetKeyOf(r, todo[i]) in added && added[AssetKeyOf(r, todo[i])] == AssetRow(r.houseId, todo[i]))
    && (forall k <- added :: k in assets || exists i :: 0 <= i < |todo| && k == AssetKeyOf(r, todo[i]))
  }

  /** None of the assets is stored at the tick, and no id repeats. */
  ghost predicate Addable(assets: map<AssetKey, AssetRow>, r: MeterReading, todo: seq<StorageAsset>) {
    DistinctIds(todo) && forall i :: 0 <= i < |todo| ==> AssetKeyOf(r, todo[i]) !in assets
  }

  lemma AddableStep(assets: map<AssetKey, AssetRow>, r: MeterReading, todo: seq<StorageAsset>)
    requires todo != [] && AssetKeyOf(r, todo[0]) !in assets
    ensures Addable(assets, r, todo) <==>
            Addable(assets[AssetKeyOf(r, todo[0]) := AssetRow(r.houseId, todo[0])], r, todo[1..])
  {
    var rest := todo[1..];
    var one := assets[AssetKeyOf(r, todo[0]) := AssetRow(r.houseId, todo[0])];
    assert forall i :: 0 <= i < |rest| ==> rest[i] == todo[i + 1];
    if Addable(one, r, rest) {
      forall i, j | 0 <= i < j < |todo| ensures todo[i].assetId != todo[j].assetId {
        assert rest[j - 1] == todo[j];
        if i > 0 { assert rest[i - 1] == todo[i]; } else { assert AssetKeyOf(r, rest[j - 1]) !in one; }
      }
      forall i | 0 <= i < |todo| ensures AssetKeyOf(r, todo[i]) !in assets {
        if i > 0 { assert AssetKeyOf(r, rest[i - 1]) !in one; }
      }
    }
  }

  lemma AddedStep(assets: map<AssetKey, AssetRow>, r: MeterReading, todo: seq<StorageAsset>,
                  added: map<AssetKey, AssetRow>)
    requires todo != [] && AssetKeyOf(r, todo[0]) !in assets
    requires Added(assets[AssetKeyOf(r, todo[0]) := AssetRow(r.houseId, todo[0])], r, todo[1..], added)
    ensures Added(assets, r, todo, added)
  {
    var k, rest := AssetKeyOf(r, todo[0]), todo[1..];
    var one := assets[k := AssetRow(r.houseId, todo[0])];
    forall i | 0 <= i < |todo|
      ensures AssetKeyOf(r, todo[i]) in added && added[AssetKeyOf(r, todo[i])] == AssetRow(r.houseId, todo[i])
    {
      if i == 0 { assert k in one; } else { assert rest[i - 1] == todo[i]; }
    }
    forall x <- added ensures x in assets || exists i :: 0 <= i < |todo| && x == AssetKeyOf(r, todo[i]) {
      if x !in one {
        var i :| 0 <= i < |rest| && x == AssetKeyOf(r, rest[i]);
        assert todo[i + 1] == rest[i];
      } else if x !in assets {
        assert x == AssetKeyOf(r, todo[0]);
      }
    }
  }

  /** The row-by-row insert succeeds exactly when all keys are new and distinct; then it adds exactly these rows. */
  lemma {:induction false} AddAssetsExact(assets: map<AssetKey, AssetRow>, r: MeterReading, todo: seq<StorageAsset>)
    ensures AddAssets(assets, r, todo).Some? <==> Addable(assets, r, todo)
    ensures AddAssets(assets, r, todo).Some? ==> Added(assets, r, todo, AddAssets(assets, r, todo).value)
    decreases |todo|
  {
    if todo != [] {
      var k := AssetKeyOf(r, todo[0]);
      if k !in assets {
        var one := assets[k := AssetRow(r.houseId, todo[0])];
        AddAssetsExact(one, r, todo[1..]);
        AddableStep(assets, r, todo);
        if AddAssets(one, r, todo[1..]).Some? { AddedStep(assets, r, todo, AddAssets(one, r, todo[1..]).value); }
      }
    }
  }

  /** History is immutable: an insert only ever adds rows, and a refusal or a replay adds none. */
  lemma InsertExtends(t: Tables, r: MeterReading)
    requires Keyed(t)
    ensures var (t', outcome) := Insert(t, r);
            && Extends(t, t') && Keyed(t')
            && (outcome != Inserted ==> t' == t)
            && (outcome == Inserted ==> t'.readings.Keys == t.readings.Keys + {KeyOf(r)} && KeyOf(r) !in t.readings)
            && (outcome == Inserted ==> StoredAs(t'.readings[KeyOf(r)], r))
            && KeyOf(r).meterId == r.meterId && KeyOf(r).seqNo == r.seqNo
            && KeyOf(r).time <= r.eventTime < KeyOf(r).time + 1000
  {
    TimesRoundDown(r.eventTime);
    AddAssetsExact(t.assets, r, r.assets);
  }

  lemma AssetsAtMembers(t: Tables, time: int, meterId: string)
    requires Keyed(t)
    ensures forall a: StorageAsset :: a in AssetsAt(t.assets, time, meterId) <==>
              AssetKey(time, meterId, a.assetId) in t.assets && t.assets[AssetKey(time, meterId, a.assetId)].asset == a
  {
    var ids := AssetIdsAt(t.assets, time, meterId);
    ListingSorted(ids);
    var l := Listing(ids);
    var found := AssetsAt(t.assets, time, meterId);
    forall a: StorageAsset
      ensures a in found <==>
              AssetKey(time, meterId, a.assetId) in t.assets && t.assets[AssetKey(time, meterId, a.assetId)].asset == a
    {
      var k := AssetKey(time, meterId, a.assetId);
      if a in found {
        var i :| 0 <= i < |found| && found[i] == a;
        assert l[i] in l;
        assert t.assets[AssetKey(time, meterId, l[i])].asset == a;
      }
      if k in t.assets && t.assets[k].asset == a {
        assert a.assetId in ids;
        var i :| 0 <= i < |l| && l[i] == a.assetId;
        assert found[i] == a;
      }
    }
  }

  /** An accepted reading, new or repeated, is in history with its exact values. */
  lemma AcceptedInHistory(t: Tables, r: MeterReading)
    requires Keyed(t) && Insert(t, r).1 in {Inserted, Replay}
    ensures InHistory(Insert(t, r).0, r)
  {
    var k := KeyOf(r);
    if k in t.readings {
      var stored := LoadReading(t, k);
      assert stored.(assets := []) == Normalize(r).(assets := []);
      AssetsAtMembers(t, k.time, k.meterId);
      forall a <- r.assets ensures AssetKeyOf(r, a) in t.assets && t.assets[AssetKeyOf(r, a)].asset == a {
        assert a in multiset(r.assets);
        assert a in stored.assets;
      }
    } else {
      AddAssetsExact(t.assets, r, r.assets);
      var added := AddAssets(t.assets, r, r.assets).value;
      forall a <- r.assets ensures AssetKeyOf(r, a) in added && added[AssetKeyOf(r, a)].asset == a {
        var i :| 0 <= i < |r.assets| && r.assets[i] == a;
      }
    }
  }

  // ---------------------------------------------------------------------------------------
  // Repeating a durable reading

  /** Every asset row of the reading's tick is one of its own. */
  ghost predicate TickIsOwn(t: Tables, r: MeterReading) {
    forall k <- t.assets :: k.time == KeyOf(r).time && k.meterId == r.meterId ==>
                              exists i :: 0 <= i < |r.assets| && r.assets[i].assetId == k.assetId
  }

  lemma {:induction false} Multiplicity(s: seq<StorageAsset>, x: StorageAsset)
    requires DistinctIds(s)
    ensures multiset(s)[x] == if x in s then 1 else 0
  {
    if s != [] {
      assert s == [s[0]] + s[1..];
      Multiplicity(s[1..], x);
    }
  }

  lemma DistinctSameMembers(a: seq<StorageAsset>, b: seq<StorageAsset>)
    requires DistinctIds(a) && DistinctIds(b)
    requires forall x: StorageAsset :: x in a <==> x in b
    ensures multiset(a) == multiset(b)
  {
    forall x: StorageAsset ensures multiset(a)[x] == multiset(b)[x] {
      Multiplicity(a, x);
      Multiplicity(b, x);
    }
  }

  /**
   * A durable reading is recognised when repeated exactly if no other row stands at its tick; otherwise it is
   * refused.
   */
  lemma ReplayExact(t: Tables, r: MeterReading)
    requires Keyed(t) && DistinctIds(r.assets) && InHistory(t, r)
    ensures Insert(t, r).1 == if TickIsOwn(t, r) then Replay else Conflict
    ensures Insert(t, r).0 == t
  {
    var k := KeyOf(r);
    var found := AssetsAt(t.assets, k.time, k.meterId);
    AssetsAtMembers(t, k.time, k.meterId);
    AssetsAtDistinct(t, k.time, k.meterId);
    if TickIsOwn(t, r) {
      forall x: StorageAsset ensures x in found <==> x in r.assets {
        if x in found {
          var xk := AssetKey(k.time, k.meterId, x.assetId);
          assert xk in t.assets;
          var i :| 0 <= i < |r.assets| && r.assets[i].assetId == x.assetId;
          assert r.assets[i] in r.assets && AssetKeyOf(r, r.assets[i]) == xk;
        }
      }
      DistinctSameMembers(found, r.assets);
    } else if multiset(found) == multiset(r.assets) {
      forall x <- t.assets | x.time == k.time && x.meterId == r.meterId
        ensures exists i :: 0 <= i < |r.assets| && r.assets[i].assetId == x.assetId
      {
        var a := t.assets[x].asset;
        assert a in found;
        assert a in multiset(found);
        var i :| 0 <= i < |r.assets| && r.assets[i] == a;
      }
      assert false;
    }
  }

  // ---------------------------------------------------------------------------------------
  // Runs

  const EMPTY := Tables(map[], map[])

  /** The tables after a run of inserts. A faulted transaction changes nothing, so it is left out of the run. */
  ghost function Run(t: Tables, rs: seq<MeterReading>): Tables {
    if rs == [] then t else Insert(Run(t, rs[..|rs| - 1]), rs[|rs| - 1]).0
  }

  /** How the i-th insert of a run from empty tables ended. */
  ghost function OutcomeAt(rs: seq<MeterReading>, i: nat): Outcome
    requires i < |rs|
  {
    Insert(Run(EMPTY, rs[..i]), rs[i]).1
  }

  /** Over any run, stored rows never change or disappear. */
  lemma {:induction false} RunExtends(t: Tables, rs: seq<MeterReading>)
    requires Keyed(t)
    ensures Keyed(Run(t, rs)) && Extends(t, Run(t, rs))
  {
    if rs != [] {
      RunExtends(t, rs[..|rs| - 1]);
      InsertExtends(Run(t, rs[..|rs| - 1]), rs[|rs| - 1]);
    }
  }

  lemma {:induction false} PrefixExtends(rs: seq<MeterReading>, i: nat)
    requires i <= |rs|
    ensures Extends(Run(EMPTY, rs[..i]), Run(EMPTY, rs))
    decreases |rs| - i
  {
    if i == |rs| {
      assert rs[..i] == rs;
    } else {
      PrefixExtends(rs, i + 1);
      RunExtends(EMPTY, rs[..i]);
      assert rs[..i + 1][..i] == rs[..i];
      InsertExtends(Run(EMPTY, rs[..i]), rs[i]);
    }
  }

  ghost predicate SameTick(a: MeterReading, b: MeterReading) {
    TruncateMicros(a.eventTime) == TruncateMicros(b.eventTime) && a.meterId == b.meterId
  }

  /** The i-th insert of the run wrote asset row k. */
  ghost predicate Wrote(rs: seq<MeterReading>, i: nat, a: StorageAsset, k: AssetKey) {
    i < |rs| && OutcomeAt(rs, i) == Inserted && a in rs[i].assets && k == AssetKeyOf(rs[i], a)
  }

  /** Every asset row was written by some insert of the run. */
  lemma {:induction false} RowsHaveWriters(rs: seq<MeterReading>, k: AssetKey)
    requires k in Run(EMPTY, rs).assets
    ensures exists i: nat, a :: Wrote(rs, i, a, k)
  {
    if rs != [] {
      var n := |rs| - 1;
      var t := Run(EMPTY, rs[..n]);
      if k in t.assets {
        RowsHaveWriters(rs[..n], k);
        var i: nat, a :| Wrote(rs[..n], i, a, k);
        assert rs[..n][..i] == rs[..i];
        assert Wrote(rs, i, a, k);
      } else {
        AddAssetsExact(t.assets, rs[n], rs[n].assets);
        var j :| 0 <= j < |rs[n].assets| && k == AssetKeyOf(rs[n], rs[n].assets[j]);
        assert Wrote(rs, n, rs[n].assets[j], k);
      }
    }
  }

  lemma InsertedDurable(rs: seq<MeterReading>, i: nat)
    requires i < |rs| && OutcomeAt(rs, i) == Inserted
    ensures InHistory(Run(EMPTY, rs[..i + 1]), rs[i]) && InHistory(Run(EMPTY, rs), rs[i])
  {
    RunExtends(EMPTY, rs[..i]);
    assert rs[..i + 1][..i] == rs[..i];
    AcceptedInHistory(Run(EMPTY, rs[..i]), rs[i]);
    PrefixExtends(rs, i + 1);
    InHistoryStable(Run(EMPTY, rs[..i + 1]), Run(EMPTY, rs), rs[i]);
  }

  /** No two inserts of a run write the same asset row. */
  lemma WritersDistinct(rs: seq<MeterReading>, i: nat, j: nat, a: StorageAsset, b: StorageAsset)
    requires i < j < |rs| && OutcomeAt(rs, i) == Inserted && OutcomeAt(rs, j) == Inserted
    requires a in rs[i].assets && b in rs[j].assets
    ensures AssetKeyOf(rs[i], a) != AssetKeyOf(rs[j], b)
  {
    var before := rs[..j];
    assert before[..i] == rs[..i] && before[i] == rs[i];
    InsertedDurable(before, i);
    AddAssetsExact(Run(EMPTY, before).assets, rs[j], rs[j].assets);
  }

  /** No other reading that the run inserted at this (time, meter) carried assets. */
  ghost predicate AloneAtTick(rs: seq<MeterReading>, i: nat)
    requires i < |rs|
  {
    forall j: nat :: j < |rs| && j != i && OutcomeAt(rs, j) == Inserted && SameTick(rs[j], rs[i]) ==> rs[j].assets == []
  }

  lemma AloneOwnsTick(rs: seq<MeterReading>, i: nat)
    requires i < |rs| && AloneAtTick(rs, i)
    ensures TickIsOwn(Run(EMPTY, rs), rs[i])
  {
    var t, r := Run(EMPTY, rs), rs[i];
    forall k <- t.assets | k.time == KeyOf(r).time && k.meterId == r.meterId
      ensures exists n :: 0 <= n < |r.assets| && r.assets[n].assetId == k.assetId
    {
      RowsHaveWriters(rs, k);
      var j: nat, a :| Wrote(rs, j, a, k);
      assert j == i;
      var n :| 0 <= n < |r.assets| && r.assets[n] == a;
    }
  }

  lemma SharedTickNotOwn(rs: seq<MeterReading>, i: nat, j: nat)
    requires i < |rs| && j < |rs| && i != j && OutcomeAt(rs, i) == Inserted && OutcomeAt(rs, j) == Inserted
    requires SameTick(rs[j], rs[i]) && rs[j].assets != []
    ensures !TickIsOwn(Run(EMPTY, rs), rs[i])
  {
    var t, r, b := Run(EMPTY, rs), rs[i], rs[j].assets[0];
    InsertedDurable(rs, j);
    var k := AssetKeyOf(rs[j], b);
    assert b in rs[j].assets && k in t.assets;
    forall n | 0 <= n < |r.assets| ensures r.assets[n].assetId != k.assetId {
      assert r.assets[n] in r.assets;
      if i < j { WritersDistinct(rs, i, j, r.assets[n], b); } else { WritersDistinct(rs, j, i, b, r.assets[n]); }
    }
  }

  /**
   * After any run, repeating a reading the run inserted changes nothing and is reported as a replay exactly
   * when no other reading inserted at its (time, meter) carried assets; otherwise it is refused as a conflict.
   */
  lemma ReplayOverRun(rs: seq<MeterReading>, i: nat)
    requires i < |rs| && OutcomeAt(rs, i) == Inserted
    ensures Insert(Run(EMPTY, rs), rs[i]) == (Run(EMPTY, rs), if AloneAtTick(rs, i) then Replay else Conflict)
  {
    RunExtends(EMPTY, rs);
    InsertedDurable(rs, i);
    AddAssetsExact(Run(EMPTY, rs[..i]).assets, rs[i], rs[i].assets);
    ReplayExact(Run(EMPTY, rs), rs[i]);
    if AloneAtTick(rs, i) {
      AloneOwnsTick(rs, i);
    } else {
      var j: nat :| j < |rs| && j != i && OutcomeAt(rs, j) == Inserted && SameTick(rs[j], rs[i]) && rs[j].assets != [];
      SharedTickNotOwn(rs, i, j);
    }
  }

  /** Two readings of one meter at one tick, of different seqs and with assets that do not clash. */
  ghost predicate SharesTick(a: MeterReading, b: MeterReading) {
    && SameTick(a, b) && a.seqNo != b.seqNo && DistinctIds(a.assets) && DistinctIds(b.assets)
    && forall i, j :: 0 <= i < |a.assets| && 0 <= j < |b.assets| ==> a.assets[i].assetId != b.assets[j].assetId
  }

  lemma BothInserted(a: MeterReading, b: MeterReading)
    requires SharesTick(a, b)
    ensures OutcomeAt([a, b], 0) == Inserted && OutcomeAt([a, b], 1) == Inserted
  {
    var rs := [a, b];
    assert rs[..0] == [] && rs[..1] == [a] && [a][..0] == [];
    AddAssetsExact(EMPTY.assets, a, a.assets);
    assert OutcomeAt(rs, 0) == Inserted;
    var t := Run(EMPTY, rs[..1]);
    assert t == Insert(EMPTY, a).0;
    AddAssetsExact(t.assets, b, b.assets);
    assert forall j :: 0 <= j < |b.assets| ==> AssetKeyOf(b, b.assets[j]) !in t.assets;
  }

  /**
   * The refusal is real for every such pair: both are inserted, and an identical redelivery of the first is then a
   * conflict exactly when the second carries assets.
   */
  lemma RedeliveryRefused(a: MeterReading, b: MeterReading)
    requires SharesTick(a, b)
    ensures OutcomeAt([a, b], 0) == Inserted && OutcomeAt([a, b], 1) == Inserted
    ensures Insert(Run(EMPTY, [a, b]), a) == (Run(EMPTY, [a, b]), if b.assets == [] then Replay else Conflict)
  {
    BothInserted(a, b);
    ReplayOverRun([a, b], 0);
    assert [a, b][1] == b && SameTick([a, b][1], [a, b][0]);
  }
}
