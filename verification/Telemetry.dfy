/**
 * The immutable history: meter readings keyed by (time, meter, seq) and storage-asset rows keyed
 * by (time, meter, asset), written together in one transaction. A repeated reading is recognised
 * by comparing it, with its assets sorted, to what is stored.
 */
module Telemetry {
  import opened Common
  import opened Domain
  import opened Ordering

  datatype ReadingKey = ReadingKey(time: int, meterId: string, seqNo: int)
  datatype ReadingRow = ReadingRow(houseId: string, gridId: string, deviceClass: DeviceClass, schemaVersion: string,
                                   solarKw: real, consumptionKw: real, netKw: real,
                                   irradiance: Option<real>, cloudCover: Option<real>)
  datatype AssetKey = AssetKey(time: int, meterId: string, assetId: string)
  datatype AssetRow = AssetRow(houseId: string, asset: StorageAsset)

  datatype Tables = Tables(readings: map<ReadingKey, ReadingRow>, assets: map<AssetKey, AssetRow>)

  datatype Outcome = Inserted | Replay | Conflict | Fault

  function Normalize(r: MeterReading): MeterReading {
    r.(eventTime := TruncateMicros(r.eventTime))
  }

  function KeyOf(r: MeterReading): ReadingKey {
    ReadingKey(TruncateMicros(r.eventTime), r.meterId, r.seqNo)
  }

  function RowOf(r: MeterReading): ReadingRow {
    ReadingRow(r.houseId, r.gridId, r.deviceClass, r.schemaVersion, r.solarKw, r.consumptionKw, r.netKw,
               r.irradiance, r.cloudCover)
  }

  function AssetKeyOf(r: MeterReading, a: StorageAsset): AssetKey {
    AssetKey(TruncateMicros(r.eventTime), r.meterId, a.assetId)
  }

  /** The asset ids stored at one (time, meter); there is no seq in this key. */
  function AssetIdsAt(assets: map<AssetKey, AssetRow>, time: int, meterId: string): set<string> {
    set k <- assets | k.time == time && k.meterId == meterId :: k.assetId
  }

  /** Every stored asset row has the id it is keyed by. */
  ghost predicate Keyed(t: Tables) {
    forall k <- t.assets :: t.assets[k].asset.assetId == k.assetId
  }

  // ---------------------------------------------------------------------------------------
  // Comparing readings

  ghost predicate SortedById(s: seq<StorageAsset>) {
    forall i, j :: 0 <= i < j < |s| ==> !Less(s[j].assetId, s[i].assetId)
  }

  function InsertById(a: StorageAsset, s: seq<StorageAsset>): seq<StorageAsset> {
    if s == [] || Less(a.assetId, s[0].assetId) then [a] + s else [s[0]] + InsertById(a, s[1..])
  }

  lemma {:induction false} InsertByIdSorted(a: StorageAsset, s: seq<StorageAsset>)
    requires SortedById(s)
    ensures SortedById(InsertById(a, s))
    ensures multiset(InsertById(a, s)) == multiset{a} + multiset(s)
  {
    var res := InsertById(a, s);
    if s == [] {
    } else if Less(a.assetId, s[0].assetId) {
      forall j | 0 <= j < |s| ensures !Less(s[j].assetId, a.assetId) {
        if Less(s[j].assetId, a.assetId) {
          LessTransitive(s[j].assetId, a.assetId, s[0].assetId);
          LessIrreflexive(s[0].assetId);
          assert false;
        }
      }
    } else {
      InsertByIdSorted(a, s[1..]);
      assert s == [s[0]] + s[1..];
      var rest := InsertById(a, s[1..]);
      forall j | 0 <= j < |rest| ensures !Less(rest[j].assetId, s[0].assetId) {
        assert rest[j] in multiset(rest);
        assert rest[j] == a || rest[j] in s[1..];
      }
    }
  }

  lemma {:induction false} InsertByIdDistinct(a: StorageAsset, s: seq<StorageAsset>)
    requires DistinctIds(s) && forall i :: 0 <= i < |s| ==> s[i].assetId != a.assetId
    ensures DistinctIds(InsertById(a, s))
    ensures forall i :: 0 <= i < |InsertById(a, s)| ==>
              || InsertById(a, s)[i].assetId == a.assetId
              || exists j :: 0 <= j < |s| && InsertById(a, s)[i].assetId == s[j].assetId
  {
    if s != [] && !Less(a.assetId, s[0].assetId) {
      InsertByIdDistinct(a, s[1..]);
      var rest := InsertById(a, s[1..]);
      forall i | 0 <= i < |rest|
        ensures rest[i].assetId == a.assetId || exists j :: 1 <= j < |s| && rest[i].assetId == s[j].assetId
      {
        if rest[i].assetId != a.assetId {
          var j :| 0 <= j < |s[1..]| && rest[i].assetId == s[1..][j].assetId;
          assert s[j + 1] == s[1..][j];
        }
      }
    }
  }

  ghost function InsertionSort(s: seq<StorageAsset>): seq<StorageAsset> {
    if s == [] then [] else InsertById(s[|s| - 1], InsertionSort(s[..|s| - 1]))
  }

  lemma {:induction false} InsertionSortFacts(s: seq<StorageAsset>)
    ensures multiset(InsertionSort(s)) == multiset(s)
    ensures SortedById(InsertionSort(s))
  {
    if s != [] {
      var init, a := s[..|s| - 1], s[|s| - 1];
      assert s == init + [a];
      InsertionSortFacts(init);
      InsertByIdSorted(a, InsertionSort(init));
    }
  }

  lemma {:induction false} InsertionSortDistinct(s: seq<StorageAsset>)
    requires DistinctIds(s)
    ensures DistinctIds(InsertionSort(s))
  {
    if s != [] {
      var init, a := s[..|s| - 1], s[|s| - 1];
      var sorted := InsertionSort(init);
      InsertionSortDistinct(init);
      InsertionSortFacts(init);
      forall i | 0 <= i < |sorted| ensures sorted[i].assetId != a.assetId {
        assert sorted[i] in multiset(sorted);
        assert sorted[i] in init;
      }
      InsertByIdDistinct(a, sorted);
    }
  }

  /** A sorted copy of the input: what sorting a clone by asset id yields. */
  method SortedAssets(s: seq<StorageAsset>) returns (out: seq<StorageAsset>)
    ensures multiset(out) == multiset(s)
    ensures SortedById(out)
    ensures DistinctIds(s) ==> DistinctIds(out)
  {
    out := [];
    for i := 0 to |s|
      invariant out == InsertionSort(s[..i])
    {
      assert s[..i + 1][..i] == s[..i];
      out := InsertById(s[i], out);
    }
    assert s[..|s|] == s;
    InsertionSortFacts(s);
    if DistinctIds(s) { InsertionSortDistinct(s); }
  }

  lemma TailMultiset(x: seq<StorageAsset>)
    requires x != []
    ensures multiset(x[1..]) == multiset(x) - multiset{x[0]}
  {
    assert x == [x[0]] + x[1..];
  }

  lemma HeadsEqual(x: seq<StorageAsset>, y: seq<StorageAsset>)
    requires SortedById(x) && SortedById(y) && DistinctIds(x) && x != [] && y != []
    requires x[0] in y && y[0] in x
    ensures x[0] == y[0]
  {
    var i :| 0 <= i < |y| && y[i] == x[0];
    var j :| 0 <= j < |x| && x[j] == y[0];
    LessTotal(x[0].assetId, y[0].assetId);
  }

  /** Sorting by distinct ids leaves one possible order. */
  lemma {:induction false} SortedUnique(x: seq<StorageAsset>, y: seq<StorageAsset>)
    requires SortedById(x) && SortedById(y) && DistinctIds(x)
    requires multiset(x) == multiset(y)
    ensures x == y
  {
    assert |x| == |multiset(x)| && |y| == |multiset(y)|;
    if x != [] {
      assert x[0] in multiset(y) && y[0] in multiset(x);
      HeadsEqual(x, y);
      TailMultiset(x);
      TailMultiset(y);
      SortedUnique(x[1..], y[1..]);
    }
  }

  /** The same reading: every scalar equal, and the assets a permutation of each other. */
  ghost predicate SameReading(a: MeterReading, b: MeterReading) {
    a.(assets := []) == b.(assets := []) && multiset(a.assets) == multiset(b.assets)
  }

  /** The comparison by sorting decides exactly that, because stored asset ids are distinct. */
  method ReadingsEqual(a: MeterReading, b: MeterReading) returns (equal: bool)
    requires DistinctIds(a.assets)
    ensures equal <==> SameReading(a, b)
  {
    if a.(assets := []) != b.(assets := []) || |a.assets| != |b.assets| {
      assert |a.assets| == |multiset(a.assets)| && |b.assets| == |multiset(b.assets)|;
      return false;
    }
    var x := SortedAssets(a.assets);
    var y := SortedAssets(b.assets);
    assert |x| == |multiset(x)| == |multiset(a.assets)| == |a.assets|;
    assert |y| == |multiset(y)| == |multiset(b.assets)| == |b.assets|;
    for i := 0 to |x|
      invariant x[..i] == y[..i]
    {
      if x[i] != y[i] {
        if multiset(a.assets) == multiset(b.assets) { SortedUnique(x, y); }
        return false;
      }
    }
    assert x[..|x|] == x && y[..|y|] == y;
    return true;
  }

  // ---------------------------------------------------------------------------------------
  // The insert, as a function of the tables

  /** The stored assets at (time, meter), ordered by asset id. */
  function StoredAssets(assets: map<AssetKey, AssetRow>, time: int, meterId: string,
                        ids: seq<string>): seq<StorageAsset>
    requires forall id <- ids :: AssetKey(time, meterId, id) in assets
  {
    seq(|ids|, i requires 0 <= i < |ids| => assets[AssetKey(time, meterId, ids[i])].asset)
  }

  function AssetsAt(assets: map<AssetKey, AssetRow>, time: int, meterId: string): seq<StorageAsset> {
    var ids := AssetIdsAt(assets, time, meterId);
    ListingSorted(ids);
    StoredAssets(assets, time, meterId, Listing(ids))
  }

  /** The stored reading as a replay check loads it: all assets of the tick, whichever seq wrote them. */
  function LoadReading(t: Tables, k: ReadingKey): MeterReading
    requires k in t.readings
  {
    var row := t.readings[k];
    MeterReading(row.schemaVersion, k.meterId, row.houseId, row.gridId, row.deviceClass, k.time, k.seqNo,
                 row.solarKw, row.consumptionKw, row.netKw, AssetsAt(t.assets, k.time, k.meterId),
                 row.irradiance, row.cloudCover)
  }

  /** Inserts asset rows one by one; a key already present is a unique violation. */
  function AddAssets(assets: map<AssetKey, AssetRow>, r: MeterReading, todo: seq<StorageAsset>)
    : Option<map<AssetKey, AssetRow>>
    decreases |todo|
  {
    if todo == [] then Some(assets)
    else
      var k := AssetKeyOf(r, todo[0]);
      if k in assets then None else AddAssets(assets[k := AssetRow(r.houseId, todo[0])], r, todo[1..])
  }

  /** What one successful transaction does: insert, accept an identical replay, or refuse and change nothing. */
  ghost function Insert(t: Tables, r: MeterReading): (Tables, Outcome) {
    var k := KeyOf(r);
    if k in t.readings then
      (t, if SameReading(LoadReading(t, k), Normalize(r)) then Replay else Conflict)
    else
      match AddAssets(t.assets, r, r.assets)
      case Some(assets) => (Tables(t.readings[k := RowOf(r)], assets), Inserted)
      case None => (t, Conflict)
  }

  class TelemetryStore {
    var readings: map<ReadingKey, ReadingRow>
    var assets: map<AssetKey, AssetRow>

    ghost function State(): Tables
      reads this
    {
      Tables(readings, assets)
    }

    constructor ()
      ensures State() == Tables(map[], map[])
    {
      readings, assets := map[], map[];
    }

    /**
     * One transaction. `fault` names the statement at which the database fails, if any; a
     * failed transaction leaves no partial rows.
     */
    method InsertMeterReading(raw: MeterReading, fault: Option<nat>) returns (outcome: Outcome)
      requires Keyed(State())
      modifies this
      ensures Keyed(State())
      ensures outcome == Fault ==> State() == old(State()) && fault.Some?
      ensures outcome != Fault ==> (State(), outcome) == Insert(old(State()), raw)
    {
      var r := Normalize(raw);
      TruncationKeepsMillis(raw.eventTime);
      if fault == Some(0) { return Fault; }
      var k := KeyOf(r);
      if k in readings {
        outcome := VerifyReplay(k, r, fault);
        return;
      }
      var tx := assets;
      for i := 0 to |r.assets|
        invariant AddAssets(assets, raw, r.assets) == AddAssets(tx, raw, r.assets[i..])
        invariant Keyed(Tables(readings, tx))
      {
        var a := r.assets[i];
        assert r.assets[i..][1..] == r.assets[i + 1..];
        if fault == Some(i + 1) { return Fault; }
        if AssetKeyOf(r, a) in tx { return Conflict; }
        tx := tx[AssetKeyOf(r, a) := AssetRow(r.houseId, a)];
      }
      if fault == Some(|r.assets| + 1) { return Fault; }
      readings, assets := readings[k := RowOf(r)], tx;
      return Inserted;
    }

    /** Loads the stored reading row by row and compares; never writes. */
    method VerifyReplay(k: ReadingKey, r: MeterReading, fault: Option<nat>) returns (outcome: Outcome)
      requires k in readings && k == KeyOf(r) && r == Normalize(r) && Keyed(State())
      ensures outcome == Fault ==> fault.Some?
      ensures outcome != Fault ==>
                outcome == if SameReading(LoadReading(State(), k), r) then Replay else Conflict
    {
      if fault == Some(1) || fault == Some(2) { return Fault; }
      var ids := Listing(AssetIdsAt(assets, k.time, k.meterId));
      ListingSorted(AssetIdsAt(assets, k.time, k.meterId));
      var found: seq<StorageAsset> := [];
      for i := 0 to |ids|
        invariant |found| == i
        invariant forall j :: 0 <= j < i ==> AssetKey(k.time, k.meterId, ids[j]) in assets
        invariant forall j :: 0 <= j < i ==> found[j] == assets[AssetKey(k.time, k.meterId, ids[j])].asset
      {
        if fault == Some(i + 3) { return Fault; }
        assert ids[i] in ids;
        found := found + [assets[AssetKey(k.time, k.meterId, ids[i])].asset];
      }
      var row := readings[k];
      var stored := MeterReading(row.schemaVersion, k.meterId, row.houseId, row.gridId, row.deviceClass, k.time,
                                 k.seqNo, row.solarKw, row.consumptionKw, row.netKw, found,
                                 row.irradiance, row.cloudCover);
      assert found == AssetsAt(assets, k.time, k.meterId);
      AssetsAtDistinct(State(), k.time, k.meterId);
      var equal := ReadingsEqual(stored, r);
      return if equal then Replay else Conflict;
    }
  }

  lemma AssetsAtDistinct(t: Tables, time: int, meterId: string)
    requires Keyed(t)
    ensures DistinctIds(AssetsAt(t.assets, time, meterId))
  {
    var ids := Listing(AssetIdsAt(t.assets, time, meterId));
    ListingSorted(AssetIdsAt(t.assets, time, meterId));
    var found := AssetsAt(t.assets, time, meterId);
    forall i, j | 0 <= i < j < |found| ensures found[i].assetId != found[j].assetId {
      assert ids[i] in ids && ids[j] in ids;
      LessIrreflexive(ids[i]);
      assert found[i].assetId == ids[i] && found[j].assetId == ids[j];
    }
  }
}
