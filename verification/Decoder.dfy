/**
 * From wire records to domain records. JSON parsing is taken as done: an absent field is None, and
 * a timestamp that is not RFC 3339 is None. JSON numbers are finite, so finiteness needs no check.
 */
module Decoder {
  import opened Common
  import opened Domain
  import opened Identity
  import Heartbeat

  datatype StorageWire = StorageWire(assetId: string, assetType: string, socPct: Option<real>, powerKw: Option<real>,
                                     capacityKwh: real, pluggedIn: Option<bool>)
  datatype FlexibleWire = FlexibleWire(assetId: string, assetType: string, capacityKwh: real, maxChargeKw: Option<real>,
                                       maxDischargeKw: Option<real>, v2gCapable: Option<bool>)
  datatype ReadingsWire = ReadingsWire(solarKw: Option<real>, consumptionKw: Option<real>, netKw: Option<real>,
                                       storageAssets: seq<StorageWire>)
  datatype MetaWire = MetaWire(irradiance: Option<real>, cloudCover: Option<real>)
  datatype MeterWire = MeterWire(schemaVersion: string, meterId: string, houseId: string, gridId: string,
                                 deviceClass: string, timestamp: Option<int>, seqNo: Option<int>,
                                 readings: Option<ReadingsWire>, meta: Option<MetaWire>)

  const MAX_SKEW_FUTURE := 300_000_000_000
  const MAX_SKEW_PAST := 86_400_000_000_000

  /** The two asset types by their names on the wire. */
  ghost predicate Names(s: string, kind: AssetType) {
    (s == "bess" && kind == Bess) || (s == "ev" && kind == Ev)
  }

  function AssetTypeOf(s: string): Option<AssetType> {
    if s == "bess" then Some(Bess) else if s == "ev" then Some(Ev) else None
  }

  predicate NonNegative(v: Option<real>) { v.Some? && v.value >= 0.0 }
  predicate Percent(v: Option<real>) { v.Some? && 0.0 <= v.value <= 100.0 }

  /** An EV-only field is present exactly on EV entries. */
  predicate CapabilityOk(kind: AssetType, field: Option<bool>) { field.Some? <==> kind == Ev }

  // ---------------------------------------------------------------------------------------
  // Asset lists

  predicate StorageOk(w: StorageWire) {
    && AssetTypeOf(w.assetType).Some? && Percent(w.socPct) && w.powerKw.Some? && w.capacityKwh > 0.0
    && CapabilityOk(AssetTypeOf(w.assetType).value, w.pluggedIn)
  }

  function StorageOf(w: StorageWire): StorageAsset
    requires StorageOk(w)
  {
    StorageAsset(w.assetId, AssetTypeOf(w.assetType).value, w.socPct.value, w.powerKw.value, w.capacityKwh, w.pluggedIn)
  }

  /** The decoded asset says, field by field, what the entry said. */
  ghost predicate SameStorage(w: StorageWire, a: StorageAsset) {
    && a.assetId == w.assetId && Names(w.assetType, a.assetType)
    && w.socPct == Some(a.socPct) && w.powerKw == Some(a.powerKw)
    && a.capacityKwh == w.capacityKwh && a.pluggedIn == w.pluggedIn
  }

  /** A known type, a charge between 0 and 100 percent, a power, a positive capacity, and plugged_in exactly on EVs. */
  ghost predicate GoodEntry(w: StorageWire) {
    && w.assetType in {"bess", "ev"} && w.socPct.Some? && 0.0 <= w.socPct.value <= 100.0
    && w.powerKw.Some? && w.capacityKwh > 0.0 && (w.pluggedIn.Some? <==> w.assetType == "ev")
  }

  ghost predicate GoodStorage(ws: seq<StorageWire>) {
    && (forall i :: 0 <= i < |ws| ==> ValidAssetId(ws[i].assetId) && GoodEntry(ws[i]))
    && (forall i, j :: 0 <= i < j < |ws| ==> ws[i].assetId != ws[j].assetId)
  }

  /** All or nothing: the list decodes exactly when every entry is valid and no id repeats, entry by entry in order. */
  method DecodeStorageAssets(ws: seq<StorageWire>) returns (res: Option<seq<StorageAsset>>)
    ensures res.Some? <==> GoodStorage(ws)
    ensures res.Some? ==>
              && |res.value| == |ws| && DistinctIds(res.value)
              && forall i :: 0 <= i < |ws| ==> StorageOk(ws[i]) && SameStorage(ws[i], res.value[i])
  {
    var seen: set<string> := {};
    var out: seq<StorageAsset> := [];
    for i := 0 to |ws|
      invariant |out| == i
      invariant forall j :: 0 <= j < i ==> ValidAssetId(ws[j].assetId) && StorageOk(ws[j]) && out[j] == StorageOf(ws[j])
      invariant forall j :: 0 <= j < i ==> ws[j].assetId in seen
      invariant forall id <- seen :: exists j :: 0 <= j < i && ws[j].assetId == id
      invariant forall j, k :: 0 <= j < k < i ==> ws[j].assetId != ws[k].assetId
    {
      var ok := ValidateAssetId(ws[i].assetId);
      if !ok || ws[i].assetId in seen || !StorageOk(ws[i]) { return None; }
      seen := seen + {ws[i].assetId};
      out := out + [StorageOf(ws[i])];
    }
    return Some(out);
  }

  predicate FlexibleOk(w: FlexibleWire) {
    && AssetTypeOf(w.assetType).Some? && w.capacityKwh > 0.0
    && NonNegative(w.maxChargeKw) && NonNegative(w.maxDischargeKw)
    && CapabilityOk(AssetTypeOf(w.assetType).value, w.v2gCapable)
  }

  function FlexibleOf(w: FlexibleWire): Heartbeat.FlexibleAsset
    requires FlexibleOk(w)
  {
    Heartbeat.FlexibleAsset(w.assetId, AssetTypeOf(w.assetType).value, w.capacityKwh, w.maxChargeKw.value,
                            w.maxDischargeKw.value, w.v2gCapable)
  }

  ghost predicate SameFlexible(w: FlexibleWire, a: Heartbeat.FlexibleAsset) {
    && a.assetId == w.assetId && Names(w.assetType, a.assetType) && a.capacityKwh == w.capacityKwh
    && w.maxChargeKw == Some(a.maxChargeKw) && w.maxDischargeKw == Some(a.maxDischargeKw)
    && a.v2gCapable == w.v2gCapable
  }

  /** A known type, a positive capacity, nonnegative power limits, and v2g_capable exactly on EVs. */
  ghost predicate GoodCapability(w: FlexibleWire) {
    && w.assetType in {"bess", "ev"} && w.capacityKwh > 0.0
    && w.maxChargeKw.Some? && w.maxChargeKw.value >= 0.0 && w.maxDischargeKw.Some? && w.maxDischargeKw.value >= 0.0
    && (w.v2gCapable.Some? <==> w.assetType == "ev")
  }

  ghost predicate GoodFlexible(ws: seq<FlexibleWire>) {
    && (forall i :: 0 <= i < |ws| ==> ValidAssetId(ws[i].assetId) && GoodCapability(ws[i]))
    && (forall i, j :: 0 <= i < j < |ws| ==> ws[i].assetId != ws[j].assetId)
  }

  /** The same rule for heartbeats; the result meets what the heartbeat transaction relies on. */
  method DecodeFlexibleAssets(ws: seq<FlexibleWire>) returns (res: Option<seq<Heartbeat.FlexibleAsset>>)
    ensures res.Some? <==> GoodFlexible(ws)
    ensures res.Some? ==>
              && |res.value| == |ws| && Heartbeat.DistinctAssets(res.value)
              && forall i :: 0 <= i < |ws| ==> FlexibleOk(ws[i]) && SameFlexible(ws[i], res.value[i])
  {
    var seen: set<string> := {};
    var out: seq<Heartbeat.FlexibleAsset> := [];
    for i := 0 to |ws|
      invariant |out| == i
      invariant forall j :: 0 <= j < i ==>
                  ValidAssetId(ws[j].assetId) && FlexibleOk(ws[j]) && out[j] == FlexibleOf(ws[j])
      invariant forall j :: 0 <= j < i ==> ws[j].assetId in seen
      invariant forall id <- seen :: exists j :: 0 <= j < i && ws[j].assetId == id
      invariant forall j, k :: 0 <= j < k < i ==> ws[j].assetId != ws[k].assetId
    {
      var ok := ValidateAssetId(ws[i].assetId);
      if !ok || ws[i].assetId in seen || !FlexibleOk(ws[i]) { return None; }
      seen := seen + {ws[i].assetId};
      out := out + [FlexibleOf(ws[i])];
    }
    return Some(out);
  }

  // ---------------------------------------------------------------------------------------
  // Meter readings

  predicate InSkewWindow(eventTime: int, now: int) {
    now - MAX_SKEW_PAST <= eventTime <= now + MAX_SKEW_FUTURE
  }

  predicate MetaOk(m: Option<MetaWire>) {
    m.None? || ((m.value.irradiance.None? || NonNegative(m.value.irradiance))
                && (m.value.cloudCover.None? || Percent(m.value.cloudCover)))
  }

  /** Everything that makes a record acceptable apart from the clock. */
  ghost predicate WellFormed(w: MeterWire) {
    && w.schemaVersion == "1.0"
    && ValidIdentity(w.gridId, w.houseId, w.meterId)
    && w.deviceClass in {"consumer", "residential_prosumer", "commercial"}
    && w.timestamp.Some? && w.seqNo.Some? && w.seqNo.value >= 0 && w.readings.Some? && GoodReadings(w.readings.value)
    && (w.meta.Some? ==> GoodMeta(w.meta.value))
  }

  ghost predicate GoodReadings(r: ReadingsWire) {
    && r.solarKw.Some? && r.solarKw.value >= 0.0 && r.consumptionKw.Some? && r.consumptionKw.value >= 0.0
    && r.netKw.Some? && GoodStorage(r.storageAssets)
  }

  ghost predicate GoodMeta(m: MetaWire) {
    && (m.irradiance.Some? ==> m.irradiance.value >= 0.0)
    && (m.cloudCover.Some? ==> 0.0 <= m.cloudCover.value <= 100.0)
  }

  /** At most a day old and at most five minutes ahead. */
  ghost predicate Timely(eventTime: int, now: int) {
    now - eventTime <= 24 * 60 * 60 * 1_000_000_000 && eventTime - now <= 5 * 60 * 1_000_000_000
  }

  function ReadingOf(w: MeterWire, class_: DeviceClass, assets: seq<StorageAsset>): MeterReading
    requires w.timestamp.Some? && w.seqNo.Some? && w.readings.Some? && w.readings.value.solarKw.Some?
    requires w.readings.value.consumptionKw.Some? && w.readings.value.netKw.Some?
  {
    MeterReading(w.schemaVersion, w.meterId, w.houseId, w.gridId, class_, w.timestamp.value, w.seqNo.value,
                 w.readings.value.solarKw.value, w.readings.value.consumptionKw.value, w.readings.value.netKw.value,
                 assets,
                 if w.meta.Some? then w.meta.value.irradiance else None,
                 if w.meta.Some? then w.meta.value.cloudCover else None)
  }

  /** The decoded reading says, field by field, what the record said. */
  ghost predicate SameFields(w: MeterWire, r: MeterReading) {
    && r.schemaVersion == w.schemaVersion && r.meterId == w.meterId && r.houseId == w.houseId && r.gridId == w.gridId
    && ClassNamed(w.deviceClass, r.deviceClass) && w.timestamp == Some(r.eventTime) && w.seqNo == Some(r.seqNo)
    && w.readings.Some? && w.readings.value.solarKw == Some(r.solarKw)
    && w.readings.value.consumptionKw == Some(r.consumptionKw) && w.readings.value.netKw == Some(r.netKw)
    && (w.meta.Some? ==> r.irradiance == w.meta.value.irradiance && r.cloudCover == w.meta.value.cloudCover)
    && (w.meta.None? ==> r.irradiance.None? && r.cloudCover.None?)
  }

  /**
   * Accepts exactly the well-formed records whose time is inside the skew window of the clock; what is
   * returned depends on the record alone and has distinct asset ids and nonnegative powers.
   */
  method DecodeMeterReading(w: MeterWire, now: int) returns (res: Option<MeterReading>)
    ensures res.Some? <==> WellFormed(w) && Timely(w.timestamp.value, now)
    ensures res.Some? ==>
              var r := res.value;
              && ValidIdentity(r.gridId, r.houseId, r.meterId) && DistinctIds(r.assets)
              && r.solarKw >= 0.0 && r.consumptionKw >= 0.0 && r.seqNo >= 0
              && r == ReadingOf(w, DeviceClassOf(w.deviceClass).value, r.assets)
              && SameFields(w, r)
              && |r.assets| == |w.readings.value.storageAssets|
              && forall i :: 0 <= i < |r.assets| ==>
                   SameStorage(w.readings.value.storageAssets[i], r.assets[i])
  {
    if w.schemaVersion != "1.0" { return None; }
    var class_ := ValidateHouseIdentity(w.gridId, w.houseId, w.meterId, w.deviceClass);
    if class_.None? || w.timestamp.None? || !InSkewWindow(w.timestamp.value, now) { return None; }
    if w.seqNo.None? || w.seqNo.value < 0 || w.readings.None? { return None; }
    var readings := w.readings.value;
    if !NonNegative(readings.solarKw) || !NonNegative(readings.consumptionKw) || readings.netKw.None? { return None; }
    var assets := DecodeStorageAssets(readings.storageAssets);
    if assets.None? || !MetaOk(w.meta) { return None; }
    return Some(ReadingOf(w, class_.value, assets.value));
  }
}
