/** The decoded records that travel from the decoder to the stores. */
module Domain {
  import opened Common

  datatype AssetType = Bess | Ev
  datatype DeviceClass = Consumer | ResidentialProsumer | Commercial

  datatype StorageAsset = StorageAsset(assetId: string, assetType: AssetType, socPct: real, powerKw: real,
                                       capacityKwh: real, pluggedIn: Option<bool>)

  /** `eventTime` is in nanoseconds since the Unix epoch. */
  datatype MeterReading = MeterReading(schemaVersion: string, meterId: string, houseId: string, gridId: string,
                                       deviceClass: DeviceClass, eventTime: int, seqNo: int,
                                       solarKw: real, consumptionKw: real, netKw: real,
                                       assets: seq<StorageAsset>,
                                       irradiance: Option<real>, cloudCover: Option<real>)

  /** Truncate(time.Microsecond): what a timestamptz column keeps. */
  function TruncateMicros(ns: int): int {
    ns / 1000 * 1000
  }

  /** UnixMilli: the milliseconds the projection is ordered by. */
  function UnixMilli(ns: int): int {
    ns / 1_000_000
  }

  /** The two roundings: down to a whole microsecond, and down to the millisecond's number. */
  lemma TimesRoundDown(ns: int)
    ensures TruncateMicros(ns) <= ns < TruncateMicros(ns) + 1000 && TruncateMicros(ns) % 1000 == 0
    ensures UnixMilli(ns) * 1_000_000 <= ns < (UnixMilli(ns) + 1) * 1_000_000
  {}

  /** Storing a time at microsecond precision does not change its millisecond. */
  lemma TruncationKeepsMillis(ns: int)
    ensures UnixMilli(TruncateMicros(ns)) == UnixMilli(ns)
    ensures TruncateMicros(TruncateMicros(ns)) == TruncateMicros(ns)
  {
    var q := ns / 1000;
    assert ns / 1_000_000 == q / 1000;
    assert q * 1000 / 1_000_000 == q / 1000;
  }

  ghost predicate DistinctIds(assets: seq<StorageAsset>) {
    forall i, j :: 0 <= i < j < |assets| ==> assets[i].assetId != assets[j].assetId
  }
}
