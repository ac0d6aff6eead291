/** The meter-reading workflow: input checks, admission, the durable write, then the projection. */
module MeterHandler {
  import opened Common
  import opened Domain
  import opened Telemetry
  import opened History
  import opened Projection
  import opened Retry

  datatype CachePolicy = Required | AsyncRepair
  datatype InputLimits = InputLimits(maxRecordBytes: int, enforceHouseKey: bool)

  // ---------------------------------------------------------------------------------------
  // The record key

  /** strings.Split on a slash. */
  function Split(s: string): (parts: seq<string>)
    ensures parts != []
  {
    if s == "" then [""]
    else if s[0] == '/' then [""] + Split(s[1..])
    else var rest := Split(s[1..]); [[s[0]] + rest[0]] + rest[1..]
  }

  lemma {:induction false} SplitHead(a: string, rest: string)
    requires '/' !in a
    ensures Split(a + "/" + rest) == [a] + Split(rest)
  {
    var s := a + "/" + rest;
    if a == "" {
      assert s[0] == '/' && s[1..] == rest;
    } else {
      assert s[0] == a[0] && s[1..] == a[1..] + "/" + rest;
      SplitHead(a[1..], rest);
      assert [a[0]] + a[1..] == a;
      assert ([a[1..]] + Split(rest))[1..] == Split(rest);
    }
  }

  lemma {:induction false} SplitWhole(a: string)
    requires '/' !in a
    ensures Split(a) == [a]
  {
    if a != "" {
      SplitWhole(a[1..]);
      assert [a[0]] + a[1..] == a;
    }
  }

  /** The first part is everything before the first slash, and the rest splits on its own. */
  lemma {:induction false} SplitInverse(s: string) returns (tail: string)
    ensures '/' !in Split(s)[0]
    ensures |Split(s)| == 1 ==> s == Split(s)[0]
    ensures |Split(s)| > 1 ==> s == Split(s)[0] + "/" + tail && Split(s)[1..] == Split(tail)
  {
    if s == "" {
      tail := "";
    } else if s[0] == '/' {
      tail := s[1..];
      assert s == "" + "/" + tail;
    } else {
      tail := SplitInverse(s[1..]);
      assert s == [s[0]] + s[1..];
      var rest := Split(s[1..]);
      assert Split(s)[0] == [s[0]] + rest[0] && Split(s)[1..] == rest[1..];
    }
  }

  predicate KeyAccepted(l: InputLimits, key: string, gridId: string, houseId: string) {
    || !l.enforceHouseKey || key == "" || key == houseId
    || (var parts := Split(key); |parts| == 4 && parts[0] == "gridx" && parts[1] == gridId && parts[2] == houseId)
  }

  function SourceTopic(gridId: string, houseId: string, kind: string): string {
    "gridx" + "/" + (gridId + "/" + (houseId + "/" + kind))
  }

  /** The source topic as it is spelled. */
  lemma SourceTopicText()
    ensures SourceTopic("g1", "g1-house2", "meter") == "gridx/g1/g1-house2/meter"
  {}

  /** An enforced, present key passes exactly when it is the house id or the house's source topic of some kind. */
  lemma KeyAcceptedExact(l: InputLimits, key: string, gridId: string, houseId: string)
    requires '/' !in gridId && '/' !in houseId
    ensures KeyAccepted(l, key, gridId, houseId) <==>
            || !l.enforceHouseKey || key == "" || key == houseId
            || exists kind :: '/' !in kind && key == SourceTopic(gridId, houseId, kind)
  {
    if kind :| '/' !in kind && key == SourceTopic(gridId, houseId, kind) {
      SplitHead("gridx", gridId + "/" + (houseId + "/" + kind));
      SplitHead(gridId, houseId + "/" + kind);
      SplitHead(houseId, kind);
      SplitWhole(kind);
    }
    var parts := Split(key);
    if |parts| == 4 && parts[0] == "gridx" && parts[1] == gridId && parts[2] == houseId {
      var a := SplitInverse(key);
      var b := SplitInverse(a);
      var c := SplitInverse(b);
      var d := SplitInverse(c);
      assert key == SourceTopic(gridId, houseId, c);
    }
  }

  // ---------------------------------------------------------------------------------------
  // The handler

  /** The cache holds an entry at least as new as p. */
  ghost predicate HoldsAtLeast(m: Latest, p: MeterProjection) {
    Key(p) in m && m[Key(p)].Entry? && AtLeast(m[Key(p)].p, p)
  }

  lemma SetHolds(m: Latest, p: MeterProjection, q: MeterProjection)
    ensures NeverBack(m, SetIfNewer(m, p).0) && HoldsAtLeast(SetIfNewer(m, p).0, p)
    ensures HoldsAtLeast(m, q) ==> HoldsAtLeast(SetIfNewer(m, p).0, q)
  {
  }

  /** How the compare-and-set call went: answered, never arrived, or applied with its answer lost. */
  datatype CacheReply = Answered | NotReached | AnswerLost

  function Permanent(k: Kind): Error {
    Error({k}, false)
  }

  class MeterHandler {
    const store: TelemetryStore
    const cache: LatestStore
    const limits: InputLimits
    const policy: CachePolicy
    var degraded: nat

    constructor (store: TelemetryStore, cache: LatestStore, limits: InputLimits, policy: CachePolicy)
      ensures this.store == store && this.cache == cache && this.limits == limits && this.policy == policy
              && degraded == 0
    {
      this.store, this.cache, this.limits, this.policy, this.degraded := store, cache, limits, policy, 0;
    }

    /** The record is too large, does not decode, or names another house in its key. */
    predicate Malformed(key: string, size: nat, decoded: Option<MeterReading>) {
      || 0 < limits.maxRecordBytes < size
      || decoded.None?
      || !KeyAccepted(limits, key, decoded.value.gridId, decoded.value.houseId)
    }

    /** The record passes every check that comes before the first write. */
    predicate Admissible(key: string, size: nat, decoded: Option<MeterReading>, admitted: set<string>) {
      !Malformed(key, size, decoded) && decoded.value.gridId in admitted
    }

    /**
     * None is the signal to commit the offset. It is given exactly when the checks pass, the history took the
     * reading or already had it, and Redis answered or the policy does without; the cache is only ever
     * touched after the reading is durable.
     */
    method HandleRecord(key: string, size: nat, decoded: Option<MeterReading>, admitted: set<string>,
                        dbFault: Option<nat>, redis: CacheReply) returns (err: Option<Error>)
      requires Keyed(store.State())
      modifies store, cache, this
      ensures Keyed(store.State()) && Extends(old(store.State()), store.State())
      ensures NeverBack(old(cache.entries), cache.entries)
      ensures err.None? ==> Admissible(key, size, decoded, admitted) && InHistory(store.State(), decoded.value)
      ensures err.None? ==> redis == Answered || policy == AsyncRepair
      ensures err.None? && policy == Required ==> HoldsAtLeast(cache.entries, Project(decoded.value))
      ensures !Admissible(key, size, decoded, admitted) ==>
                store.State() == old(store.State()) && cache.entries == old(cache.entries)
      ensures Admissible(key, size, decoded, admitted) && (err.None? || err.value != Error({}, false)) ==>
                store.State() == Insert(old(store.State()), decoded.value).0
      ensures err == Some(Error({}, false)) ==>
                && Admissible(key, size, decoded, admitted) && dbFault.Some?
                && store.State() == old(store.State()) && cache.entries == old(cache.entries)
      ensures err == Some(Error({Validation}, false)) <==> Malformed(key, size, decoded)
      ensures err == Some(Error({UnknownGrid}, false)) <==>
              !Malformed(key, size, decoded) && decoded.value.gridId !in admitted
      ensures err == Some(Error({IntegrityConflict}, false)) ==>
                && Admissible(key, size, decoded, admitted) && cache.entries == old(cache.entries)
                && Insert(old(store.State()), decoded.value).1 == Conflict
      ensures err == Some(Error({}, true)) ==>
                && Admissible(key, size, decoded, admitted) && redis != Answered && policy == Required
                && InHistory(store.State(), decoded.value)
      ensures err.Some? ==> err.value in {Error({Validation}, false), Error({UnknownGrid}, false),
                                          Error({IntegrityConflict}, false), Error({}, false), Error({}, true)}
      ensures err.None? || err.value == Error({}, true) ==>
                cache.entries == if redis == NotReached then old(cache.entries)
                                 else SetIfNewer(old(cache.entries), Project(decoded.value)).0
      ensures Admissible(key, size, decoded, admitted) && dbFault.None?
              && (redis == Answered || policy == AsyncRepair) ==>
                (err.None? <==> Insert(old(store.State()), decoded.value).1 != Conflict)
      ensures degraded == old(degraded) + if redis != Answered && err.None? then 1 else 0
    {
      if limits.maxRecordBytes > 0 && size > limits.maxRecordBytes { return Some(Permanent(Validation)); }
      if decoded.None? { return Some(Permanent(Validation)); }
      var reading := decoded.value;
      if !KeyAccepted(limits, key, reading.gridId, reading.houseId) { return Some(Permanent(Validation)); }
      if reading.gridId !in admitted { return Some(Permanent(UnknownGrid)); }

      InsertExtends(store.State(), reading);
      ghost var before := store.State();
      var outcome := store.InsertMeterReading(reading, dbFault);
      match outcome {
        case Fault => return Some(Error({}, false));
        case Conflict => return Some(Permanent(IntegrityConflict));
        case _ =>
      }
      AcceptedInHistory(before, reading);

      err := UpdateLatest(reading, redis);
    }

    /** The compare-and-set, and what the policy makes of a call that failed. */
    method UpdateLatest(reading: MeterReading, redis: CacheReply) returns (err: Option<Error>)
      modifies cache, this
      ensures err == if redis == Answered || policy == AsyncRepair then None else Some(Error({}, true))
      ensures cache.entries == if redis == NotReached then old(cache.entries)
                               else SetIfNewer(old(cache.entries), Project(reading)).0
      ensures NeverBack(old(cache.entries), cache.entries)
      ensures redis != NotReached ==> HoldsAtLeast(cache.entries, Project(reading))
      ensures degraded == old(degraded) + if redis != Answered && policy == AsyncRepair then 1 else 0
    {
      SetHolds(cache.entries, Project(reading), Project(reading));
      var p := ProjectionOf(reading);
      if redis != NotReached { var applied := cache.SetLatestIfNewer(p); }
      if redis == Answered { return None; }
      if policy == Required { return Some(Error({}, true)); }
      degraded := degraded + 1;
      return None;
    }
  }
}
