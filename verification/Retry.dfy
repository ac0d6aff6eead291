/** The bounded retry of one record, and how its final error is classified. */
module Retry {
  import opened Failures

  datatype RetryPolicy = RetryPolicy(maxTries: int, initialInterval: int, maxInterval: int)

  const DEFAULT_TRIES := 3
  const MAX_TRIES := 10
  const DEFAULT_INITIAL_INTERVAL := 100_000_000
  const DEFAULT_MAX_INTERVAL := 2_000_000_000

  predicate Safe(p: RetryPolicy) {
    1 <= p.maxTries <= MAX_TRIES && 0 < p.initialInterval <= p.maxInterval
  }

  /** Any policy becomes safe to hand to a library that takes 0 for "forever"; a safe one is left as it is. */
  function WithDefaults(p: RetryPolicy): (q: RetryPolicy)
    ensures Safe(q)
    ensures q == p <==> Safe(p)
    ensures p.maxTries <= 0 ==> q.maxTries == 3
    ensures 1 <= p.maxTries <= 10 ==> q.maxTries == p.maxTries
    ensures p.maxTries > 10 ==> q.maxTries == 10
    ensures q.initialInterval == if 0 < p.initialInterval then p.initialInterval else 100_000_000
    ensures p.maxInterval > q.initialInterval ==> q.maxInterval == p.maxInterval
    ensures 0 < p.maxInterval <= q.initialInterval ==> q.maxInterval == q.initialInterval
    ensures p.maxInterval <= 0 && q.initialInterval <= 2_000_000_000 ==> q.maxInterval == 2_000_000_000
    ensures p.maxInterval <= 0 && q.initialInterval > 2_000_000_000 ==> q.maxInterval == q.initialInterval
  {
    var tries := if p.maxTries <= 0 then DEFAULT_TRIES else p.maxTries;
    var capped := if tries > MAX_TRIES then MAX_TRIES else tries;
    var initial := if p.initialInterval <= 0 then DEFAULT_INITIAL_INTERVAL else p.initialInterval;
    var most := if p.maxInterval <= 0 then DEFAULT_MAX_INTERVAL else p.maxInterval;
    RetryPolicy(capped, initial, if most < initial then initial else most)
  }

  datatype Kind = Validation | IntegrityConflict | GridNotProvisioned | HouseIdentity | UnknownGrid | Panicked
    | NoHandlerFor

  /** An error: the sentinels its chain wraps, and whether its text names a Redis step. */
  datatype Error = Error(kinds: set<Kind>, redisText: bool)

  predicate IsPermanent(e: Error) {
    e.kinds != {}
  }

  /** Permanent is exactly: a malformed payload, a conflict, an unprovisioned grid or house, a panic or no handler. */
  lemma PermanentExact(e: Error)
    ensures IsPermanent(e) <==>
            || Validation in e.kinds || IntegrityConflict in e.kinds || GridNotProvisioned in e.kinds
            || HouseIdentity in e.kinds || UnknownGrid in e.kinds || Panicked in e.kinds || NoHandlerFor in e.kinds
  {
    if IsPermanent(e) {
      var k :| k in e.kinds;
      match k {
        case Validation => case IntegrityConflict => case GridNotProvisioned => case HouseIdentity =>
        case UnknownGrid => case Panicked => case NoHandlerFor =>
      }
    }
  }

  function FailureStage(e: Error): (stage: Stage)
    ensures stage == HandlerPanic <==> Panicked in e.kinds
    ensures stage == Decode <==> Validation in e.kinds && Panicked !in e.kinds
    ensures stage == GridValidation <==>
            !(e.kinds !! {UnknownGrid, GridNotProvisioned, HouseIdentity}) && e.kinds !! {Panicked, Validation}
    ensures stage == RedisWrite <==> e.redisText && e.kinds <= {NoHandlerFor}
    ensures !IsPermanent(e) ==> stage == RedisWrite || stage == TimescaleWrite
  {
    if Panicked in e.kinds then HandlerPanic
    else if Validation in e.kinds then Decode
    else if UnknownGrid in e.kinds || GridNotProvisioned in e.kinds || HouseIdentity in e.kinds then GridValidation
    else if IntegrityConflict in e.kinds then TimescaleWrite
    else OnlyNoHandlerLeft(e.kinds); if e.redisText then RedisWrite else TimescaleWrite
  }

  lemma OnlyNoHandlerLeft(kinds: set<Kind>)
    requires kinds !! {Panicked, Validation, UnknownGrid, GridNotProvisioned, HouseIdentity, IntegrityConflict}
    ensures kinds <= {NoHandlerFor}
  {
    forall k <- kinds ensures k == NoHandlerFor {
      match k { case NoHandlerFor => case _ => assert false; }
    }
  }

  datatype Attempt = Success | Failed(error: Error)

  predicate Transient(a: Attempt) {
    a.Failed? && !IsPermanent(a.error)
  }

  /**
   * Runs op until it succeeds, fails permanently, or the budget is spent. `stops(n)` says that the wait
   * after attempt n was cut short, by cancellation or by the library's own limits.
   */
  method RetryHandle(p: RetryPolicy, op: nat -> Attempt, stops: nat -> bool) returns (attempts: nat, last: Attempt)
    ensures 1 <= attempts <= MAX_TRIES
    ensures last == op(attempts)
    ensures forall n :: 1 <= n < attempts ==> Transient(op(n)) && !stops(n)
    ensures forall n :: 1 <= n < attempts ==> op(n).Failed? && op(n).error.kinds == {}
    ensures last.Failed? && last.error.kinds == {} ==> attempts == WithDefaults(p).maxTries || stops(attempts)
    ensures Transient(last) ==> attempts == WithDefaults(p).maxTries || stops(attempts)
    ensures attempts <= WithDefaults(p).maxTries
  {
    var policy := WithDefaults(p);
    attempts := 1;
    while attempts < policy.maxTries && Transient(op(attempts)) && !stops(attempts)
      invariant 1 <= attempts <= policy.maxTries
      invariant forall n :: 1 <= n < attempts ==> Transient(op(n)) && !stops(n)
      decreases policy.maxTries - attempts
    {
      attempts := attempts + 1;
    }
    last := op(attempts);
  }
}
