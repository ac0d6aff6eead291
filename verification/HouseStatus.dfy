/**
 * What Redis knows about a house besides its latest reading: its membership in a grid and its liveness,
 * a time kept to the second under a key that expires. Times are nanoseconds.
 */
module HouseStatus {
  import opened Common
  import Heartbeat

  const SECOND := 1_000_000_000
  const HEARTBEAT_TTL := 600 * SECOND

  /** The stored time as RFC 3339 text keeps it, and when the key expires. */
  datatype Status = Status(second: int, expires: int)

  type Statuses = map<string, Status>

  /** What a reader finds: an expired key is no key. */
  function Visible(m: Statuses, h: string, clock: int): Option<int> {
    if h in m && clock < m[h].expires then Some(m[h].second) else None
  }

  /** HSET and EXPIRE, whatever was there; the time to live is cut to whole seconds. */
  function Write(m: Statuses, h: string, at: int, ttl: int, clock: int): Statuses {
    m[h := Status(at / SECOND, clock + ttl / SECOND * SECOND)]
  }

  function Update(m: Statuses, h: string, at: int, clock: int): Statuses {
    Write(m, h, at, HEARTBEAT_TTL, clock)
  }

  /** What is left of the liveness window at `now`. */
  function Remaining(last: int, now: int): int {
    HEARTBEAT_TTL - (now - last)
  }

  function Restore(m: Statuses, h: string, last: int, now: int, clock: int): (Statuses, bool) {
    if Remaining(last, now) < SECOND then (m, false)
    else (Write(m, h, last, Remaining(last, now), clock), true)
  }

  class HouseStore {
    var members: set<(string, string)>
    var statuses: Statuses

    constructor ()
      ensures members == {} && statuses == map[]
    {
      members, statuses := {}, map[];
    }

    method AddHouseToGrid(g: string, h: string)
      modifies `members
      ensures members == old(members) + {(g, h)}
    {
      members := members + {(g, h)};
    }

    /** update_heartbeat.lua: overwrite the status, set the expiry, add the membership. */
    method UpdateHeartbeatWithTtl(g: string, h: string, at: int, ttl: int, clock: int)
      modifies this
      ensures statuses == Write(old(statuses), h, at, ttl, clock) && members == old(members) + {(g, h)}
    {
      var expires := clock + ttl / SECOND * SECOND;
      statuses := statuses[h := Status(at / SECOND, expires)];
      members := members + {(g, h)};
    }

    method UpdateHeartbeat(g: string, h: string, at: int, clock: int)
      modifies this
      ensures statuses == Update(old(statuses), h, at, clock) && members == old(members) + {(g, h)}
      ensures statuses.Keys == old(statuses).Keys + {h}
      ensures forall x <- old(statuses) :: x != h ==> statuses[x] == old(statuses)[x]
      ensures statuses[h].second * 1_000_000_000 <= at < (statuses[h].second + 1) * 1_000_000_000
      ensures statuses[h].expires - clock == 10 * 60 * 1_000_000_000
    {
      UpdateHeartbeatWithTtl(g, h, at, HEARTBEAT_TTL, clock);
    }

    method RestoreHeartbeat(g: string, h: string, last: int, now: int, clock: int) returns (restored: bool)
      modifies this
      ensures (statuses, restored) == Restore(old(statuses), h, last, now, clock)
      ensures members == if restored then old(members) + {(g, h)} else old(members)
      ensures restored <==> now - last <= (10 * 60 - 1) * 1_000_000_000
      ensures !restored ==> statuses == old(statuses)
      ensures restored ==> h in statuses
      ensures restored ==> statuses[h].second * 1_000_000_000 <= last < (statuses[h].second + 1) * 1_000_000_000
      ensures restored ==>
                var left := 10 * 60 * 1_000_000_000 - (now - last);
                && left - 1_000_000_000 < statuses[h].expires - clock <= left
                && (statuses[h].expires - clock) % 1_000_000_000 == 0
      ensures restored ==> statuses.Keys == old(statuses).Keys + {h}
      ensures forall x <- old(statuses) :: x != h ==> x in statuses && statuses[x] == old(statuses)[x]
    {
      var remaining := HEARTBEAT_TTL - (now - last);
      if remaining < SECOND { return false; }
      UpdateHeartbeatWithTtl(g, h, last, remaining, clock);
      return true;
    }
  }

  // ---------------------------------------------------------------------------------------
  // When a restore regresses

  /** A reader at this time who would have seen a status now sees an earlier one, or none. */
  ghost predicate MovedBack(m: Statuses, m': Statuses, h: string, reader: int) {
    && Visible(m, h, reader).Some?
    && (Visible(m', h, reader).Some? ==> Visible(m', h, reader).value < Visible(m, h, reader).value)
  }

  /** No reader of any house, from the write on, is worse off. */
  ghost predicate NeverMovedBack(m: Statuses, m': Statuses, clock: int) {
    forall h, reader: int :: clock <= reader ==> !MovedBack(m, m', h, reader)
  }

  /** When a key restored now expires. */
  function RestoredExpiry(last: int, now: int, clock: int): int {
    clock + Remaining(last, now) / SECOND * SECOND
  }

  /**
   * A restore leaves no reader, then or later, worse off exactly when its guard refuses it, the house shows no status,
   * or the status it overwrites is neither later than the second it writes nor longer-lived than the key it sets.
   */
  lemma RestoreKeepsExact(m: Statuses, h: string, last: int, now: int, clock: int)
    ensures NeverMovedBack(m, Restore(m, h, last, now, clock).0, clock) <==>
            || Remaining(last, now) < SECOND
            || Visible(m, h, clock).None?
            || (m[h].second <= last / SECOND && m[h].expires <= RestoredExpiry(last, now, clock))
  {
    var m' := Restore(m, h, last, now, clock).0;
    if Remaining(last, now) >= SECOND && Visible(m, h, clock).Some? {
      WholeSeconds(Remaining(last, now));
      var expiry := RestoredExpiry(last, now, clock);
      assert m'[h] == Status(last / SECOND, expiry);
      if m[h].second > last / SECOND { assert MovedBack(m, m', h, clock); }
      if m[h].expires > expiry { assert MovedBack(m, m', h, expiry); }
    }
  }

  /** The other way to fail: an equal second overwritten by a key that expires sooner. */
  lemma RestoreShortensLife(h: string, second: int, last: int, now: int, clock: int, expires: int)
    requires Remaining(last, now) >= SECOND && second == last / SECOND && expires > RestoredExpiry(last, now, clock)
    ensures var m := map[h := Status(second, expires)];
            var m' := Restore(m, h, last, now, clock).0;
            var reader := RestoredExpiry(last, now, clock);
            clock < reader && Visible(m, h, reader) == Some(second) && Visible(m', h, reader).None?
  {
    WholeSeconds(Remaining(last, now));
  }

  lemma WholeSeconds(d: int)
    ensures d == d / SECOND * SECOND + d % SECOND && 0 <= d % SECOND < SECOND
    ensures d >= SECOND ==> d / SECOND * SECOND >= SECOND
  {}

  /**
   * The failing run: a rebuild reads the house's row, a heartbeat with a later second is applied and written to Redis,
   * and the rebuild then restores what it read. The status moves back although history has the later time.
   */
  lemma RestoreMovesStatusBack(t: Heartbeat.Tables, b: Heartbeat.Beat, at: int, m: Statuses, beatClock: int, now: int,
                               clock: int)
    requires Heartbeat.DistinctAssets(b.assets) && Heartbeat.ApplyBeat(t, b, at).1 == Heartbeat.Applied
             && b.houseId in t.houses
    requires var last := t.houses[b.houseId].lastHeartbeatAt;
             last / SECOND < at / SECOND && Remaining(last, now) >= SECOND
    requires beatClock <= clock < beatClock + HEARTBEAT_TTL
    ensures var last := t.houses[b.houseId].lastHeartbeatAt;
            var live := Update(m, b.houseId, at, beatClock);
            var restored := Restore(live, b.houseId, last, now, clock).0;
            && Visible(live, b.houseId, clock) == Some(at / SECOND)
            && Visible(restored, b.houseId, clock) == Some(last / SECOND)
            && MovedBack(live, restored, b.houseId, clock)
    ensures var after := Heartbeat.ApplyBeat(t, b, at).0;
            b.houseId in after.houses && after.houses[b.houseId].lastHeartbeatAt >= at
  {
    Heartbeat.AllAssets(Heartbeat.TouchHouse(t, b, at), b.houseId, b.assets, at);
    WholeSeconds(Remaining(t.houses[b.houseId].lastHeartbeatAt, now));
    assert HEARTBEAT_TTL / SECOND * SECOND == HEARTBEAT_TTL;
  }

  /**
   * How long a restored key lives: not past the house's own liveness window exactly when the write comes no later
   * after `now` than the fraction of a second that was cut off. `now` is taken once per rebuild.
   */
  lemma RestoredLifetimeExact(m: Statuses, h: string, last: int, now: int, clock: int)
    requires Remaining(last, now) >= SECOND
    ensures Restore(m, h, last, now, clock).0[h].expires <= last + HEARTBEAT_TTL <==>
            clock - now <= Remaining(last, now) % SECOND
  {
    WholeSeconds(Remaining(last, now));
  }
}
