/**
 * The newest-wins projection in Redis: the compare-and-set on (millisecond, seq), and what any
 * sequence of compare-and-sets leaves behind, whoever issues them and in whatever order.
 */
module Projection {
  import opened Domain
  import opened Identity
  import opened LuaNumber

  datatype MeterProjection = MeterProjection(ms: int, seqNo: int, gridId: string, houseId: string, meterId: string,
                                             deviceClass: DeviceClass, solarKw: real, consumptionKw: real, netKw: real,
                                             assets: seq<StorageAsset>)

  /** A stored value: a projection, or text that does not decode to one (which the script treats as absent). */
  datatype Stored = Entry(p: MeterProjection) | Junk

  type Latest = map<string, Stored>

  function Key(p: MeterProjection): string {
    MeterLatestKey(p.gridId, p.houseId)
  }

  function Project(r: MeterReading): MeterProjection {
    MeterProjection(UnixMilli(r.eventTime), r.seqNo, r.gridId, r.houseId, r.meterId, r.deviceClass, r.solarKw,
                    r.consumptionKw, r.netKw, r.assets)
  }

  /** The projection built field by field, assets appended one at a time. */
  method ProjectionOf(r: MeterReading) returns (p: MeterProjection)
    ensures p == Project(r)
  {
    p := MeterProjection(UnixMilli(r.eventTime), r.seqNo, r.gridId, r.houseId, r.meterId, r.deviceClass, r.solarKw,
                         r.consumptionKw, r.netKw, []);
    for i := 0 to |r.assets|
      invariant p == Project(r).(assets := r.assets[..i])
    {
      var a := r.assets[i];
      p := p.(assets := p.assets
              + [StorageAsset(a.assetId, a.assetType, a.socPct, a.powerKw, a.capacityKwh, a.pluggedIn)]);
    }
    assert r.assets[..|r.assets|] == r.assets;
  }

  // ---------------------------------------------------------------------------------------
  // The compare-and-set

  /** The order readings really have. */
  predicate Newer(p: MeterProjection, q: MeterProjection) {
    p.ms > q.ms || (p.ms == q.ms && p.seqNo > q.seqNo)
  }

  /** The order the script sees. */
  predicate LuaNewer(p: MeterProjection, q: MeterProjection) {
    var pt, qt := ToNumber(p.ms), ToNumber(q.ms);
    pt > qt || (pt == qt && ToNumber(p.seqNo) > ToNumber(q.seqNo))
  }

  /** One run of the script. */
  function SetIfNewer(m: Latest, p: MeterProjection): (Latest, bool) {
    var k := Key(p);
    if k in m && m[k].Entry? && !LuaNewer(p, m[k].p) then (m, false)
    else (m[k := Entry(p)], true)
  }

  class LatestStore {
    var entries: Latest

    constructor ()
      ensures entries == map[]
    {
      entries := map[];
    }

    /** set_latest_if_newer: read the key, decode, compare, conditionally overwrite. */
    method SetLatestIfNewer(p: MeterProjection) returns (applied: bool)
      modifies this
      ensures (entries, applied) == SetIfNewer(old(entries), p)
    {
      var k := Key(p);
      if k in entries {
        match entries[k] {
          case Entry(existing) =>
            var newTime, newSeq := ToNumber(p.ms), ToNumber(p.seqNo);
            var oldTime, oldSeq := ToNumber(existing.ms), ToNumber(existing.seqNo);
            if newTime < oldTime { return false; }
            if newTime == oldTime && newSeq <= oldSeq { return false; }
          case Junk =>
        }
      }
      entries := entries[k := Entry(p)];
      return true;
    }
  }

  /**
   * The script decides as the true order would exactly unless the two seqs differ but collapse to
   * one double at the same millisecond. Decoded times are always within the exact range.
   */
  lemma ScriptOrderExact(p: MeterProjection, q: MeterProjection)
    requires 0 <= p.ms <= EXACT && 0 <= q.ms <= EXACT
    ensures (LuaNewer(p, q) <==> Newer(p, q)) <==>
            !(p.ms == q.ms && p.seqNo > q.seqNo && ToNumber(p.seqNo) == ToNumber(q.seqNo))
  {
    ExactBelow(p.ms);
    ExactBelow(q.ms);
    if p.seqNo <= q.seqNo { ToNumberMonotone(p.seqNo, q.seqNo); } else { ToNumberMonotone(q.seqNo, p.seqNo); }
  }

  /** Within 2^53 the two orders coincide. */
  lemma ScriptOrderTrue(p: MeterProjection, q: MeterProjection)
    requires 0 <= p.ms <= EXACT && 0 <= q.ms <= EXACT && 0 <= p.seqNo <= EXACT && 0 <= q.seqNo <= EXACT
    ensures LuaNewer(p, q) <==> Newer(p, q)
  {}

  /** Beyond 2^53 a newer reading can be refused. */
  lemma HugeSeqRefused(p: MeterProjection)
    requires 0 <= p.ms <= EXACT && p.seqNo == EXACT
    ensures var q := p.(seqNo := EXACT + 1);
            Newer(q, p) && SetIfNewer(map[Key(p) := Entry(p)], q) == (map[Key(p) := Entry(p)], false)
  {
    var unit := 2;
    assert RoundFrom(EXACT + 1, 1) == RoundFrom(EXACT + 1, unit) == RoundTo(EXACT + 1, unit);
    assert (EXACT + 1) / unit == EXACT / 2 && (EXACT + 1) % unit == 1 && EXACT / 2 % 2 == 0;
  }

  // ---------------------------------------------------------------------------------------
  // Any sequence of compare-and-sets

  /** e is at least as new as p, as the script orders them. */
  predicate AtLeast(e: MeterProjection, p: MeterProjection) {
    !LuaNewer(p, e)
  }

  /** For a projection within 2^53, being at least as new for the script is being at least as new. */
  lemma AtLeastTrue(e: MeterProjection, p: MeterProjection)
    requires 0 <= p.ms <= EXACT && 0 <= p.seqNo <= EXACT && AtLeast(e, p)
    ensures !Newer(p, e)
  {
    ExactBelow(p.ms);
    ExactBelow(p.seqNo);
    if e.ms < p.ms {
      ExactBelow(p.ms - 1);
      ToNumberMonotone(e.ms, p.ms - 1);
    } else if e.ms == p.ms && e.seqNo < p.seqNo {
      ExactBelow(p.seqNo - 1);
      ToNumberMonotone(e.seqNo, p.seqNo - 1);
    }
  }

  function ApplyAll(m: Latest, ps: seq<MeterProjection>): Latest {
    if ps == [] then m else SetIfNewer(ApplyAll(m, ps[..|ps| - 1]), ps[|ps| - 1]).0
  }

  /** Key k holds the body of one of the projections applied to it, and none of them is newer. */
  ghost predicate HoldsNewest(m: Latest, ps: seq<MeterProjection>, k: string) {
    && k in m && m[k].Entry? && m[k].p in ps && Key(m[k].p) == k
    && forall i :: 0 <= i < |ps| && Key(ps[i]) == k ==> AtLeast(m[k].p, ps[i])
  }

  /** A key never moves backwards, and is never lost. */
  ghost predicate NeverBack(m: Latest, m': Latest) {
    forall k <- m :: k in m' && (m[k].Entry? ==> m'[k].Entry? && AtLeast(m'[k].p, m[k].p))
  }

  lemma {:induction false} KeysNeverGoBack(m: Latest, ps: seq<MeterProjection>)
    ensures NeverBack(m, ApplyAll(m, ps))
  {
    if ps != [] { KeysNeverGoBack(m, ps[..|ps| - 1]); }
  }

  /**
   * Starting empty, in any order and with any repetition: a key exists exactly when something was
   * applied to it, and holds the body of a projection no applied one is newer than.
   */
  lemma {:induction false} LatestIsNewest(ps: seq<MeterProjection>, k: string)
    ensures k in ApplyAll(map[], ps) <==> exists i :: 0 <= i < |ps| && Key(ps[i]) == k
    ensures k in ApplyAll(map[], ps) ==> HoldsNewest(ApplyAll(map[], ps), ps, k)
  {
    if ps != [] {
      var init, p := ps[..|ps| - 1], ps[|ps| - 1];
      assert ps == init + [p] && ps[|init|] == p;
      LatestIsNewest(init, k);
      var m := ApplyAll(map[], init);
      if k in m {
        var i :| 0 <= i < |init| && Key(init[i]) == k;
        assert ps[i] == init[i];
        assert forall j :: 0 <= j < |init| && Key(init[j]) == k ==> AtLeast(m[k].p, init[j]);
        assert forall j :: 0 <= j < |init| ==> ps[j] == init[j];
      }
    }
  }

  /** In the true order: no applied projection within 2^53 is newer than what its key holds. */
  lemma LatestIsTrulyNewest(ps: seq<MeterProjection>, i: nat)
    requires i < |ps| && 0 <= ps[i].ms <= EXACT && 0 <= ps[i].seqNo <= EXACT
    ensures var m := ApplyAll(map[], ps); Key(ps[i]) in m && m[Key(ps[i])].Entry? && !Newer(ps[i], m[Key(ps[i])].p)
  {
    LatestIsNewest(ps, Key(ps[i]));
    AtLeastTrue(ApplyAll(map[], ps)[Key(ps[i])].p, ps[i]);
  }

  ghost predicate Tied(p: MeterProjection, q: MeterProjection) {
    Key(p) == Key(q) && AtLeast(p, q) && AtLeast(q, p)
  }

  /** No two different bodies share a key, millisecond and seq. */
  ghost predicate NoTies(ps: seq<MeterProjection>) {
    forall i, j :: 0 <= i < |ps| && 0 <= j < |ps| && Tied(ps[i], ps[j]) ==> ps[i] == ps[j]
  }

  /** Order and repetition do not matter: the same projections, however delivered, leave the same cache. */
  lemma OrderIrrelevant(ps: seq<MeterProjection>, qs: seq<MeterProjection>)
    requires forall p :: p in ps <==> p in qs
    requires NoTies(ps)
    ensures ApplyAll(map[], ps) == ApplyAll(map[], qs)
  {
    var m, n := ApplyAll(map[], ps), ApplyAll(map[], qs);
    forall k ensures k in m <==> k in n {
      SameKeys(ps, qs, k);
      SameKeys(qs, ps, k);
    }
    forall k <- m ensures m[k] == n[k] {
      assert k in n;
      LatestIsNewest(ps, k);
      LatestIsNewest(qs, k);
      var a, b := m[k].p, n[k].p;
      assert b in ps && a in qs;
      var i :| 0 <= i < |ps| && ps[i] == a;
      var j :| 0 <= j < |ps| && ps[j] == b;
      var i' :| 0 <= i' < |qs| && qs[i'] == a;
      assert Tied(a, b);
    }
  }

  lemma SameKeys(ps: seq<MeterProjection>, qs: seq<MeterProjection>, k: string)
    requires forall p :: p in ps <==> p in qs
    ensures k in ApplyAll(map[], ps) ==> k in ApplyAll(map[], qs)
  {
    LatestIsNewest(ps, k);
    LatestIsNewest(qs, k);
    if k in ApplyAll(map[], ps) {
      var i :| 0 <= i < |ps| && Key(ps[i]) == k;
      assert ps[i] in qs;
      var j :| 0 <= j < |qs| && qs[j] == ps[i];
    }
  }
}
