/**
 * The durable half of a heartbeat: refresh the house's liveness, then check every reported asset
 * against the registry or the observations and refresh changed capabilities, all in one transaction.
 */
module Heartbeat {
  import opened Common
  import opened Domain

  datatype FlexibleAsset = FlexibleAsset(assetId: string, assetType: AssetType, capacityKwh: real, maxChargeKw: real,
                                         maxDischargeKw: real, v2gCapable: Option<bool>)
  datatype Beat = Beat(houseId: string, gridId: string, meterId: string, assets: seq<FlexibleAsset>)

  datatype HouseRow = HouseRow(gridId: string, meterId: Option<string>, lastHeartbeatAt: int)

  /** A row of either asset table; `houseId` is the owner in the registry, the observer's house otherwise. */
  datatype AssetRow = AssetRow(houseId: string, assetType: AssetType, capacityKwh: real, maxChargeKw: real,
                               maxDischargeKw: real, v2gCapable: Option<bool>, lastSeenAt: int)

  type AssetTable = map<string, AssetRow>

  datatype Tables = Tables(houses: map<string, HouseRow>, registered: AssetTable, discovered: AssetTable)

  datatype Outcome = Applied | HouseIdentity | IntegrityConflict | RetryLater | Fault

  datatype Action = Same | Changed | Conflicting

  function Max(a: int, b: int): int { if a < b then b else a }

  /** Owner and type are identity; capacity, power limits and v2g are capabilities. */
  function CompareAsset(stored: AssetRow, incoming: FlexibleAsset, houseId: string): Action {
    if stored.houseId != houseId || stored.assetType != incoming.assetType then Conflicting
    else if stored.capacityKwh != incoming.capacityKwh || stored.maxChargeKw != incoming.maxChargeKw
            || stored.maxDischargeKw != incoming.maxDischargeKw || stored.v2gCapable != incoming.v2gCapable then Changed
    else Same
  }

  function Refreshed(stored: AssetRow, a: FlexibleAsset, at: int): AssetRow {
    stored.(capacityKwh := a.capacityKwh, maxChargeKw := a.maxChargeKw, maxDischargeKw := a.maxDischargeKw,
            v2gCapable := a.v2gCapable, lastSeenAt := Max(stored.lastSeenAt, at))
  }

  function NewRow(houseId: string, a: FlexibleAsset, at: int): AssetRow {
    AssetRow(houseId, a.assetType, a.capacityKwh, a.maxChargeKw, a.maxDischargeKw, a.v2gCapable, at)
  }

  ghost predicate DistinctAssets(assets: seq<FlexibleAsset>) {
    forall i, j :: 0 <= i < j < |assets| ==> assets[i].assetId != assets[j].assetId
  }

  // ---------------------------------------------------------------------------------------
  // The simple specification: one asset at a time, always looking at the current tables

  function UpdateKnown(table: AssetTable, houseId: string, a: FlexibleAsset, at: int): Option<AssetTable>
    requires a.assetId in table
  {
    match CompareAsset(table[a.assetId], a, houseId)
    case Conflicting => None
    case Changed => Some(table[a.assetId := Refreshed(table[a.assetId], a, at)])
    case Same => Some(table)
  }

  /** What one reported asset does; None is an identity conflict. */
  function ApplyAsset(t: Tables, houseId: string, a: FlexibleAsset, at: int): Option<Tables> {
    if a.assetId in t.registered then
      match UpdateKnown(t.registered, houseId, a, at)
      case Some(table) => Some(t.(registered := table))
      case None => None
    else if a.assetId in t.discovered then
      match UpdateKnown(t.discovered, houseId, a, at)
      case Some(table) => Some(t.(discovered := table))
      case None => None
    else Some(t.(discovered := t.discovered[a.assetId := NewRow(houseId, a, at)]))
  }

  function ApplyAll(t: Tables, houseId: string, assets: seq<FlexibleAsset>, at: int): Option<Tables>
    decreases |assets|
  {
    if assets == [] then Some(t)
    else match ApplyAsset(t, houseId, assets[0], at)
         case Some(next) => ApplyAll(next, houseId, assets[1..], at)
         case None => None
  }

  predicate HouseMatches(houses: map<string, HouseRow>, b: Beat) {
    b.houseId in houses && houses[b.houseId].gridId == b.gridId && houses[b.houseId].meterId == Some(b.meterId)
  }

  function TouchHouse(t: Tables, b: Beat, at: int): Tables
    requires HouseMatches(t.houses, b)
  {
    var row := t.houses[b.houseId];
    t.(houses := t.houses[b.houseId := row.(lastHeartbeatAt := Max(row.lastHeartbeatAt, at))])
  }

  /** The whole heartbeat as a function of the tables; any refusal changes nothing. */
  function ApplyBeat(t: Tables, b: Beat, at: int): (Tables, Outcome) {
    if !HouseMatches(t.houses, b) then (t, HouseIdentity)
    else match ApplyAll(TouchHouse(t, b, at), b.houseId, b.assets, at)
         case Some(next) => (next, Applied)
         case None => (t, IntegrityConflict)
  }

  // ---------------------------------------------------------------------------------------
  // The loop as written: two prefetched maps, then one pass

  /** Rows others commit between the prefetch and the writes: new observations and new registrations. */
  ghost predicate Disturbance(t: Tables, observed: AssetTable, admitted: AssetTable) {
    (forall id <- observed :: id !in t.discovered) && (forall id <- admitted :: id !in t.registered)
  }

  function WithObserved(t: Tables, observed: AssetTable): Tables {
    t.(discovered := t.discovered + observed)
  }

  function WithAdmitted(t: Tables, admitted: AssetTable): Tables {
    t.(registered := t.registered + admitted)
  }

  /** The house's row as another transaction left it between two statements of this one. */
  function WithHouse(t: Tables, h: string, rebound: Option<HouseRow>): Tables {
    if rebound.Some? then t.(houses := t.houses[h := rebound.value]) else t
  }

  class HeartbeatStore {
    var houses: map<string, HouseRow>
    var registered: AssetTable
    var discovered: AssetTable

    function State(): Tables
      reads this
    {
      Tables(houses, registered, discovered)
    }

    constructor (houses: map<string, HouseRow>, registered: AssetTable)
      ensures State() == Tables(houses, registered, map[])
    {
      this.houses, this.registered, this.discovered := houses, registered, map[];
    }

    /**
     * One transaction, with others committing new observations and new registrations between the prefetch and the
     * writes. It does exactly what the one-at-a-time specification does to the tables with those observations,
     * blind to the new registrations, which stand untouched; on a refusal or fault only the others' rows remain. When
     * the house does not match, its row is read once more to say why; if by then it does match (`rebound`),
     * the heartbeat is to be retried. A matching row is locked by the update, so nobody rebinds it.
     */
    method ApplyHeartbeat(b: Beat, at: int, observed: AssetTable, admitted: AssetTable, rebound: Option<HouseRow>,
                          fault: bool)
      returns (outcome: Outcome)
      requires DistinctAssets(b.assets) && Disturbance(State(), observed, admitted)
      requires HouseMatches(houses, b) ==> rebound.None?
      modifies this
      ensures fault <==> outcome == Fault
      ensures outcome == Fault || !HouseMatches(old(houses), b) ==>
                State() == WithAdmitted(WithObserved(WithHouse(old(State()), b.houseId, rebound), observed), admitted)
      ensures outcome != Fault && !HouseMatches(old(houses), b) ==>
                outcome == if HouseMatches(houses, b) then RetryLater else HouseIdentity
      ensures outcome != Fault && HouseMatches(old(houses), b) ==>
                var (t, res) := ApplyBeat(WithObserved(old(State()), observed), b, at);
                State() == WithAdmitted(t, admitted) && outcome == res
    {
      if !HouseMatches(houses, b) {
        if rebound.Some? { houses := houses[b.houseId := rebound.value]; }
        registered, discovered := registered + admitted, discovered + observed;
        if fault { return Fault; }
        outcome := ExplainHouseMismatch(b);
        return;
      }
      var registeredRows, discoveredRows := Prefetch(b.assets);
      discovered := discovered + observed;
      if fault {
        registered := registered + admitted;
        return Fault;
      }
      ghost var start := TouchHouse(State(), b, at);

      var reg, disc := registered, discovered;
      for i := 0 to |b.assets|
        invariant ApplyAll(start, b.houseId, b.assets, at)
                  == ApplyAll(Tables(start.houses, reg, disc), b.houseId, b.assets[i..], at)
        invariant UntouchedFrom(registered, reg, b.assets, i) && UntouchedFrom(discovered, disc, b.assets, i)
      {
        var a := b.assets[i];
        assert b.assets[i..][0] == a && b.assets[i..][1..] == b.assets[i + 1..];
        assert a.assetId in reg <==> a.assetId in registered;
        if a.assetId in registeredRows {
          var row := registeredRows[a.assetId];
          match CompareAsset(row, a, b.houseId) {
            case Conflicting =>
              registered := registered + admitted;
              return IntegrityConflict;
            case Changed => reg := reg[a.assetId := Refreshed(reg[a.assetId], a, at)];
            case Same =>
          }
        } else if a.assetId in discoveredRows {
          var row := discoveredRows[a.assetId];
          match CompareAsset(row, a, b.houseId) {
            case Conflicting =>
              registered := registered + admitted;
              return IntegrityConflict;
            case Changed => disc := disc[a.assetId := Refreshed(disc[a.assetId], a, at)];
            case Same =>
          }
        } else if a.assetId !in disc {
          disc := disc[a.assetId := NewRow(b.houseId, a, at)];
        } else {
          // ON CONFLICT DO NOTHING: another heartbeat recorded it first; validate against its row.
          match CompareAsset(disc[a.assetId], a, b.houseId) {
            case Conflicting =>
              registered := registered + admitted;
              return IntegrityConflict;
            case Changed => disc := disc[a.assetId := Refreshed(disc[a.assetId], a, at)];
            case Same =>
          }
        }
      }
      houses := houses[b.houseId := houses[b.houseId].(lastHeartbeatAt := Max(houses[b.houseId].lastHeartbeatAt, at))];
      registered, discovered := reg + admitted, disc;
      return Applied;
    }

    /** Why the liveness update matched no row: a permanent mismatch, or a registration that has changed meanwhile. */
    method ExplainHouseMismatch(b: Beat) returns (outcome: Outcome)
      ensures outcome == if HouseMatches(houses, b) then RetryLater else HouseIdentity
    {
      if b.houseId !in houses { return HouseIdentity; }
      var row := houses[b.houseId];
      if row.gridId != b.gridId || row.meterId.None? || row.meterId.value != b.meterId { return HouseIdentity; }
      return RetryLater;
    }

    /** Loads the reported assets' rows: first from the registry, the rest from the observations. */
    method Prefetch(assets: seq<FlexibleAsset>) returns (reg: AssetTable, disc: AssetTable)
      ensures forall i :: 0 <= i < |assets| ==>
                var id := assets[i].assetId;
                && (id in reg <==> id in registered) && (id in reg ==> reg[id] == registered[id])
                && (id in disc <==> id !in registered && id in discovered)
                && (id in disc ==> disc[id] == discovered[id])
    {
      reg, disc := map[], map[];
      for i := 0 to |assets|
        invariant forall id <- reg :: id in registered && reg[id] == registered[id]
        invariant forall id <- disc :: id !in registered && id in discovered && disc[id] == discovered[id]
        invariant forall j :: 0 <= j < i ==>
                    && (assets[j].assetId in registered ==> assets[j].assetId in reg)
                    && (assets[j].assetId !in registered && assets[j].assetId in discovered ==>
                        assets[j].assetId in disc)
      {
        var id := assets[i].assetId;
        if id in registered {
          reg := reg[id := registered[id]];
        } else if id in discovered {
          disc := disc[id := discovered[id]];
        }
      }
    }
  }

  /** The rows of assets not yet processed are as they were. */
  ghost predicate UntouchedFrom(before: AssetTable, now: AssetTable, assets: seq<FlexibleAsset>, i: nat) {
    forall j :: i <= j < |assets| ==>
                  var id := assets[j].assetId;
                  (id in now <==> id in before) && (id in now ==> now[id] == before[id])
  }

  // ---------------------------------------------------------------------------------------
  // What a heartbeat does to each row, without going through the assets in order

  /** A known asset's row after the heartbeat: untouched unless a capability differs, never a new owner or type. */
  function Written(row: AssetRow, a: FlexibleAsset, houseId: string, at: int): AssetRow {
    if CompareAsset(row, a, houseId) == Changed then Refreshed(row, a, at) else row
  }

  ghost predicate Conflicts(t: Tables, houseId: string, a: FlexibleAsset) {
    if a.assetId in t.registered then OtherIdentity(t.registered[a.assetId], a, houseId)
    else a.assetId in t.discovered && OtherIdentity(t.discovered[a.assetId], a, houseId)
  }

  /** The stored asset belongs to another house or is of another type. */
  ghost predicate OtherIdentity(row: AssetRow, a: FlexibleAsset, houseId: string) {
    row.houseId != houseId || row.assetType != a.assetType
  }

  /** The row of a reported asset is written where it lives and nowhere else. */
  ghost predicate AssetDone(t: Tables, t': Tables, houseId: string, a: FlexibleAsset, at: int) {
    var id := a.assetId;
    && (id in t.registered ==>
          && id in t'.registered && t'.registered[id] == Written(t.registered[id], a, houseId, at)
          && SameRow(t.discovered, t'.discovered, id))
    && (id !in t.registered ==>
          && id !in t'.registered && id in t'.discovered
          && t'.discovered[id] ==
             if id in t.discovered then Written(t.discovered[id], a, houseId, at) else NewRow(houseId, a, at))
  }

  ghost predicate SameRow(m: AssetTable, m': AssetTable, id: string) {
    (id in m <==> id in m') && (id in m ==> m[id] == m'[id])
  }

  ghost predicate Reported(assets: seq<FlexibleAsset>, id: string) {
    exists i :: 0 <= i < |assets| && assets[i].assetId == id
  }

  lemma OneAsset(t: Tables, houseId: string, a: FlexibleAsset, at: int)
    ensures ApplyAsset(t, houseId, a, at).None? <==> Conflicts(t, houseId, a)
    ensures ApplyAsset(t, houseId, a, at).Some? ==>
              var t' := ApplyAsset(t, houseId, a, at).value;
              && t'.houses == t.houses && AssetDone(t, t', houseId, a, at)
              && forall id :: id != a.assetId ==>
                   SameRow(t.registered, t'.registered, id) && SameRow(t.discovered, t'.discovered, id)
  {}

  /**
   * The pass over the assets, told row by row: it is refused exactly when some reported asset conflicts with
   * the row it already has; otherwise each reported asset is written in its own table and every other row is untouched.
   */
  lemma {:induction false} AllAssets(t: Tables, houseId: string, assets: seq<FlexibleAsset>, at: int)
    requires DistinctAssets(assets)
    ensures ApplyAll(t, houseId, assets, at).None? <==>
            exists i :: 0 <= i < |assets| && Conflicts(t, houseId, assets[i])
    ensures ApplyAll(t, houseId, assets, at).Some? ==>
              var t' := ApplyAll(t, houseId, assets, at).value;
              && t'.houses == t.houses
              && (forall i :: 0 <= i < |assets| ==> AssetDone(t, t', houseId, assets[i], at))
              && (forall id :: !Reported(assets, id) ==>
                  SameRow(t.registered, t'.registered, id) && SameRow(t.discovered, t'.discovered, id))
    decreases |assets|
  {
    if assets != [] {
      var a, rest := assets[0], assets[1..];
      OneAsset(t, houseId, a, at);
      if !Conflicts(t, houseId, a) {
        var next := ApplyAsset(t, houseId, a, at).value;
        AllAssets(next, houseId, rest, at);
        forall i | 0 <= i < |rest| ensures rest[i] == assets[i + 1] && rest[i].assetId != a.assetId
          ensures Conflicts(next, houseId, rest[i]) <==> Conflicts(t, houseId, assets[i + 1]) {
          assert SameRow(t.registered, next.registered, rest[i].assetId)
                 && SameRow(t.discovered, next.discovered, rest[i].assetId);
        }
        if ApplyAll(next, houseId, rest, at).None? {
          var i :| 0 <= i < |rest| && Conflicts(next, houseId, rest[i]);
          assert Conflicts(t, houseId, assets[i + 1]);
        } else {
          FinishAssets(t, next, ApplyAll(next, houseId, rest, at).value, houseId, assets, at);
        }
      }
    }
  }

  lemma FinishAssets(t: Tables, next: Tables, t': Tables, houseId: string, assets: seq<FlexibleAsset>, at: int)
    requires assets != [] && DistinctAssets(assets)
    requires AssetDone(t, next, houseId, assets[0], at)
    requires forall id :: id != assets[0].assetId ==>
               SameRow(t.registered, next.registered, id) && SameRow(t.discovered, next.discovered, id)
    requires forall i :: 0 <= i < |assets[1..]| ==> AssetDone(next, t', houseId, assets[1..][i], at)
    requires forall id :: !Reported(assets[1..], id) ==>
               SameRow(next.registered, t'.registered, id) && SameRow(next.discovered, t'.discovered, id)
    ensures forall i :: 0 <= i < |assets| ==> AssetDone(t, t', houseId, assets[i], at)
    ensures forall id :: !Reported(assets, id) ==>
              SameRow(t.registered, t'.registered, id) && SameRow(t.discovered, t'.discovered, id)
  {
    var a, rest := assets[0], assets[1..];
    forall i | 0 <= i < |assets| ensures AssetDone(t, t', houseId, assets[i], at) {
      if i == 0 {
        assert !Reported(rest, a.assetId);
      } else {
        assert rest[i - 1] == assets[i];
        assert AssetDone(next, t', houseId, rest[i - 1], at);
        assert SameRow(t.registered, next.registered, assets[i].assetId)
               && SameRow(t.discovered, next.discovered, assets[i].assetId);
      }
    }
    forall id | !Reported(assets, id)
      ensures SameRow(t.registered, t'.registered, id) && SameRow(t.discovered, t'.discovered, id)
    {
      assert assets[0].assetId != id;
      forall i | 0 <= i < |rest| ensures rest[i].assetId != id { assert assets[i + 1] == rest[i]; }
      assert !Reported(rest, id);
      assert SameRow(t.registered, next.registered, id) && SameRow(next.registered, t'.registered, id);
      assert SameRow(t.discovered, next.discovered, id) && SameRow(next.discovered, t'.discovered, id);
    }
  }

  /** Why a heartbeat is refused: its house is not registered as it says, or an asset has another identity. */
  lemma OutcomeExact(t: Tables, b: Beat, at: int)
    requires DistinctAssets(b.assets)
    ensures var known := b.houseId in t.houses && t.houses[b.houseId].gridId == b.gridId
                         && t.houses[b.houseId].meterId == Some(b.meterId);
            ApplyBeat(t, b, at).1 ==
            if !known then HouseIdentity
            else if exists i :: 0 <= i < |b.assets| && Conflicts(t, b.houseId, b.assets[i]) then IntegrityConflict
            else Applied
  {
    if HouseMatches(t.houses, b) {
      var t0 := TouchHouse(t, b, at);
      AllAssets(t0, b.houseId, b.assets, at);
      assert forall i :: 0 <= i < |b.assets| ==>
               (Conflicts(t, b.houseId, b.assets[i]) <==> Conflicts(t0, b.houseId, b.assets[i]));
    }
  }

  /** Both times are not after `when`, and one of them is `when`. */
  ghost predicate LaterOf(when: int, x: int, y: int) {
    x <= when && y <= when && (when == x || when == y)
  }

  /** An applied heartbeat moves its own house's liveness to the later of stored and receive time, and no other's. */
  lemma LivenessExact(t: Tables, b: Beat, at: int, h: string)
    requires DistinctAssets(b.assets) && ApplyBeat(t, b, at).1 == Applied
    ensures var t' := ApplyBeat(t, b, at).0;
            && t'.houses.Keys == t.houses.Keys && b.houseId in t.houses
            && LaterOf(t'.houses[b.houseId].lastHeartbeatAt, t.houses[b.houseId].lastHeartbeatAt, at)
            && (h != b.houseId && h in t.houses ==> t'.houses[h] == t.houses[h])
  {
    AllAssets(TouchHouse(t, b, at), b.houseId, b.assets, at);
  }

  /** The row says, capability by capability, what the asset reports. */
  ghost predicate SameCapabilities(row: AssetRow, a: FlexibleAsset) {
    && row.capacityKwh == a.capacityKwh && row.maxChargeKw == a.maxChargeKw
    && row.maxDischargeKw == a.maxDischargeKw && row.v2gCapable == a.v2gCapable
  }

  /**
   * When an asset counts as last seen: a new observation at the receive time; a row whose capabilities changed at the
   * later of its own and the receive time; a row that already agreed is not written at all.
   */
  lemma LastSeenExact(t: Tables, b: Beat, at: int, i: nat)
    requires DistinctAssets(b.assets) && i < |b.assets| && ApplyBeat(t, b, at).1 == Applied
    ensures var t' := ApplyBeat(t, b, at).0;
            var id := b.assets[i].assetId;
            var known := id in t.registered;
            var table := if known then t.registered else t.discovered;
            var table' := if known then t'.registered else t'.discovered;
            && id in table'
            && (id !in table ==> table'[id].lastSeenAt == at)
            && (id in table && SameCapabilities(table[id], b.assets[i]) ==> table'[id] == table[id])
            && (id in table && !SameCapabilities(table[id], b.assets[i]) ==>
                LaterOf(table'[id].lastSeenAt, table[id].lastSeenAt, at))
  {
    var t0 := TouchHouse(t, b, at);
    AllAssets(t0, b.houseId, b.assets, at);
    assert AssetDone(t0, ApplyBeat(t, b, at).0, b.houseId, b.assets[i], at);
    assert !Conflicts(t0, b.houseId, b.assets[i]);
  }

  /** After an applied heartbeat every reported asset's row, wherever it lives, carries the reported capabilities. */
  lemma CapabilitiesCurrent(t: Tables, b: Beat, at: int, i: nat)
    requires DistinctAssets(b.assets) && i < |b.assets| && ApplyBeat(t, b, at).1 == Applied
    ensures var t' := ApplyBeat(t, b, at).0;
            var a := b.assets[i];
            var table := if a.assetId in t.registered then t'.registered else t'.discovered;
            && a.assetId in table
            && var row := table[a.assetId];
               && row.houseId == b.houseId && row.assetType == a.assetType && row.capacityKwh == a.capacityKwh
               && row.maxChargeKw == a.maxChargeKw && row.maxDischargeKw == a.maxDischargeKw
               && row.v2gCapable == a.v2gCapable
  {
    AllAssets(TouchHouse(t, b, at), b.houseId, b.assets, at);
    var t0 := TouchHouse(t, b, at);
    assert AssetDone(t0, ApplyBeat(t, b, at).0, b.houseId, b.assets[i], at);
    assert !Conflicts(t0, b.houseId, b.assets[i]);
  }

  // ---------------------------------------------------------------------------------------
  // Any interleaving of heartbeats from any houses

  /** Rows only gain later last-seen times and new capabilities; owner and type are fixed. */
  ghost predicate TableKept(m: AssetTable, m': AssetTable) {
    forall id <- m :: id in m' && m'[id].houseId == m[id].houseId && m'[id].assetType == m[id].assetType
                      && m'[id].lastSeenAt >= m[id].lastSeenAt
  }

  ghost predicate HousesKept(m: map<string, HouseRow>, m': map<string, HouseRow>) {
    && m.Keys == m'.Keys
    && forall h <- m :: m'[h].gridId == m[h].gridId && m'[h].meterId == m[h].meterId
                        && m'[h].lastHeartbeatAt >= m[h].lastHeartbeatAt
  }

  /** What no heartbeat can change. */
  ghost predicate Kept(t: Tables, t': Tables) {
    && HousesKept(t.houses, t'.houses)
    && t.registered.Keys == t'.registered.Keys && TableKept(t.registered, t'.registered)
    && TableKept(t.discovered, t'.discovered)
  }

  /** Observations point only at registered houses. */
  ghost predicate ObservedInHouses(t: Tables) {
    forall id <- t.discovered :: t.discovered[id].houseId in t.houses
  }

  lemma AssetKeeps(t: Tables, houseId: string, a: FlexibleAsset, at: int)
    requires ApplyAsset(t, houseId, a, at).Some? && houseId in t.houses && ObservedInHouses(t)
    ensures Kept(t, ApplyAsset(t, houseId, a, at).value)
    ensures ObservedInHouses(ApplyAsset(t, houseId, a, at).value)
  {}

  lemma KeptTransitive(a: Tables, b: Tables, c: Tables)
    requires Kept(a, b) && Kept(b, c)
    ensures Kept(a, c)
  {}

  lemma {:induction false} AssetsKeep(t: Tables, houseId: string, assets: seq<FlexibleAsset>, at: int)
    requires ApplyAll(t, houseId, assets, at).Some? && houseId in t.houses && ObservedInHouses(t)
    ensures Kept(t, ApplyAll(t, houseId, assets, at).value)
    ensures ObservedInHouses(ApplyAll(t, houseId, assets, at).value)
    decreases |assets|
  {
    if assets != [] {
      var next := ApplyAsset(t, houseId, assets[0], at).value;
      AssetKeeps(t, houseId, assets[0], at);
      AssetsKeep(next, houseId, assets[1..], at);
      KeptTransitive(t, next, ApplyAll(t, houseId, assets, at).value);
    }
  }

  lemma BeatKeeps(t: Tables, b: Beat, at: int)
    requires ObservedInHouses(t)
    ensures Kept(t, ApplyBeat(t, b, at).0) && ObservedInHouses(ApplyBeat(t, b, at).0)
    ensures ApplyBeat(t, b, at).1 != Applied ==> ApplyBeat(t, b, at).0 == t
  {
    if ApplyBeat(t, b, at).1 == Applied {
      var touched := TouchHouse(t, b, at);
      assert Kept(t, touched) && ObservedInHouses(touched);
      AssetsKeep(touched, b.houseId, b.assets, at);
      KeptTransitive(t, touched, ApplyBeat(t, b, at).0);
    }
  }

  /** Received heartbeats with their receive times, in the order their transactions commit. */
  ghost function RunBeats(t: Tables, beats: seq<(Beat, int)>): Tables {
    if beats == [] then t
    else ApplyBeat(RunBeats(t, beats[..|beats| - 1]), beats[|beats| - 1].0, beats[|beats| - 1].1).0
  }

  /**
   * Over any run: no asset is ever registered, no owner, type or house identity ever changes, liveness and
   * last-seen times never go back, no row disappears, and observations keep pointing at registered houses.
   */
  lemma {:induction false} RunKeeps(t: Tables, beats: seq<(Beat, int)>)
    requires ObservedInHouses(t)
    ensures Kept(t, RunBeats(t, beats)) && ObservedInHouses(RunBeats(t, beats))
  {
    if beats != [] {
      var before := RunBeats(t, beats[..|beats| - 1]);
      RunKeeps(t, beats[..|beats| - 1]);
      BeatKeeps(before, beats[|beats| - 1].0, beats[|beats| - 1].1);
      KeptTransitive(t, before, RunBeats(t, beats));
    }
  }

  /**
   * A redelivered heartbeat carries a fresh receive time. Whatever that time is, it is applied again, writes no asset
   * row and moves at most the house's liveness; it changes nothing exactly when that time is not later than
   * the liveness already stored.
   */
  lemma RedeliveryTouchesHouse(t: Tables, b: Beat, at: int, at': int)
    requires DistinctAssets(b.assets) && ApplyBeat(t, b, at).1 == Applied
    ensures var t' := ApplyBeat(t, b, at).0;
            && HouseMatches(t'.houses, b)
            && ApplyBeat(t', b, at') == (TouchHouse(t', b, at'), Applied)
            && (ApplyBeat(t', b, at').0 == t' <==> at' <= t'.houses[b.houseId].lastHeartbeatAt)
  {
    var t0, t' := TouchHouse(t, b, at), ApplyBeat(t, b, at).0;
    AllAssets(t0, b.houseId, b.assets, at);
    var touched := TouchHouse(t', b, at');
    forall i | 0 <= i < |b.assets| ensures ApplyAsset(touched, b.houseId, b.assets[i], at') == Some(touched) {
      CapabilitiesCurrent(t, b, at, i);
      assert AssetDone(t0, t', b.houseId, b.assets[i], at);
    }
    SettledNoOp(touched, b.houseId, b.assets, at');
    assert at' <= t'.houses[b.houseId].lastHeartbeatAt ==> touched.houses == t'.houses;
  }

  lemma {:induction false} SettledNoOp(t: Tables, houseId: string, assets: seq<FlexibleAsset>, at: int)
    requires forall i :: 0 <= i < |assets| ==> ApplyAsset(t, houseId, assets[i], at) == Some(t)
    ensures ApplyAll(t, houseId, assets, at) == Some(t)
    decreases |assets|
  {
    if assets != [] {
      assert ApplyAsset(t, houseId, assets[0], at) == Some(t);
      SettledNoOp(t, houseId, assets[1..], at);
    }
  }
}
