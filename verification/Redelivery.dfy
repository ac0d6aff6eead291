/**
 * At-least-once delivery of heartbeats: after a crash or a rebalance the last heartbeats come again, in order, each
 * with a fresh receive time. What that leaves of the asset tables.
 */
module Redelivery {
  import opened Heartbeat

  type Beats = seq<(Beat, int)>

  ghost predicate WellFormed(beats: Beats) {
    forall i :: 0 <= i < |beats| ==> DistinctAssets(beats[i].0.assets)
  }

  /** The i-th heartbeat of the run is applied. */
  ghost predicate AppliedAt(t: Tables, beats: Beats, i: nat)
    requires i < |beats|
  {
    ApplyBeat(RunBeats(t, beats[..i]), beats[i].0, beats[i].1).1 == Applied
  }

  /** The i-th heartbeat is applied and reports the asset. */
  ghost predicate WritesAt(t: Tables, beats: Beats, i: nat, id: string)
    requires i < |beats|
  {
    AppliedAt(t, beats, i) && Reported(beats[i].0.assets, id)
  }

  ghost predicate NoWriteFrom(t: Tables, beats: Beats, n: nat, id: string) {
    forall i :: n <= i < |beats| ==> !WritesAt(t, beats, i, id)
  }

  lemma PrefixWrites(t: Tables, beats: Beats, n: nat, i: nat, id: string)
    requires i < n <= |beats|
    ensures WritesAt(t, beats[..n], i, id) <==> WritesAt(t, beats, i, id)
  {
    assert beats[..n][..i] == beats[..i];
  }

  /** The last step of a run, for an asset it does not write. */
  lemma LastStepKeeps(t: Tables, beats: Beats, id: string)
    requires beats != [] && WellFormed(beats) && !WritesAt(t, beats, |beats| - 1, id)
    ensures var before, after := RunBeats(t, beats[..|beats| - 1]), RunBeats(t, beats);
            SameRow(before.registered, after.registered, id) && SameRow(before.discovered, after.discovered, id)
  {
    var n := |beats| - 1;
    var before := RunBeats(t, beats[..n]);
    if AppliedAt(t, beats, n) {
      AllAssets(TouchHouse(before, beats[n].0, beats[n].1), beats[n].0.houseId, beats[n].0.assets, beats[n].1);
    }
  }

  /** An asset that no applied heartbeat reports keeps its rows. */
  lemma {:induction false} UnwrittenKept(t: Tables, beats: Beats, id: string)
    requires WellFormed(beats) && NoWriteFrom(t, beats, 0, id)
    ensures SameRow(t.registered, RunBeats(t, beats).registered, id)
            && SameRow(t.discovered, RunBeats(t, beats).discovered, id)
  {
    if beats != [] {
      var init := beats[..|beats| - 1];
      forall i | 0 <= i < |init| ensures !WritesAt(t, init, i, id) { PrefixWrites(t, beats, |init|, i, id); }
      UnwrittenKept(t, init, id);
      LastStepKeeps(t, beats, id);
    }
  }

  /** The row of an asset registered (or not) in t0 carries what the heartbeat reported. */
  ghost predicate Shows(t0: Tables, t: Tables, houseId: string, a: FlexibleAsset) {
    var table := if a.assetId in t0.registered then t.registered else t.discovered;
    && a.assetId in table
    && var row := table[a.assetId];
       && row.houseId == houseId && row.assetType == a.assetType && row.capacityKwh == a.capacityKwh
       && row.maxChargeKw == a.maxChargeKw && row.maxDischargeKw == a.maxDischargeKw && row.v2gCapable == a.v2gCapable
  }

  /** The last applied report of an asset is what its row shows at the end. */
  lemma {:induction false} LastReportShows(t: Tables, beats: Beats, i: nat, j: nat)
    requires WellFormed(beats) && ObservedInHouses(t) && i < |beats| && j < |beats[i].0.assets|
    requires AppliedAt(t, beats, i) && NoWriteFrom(t, beats, i + 1, beats[i].0.assets[j].assetId)
    ensures Shows(t, RunBeats(t, beats), beats[i].0.houseId, beats[i].0.assets[j])
  {
    var n := |beats| - 1;
    var init := beats[..n];
    var id := beats[i].0.assets[j].assetId;
    if i == n {
      RunKeeps(t, init);
      CapabilitiesCurrent(RunBeats(t, init), beats[n].0, beats[n].1, j);
    } else {
      assert init[..i] == beats[..i] && init[i] == beats[i];
      forall k | i + 1 <= k < n ensures !WritesAt(t, init, k, id) { PrefixWrites(t, beats, n, k, id); }
      LastReportShows(t, init, i, j);
      LastStepKeeps(t, beats, id);
    }
  }

  /** A registered asset's observation, if it has one, is never written; an unregistered asset is never registered. */
  lemma {:induction false} OtherTableKept(t: Tables, beats: Beats, id: string)
    requires WellFormed(beats)
    ensures id in t.registered ==>
              SameRow(t.discovered, RunBeats(t, beats).discovered, id) && id in RunBeats(t, beats).registered
    ensures id !in t.registered ==> id !in RunBeats(t, beats).registered
  {
    if beats != [] {
      var n := |beats| - 1;
      OtherTableKept(t, beats[..n], id);
      var before, b := RunBeats(t, beats[..n]), beats[n].0;
      if AppliedAt(t, beats, n) {
        AllAssets(TouchHouse(before, b, beats[n].1), b.houseId, b.assets, beats[n].1);
        if Reported(b.assets, id) {
          var j :| 0 <= j < |b.assets| && b.assets[j].assetId == id;
          assert AssetDone(TouchHouse(before, b, beats[n].1), RunBeats(t, beats), b.houseId, b.assets[j], beats[n].1);
        }
      }
    }
  }

  // ---------------------------------------------------------------------------------------
  // The same heartbeats are applied again

  lemma AppliedStays(t: Tables, b: Beat, at: int, later: Tables, at': int)
    requires DistinctAssets(b.assets) && ApplyBeat(t, b, at).1 == Applied && ObservedInHouses(t)
    requires Kept(ApplyBeat(t, b, at).0, later)
    ensures ApplyBeat(later, b, at').1 == Applied
  {
    BeatKeeps(t, b, at);
    var touched := TouchHouse(later, b, at');
    AllAssets(touched, b.houseId, b.assets, at');
    forall j | 0 <= j < |b.assets| ensures !Conflicts(touched, b.houseId, b.assets[j]) {
      CapabilitiesCurrent(t, b, at, j);
    }
  }

  lemma RefusedStays(t: Tables, b: Beat, at: int, later: Tables, at': int)
    requires DistinctAssets(b.assets) && ApplyBeat(t, b, at).1 != Applied && Kept(t, later)
    ensures ApplyBeat(later, b, at').1 != Applied
  {
    if HouseMatches(t.houses, b) {
      AllAssets(TouchHouse(t, b, at), b.houseId, b.assets, at);
      var j :| 0 <= j < |b.assets| && Conflicts(TouchHouse(t, b, at), b.houseId, b.assets[j]);
      assert Conflicts(TouchHouse(later, b, at'), b.houseId, b.assets[j]);
      AllAssets(TouchHouse(later, b, at'), b.houseId, b.assets, at');
    }
  }

  /** The same heartbeats, in the same order, with whatever receive times. */
  ghost predicate SameBeats(beats: Beats, again: Beats) {
    |again| == |beats| && forall i :: 0 <= i < |beats| ==> again[i].0 == beats[i].0
  }

  lemma {:induction false} PrefixKept(t: Tables, beats: Beats, n: nat)
    requires n <= |beats| && ObservedInHouses(t)
    ensures Kept(RunBeats(t, beats[..n]), RunBeats(t, beats)) && ObservedInHouses(RunBeats(t, beats[..n]))
    decreases |beats| - n
  {
    RunKeeps(t, beats[..n]);
    if n == |beats| {
      assert beats[..n] == beats;
    } else {
      PrefixKept(t, beats, n + 1);
      assert beats[..n + 1][..n] == beats[..n];
      BeatKeeps(RunBeats(t, beats[..n]), beats[n].0, beats[n].1);
      KeptTransitive(RunBeats(t, beats[..n]), RunBeats(t, beats[..n + 1]), RunBeats(t, beats));
    }
  }

  /** Each redelivered heartbeat meets the fate it met before. */
  lemma OutcomesRepeat(t: Tables, beats: Beats, again: Beats, i: nat)
    requires WellFormed(beats) && ObservedInHouses(t) && SameBeats(beats, again) && i < |beats|
    ensures AppliedAt(t, beats, i) <==> AppliedAt(RunBeats(t, beats), again, i)
  {
    var here, next, end := RunBeats(t, beats[..i]), RunBeats(t, beats[..i + 1]), RunBeats(t, beats);
    var there := RunBeats(end, again[..i]);
    assert beats[..i + 1][..i] == beats[..i] && next == ApplyBeat(here, beats[i].0, beats[i].1).0;
    PrefixKept(t, beats, i);
    PrefixKept(t, beats, i + 1);
    RunKeeps(t, beats);
    RunKeeps(end, again[..i]);
    KeptTransitive(next, end, there);
    KeptTransitive(here, end, there);
    if AppliedAt(t, beats, i) {
      AppliedStays(here, beats[i].0, beats[i].1, there, again[i].1);
    } else {
      RefusedStays(here, beats[i].0, beats[i].1, there, again[i].1);
    }
  }

  lemma WritesRepeat(t: Tables, beats: Beats, again: Beats, id: string)
    requires WellFormed(beats) && ObservedInHouses(t) && SameBeats(beats, again)
    ensures forall i :: 0 <= i < |beats| ==> (WritesAt(t, beats, i, id) <==> WritesAt(RunBeats(t, beats), again, i, id))
  {
    forall i | 0 <= i < |beats| ensures WritesAt(t, beats, i, id) <==> WritesAt(RunBeats(t, beats), again, i, id) {
      OutcomesRepeat(t, beats, again, i);
    }
  }

  // ---------------------------------------------------------------------------------------
  // What redelivery leaves

  /** Equal but for when it was last seen. */
  ghost predicate SameAsset(m: AssetTable, m': AssetTable, id: string) {
    (id in m <==> id in m') && (id in m ==> m[id].(lastSeenAt := 0) == m'[id].(lastSeenAt := 0))
  }

  lemma LastWrite(t: Tables, beats: Beats, id: string, n: nat) returns (i: nat)
    requires n <= |beats| && NoWriteFrom(t, beats, n, id) && !NoWriteFrom(t, beats, 0, id)
    ensures i < |beats| && WritesAt(t, beats, i, id) && NoWriteFrom(t, beats, i + 1, id)
  {
    if n > 0 && WritesAt(t, beats, n - 1, id) { i := n - 1; } else { i := LastWrite(t, beats, id, n - 1); }
  }

  /** Redelivering a whole run changes no asset's owner, type or capabilities, whatever the receive times. */
  lemma RunRedelivered(t: Tables, beats: Beats, again: Beats, id: string)
    requires WellFormed(beats) && ObservedInHouses(t) && SameBeats(beats, again)
    ensures var end := RunBeats(t, beats);
            && SameAsset(end.registered, RunBeats(end, again).registered, id)
            && SameAsset(end.discovered, RunBeats(end, again).discovered, id)
  {
    var end := RunBeats(t, beats);
    RunKeeps(t, beats);
    WritesRepeat(t, beats, again, id);
    if NoWriteFrom(t, beats, 0, id) {
      UnwrittenKept(end, again, id);
    } else {
      var i := LastWrite(t, beats, id, |beats|);
      var j :| 0 <= j < |beats[i].0.assets| && beats[i].0.assets[j].assetId == id;
      LastReportShows(t, beats, i, j);
      LastReportShows(end, again, i, j);
      OtherTableKept(t, beats, id);
      OtherTableKept(end, again, id);
    }
  }

  lemma {:induction false} RunConcat(t: Tables, xs: Beats, ys: Beats)
    ensures RunBeats(t, xs + ys) == RunBeats(RunBeats(t, xs), ys)
  {
    if ys == [] {
      assert xs + ys == xs;
    } else {
      assert (xs + ys)[..|xs + ys| - 1] == xs + ys[..|ys| - 1];
      RunConcat(t, xs, ys[..|ys| - 1]);
    }
  }

  /**
   * Redelivering any suffix of a run, in order and with whatever receive times, leaves every asset's owner, type and
   * capabilities as the run left them, adds and removes no row, and moves house rows only forward.
   */
  lemma SuffixRedelivered(t: Tables, beats: Beats, k: nat, again: Beats, id: string)
    requires WellFormed(beats) && ObservedInHouses(t) && k <= |beats| && SameBeats(beats[k..], again)
    ensures var end := RunBeats(t, beats);
            && SameAsset(end.registered, RunBeats(end, again).registered, id)
            && SameAsset(end.discovered, RunBeats(end, again).discovered, id)
            && HousesKept(end.houses, RunBeats(end, again).houses)
  {
    assert beats == beats[..k] + beats[k..];
    RunConcat(t, beats[..k], beats[k..]);
    RunKeeps(t, beats[..k]);
    RunKeeps(t, beats);
    RunRedelivered(RunBeats(t, beats[..k]), beats[k..], again, id);
    RunKeeps(RunBeats(t, beats), again);
  }
}
