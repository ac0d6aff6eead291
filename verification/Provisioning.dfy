/** Registering houses: validating a file of entries and the insert-or-compare that never changes a house. */
module Provisioning {
  import opened Common
  import opened Domain
  import opened Identity

  datatype Entry = Entry(houseId: string, gridId: string, meterId: string, deviceClass: string,
                         ratedSolarKw: Option<real>)
  datatype Registration = Registration(houseId: string, gridId: string, meterId: string, deviceClass: DeviceClass,
                                       ratedSolarKw: Option<real>)
  datatype HouseRow = HouseRow(gridId: string, meterId: Option<string>, deviceClass: DeviceClass,
                               ratedSolarKw: Option<real>)

  type Houses = map<string, HouseRow>

  datatype Outcome = Created | Unchanged | OtherIdentity | MeterTaken | GridNotProvisioned | CheckViolation

  const MAX_ENTRIES := 10000

  // ---------------------------------------------------------------------------------------
  // Validating a file

  /** What one entry registers, if the identity rules accept it. */
  ghost function Item(e: Entry): Option<Registration> {
    if ValidIdentity(e.gridId, e.houseId, e.meterId)
       && e.deviceClass in {"consumer", "residential_prosumer", "commercial"}
    then Some(Registration(e.houseId, e.gridId, e.meterId, DeviceClassOf(e.deviceClass).value, e.ratedSolarKw))
    else None
  }

  ghost function Items(entries: seq<Entry>): seq<Option<Registration>> {
    seq(|entries|, i requires 0 <= i < |entries| => Item(entries[i]))
  }

  /** Every entry is valid and no house appears with two device classes. */
  ghost predicate Consistent(items: seq<Option<Registration>>) {
    && (forall i :: 0 <= i < |items| ==> items[i].Some?)
    && (forall i, j :: 0 <= i < j < |items| && items[i].value.houseId == items[j].value.houseId ==>
                         items[i].value.deviceClass == items[j].value.deviceClass)
  }

  /** A house id fixes grid and meter. */
  ghost predicate Determined(items: seq<Option<Registration>>) {
    forall i, j :: 0 <= i < |items| && 0 <= j < |items| && items[i].Some? && items[j].Some?
                   && items[i].value.houseId == items[j].value.houseId ==>
                     items[i].value.gridId == items[j].value.gridId && items[i].value.meterId == items[j].value.meterId
  }

  lemma ItemsDetermined(entries: seq<Entry>)
    ensures Determined(Items(entries))
  {
    var items := Items(entries);
    forall i, j | 0 <= i < |items| && 0 <= j < |items| && items[i].Some? && items[j].Some?
                  && items[i].value.houseId == items[j].value.houseId
      ensures items[i].value.gridId == items[j].value.gridId && items[i].value.meterId == items[j].value.meterId
    {
      HouseDeterminesIdentity(entries[i].gridId, entries[j].gridId, entries[i].houseId, entries[i].meterId,
                              entries[j].meterId);
    }
  }

  /** The i-th item is r, the first item of its house. */
  ghost predicate FirstOfHouse(r: Registration, items: seq<Option<Registration>>, i: nat) {
    && i < |items| && items[i] == Some(r)
    && forall j: nat :: j < i && items[j].Some? ==> items[j].value.houseId != r.houseId
  }

  /** r comes from the first item of its house. */
  ghost predicate FirstItem(r: Registration, items: seq<Option<Registration>>) {
    exists i: nat :: FirstOfHouse(r, items, i)
  }

  ghost predicate DistinctHouses(rs: seq<Registration>) {
    forall i, j :: 0 <= i < j < |rs| ==> rs[i].houseId != rs[j].houseId
  }

  /** The scan over the file: first item seen per house, registrations so far, whether an error was noted. */
  datatype Scan = Scan(seen: map<string, Registration>, out: seq<Registration>, bad: bool)

  ghost function ScanItem(s: Scan, item: Option<Registration>): Scan {
    match item
    case None => s.(bad := true)
    case Some(r) =>
      if r.houseId in s.seen then
        var prev := s.seen[r.houseId];
        if prev.gridId != r.gridId || prev.meterId != r.meterId || prev.deviceClass != r.deviceClass
        then s.(bad := true) else s
      else s.(seen := s.seen[r.houseId := r], out := s.out + [r])
  }

  ghost function ScanAll(items: seq<Option<Registration>>): Scan {
    if items == [] then Scan(map[], [], false)
    else ScanItem(ScanAll(items[..|items| - 1]), items[|items| - 1])
  }

  /** The scan remembers the first item of every house. */
  ghost predicate SeenFirsts(s: Scan, items: seq<Option<Registration>>) {
    && (forall i :: 0 <= i < |items| && items[i].Some? ==> items[i].value.houseId in s.seen)
    && (forall h <- s.seen :: s.seen[h].houseId == h && FirstItem(s.seen[h], items))
  }

  ghost function HousesOf(rs: seq<Registration>): set<string> {
    set k | 0 <= k < |rs| :: rs[k].houseId
  }

  /** The output lists each house seen once, by its first item. */
  ghost predicate OutLists(s: Scan, items: seq<Option<Registration>>) {
    && HousesOf(s.out) == s.seen.Keys
    && DistinctHouses(s.out)
    && (forall k :: 0 <= k < |s.out| ==> FirstItem(s.out[k], items))
  }

  lemma SeenStep(s: Scan, init: seq<Option<Registration>>, item: Option<Registration>)
    requires SeenFirsts(s, init)
    ensures SeenFirsts(ScanItem(s, item), init + [item])
  {
    var s', items := ScanItem(s, item), init + [item];
    forall h <- s'.seen ensures s'.seen[h].houseId == h && FirstItem(s'.seen[h], items) {
      if h in s.seen {
        var i: nat :| FirstOfHouse(s.seen[h], init, i);
        assert FirstOfHouse(s'.seen[h], items, i);
      } else {
        assert FirstOfHouse(s'.seen[h], items, |init|);
      }
    }
  }

  lemma OutAppend(out: seq<Registration>, r: Registration)
    requires DistinctHouses(out) && r.houseId !in HousesOf(out)
    ensures DistinctHouses(out + [r]) && HousesOf(out + [r]) == HousesOf(out) + {r.houseId}
  {
    var out' := out + [r];
    assert out'[|out|] == r;
    forall k | 0 <= k < |out| ensures out[k].houseId in HousesOf(out) && out[k].houseId in HousesOf(out') {
      assert out'[k] == out[k];
    }
  }

  lemma OutStep(s: Scan, init: seq<Option<Registration>>, item: Option<Registration>)
    requires SeenFirsts(s, init) && OutLists(s, init)
    ensures OutLists(ScanItem(s, item), init + [item])
  {
    var s', items := ScanItem(s, item), init + [item];
    forall k | 0 <= k < |s'.out| ensures FirstItem(s'.out[k], items) {
      if k < |s.out| {
        var i: nat :| FirstOfHouse(s.out[k], init, i);
        FirstStays(s.out[k], init, [item], i);
      } else {
        assert FirstOfHouse(s'.out[k], items, |init|);
      }
    }
    if item.Some? && item.value.houseId !in s.seen { OutAppend(s.out, item.value); }
  }

  lemma FirstStays(r: Registration, items: seq<Option<Registration>>, more: seq<Option<Registration>>, i: nat)
    requires FirstOfHouse(r, items, i)
    ensures FirstOfHouse(r, items + more, i)
  {}

  lemma {:induction false} ScanInvariant(items: seq<Option<Registration>>)
    ensures SeenFirsts(ScanAll(items), items) && OutLists(ScanAll(items), items)
  {
    if items != [] {
      var init, item := items[..|items| - 1], items[|items| - 1];
      assert items == init + [item];
      ScanInvariant(init);
      SeenStep(ScanAll(init), init, item);
      OutStep(ScanAll(init), init, item);
    }
  }

  /** Appending an item keeps consistency exactly when it agrees with the first item of its house. */
  lemma ConsistentStep(init: seq<Option<Registration>>, r: Registration, first: Registration, i: nat)
    requires Consistent(init) && FirstOfHouse(first, init, i) && first.houseId == r.houseId
    ensures Consistent(init + [Some(r)]) <==> first.deviceClass == r.deviceClass
  {
    var items := init + [Some(r)];
    assert items[i] == Some(first) && items[|init|] == Some(r);
    if first.deviceClass == r.deviceClass {
      forall j | 0 <= j < |init| && init[j].value.houseId == r.houseId
        ensures init[j].value.deviceClass == r.deviceClass
      {
        assert init[i].value == first;
      }
    }
  }

  lemma ConsistentPrefix(init: seq<Option<Registration>>, item: Option<Registration>)
    requires Consistent(init + [item])
    ensures Consistent(init) && item.Some?
  {
    var items := init + [item];
    assert items[|init|] == item;
    assert forall j :: 0 <= j < |init| ==> items[j] == init[j];
  }

  lemma {:induction false} ScanDecides(items: seq<Option<Registration>>)
    requires Determined(items)
    ensures ScanAll(items).bad <==> !Consistent(items)
  {
    if items != [] {
      var init, item := items[..|items| - 1], items[|items| - 1];
      assert items == init + [item];
      ScanDecides(init);
      ScanInvariant(init);
      var s := ScanAll(init);
      if Consistent(items) { ConsistentPrefix(init, item); }
      if !s.bad && item.Some? {
        if item.value.houseId in s.seen {
          var prev := s.seen[item.value.houseId];
          var i: nat :| FirstOfHouse(prev, init, i);
          assert items[i] == Some(prev) && items[|init|] == item;
          ConsistentStep(init, item.value, prev, i);
        } else {
          ConsistentFresh(init, item.value);
        }
      }
    }
  }

  lemma ConsistentFresh(init: seq<Option<Registration>>, r: Registration)
    requires Consistent(init) && forall i :: 0 <= i < |init| ==> init[i].value.houseId != r.houseId
    ensures Consistent(init + [Some(r)])
  {}

  ghost predicate ValidRegistration(r: Registration) {
    ValidIdentity(r.gridId, r.houseId, r.meterId)
  }

  ghost predicate ValidFile(entries: seq<Entry>) {
    1 <= |entries| <= 10_000 && Consistent(Items(entries))
  }

  /** What a file registers: each house once, as first given. */
  ghost function FileRegistrations(entries: seq<Entry>): seq<Registration> {
    ScanAll(Items(entries)).out
  }

  /**
   * A file is accepted exactly when it is not empty, not too long and consistent; then each of its
   * houses is registered once, from its first entry.
   */
  method Validate(entries: seq<Entry>) returns (res: Option<seq<Registration>>)
    ensures res.Some? <==> ValidFile(entries)
    ensures res.Some? ==>
              && res.value == FileRegistrations(entries)
              && DistinctHouses(res.value)
              && (forall k :: 0 <= k < |res.value| ==> ValidRegistration(res.value[k]))
              && (forall k :: 0 <= k < |res.value| ==> FirstItem(res.value[k], Items(entries)))
              && (forall k :: 0 <= k < |res.value| ==> Given(res.value[k], entries))
              && (forall i :: 0 <= i < |entries| ==>
                  exists k :: 0 <= k < |res.value| && res.value[k].houseId == entries[i].houseId)
  {
    if |entries| == 0 || |entries| > MAX_ENTRIES { return None; }
    var seen: map<string, Registration> := map[];
    var out: seq<Registration> := [];
    var bad := false;
    ghost var items := Items(entries);
    for i := 0 to |entries|
      invariant Scan(seen, out, bad) == ScanAll(items[..i])
    {
      var item := CheckEntry(entries[i]);
      assert items[..i + 1][..i] == items[..i] && items[i] == item;
      if item.None? {
        bad := true;
        continue;
      }
      var r := item.value;
      if r.houseId in seen {
        var prev := seen[r.houseId];
        if prev.gridId != r.gridId || prev.meterId != r.meterId || prev.deviceClass != r.deviceClass {
          bad := true;
        }
        continue;
      }
      seen := seen[r.houseId := r];
      out := out + [r];
    }
    assert items[..|entries|] == items;
    ItemsDetermined(entries);
    ScanDecides(items);
    if bad { return None; }
    ItemHouses(entries);
    OutputFacts(entries, items, ScanAll(items));
    RegistrationsValid(entries, out);
    RegistrationsGiven(entries, out);
    return Some(out);
  }

  /** The i-th entry is the first of its house, and the registration says field by field what it says. */
  ghost predicate GivenFirst(r: Registration, entries: seq<Entry>, i: int) {
    && 0 <= i < |entries| && (forall j :: 0 <= j < i ==> entries[j].houseId != entries[i].houseId)
    && r.houseId == entries[i].houseId && r.gridId == entries[i].gridId && r.meterId == entries[i].meterId
    && ClassNamed(entries[i].deviceClass, r.deviceClass) && r.ratedSolarKw == entries[i].ratedSolarKw
  }

  ghost predicate Given(r: Registration, entries: seq<Entry>) {
    exists i :: GivenFirst(r, entries, i)
  }

  lemma RegistrationGiven(entries: seq<Entry>, r: Registration)
    requires Consistent(Items(entries)) && FirstItem(r, Items(entries))
    ensures Given(r, entries)
  {
    var i: nat :| FirstOfHouse(r, Items(entries), i);
    assert forall j :: 0 <= j < i ==> Items(entries)[j].Some? && Items(entries)[j] == Item(entries[j]);
    assert GivenFirst(r, entries, i);
  }

  lemma RegistrationsGiven(entries: seq<Entry>, out: seq<Registration>)
    requires Consistent(Items(entries)) && forall k :: 0 <= k < |out| ==> FirstItem(out[k], Items(entries))
    ensures forall k :: 0 <= k < |out| ==> Given(out[k], entries)
  {
    forall k | 0 <= k < |out| ensures Given(out[k], entries) { RegistrationGiven(entries, out[k]); }
  }

  lemma RegistrationsValid(entries: seq<Entry>, out: seq<Registration>)
    requires forall k :: 0 <= k < |out| ==> FirstItem(out[k], Items(entries))
    ensures forall k :: 0 <= k < |out| ==> ValidRegistration(out[k])
  {
    forall k | 0 <= k < |out| ensures ValidRegistration(out[k]) {
      assert FirstItem(out[k], Items(entries));
    }
  }

  method CheckEntry(e: Entry) returns (item: Option<Registration>)
    ensures item == Item(e)
  {
    var class_ := ValidateHouseIdentity(e.gridId, e.houseId, e.meterId, e.deviceClass);
    if class_.None? { return None; }
    return Some(Registration(e.houseId, e.gridId, e.meterId, class_.value, e.ratedSolarKw));
  }

  lemma ItemHouses(entries: seq<Entry>)
    ensures forall i :: 0 <= i < |entries| && Items(entries)[i].Some? ==>
              Items(entries)[i].value.houseId == entries[i].houseId
  {}

  lemma OutputFacts(entries: seq<Entry>, items: seq<Option<Registration>>, s: Scan)
    requires s == ScanAll(items) && Consistent(items) && |items| == |entries|
    requires forall i :: 0 <= i < |entries| && items[i].Some? ==> items[i].value.houseId == entries[i].houseId
    ensures DistinctHouses(s.out)
    ensures forall k :: 0 <= k < |s.out| ==> FirstItem(s.out[k], items)
    ensures forall i :: 0 <= i < |entries| ==> exists k :: 0 <= k < |s.out| && s.out[k].houseId == entries[i].houseId
  {
    ScanInvariant(items);
    forall i | 0 <= i < |entries| ensures exists k :: 0 <= k < |s.out| && s.out[k].houseId == entries[i].houseId {
      assert items[i].Some?;
      assert entries[i].houseId in HousesOf(s.out);
    }
  }

  // ---------------------------------------------------------------------------------------
  // Registering

  ghost predicate MeterBound(houses: Houses, m: string) {
    exists h <- houses :: houses[h].meterId == Some(m)
  }

  /** One registration: never changes an existing house; refusals write nothing. */
  ghost function Register(houses: Houses, grids: set<string>, r: Registration): (Houses, Outcome) {
    if r.ratedSolarKw.Some? && r.ratedSolarKw.value < 0.0 then (houses, CheckViolation)
    else if r.houseId in houses then
      var row := houses[r.houseId];
      (houses, if row.gridId == r.gridId && row.meterId == Some(r.meterId) && row.deviceClass == r.deviceClass
               then Unchanged else OtherIdentity)
    else if MeterBound(houses, r.meterId) then (houses, MeterTaken)
    else if r.gridId !in grids then (houses, GridNotProvisioned)
    else (houses[r.houseId := HouseRow(r.gridId, Some(r.meterId), r.deviceClass, r.ratedSolarKw)], Created)
  }

  class HouseRegistry {
    var houses: Houses
    const grids: set<string>

    constructor (grids: set<string>)
      ensures houses == map[] && this.grids == grids
    {
      houses := map[];
      this.grids := grids;
    }

    /** The unique index on meter ids, searched row by row. */
    method FindMeter(m: string) returns (bound: bool)
      ensures bound <==> MeterBound(houses, m)
    {
      var todo := houses.Keys;
      while todo != {}
        invariant todo <= houses.Keys
        invariant forall h <- houses :: h !in todo ==> houses[h].meterId != Some(m)
        decreases |todo|
      {
        var h :| h in todo;
        if houses[h].meterId == Some(m) { return true; }
        todo := todo - {h};
      }
      return false;
    }

    method RegisterHouse(r: Registration) returns (outcome: Outcome)
      modifies this`houses
      ensures (houses, outcome) == Register(old(houses), grids, r)
      ensures outcome == CheckViolation <==> r.ratedSolarKw.Some? && r.ratedSolarKw.value < 0.0
      ensures outcome == Unchanged || outcome == OtherIdentity ==> r.houseId in old(houses)
      ensures outcome == Unchanged ==> Registered(houses, r)
      ensures outcome == OtherIdentity ==> !Registered(houses, r)
      ensures outcome == GridNotProvisioned ==> r.houseId !in old(houses) && r.gridId !in grids
      ensures outcome == MeterTaken ==> r.houseId !in old(houses) && MeterBound(houses, r.meterId)
      ensures outcome == Created <==>
              && outcome != CheckViolation && r.houseId !in old(houses)
              && !MeterBound(old(houses), r.meterId) && r.gridId in grids
      ensures outcome == Created ==>
                houses == old(houses)[r.houseId := HouseRow(r.gridId, Some(r.meterId), r.deviceClass, r.ratedSolarKw)]
      ensures outcome != Created ==> houses == old(houses)
    {
      if r.ratedSolarKw.Some? && r.ratedSolarKw.value < 0.0 { return CheckViolation; }
      if r.houseId in houses {
        var row := houses[r.houseId];
        if row.gridId != r.gridId || row.meterId.None? || row.meterId.value != r.meterId
           || row.deviceClass != r.deviceClass {
          return OtherIdentity;
        }
        return Unchanged;
      }
      var bound := FindMeter(r.meterId);
      if bound { return MeterTaken; }
      if r.gridId !in grids { return GridNotProvisioned; }
      houses := houses[r.houseId := HouseRow(r.gridId, Some(r.meterId), r.deviceClass, r.ratedSolarKw)];
      return Created;
    }
  }

  /** Every house with a meter has an identity the grammar accepts. */
  ghost predicate ValidHouses(houses: Houses) {
    forall h <- houses :: houses[h].meterId.Some? ==> ValidIdentity(houses[h].gridId, h, houses[h].meterId.value)
  }

  ghost function RegisterAll(houses: Houses, grids: set<string>, rs: seq<Registration>): Houses
    decreases |rs|
  {
    if rs == [] then houses else RegisterAll(Register(houses, grids, rs[0]).0, grids, rs[1..])
  }

  /** The outcome reported for each registration of a run. */
  ghost function Outcomes(houses: Houses, grids: set<string>, rs: seq<Registration>): seq<Outcome>
    decreases |rs|
  {
    if rs == [] then []
    else
      var (next, outcome) := Register(houses, grids, rs[0]);
      [outcome] + Outcomes(next, grids, rs[1..])
  }

  /** Among validated houses the meter-uniqueness refusal cannot happen: a meter names its house. */
  lemma NeverMeterTaken(houses: Houses, grids: set<string>, r: Registration)
    requires ValidHouses(houses) && ValidRegistration(r)
    ensures Register(houses, grids, r).1 != MeterTaken
    ensures ValidHouses(Register(houses, grids, r).0)
  {
    if MeterBound(houses, r.meterId) {
      var h :| h in houses && houses[h].meterId == Some(r.meterId);
      MeterDeterminesHouse(houses[h].gridId, h, r.gridId, r.houseId, r.meterId);
    }
  }

  lemma {:induction false} FileNeverMeterTaken(houses: Houses, grids: set<string>, rs: seq<Registration>)
    requires ValidHouses(houses) && forall i :: 0 <= i < |rs| ==> ValidRegistration(rs[i])
    ensures MeterTaken !in Outcomes(houses, grids, rs)
    ensures ValidHouses(RegisterAll(houses, grids, rs))
    decreases |rs|
  {
    if rs != [] {
      NeverMeterTaken(houses, grids, rs[0]);
      FileNeverMeterTaken(Register(houses, grids, rs[0]).0, grids, rs[1..]);
    }
  }

  /** Registered houses never change, whatever is registered afterwards. */
  ghost predicate Keeps(before: Houses, after: Houses) {
    forall h <- before :: h in after && after[h] == before[h]
  }

  lemma {:induction false} RegisterAllKeeps(houses: Houses, grids: set<string>, rs: seq<Registration>)
    ensures Keeps(houses, RegisterAll(houses, grids, rs))
    decreases |rs|
  {
    if rs != [] { RegisterAllKeeps(Register(houses, grids, rs[0]).0, grids, rs[1..]); }
  }

  ghost predicate Registered(houses: Houses, r: Registration) {
    && r.houseId in houses
    && houses[r.houseId].gridId == r.gridId
    && houses[r.houseId].meterId == Some(r.meterId)
    && houses[r.houseId].deviceClass == r.deviceClass
    && (r.ratedSolarKw.Some? ==> r.ratedSolarKw.value >= 0.0)
  }

  lemma {:induction false} SuccessRegisters(houses: Houses, grids: set<string>, rs: seq<Registration>)
    requires forall o <- Outcomes(houses, grids, rs) :: o == Created || o == Unchanged
    ensures forall i :: 0 <= i < |rs| ==> Registered(RegisterAll(houses, grids, rs), rs[i])
    decreases |rs|
  {
    if rs != [] {
      var (next, outcome) := Register(houses, grids, rs[0]);
      var all := Outcomes(houses, grids, rs);
      assert all[0] == outcome && all[1..] == Outcomes(next, grids, rs[1..]);
      assert all[0] in all && forall o <- all[1..] :: o in all;
      SuccessRegisters(next, grids, rs[1..]);
      RegisterAllKeeps(next, grids, rs[1..]);
    }
  }

  lemma {:induction false} RegisteredUnchanged(houses: Houses, grids: set<string>, rs: seq<Registration>)
    requires forall i :: 0 <= i < |rs| ==> Registered(houses, rs[i])
    ensures RegisterAll(houses, grids, rs) == houses
    ensures forall o <- Outcomes(houses, grids, rs) :: o == Unchanged
  {
    if rs != [] {
      assert Registered(houses, rs[0]);
      RegisteredUnchanged(houses, grids, rs[1..]);
    }
  }

  /** A file that registered without a refusal reports every house unchanged when run again, even after other files. */
  lemma RerunUnchanged(houses: Houses, grids: set<string>, rs: seq<Registration>, others: seq<Registration>,
                       grids': set<string>)
    requires forall o <- Outcomes(houses, grids, rs) :: o == Created || o == Unchanged
    ensures var later := RegisterAll(RegisterAll(houses, grids, rs), grids', others);
            && RegisterAll(later, grids', rs) == later
            && forall o <- Outcomes(later, grids', rs) :: o == Unchanged
  {
    SuccessRegisters(houses, grids, rs);
    var after := RegisterAll(houses, grids, rs);
    RegisterAllKeeps(after, grids', others);
    var later := RegisterAll(after, grids', others);
    forall i | 0 <= i < |rs| ensures Registered(later, rs[i]) { assert Registered(after, rs[i]); }
    RegisteredUnchanged(later, grids', rs);
  }

  // ---------------------------------------------------------------------------------------
  // The command

  datatype Report = Report(created: nat, same: nat, refused: nat)

  ghost predicate Counts(report: Report, outcomes: seq<Outcome>) {
    && report.created == multiset(outcomes)[Created] && report.same == multiset(outcomes)[Unchanged]
    && report.created + report.same + report.refused == |outcomes|
  }

  function Tally(report: Report, o: Outcome): Report {
    match o
    case Created => report.(created := report.created + 1)
    case Unchanged => report.(same := report.same + 1)
    case _ => report.(refused := report.refused + 1)
  }

  lemma CountOne(report: Report, outcomes: seq<Outcome>, o: Outcome)
    requires Counts(report, outcomes)
    ensures Counts(Tally(report, o), outcomes + [o])
  {
    assert multiset(outcomes + [o]) == multiset(outcomes) + multiset{o};
  }

  method RegisterEach(rs: seq<Registration>, registry: HouseRegistry) returns (report: Report)
    modifies registry`houses
    ensures registry.houses == RegisterAll(old(registry.houses), registry.grids, rs)
    ensures Counts(report, Outcomes(old(registry.houses), registry.grids, rs))
  {
    report := Report(0, 0, 0);
    ghost var grids, before := registry.grids, registry.houses;
    ghost var done: seq<Outcome> := [];
    for i := 0 to |rs|
      invariant Counts(report, done)
      invariant Outcomes(before, grids, rs) == done + Outcomes(registry.houses, grids, rs[i..])
      invariant RegisterAll(before, grids, rs) == RegisterAll(registry.houses, grids, rs[i..])
    {
      ghost var here := registry.houses;
      RunStep(here, grids, rs[i..]);
      assert rs[i..][1..] == rs[i + 1..];
      var outcome := registry.RegisterHouse(rs[i]);
      CountOne(report, done, outcome);
      assert done + ([outcome] + Outcomes(registry.houses, grids, rs[i + 1..]))
             == done + [outcome] + Outcomes(registry.houses, grids, rs[i + 1..]);
      report, done := Tally(report, outcome), done + [outcome];
    }
    assert rs[|rs|..] == [];
  }

  lemma RunStep(houses: Houses, grids: set<string>, rs: seq<Registration>)
    requires rs != []
    ensures Outcomes(houses, grids, rs)
            == [Register(houses, grids, rs[0]).1] + Outcomes(Register(houses, grids, rs[0]).0, grids, rs[1..])
    ensures RegisterAll(houses, grids, rs) == RegisterAll(Register(houses, grids, rs[0]).0, grids, rs[1..])
  {}

  /**
   * A whole file: nothing is written unless every entry is valid; then each house is registered in order, the meter
   * refusal never happens, and the report counts the outcomes.
   */
  method RegisterFile(entries: seq<Entry>, registry: HouseRegistry, dryRun: bool) returns (report: Option<Report>)
    requires ValidHouses(registry.houses)
    modifies registry`houses
    ensures ValidHouses(registry.houses)
    ensures report.None? <==> !ValidFile(entries)
    ensures report.None? || dryRun ==> registry.houses == old(registry.houses)
    ensures report.Some? && dryRun ==> report.value == Report(0, 0, 0)
    ensures report.Some? && !dryRun ==>
              var outcomes := Outcomes(old(registry.houses), registry.grids, FileRegistrations(entries));
              && registry.houses == RegisterAll(old(registry.houses), registry.grids, FileRegistrations(entries))
              && MeterTaken !in outcomes && Counts(report.value, outcomes)
  {
    var validated := Validate(entries);
    if validated.None? { return None; }
    if dryRun { return Some(Report(0, 0, 0)); }
    FileNeverMeterTaken(registry.houses, registry.grids, validated.value);
    var counts := RegisterEach(validated.value, registry);
    return Some(counts);
  }

  /**
   * A valid file that was registered without a refusal is reported wholly unchanged ever after, whatever other files
   * bring.
   */
  lemma FileRerunUnchanged(houses: Houses, grids: set<string>, entries: seq<Entry>, others: seq<Registration>,
                           grids': set<string>, report: Report)
    requires Counts(report, Outcomes(houses, grids, FileRegistrations(entries))) && report.refused == 0
    ensures var rs := FileRegistrations(entries);
            var later := RegisterAll(RegisterAll(houses, grids, rs), grids', others);
            && RegisterAll(later, grids', rs) == later
            && Counts(Report(0, |rs|, 0), Outcomes(later, grids', rs))
  {
    var rs := FileRegistrations(entries);
    var outcomes := Outcomes(houses, grids, rs);
    NothingRefused(outcomes, report);
    RerunUnchanged(houses, grids, rs, others, grids');
    var later := RegisterAll(RegisterAll(houses, grids, rs), grids', others);
    OutcomesLength(later, grids', rs);
    AllUnchanged(Outcomes(later, grids', rs));
  }

  lemma {:induction false} OutcomesLength(houses: Houses, grids: set<string>, rs: seq<Registration>)
    ensures |Outcomes(houses, grids, rs)| == |rs|
    decreases |rs|
  {
    if rs != [] { OutcomesLength(Register(houses, grids, rs[0]).0, grids, rs[1..]); }
  }

  lemma {:induction false} NothingRefused(outcomes: seq<Outcome>, report: Report)
    requires Counts(report, outcomes) && report.refused == 0
    ensures forall o <- outcomes :: o == Created || o == Unchanged
  {
    forall o <- outcomes ensures o == Created || o == Unchanged {
      var m := multiset(outcomes);
      assert m == m[Created := 0][Unchanged := 0] + multiset{}[Created := m[Created]][Unchanged := m[Unchanged]];
      assert o in m;
    }
  }

  lemma {:induction false} AllUnchanged(outcomes: seq<Outcome>)
    requires forall o <- outcomes :: o == Unchanged
    ensures Counts(Report(0, |outcomes|, 0), outcomes)
  {
    if outcomes != [] {
      var init, last := outcomes[..|outcomes| - 1], outcomes[|outcomes| - 1];
      assert outcomes == init + [last];
      assert last in outcomes && forall o <- init :: o in outcomes;
      AllUnchanged(init);
      CountOne(Report(0, |init|, 0), init, last);
    }
  }
}
