/**
 * Metered energy of one house over a time range: how long each reading counts, how its power is
 * attributed to flows, and how rows add up to buckets and to the summary. Times are seconds;
 * times, power and energy are exact reals.
 */
module Energy {
  import opened Common

  /** A meter reading joined with the power of every storage row at its (time, meter). */
  datatype Reading = Reading(time: real, solar: real, cons: real, net: real, storage: seq<real>)

  /** A reading and the seconds it counts for. */
  datatype Span = Span(reading: Reading, seconds: real)

  /** A reading counts for at most 30 seconds. */
  const MAX_READING_SECONDS := 30.0

  function Hours(seconds: real): real {
    seconds / 3600.0
  }

  /** How long a reading at `time` counts when the next one (or the range end) is at `next`. */
  function Duration(time: real, next: real): real {
    if next - time < MAX_READING_SECONDS then next - time else MAX_READING_SECONDS
  }

  ghost predicate Sorted(rs: seq<Reading>) {
    forall i, j :: 0 <= i < j < |rs| ==> rs[i].time <= rs[j].time
  }

  /** WHERE start <= time < end, keeping the order. */
  function Window(rs: seq<Reading>, start: real, end: real): seq<Reading> {
    if rs == [] then []
    else if start <= rs[0].time < end then [rs[0]] + Window(rs[1..], start, end)
    else Window(rs[1..], start, end)
  }

  /** LEAD over the time order: each reading lasts until the next one, the last until `end`. */
  function Spans(rs: seq<Reading>, end: real): seq<Span> {
    if rs == [] then []
    else
      var next := if |rs| > 1 then rs[1].time else end;
      [Span(rs[0], Duration(rs[0].time, next))] + Spans(rs[1..], end)
  }

  /** The spans of the readings in [start, end). */
  function Query(rs: seq<Reading>, start: real, end: real): seq<Span> {
    Spans(Window(rs, start, end), end)
  }

  // ---------------------------------------------------------------------------------------
  // Splitting a range

  lemma {:induction false} WindowMember(rs: seq<Reading>, start: real, end: real, i: nat)
    requires i < |Window(rs, start, end)|
    ensures Window(rs, start, end)[i] in rs && start <= Window(rs, start, end)[i].time < end
  {
    var here := start <= rs[0].time < end;
    if !(here && i == 0) {
      WindowMember(rs[1..], start, end, if here then i - 1 else i);
    }
  }

  lemma {:induction false} WindowSorted(rs: seq<Reading>, start: real, end: real)
    requires Sorted(rs)
    ensures Sorted(Window(rs, start, end))
  {
    if rs != [] {
      var rest := Window(rs[1..], start, end);
      WindowSorted(rs[1..], start, end);
      forall i | 0 <= i < |rest| ensures rs[0].time <= rest[i].time {
        WindowMember(rs[1..], start, end, i);
      }
    }
  }

  lemma WindowMembers(rs: seq<Reading>, start: real, end: real)
    requires Sorted(rs)
    ensures Sorted(Window(rs, start, end))
    ensures forall i :: 0 <= i < |Window(rs, start, end)| ==>
              Window(rs, start, end)[i] in rs && start <= Window(rs, start, end)[i].time < end
  {}

  lemma {:induction false} WindowEmpty(rs: seq<Reading>, start: real, end: real)
    requires forall i :: 0 <= i < |rs| ==> rs[i].time >= end
    ensures Window(rs, start, end) == []
  {
    if rs != [] { WindowEmpty(rs[1..], start, end); }
  }

  lemma {:induction false} WindowSplit(rs: seq<Reading>, a: real, b: real, c: real)
    requires Sorted(rs) && a <= b <= c
    ensures Window(rs, a, c) == Window(rs, a, b) + Window(rs, b, c)
  {
    if rs != [] {
      WindowSplit(rs[1..], a, b, c);
      if rs[0].time >= b {
        WindowEmpty(rs, a, b);
        WindowEmpty(rs[1..], a, b);
      }
    }
  }

  lemma {:induction false} SpansConcat(xs: seq<Reading>, ys: seq<Reading>, end: real)
    ensures Spans(xs + ys, end) == Spans(xs, if ys == [] then end else ys[0].time) + Spans(ys, end)
  {
    if xs == [] {
      assert xs + ys == ys;
    } else {
      assert (xs + ys)[1..] == xs[1..] + ys;
      SpansConcat(xs[1..], ys, end);
    }
  }

  /** Moving the range end only changes how long the last reading counts, whatever is being summed. */
  lemma {:induction false} SpansEnd(xs: seq<Reading>, end: real, later: real, w: Span -> real)
    requires xs != []
    ensures var last := xs[|xs| - 1];
            Sum(Spans(xs, later), w)
            == Sum(Spans(xs, end), w)
               + w(Span(last, Duration(last.time, later))) - w(Span(last, Duration(last.time, end)))
  {
    if |xs| > 1 {
      SpansEnd(xs[1..], end, later, w);
    } else {
      assert xs[1..] == [];
    }
  }

  /** Where the last reading before the cut stops counting in the undivided range. */
  function NextFrom(after: seq<Reading>, c: real): real {
    if after == [] then c else after[0].time
  }

  /** Seconds the last reading of `before` loses when the range is cut at b. */
  function Lost(before: seq<Reading>, after: seq<Reading>, b: real, c: real): real {
    if before == [] then 0.0
    else
      var t := before[|before| - 1].time;
      Duration(t, NextFrom(after, c)) - Duration(t, b)
  }

  function LastPower(before: seq<Reading>, power: Reading -> real): real {
    if before == [] then 0.0 else power(before[|before| - 1])
  }

  function Kwh(kw: real, seconds: real): real {
    kw * Hours(seconds)
  }

  /** power * dt_h */
  function Weight(power: Reading -> real, r: Reading, seconds: real): real {
    Kwh(power(r), seconds)
  }

  /** `w` is the summand power * dt_h of one power expression. */
  ghost predicate Weighs(w: Span -> real, power: Reading -> real) {
    forall r: Reading, d: real {:trigger Weight(power, r, d)} :: w(Span(r, d)) == Weight(power, r, d)
  }

  lemma Distribute(p: real, x: real, y: real)
    ensures Kwh(p, x) - Kwh(p, y) == Kwh(p, x - y)
  {
    assert Hours(x) - Hours(y) == Hours(x - y);
  }

  lemma WeightGap(w: Span -> real, power: Reading -> real, r: Reading, long: real, short: real)
    requires Weighs(w, power)
    ensures w(Span(r, long)) - w(Span(r, short)) == Kwh(power(r), long - short)
  {
    assert w(Span(r, long)) == Weight(power, r, long) && w(Span(r, short)) == Weight(power, r, short);
    Distribute(power(r), long, short);
  }

  lemma SpansSplit(before: seq<Reading>, after: seq<Reading>, b: real, c: real, w: Span -> real)
    requires before != []
    ensures var last := before[|before| - 1];
            Sum(Spans(before + after, c), w)
            == Sum(Spans(before, b), w) + Sum(Spans(after, c), w)
               + w(Span(last, Duration(last.time, NextFrom(after, c)))) - w(Span(last, Duration(last.time, b)))
  {
    SpansConcat(before, after, c);
    SumConcat(Spans(before, NextFrom(after, c)), Spans(after, c), w);
    SpansEnd(before, b, NextFrom(after, c), w);
  }

  /** What the cut loses, as energy. */
  function LostEnergy(before: seq<Reading>, after: seq<Reading>, b: real, c: real, power: Reading -> real): real {
    Kwh(LastPower(before, power), Lost(before, after, b, c))
  }

  /** Thirty seconds of the last reading. */
  function MostLost(before: seq<Reading>, power: Reading -> real): real {
    Kwh(LastPower(before, power), MAX_READING_SECONDS)
  }

  lemma SplitWindows(before: seq<Reading>, after: seq<Reading>, b: real, c: real, power: Reading -> real,
                     w: Span -> real)
    requires Weighs(w, power)
    ensures Sum(Spans(before + after, c), w)
         == Sum(Spans(before, b), w) + Sum(Spans(after, c), w) + LostEnergy(before, after, b, c, power)
  {
    if before == [] {
      assert before + after == after;
      assert LostEnergy(before, after, b, c, power) == 0.0;
    } else {
      var last := before[|before| - 1];
      SpansSplit(before, after, b, c, w);
      WeightGap(w, power, last, Duration(last.time, NextFrom(after, c)), Duration(last.time, b));
    }
  }

  /** Cutting a range at b loses exactly what the last reading before b would have counted past b. */
  lemma OneOrderSplitExact(rs: seq<Reading>, a: real, b: real, c: real, power: Reading -> real, w: Span -> real)
    requires Sorted(rs) && a <= b <= c && Weighs(w, power)
    ensures Sum(Query(rs, a, c), w)
         == Sum(Query(rs, a, b), w) + Sum(Query(rs, b, c), w)
            + LostEnergy(Window(rs, a, b), Window(rs, b, c), b, c, power)
  {
    WindowSplit(rs, a, b, c);
    SplitWindows(Window(rs, a, b), Window(rs, b, c), b, c, power, w);
  }

  /** The whole of [a, c) keeps everything the last reading before b counts past b. */
  ghost predicate NothingLost(before: seq<Reading>, after: seq<Reading>, b: real, c: real) {
    || before == []
    || NextFrom(after, c) == b
    || b - before[|before| - 1].time >= MAX_READING_SECONDS
  }

  /** The loss is never negative, never more than 30 seconds, and zero exactly in the named cases. */
  lemma LostBounds(rs: seq<Reading>, a: real, b: real, c: real)
    requires Sorted(rs) && a <= b <= c
    ensures var before, after := Window(rs, a, b), Window(rs, b, c);
            && 0.0 <= Lost(before, after, b, c) <= MAX_READING_SECONDS
            && (Lost(before, after, b, c) == 0.0 <==> NothingLost(before, after, b, c))
  {
    WindowMembers(rs, a, b);
    WindowMembers(rs, b, c);
  }

  lemma ProductBounds(p: real, d: real, cap: real)
    requires p >= 0.0 && 0.0 <= d <= cap
    ensures 0.0 <= Kwh(p, d) <= Kwh(p, cap)
    ensures Kwh(p, d) == 0.0 <==> p == 0.0 || d == 0.0
  {
    assert 0.0 <= Hours(d) <= Hours(cap);
  }

  lemma LostEnergyWithin(before: seq<Reading>, after: seq<Reading>, b: real, c: real, power: Reading -> real)
    requires LastPower(before, power) >= 0.0 && 0.0 <= Lost(before, after, b, c) <= MAX_READING_SECONDS
    ensures 0.0 <= LostEnergy(before, after, b, c, power) <= MostLost(before, power)
    ensures LostEnergy(before, after, b, c, power) == 0.0 <==>
            LastPower(before, power) == 0.0 || Lost(before, after, b, c) == 0.0
  {
    ProductBounds(LastPower(before, power), Lost(before, after, b, c), MAX_READING_SECONDS);
  }

  lemma LostEnergyBounds(rs: seq<Reading>, a: real, b: real, c: real, power: Reading -> real)
    requires Sorted(rs) && a <= b <= c && forall r <- rs :: power(r) >= 0.0
    ensures 0.0 <= LostEnergy(Window(rs, a, b), Window(rs, b, c), b, c, power) <= MostLost(Window(rs, a, b), power)
    ensures LostEnergy(Window(rs, a, b), Window(rs, b, c), b, c, power) == 0.0 <==>
            || LastPower(Window(rs, a, b), power) == 0.0
            || NothingLost(Window(rs, a, b), Window(rs, b, c), b, c)
  {
    assert LastPower(Window(rs, a, b), power) >= 0.0 by { WindowMembers(rs, a, b); }
    LostBounds(rs, a, b, c);
    LostEnergyWithin(Window(rs, a, b), Window(rs, b, c), b, c, power);
  }

  /**
   * For any nonnegative power field the two halves never exceed the whole, fall short by at
   * most 30 seconds of the last reading before the cut, and add up to the whole exactly when
   * nothing precedes the cut, that reading had no power, it had already run out its 30
   * seconds, or another reading (or the range end) sits on the cut.
   */
  lemma OneOrderSplitEnergy(rs: seq<Reading>, a: real, b: real, c: real, power: Reading -> real, w: Span -> real)
    requires Sorted(rs) && a <= b <= c && Weighs(w, power) && forall r <- rs :: power(r) >= 0.0
    ensures Sum(Query(rs, a, b), w) + Sum(Query(rs, b, c), w) <= Sum(Query(rs, a, c), w)
    ensures Sum(Query(rs, a, c), w)
         <= Sum(Query(rs, a, b), w) + Sum(Query(rs, b, c), w)
            + MostLost(Window(rs, a, b), power)
    ensures Sum(Query(rs, a, b), w) + Sum(Query(rs, b, c), w) == Sum(Query(rs, a, c), w) <==>
            || LastPower(Window(rs, a, b), power) == 0.0
            || NothingLost(Window(rs, a, b), Window(rs, b, c), b, c)
  {
    OneOrderSplitExact(rs, a, b, c, power, w);
    LostEnergyBounds(rs, a, b, c, power);
  }

  // ---------------------------------------------------------------------------------------
  // Flow attribution of one reading

  function Min(a: real, b: real): real { if a < b then a else b }
  function Pos(a: real): real { if a > 0.0 then a else 0.0 }

  function Charge(storage: seq<real>): real {
    if storage == [] then 0.0 else Pos(storage[0]) + Charge(storage[1..])
  }

  function Discharge(storage: seq<real>): real {
    if storage == [] then 0.0 else Pos(-storage[0]) + Discharge(storage[1..])
  }

  datatype Flows = Flows(solarHome: real, solarStorage: real, solarGrid: real, gridHome: real,
                         gridStorage: real, storageHome: real, storageGrid: real)

  /** Solar serves the home, then storage, then the grid; a deficit is met by storage, then the grid. */
  function Attribute(solar: real, cons: real, charge: real, discharge: real): Flows {
    var solarHome := Min(solar, cons);
    var solarStorage := Min(solar - solarHome, charge);
    var storageHome := Min(discharge, cons - solarHome);
    Flows(solarHome, solarStorage, solar - solarHome - solarStorage, cons - solarHome - storageHome,
          charge - solarStorage, storageHome, discharge - storageHome)
  }

  /** A physically possible split: nonnegative flows that use up every source and meet every demand. */
  ghost predicate Feasible(f: Flows, solar: real, cons: real, charge: real, discharge: real) {
    && f.solarHome >= 0.0 && f.solarStorage >= 0.0 && f.solarGrid >= 0.0 && f.gridHome >= 0.0
    && f.gridStorage >= 0.0 && f.storageHome >= 0.0 && f.storageGrid >= 0.0
    && solar == f.solarHome + f.solarStorage + f.solarGrid
    && cons == f.solarHome + f.storageHome + f.gridHome
    && charge == f.solarStorage + f.gridStorage
    && discharge == f.storageHome + f.storageGrid
  }

  /** The stated priorities: nothing goes to a later use while an earlier one is unsatisfied. */
  ghost predicate FollowsPriority(f: Flows, cons: real, charge: real, discharge: real) {
    && (f.solarStorage > 0.0 || f.solarGrid > 0.0 ==> f.solarHome == cons)
    && (f.solarGrid > 0.0 ==> f.solarStorage == charge)
    && (f.gridHome > 0.0 ==> f.storageHome == discharge)
  }

  /** The computed split is the one and only feasible split that respects the priorities. */
  lemma AttributionExact(f: Flows, solar: real, cons: real, charge: real, discharge: real)
    requires solar >= 0.0 && cons >= 0.0 && charge >= 0.0 && discharge >= 0.0
    ensures f == Attribute(solar, cons, charge, discharge)
       <==> Feasible(f, solar, cons, charge, discharge) && FollowsPriority(f, cons, charge, discharge)
  {}

  /** No feasible split exports less solar, and none draws less from the grid for the home. */
  lemma AttributionOptimal(f: Flows, solar: real, cons: real, charge: real, discharge: real)
    requires solar >= 0.0 && cons >= 0.0 && charge >= 0.0 && discharge >= 0.0
    requires Feasible(f, solar, cons, charge, discharge)
    ensures Attribute(solar, cons, charge, discharge).solarGrid <= f.solarGrid
    ensures Attribute(solar, cons, charge, discharge).gridHome <= f.gridHome
  {}

  /** Charge less discharge is what the batteries draw on balance; together they are what flows either way. */
  lemma {:induction false} StorageExact(storage: seq<real>, plain: real -> real, size: real -> real)
    requires forall x :: plain(x) == x
    requires forall x :: size(x) == if x < 0.0 then -x else x
    ensures Charge(storage) - Discharge(storage) == Sum(storage, plain)
    ensures Charge(storage) + Discharge(storage) == Sum(storage, size)
  {
    if storage != [] { StorageExact(storage[1..], plain, size); }
  }

  lemma {:induction false} StoragePower(storage: seq<real>)
    ensures Charge(storage) >= 0.0 && Discharge(storage) >= 0.0
  {
    if storage != [] { StoragePower(storage[1..]); }
  }

  function FlowsOf(r: Reading): Flows {
    Attribute(r.solar, r.cons, Charge(r.storage), Discharge(r.storage))
  }

  // ---------------------------------------------------------------------------------------
  // Sums: one row, one bucket, the summary

  datatype Totals = Totals(generated: real, consumed: real, exported: real, imported: real, charged: real,
                           discharged: real, flows: Flows, covered: real)

  function AddFlows(f: Flows, g: Flows): Flows {
    Flows(f.solarHome + g.solarHome, f.solarStorage + g.solarStorage, f.solarGrid + g.solarGrid,
          f.gridHome + g.gridHome, f.gridStorage + g.gridStorage, f.storageHome + g.storageHome,
          f.storageGrid + g.storageGrid)
  }

  function Add(x: Totals, y: Totals): Totals {
    Totals(x.generated + y.generated, x.consumed + y.consumed, x.exported + y.exported, x.imported + y.imported,
           x.charged + y.charged, x.discharged + y.discharged, AddFlows(x.flows, y.flows), x.covered + y.covered)
  }

  const ZERO := Totals(0.0, 0.0, 0.0, 0.0, 0.0, 0.0, Flows(0.0, 0.0, 0.0, 0.0, 0.0, 0.0, 0.0), 0.0)

  function ScaleFlows(f: Flows, k: real -> real): Flows {
    Flows(k(f.solarHome), k(f.solarStorage), k(f.solarGrid), k(f.gridHome), k(f.gridStorage), k(f.storageHome),
          k(f.storageGrid))
  }

  /** One reading's summands, with every power turned into energy by k. */
  function RowWith(r: Reading, k: real -> real, h: real): Totals {
    Totals(k(r.solar), k(r.cons), k(Pos(r.net)), k(Pos(-r.net)), k(Charge(r.storage)), k(Discharge(r.storage)),
           ScaleFlows(FlowsOf(r), k), h)
  }

  /** Multiplication by the hours a reading counts for. */
  function Times(seconds: real): real -> real {
    kw => Kwh(kw, seconds)
  }

  function Row(s: Span): Totals {
    RowWith(s.reading, Times(s.seconds), Hours(s.seconds))
  }

  function Rows(spans: seq<Span>): seq<Totals> {
    if spans == [] then [] else [Row(spans[0])] + Rows(spans[1..])
  }

  function Summary(rows: seq<Totals>): Totals {
    if rows == [] then ZERO else Add(rows[0], Summary(rows[1..]))
  }

  /** Each source and each demand equals the sum of its nonnegative flows. */
  ghost predicate Balanced(t: Totals) {
    && Feasible(t.flows, t.generated, t.consumed, t.charged, t.discharged)
    && t.exported >= 0.0 && t.imported >= 0.0 && t.covered >= 0.0
  }

  ghost predicate Metered(s: Span) {
    s.reading.solar >= 0.0 && s.reading.cons >= 0.0 && s.seconds >= 0.0
  }

  /** k carries a sum of three nonnegative powers over to energies. */
  ghost predicate Carries(k: real -> real, x: real, p: real, q: real, r: real) {
    k(x) == k(p) + k(q) + k(r) && k(p) >= 0.0 && k(q) >= 0.0 && k(r) >= 0.0
  }

  lemma TimesCarries(seconds: real, x: real, p: real, q: real, r: real)
    requires x == p + q + r && seconds >= 0.0 && p >= 0.0 && q >= 0.0 && r >= 0.0
    ensures Carries(Times(seconds), x, p, q, r) && Times(seconds)(0.0) == 0.0
  {
    var h := Hours(seconds);
    NonNegative(p, h);
    NonNegative(q, h);
    NonNegative(r, h);
    assert x * h == p * h + q * h + r * h;
  }

  lemma RowWithBalanced(r: Reading, f: Flows, k: real -> real, h: real)
    requires f == FlowsOf(r) && h >= 0.0 && k(0.0) == 0.0
    requires Carries(k, r.solar, f.solarHome, f.solarStorage, f.solarGrid)
             && Carries(k, r.cons, f.solarHome, f.storageHome, f.gridHome)
    requires Carries(k, Charge(r.storage), f.solarStorage, f.gridStorage, 0.0)
    requires Carries(k, Discharge(r.storage), f.storageHome, f.storageGrid, 0.0)
    requires k(Pos(r.net)) >= 0.0 && k(Pos(-r.net)) >= 0.0
    ensures Balanced(RowWith(r, k, h))
  {}

  lemma FlowsFeasible(r: Reading)
    requires r.solar >= 0.0 && r.cons >= 0.0
    ensures Feasible(FlowsOf(r), r.solar, r.cons, Charge(r.storage), Discharge(r.storage))
  {
    StoragePower(r.storage);
    AttributionExact(FlowsOf(r), r.solar, r.cons, Charge(r.storage), Discharge(r.storage));
  }

  lemma RowBalanced(s: Span)
    requires Metered(s)
    ensures Balanced(Row(s))
  {
    var r, f, d := s.reading, FlowsOf(s.reading), s.seconds;
    FlowsFeasible(r);
    TimesCarries(d, r.solar, f.solarHome, f.solarStorage, f.solarGrid);
    TimesCarries(d, r.cons, f.solarHome, f.storageHome, f.gridHome);
    TimesCarries(d, Charge(r.storage), f.solarStorage, f.gridStorage, 0.0);
    TimesCarries(d, Discharge(r.storage), f.storageHome, f.storageGrid, 0.0);
    TimesCarries(d, Pos(r.net), Pos(r.net), 0.0, 0.0);
    TimesCarries(d, Pos(-r.net), Pos(-r.net), 0.0, 0.0);
    RowWithBalanced(r, f, Times(d), Hours(d));
  }

  lemma {:induction false} RowsBalanced(spans: seq<Span>)
    requires forall i :: 0 <= i < |spans| ==> Metered(spans[i])
    ensures forall t <- Rows(spans) :: Balanced(t)
  {
    if spans != [] {
      RowBalanced(spans[0]);
      RowsBalanced(spans[1..]);
    }
  }

  /** Conservation survives summation: per bucket and over the whole range. */
  lemma {:induction false} SummaryBalanced(rows: seq<Totals>)
    requires forall t <- rows :: Balanced(t)
    ensures Balanced(Summary(rows))
  {
    if rows != [] {
      assert rows[0] in rows;
      SummaryBalanced(rows[1..]);
    }
  }

  /** The columns of the sums that are energy. */
  datatype Field =
    | Generated | Consumed | Exported | Imported | Charged | Discharged
    | SolarHome | SolarStorage | SolarGrid | GridHome | GridStorage | StorageHome | StorageGrid

  /** The power a column sums. */
  function Power(f: Field, r: Reading): real {
    match f
    case Generated => r.solar
    case Consumed => r.cons
    case Exported => Pos(r.net)
    case Imported => Pos(-r.net)
    case Charged => Charge(r.storage)
    case Discharged => Discharge(r.storage)
    case SolarHome => FlowsOf(r).solarHome
    case SolarStorage => FlowsOf(r).solarStorage
    case SolarGrid => FlowsOf(r).solarGrid
    case GridHome => FlowsOf(r).gridHome
    case GridStorage => FlowsOf(r).gridStorage
    case StorageHome => FlowsOf(r).storageHome
    case StorageGrid => FlowsOf(r).storageGrid
  }

  function Column(f: Field, t: Totals): real {
    match f
    case Generated => t.generated
    case Consumed => t.consumed
    case Exported => t.exported
    case Imported => t.imported
    case Charged => t.charged
    case Discharged => t.discharged
    case SolarHome => t.flows.solarHome
    case SolarStorage => t.flows.solarStorage
    case SolarGrid => t.flows.solarGrid
    case GridHome => t.flows.gridHome
    case GridStorage => t.flows.gridStorage
    case StorageHome => t.flows.storageHome
    case StorageGrid => t.flows.storageGrid
  }

  lemma ColumnOfRowWith(f: Field, r: Reading, k: real -> real, h: real)
    ensures Column(f, RowWith(r, k, h)) == k(Power(f, r))
  {}

  lemma ColumnOfRow(f: Field, s: Span)
    ensures Column(f, Row(s)) == Kwh(Power(f, s.reading), s.seconds)
  {
    ColumnOfRowWith(f, s.reading, Times(s.seconds), Hours(s.seconds));
  }

  lemma ColumnAdds(f: Field, x: Totals, y: Totals)
    ensures Column(f, Add(x, y)) == Column(f, x) + Column(f, y) && Column(f, ZERO) == 0.0
  {}

  /** Every column of the summary is the weighted sum the range-splitting results speak of. */
  lemma {:induction false} ColumnExact(f: Field, spans: seq<Span>, w: Span -> real)
    requires forall s: Span :: w(s) == Kwh(Power(f, s.reading), s.seconds)
    ensures Column(f, Summary(Rows(spans))) == Sum(spans, w)
  {
    if spans == [] {
      ColumnAdds(f, ZERO, ZERO);
    } else {
      assert Rows(spans)[1..] == Rows(spans[1..]);
      ColumnOfRow(f, spans[0]);
      ColumnAdds(f, Row(spans[0]), Summary(Rows(spans[1..])));
      ColumnExact(f, spans[1..], w);
    }
  }

  lemma KwhExact(p: real, d: real)
    ensures Kwh(p, 3600.0) == p && Kwh(p, d) * 3600.0 == p * d
  {}

  lemma KwhCombines(p: real, q: real, d: real)
    ensures Kwh(p, d) - Kwh(q, d) == Kwh(p - q, d) && Kwh(p, d) + Kwh(q, d) == Kwh(p + q, d)
  {
    SplitProduct(Hours(d), p, q);
    SplitProduct(Hours(d), p - q, q);
  }

  /** Two columns, taken together, sum the difference and the sum of their powers. */
  lemma ColumnsCombine(f: Field, g: Field, spans: seq<Span>, net: Span -> real, gross: Span -> real)
    requires forall s: Span :: net(s) == Kwh(Power(f, s.reading) - Power(g, s.reading), s.seconds)
    requires forall s: Span :: gross(s) == Kwh(Power(f, s.reading) + Power(g, s.reading), s.seconds)
    ensures Column(f, Summary(Rows(spans))) - Column(g, Summary(Rows(spans))) == Sum(spans, net)
    ensures Column(f, Summary(Rows(spans))) + Column(g, Summary(Rows(spans))) == Sum(spans, gross)
  {
    var v := (s: Span) => Kwh(Power(f, s.reading), s.seconds);
    var w := (s: Span) => Kwh(Power(g, s.reading), s.seconds);
    forall s: Span ensures net(s) == v(s) - w(s) && gross(s) == v(s) + w(s) {
      KwhCombines(Power(f, s.reading), Power(g, s.reading), s.seconds);
    }
    ColumnExact(f, spans, v);
    ColumnExact(g, spans, w);
    SumCombines(spans, v, w, net, gross);
  }

  /**
   * Charged less discharged energy is what the batteries' signed powers add up to over time, and charged plus
   * discharged what their magnitudes add up to.
   */
  lemma StorageColumns(spans: seq<Span>, plain: real -> real, size: real -> real, net: Span -> real,
                       gross: Span -> real)
    requires forall x :: plain(x) == x
    requires forall x :: size(x) == if x < 0.0 then -x else x
    requires forall s: Span :: net(s) == Kwh(Sum(s.reading.storage, plain), s.seconds)
    requires forall s: Span :: gross(s) == Kwh(Sum(s.reading.storage, size), s.seconds)
    ensures var t := Summary(Rows(spans));
            t.charged - t.discharged == Sum(spans, net) && t.charged + t.discharged == Sum(spans, gross)
  {
    forall s: Span
      ensures net(s) == Kwh(Power(Charged, s.reading) - Power(Discharged, s.reading), s.seconds)
      ensures gross(s) == Kwh(Power(Charged, s.reading) + Power(Discharged, s.reading), s.seconds)
    {
      StorageExact(s.reading.storage, plain, size);
    }
    ColumnsCombine(Charged, Discharged, spans, net, gross);
  }

  /** Exported less imported energy is the net power over time, and their sum its magnitude. */
  lemma GridColumns(spans: seq<Span>, net: Span -> real, gross: Span -> real)
    requires forall s: Span :: net(s) == Kwh(s.reading.net, s.seconds)
    requires forall s: Span :: gross(s) == Kwh(if s.reading.net < 0.0 then -s.reading.net else s.reading.net, s.seconds)
    ensures var t := Summary(Rows(spans));
            t.exported - t.imported == Sum(spans, net) && t.exported + t.imported == Sum(spans, gross)
  {
    ColumnsCombine(Field.Exported, Imported, spans, net, gross);
  }

  /** Generated and consumed energy are the meter's two powers over time, and the covered hours the time itself. */
  lemma {:induction false} MeterColumns(spans: seq<Span>, solar: Span -> real, cons: Span -> real,
                                        seconds: Span -> real)
    requires forall s: Span :: solar(s) == Kwh(s.reading.solar, s.seconds)
    requires forall s: Span :: cons(s) == Kwh(s.reading.cons, s.seconds)
    requires forall s: Span :: seconds(s) == s.seconds
    ensures var t := Summary(Rows(spans));
            && t.generated == Sum(spans, solar) && t.consumed == Sum(spans, cons)
            && t.covered * 3600.0 == Sum(spans, seconds)
  {
    if spans != [] {
      assert Rows(spans)[1..] == Rows(spans[1..]);
      MeterColumns(spans[1..], solar, cons, seconds);
    }
  }

  /** Each reading in the range counts until the next one or the end, but never longer than 30 seconds. */
  lemma {:induction false} SpanExact(xs: seq<Reading>, end: real, i: nat)
    requires i < |xs|
    ensures |Spans(xs, end)| == |xs|
    ensures var next := if i + 1 < |xs| then xs[i + 1].time else end;
            var s := Spans(xs, end)[i];
            && s.reading == xs[i]
            && (next - xs[i].time <= 30.0 ==> s.seconds == next - xs[i].time)
            && (next - xs[i].time > 30.0 ==> s.seconds == 30.0)
  {
    if |xs| > 1 { SpanExact(xs[1..], end, if i == 0 then 0 else i - 1); }
  }

  /** With nonnegative solar and consumption every column sums a nonnegative power. */
  lemma PowerNonNegative(f: Field, r: Reading)
    requires r.solar >= 0.0 && r.cons >= 0.0
    ensures Power(f, r) >= 0.0
  {
    StoragePower(r.storage);
    FlowsFeasible(r);
  }

  lemma CoveredStep(xs: seq<Reading>, end: real)
    requires xs != []
    ensures var next := if |xs| > 1 then xs[1].time else end;
            Summary(Rows(Spans(xs, end))).covered
            == Hours(Duration(xs[0].time, next)) + Summary(Rows(Spans(xs[1..], end))).covered
  {
    var spans := Spans(xs, end);
    assert spans[1..] == Spans(xs[1..], end);
    assert Rows(spans)[1..] == Rows(spans[1..]);
    assert Rows(spans)[0].covered == Hours(spans[0].seconds);
  }

  /** Consecutive readings never count for more than the time between the first one and the end. */
  lemma {:induction false} CoveredWithin(xs: seq<Reading>, start: real, end: real)
    requires Sorted(xs) && start <= end && forall i :: 0 <= i < |xs| ==> start <= xs[i].time < end
    ensures 0.0 <= Summary(Rows(Spans(xs, end))).covered <= Hours(end - start)
  {
    if xs != [] {
      CoveredStep(xs, end);
      assert |xs| == 1 ==> Summary(Rows(Spans(xs[1..], end))) == ZERO;
      if |xs| > 1 { CoveredWithin(xs[1..], xs[1].time, end); }
    }
  }

  /** Covered time never exceeds the range. */
  lemma CoveredTime(rs: seq<Reading>, start: real, end: real)
    requires Sorted(rs) && start <= end
    ensures 0.0 <= Summary(Rows(Query(rs, start, end))).covered <= Hours(end - start)
  {
    WindowMembers(rs, start, end);
    CoveredWithin(Window(rs, start, end), start, end);
  }

  /** Solar exported when each reading's power is split as `split` says. */
  function Exported(spans: seq<Span>, split: seq<Flows>): real
    requires |spans| == |split|
  {
    if spans == [] then 0.0 else Kwh(split[0].solarGrid, spans[0].seconds) + Exported(spans[1..], split[1..])
  }

  lemma NonNegative(x: real, h: real)
    requires x >= 0.0 && h >= 0.0
    ensures x * h >= 0.0
  {}

  lemma KwhMonotone(p: real, q: real, d: real)
    requires p <= q && d >= 0.0
    ensures Kwh(p, d) <= Kwh(q, d)
  {
    var h := Hours(d);
    NonNegative(q - p, h);
    assert q * h == p * h + (q - p) * h;
  }

  /** Over any range, no choice of feasible splits exports less solar than the summary reports. */
  lemma {:induction false} SummaryExportsLeast(spans: seq<Span>, split: seq<Flows>)
    requires |spans| == |split|
    requires forall i :: 0 <= i < |spans| ==>
               var r := spans[i].reading;
               Metered(spans[i]) && Feasible(split[i], r.solar, r.cons, Charge(r.storage), Discharge(r.storage))
    ensures Summary(Rows(spans)).flows.solarGrid <= Exported(spans, split)
    ensures (forall i :: 0 <= i < |spans| ==> split[i] == FlowsOf(spans[i].reading)) ==>
              Summary(Rows(spans)).flows.solarGrid == Exported(spans, split)
  {
    if spans != [] {
      var s := spans[0];
      var r := s.reading;
      StoragePower(r.storage);
      AttributionOptimal(split[0], r.solar, r.cons, Charge(r.storage), Discharge(r.storage));
      KwhMonotone(FlowsOf(r).solarGrid, split[0].solarGrid, s.seconds);
      assert Rows(spans)[0].flows.solarGrid == Kwh(FlowsOf(r).solarGrid, s.seconds);
      assert Rows(spans)[1..] == Rows(spans[1..]);
      SummaryExportsLeast(spans[1..], split[1..]);
    }
  }

  lemma {:induction false} SpansMetered(xs: seq<Reading>, end: real)
    requires Sorted(xs) && forall i :: 0 <= i < |xs| ==> xs[i].solar >= 0.0 && xs[i].cons >= 0.0 && xs[i].time <= end
    ensures forall i :: 0 <= i < |Spans(xs, end)| ==> Metered(Spans(xs, end)[i])
  {
    if xs != [] { SpansMetered(xs[1..], end); }
  }

  // ---------------------------------------------------------------------------------------
  // Buckets

  /** A row with the start of the bucket it falls in, or a whole group of rows. */
  datatype Bucket = Bucket(start: real, totals: Totals)

  ghost predicate BucketsAscend(bs: seq<Bucket>) {
    forall i, j :: 0 <= i < j < |bs| ==> bs[i].start < bs[j].start
  }

  function Starts(bs: seq<Bucket>): set<real> {
    set b <- bs :: b.start
  }

  /** Adds one row to its group, keeping groups in order. */
  function AddTo(bs: seq<Bucket>, row: Bucket): seq<Bucket> {
    if bs == [] || row.start < bs[0].start then [row] + bs
    else if row.start == bs[0].start then [Bucket(row.start, Add(row.totals, bs[0].totals))] + bs[1..]
    else [bs[0]] + AddTo(bs[1..], row)
  }

  /** GROUP BY bucket ORDER BY bucket. */
  function Series(rows: seq<Bucket>): seq<Bucket> {
    if rows == [] then [] else AddTo(Series(rows[1..]), rows[0])
  }

  /** The rows of one bucket. */
  function InBucket(rows: seq<Bucket>, start: real): seq<Totals> {
    if rows == [] then []
    else if rows[0].start == start then [rows[0].totals] + InBucket(rows[1..], start)
    else InBucket(rows[1..], start)
  }

  function AllTotals(bs: seq<Bucket>): seq<Totals> {
    if bs == [] then [] else [bs[0].totals] + AllTotals(bs[1..])
  }

  lemma AddAssociates(x: Totals, y: Totals, z: Totals)
    ensures Add(Add(x, y), z) == Add(x, Add(y, z)) && Add(x, y) == Add(y, x) && Add(x, ZERO) == x
  {}

  lemma {:induction false} AddToTotal(bs: seq<Bucket>, row: Bucket)
    ensures Summary(AllTotals(AddTo(bs, row))) == Add(row.totals, Summary(AllTotals(bs)))
  {
    var res := AddTo(bs, row);
    assert AllTotals(res)[1..] == AllTotals(res[1..]);
    if bs == [] || row.start < bs[0].start {
      assert res[1..] == bs;
    } else {
      var rest := Summary(AllTotals(bs[1..]));
      assert AllTotals(bs)[1..] == AllTotals(bs[1..]);
      AddAssociates(row.totals, bs[0].totals, rest);
      if row.start == bs[0].start {
        assert res[1..] == bs[1..];
      } else {
        assert res[1..] == AddTo(bs[1..], row);
        AddToTotal(bs[1..], row);
        AddAssociates(bs[0].totals, row.totals, rest);
      }
    }
  }

  /** Summing the series over its buckets gives the summary of the whole range. */
  lemma {:induction false} SeriesTotal(rows: seq<Bucket>)
    ensures Summary(AllTotals(Series(rows))) == Summary(AllTotals(rows))
  {
    if rows != [] {
      SeriesTotal(rows[1..]);
      AddToTotal(Series(rows[1..]), rows[0]);
      assert AllTotals(rows)[1..] == AllTotals(rows[1..]);
    }
  }

  lemma StartsCons(b: Bucket, rest: seq<Bucket>)
    ensures Starts([b] + rest) == {b.start} + Starts(rest)
  {}

  lemma {:induction false} AddToStarts(bs: seq<Bucket>, row: Bucket)
    ensures Starts(AddTo(bs, row)) == Starts(bs) + {row.start}
  {
    if bs == [] || row.start < bs[0].start {
      StartsCons(row, bs);
    } else {
      StartsCons(bs[0], bs[1..]);
      assert bs == [bs[0]] + bs[1..];
      if row.start == bs[0].start {
        StartsCons(Bucket(row.start, Add(row.totals, bs[0].totals)), bs[1..]);
      } else {
        AddToStarts(bs[1..], row);
        StartsCons(bs[0], AddTo(bs[1..], row));
      }
    }
  }

  lemma AscendsCons(b: Bucket, rest: seq<Bucket>)
    requires BucketsAscend(rest) && forall s <- Starts(rest) :: b.start < s
    ensures BucketsAscend([b] + rest)
  {
    forall i | 0 <= i < |rest| ensures b.start < rest[i].start { assert rest[i].start in Starts(rest); }
  }

  lemma {:induction false} AddToAscends(bs: seq<Bucket>, row: Bucket)
    requires BucketsAscend(bs)
    ensures BucketsAscend(AddTo(bs, row))
  {
    if bs != [] && row.start > bs[0].start {
      AddToAscends(bs[1..], row);
      AddToStarts(bs[1..], row);
      AscendsCons(bs[0], AddTo(bs[1..], row));
    }
  }

  /** Looking a bucket up: what a group holds is what was added to it. */
  function At(bs: seq<Bucket>, start: real): Totals {
    if bs == [] then ZERO else if bs[0].start == start then bs[0].totals else At(bs[1..], start)
  }

  lemma {:induction false} AddToAt(bs: seq<Bucket>, row: Bucket, start: real)
    requires BucketsAscend(bs)
    ensures At(AddTo(bs, row), start) == if start == row.start then Add(row.totals, At(bs, start)) else At(bs, start)
  {
    var res := AddTo(bs, row);
    if bs == [] || row.start < bs[0].start {
      assert res[1..] == bs;
      if start == row.start { AbsentBelow(bs, start); }
    } else if row.start == bs[0].start {
      assert res[1..] == bs[1..];
    } else {
      assert res[1..] == AddTo(bs[1..], row);
      AddToAt(bs[1..], row, start);
    }
  }

  lemma {:induction false} AbsentBelow(bs: seq<Bucket>, start: real)
    requires forall i :: 0 <= i < |bs| ==> start < bs[i].start
    ensures At(bs, start) == ZERO
  {
    if bs != [] { AbsentBelow(bs[1..], start); }
  }

  /**
   * The series lists each bucket that holds a row exactly once, in order, with exactly the
   * rows that fall in it.
   */
  lemma {:induction false} SeriesExact(rows: seq<Bucket>)
    ensures BucketsAscend(Series(rows))
    ensures Starts(Series(rows)) == Starts(rows)
    ensures forall start :: At(Series(rows), start) == Summary(InBucket(rows, start))
  {
    if rows != [] {
      SeriesExact(rows[1..]);
      AddToAscends(Series(rows[1..]), rows[0]);
      AddToStarts(Series(rows[1..]), rows[0]);
      StartsCons(rows[0], rows[1..]);
      assert rows == [rows[0]] + rows[1..];
      forall start ensures At(Series(rows), start) == Summary(InBucket(rows, start)) {
        AddToAt(Series(rows[1..]), rows[0], start);
        if rows[0].start == start {
          assert InBucket(rows, start)[1..] == InBucket(rows[1..], start);
        }
      }
    }
  }

  lemma {:induction false} AtIndex(bs: seq<Bucket>, i: nat)
    requires BucketsAscend(bs) && i < |bs|
    ensures At(bs, bs[i].start) == bs[i].totals
  {
    if i > 0 { AtIndex(bs[1..], i - 1); }
  }

  /** Each row with the bucket its reading falls in; `bucket` is time_bucket in the caller's zone. */
  function Tagged(spans: seq<Span>, bucket: real -> real): seq<Bucket> {
    if spans == [] then []
    else [Bucket(bucket(spans[0].reading.time), Row(spans[0]))] + Tagged(spans[1..], bucket)
  }

  lemma {:induction false} TaggedTotals(spans: seq<Span>, bucket: real -> real)
    ensures AllTotals(Tagged(spans, bucket)) == Rows(spans)
  {
    if spans != [] {
      assert Tagged(spans, bucket)[1..] == Tagged(spans[1..], bucket);
      TaggedTotals(spans[1..], bucket);
    }
  }

  lemma {:induction false} InBucketMembers(rows: seq<Bucket>, start: real)
    ensures forall t <- InBucket(rows, start) :: t in AllTotals(rows)
  {
    if rows != [] { InBucketMembers(rows[1..], start); }
  }

  /**
   * For any stored history and any bucketing: every bucket of the series and the summary
   * balance source by source and demand by demand, and the buckets add up to the summary.
   */
  lemma OneOrderConserved(rs: seq<Reading>, start: real, end: real, bucket: real -> real)
    requires Sorted(rs) && forall r <- rs :: r.solar >= 0.0 && r.cons >= 0.0
    ensures var rows := Rows(Query(rs, start, end));
            var series := Series(Tagged(Query(rs, start, end), bucket));
            && Balanced(Summary(rows))
            && Summary(AllTotals(series)) == Summary(rows)
            && forall i :: 0 <= i < |series| ==> Balanced(series[i].totals)
  {
    var spans := Query(rs, start, end);
    var tagged := Tagged(spans, bucket);
    var series := Series(tagged);
    WindowMembers(rs, start, end);
    SpansMetered(Window(rs, start, end), end);
    RowsBalanced(spans);
    SummaryBalanced(Rows(spans));
    TaggedTotals(spans, bucket);
    SeriesTotal(tagged);
    SeriesExact(tagged);
    forall i | 0 <= i < |series| ensures Balanced(series[i].totals) {
      AtIndex(series, i);
      InBucketMembers(tagged, series[i].start);
      SummaryBalanced(InBucket(tagged, series[i].start));
    }
  }

  // ---------------------------------------------------------------------------------------
  // What the query service derives

  function SelfConsumptionPct(t: Totals): Option<real> {
    if t.generated > 0.0 then Some((t.generated - t.flows.solarGrid) / t.generated * 100.0) else None
  }

  lemma Quotient(x: real, c: real, lo: real, hi: real)
    requires c > 0.0 && lo * c <= x <= hi * c
    ensures lo <= x / c <= hi
  {
    var q := x / c;
    assert q * c == x;
    assert (q - lo) * c >= 0.0 && (hi - q) * c >= 0.0;
  }

  lemma Percentage(part: real, whole: real)
    requires 0.0 <= part <= whole && whole > 0.0
    ensures 0.0 <= part / whole * 100.0 <= 100.0
    ensures part / whole * 100.0 == 100.0 <==> part == whole
  {}

  /** A percentage is reported exactly when something was generated; it is 100 exactly when no solar was exported. */
  lemma SelfConsumption(rows: seq<Totals>)
    requires forall t <- rows :: Balanced(t)
    ensures var t := Summary(rows);
            match SelfConsumptionPct(t)
            case None => t.generated == 0.0
            case Some(pct) =>
              && 0.0 <= pct <= 100.0 && (pct == 100.0 <==> t.flows.solarGrid == 0.0)
              && t.generated > 0.0 && pct * t.generated == 100.0 * (t.generated - t.flows.solarGrid)
  {
    SummaryBalanced(rows);
    var t := Summary(rows);
    if t.generated > 0.0 { Percentage(t.generated - t.flows.solarGrid, t.generated); }
  }

  datatype AveragePower = AveragePower(solar: real, cons: real, exported: real, imported: real)

  function Average(t: Totals): AveragePower {
    if t.covered <= 0.0 then AveragePower(0.0, 0.0, 0.0, 0.0)
    else AveragePower(t.generated / t.covered, t.consumed / t.covered, t.exported / t.covered, t.imported / t.covered)
  }

  /** The spans whose readings fall in one bucket. */
  function SpansIn(spans: seq<Span>, bucket: real -> real, start: real): seq<Span> {
    if spans == [] then []
    else if bucket(spans[0].reading.time) == start then [spans[0]] + SpansIn(spans[1..], bucket, start)
    else SpansIn(spans[1..], bucket, start)
  }

  lemma {:induction false} BucketRows(spans: seq<Span>, bucket: real -> real, start: real)
    ensures InBucket(Tagged(spans, bucket), start) == Rows(SpansIn(spans, bucket, start))
  {
    if spans != [] {
      assert Tagged(spans, bucket)[1..] == Tagged(spans[1..], bucket);
      BucketRows(spans[1..], bucket, start);
    }
  }

  lemma KwhWithin(p: real, d: real, lo: real, hi: real)
    requires lo <= p <= hi && d >= 0.0
    ensures lo * Hours(d) <= Kwh(p, d) <= hi * Hours(d)
  {
    KwhMonotone(lo, p, d);
    KwhMonotone(p, hi, d);
  }

  lemma SplitProduct(k: real, x: real, y: real)
    ensures k * (x + y) == k * x + k * y
  {}

  /** The energy in a column is a power between lo and hi, times the covered hours. */
  ghost predicate Within(f: Field, t: Totals, lo: real, hi: real) {
    lo * t.covered <= Column(f, t) <= hi * t.covered
  }

  lemma RowWithWithin(f: Field, r: Reading, k: real -> real, h: real, p: real, lo: real, hi: real)
    requires p == k(Power(f, r)) && lo * h <= p <= hi * h
    ensures Within(f, RowWith(r, k, h), lo, hi)
  {
    ColumnOfRowWith(f, r, k, h);
  }

  lemma RowWithin(f: Field, s: Span, lo: real, hi: real)
    requires s.seconds >= 0.0 && lo <= Power(f, s.reading) <= hi
    ensures Within(f, Row(s), lo, hi)
  {
    var p := Power(f, s.reading);
    KwhWithin(p, s.seconds, lo, hi);
    RowWithWithin(f, s.reading, Times(s.seconds), Hours(s.seconds), Kwh(p, s.seconds), lo, hi);
  }

  lemma {:induction false} RowsWithin(f: Field, spans: seq<Span>, lo: real, hi: real)
    requires forall s <- spans :: s.seconds >= 0.0 && lo <= Power(f, s.reading) <= hi
    ensures forall i :: 0 <= i < |Rows(spans)| ==> Within(f, Rows(spans)[i], lo, hi)
  {
    if spans != [] {
      assert spans[0] in spans;
      RowsWithin(f, spans[1..], lo, hi);
      RowWithin(f, spans[0], lo, hi);
    }
  }

  lemma AddWithin(f: Field, x: Totals, y: Totals, lo: real, hi: real)
    requires Within(f, x, lo, hi) && Within(f, y, lo, hi)
    ensures Within(f, Add(x, y), lo, hi)
  {
    ColumnAdds(f, x, y);
    SplitProduct(lo, x.covered, y.covered);
    SplitProduct(hi, x.covered, y.covered);
  }

  lemma ZeroWithin(f: Field, lo: real, hi: real)
    ensures Within(f, ZERO, lo, hi)
  {
    assert lo * 0.0 == 0.0 && hi * 0.0 == 0.0;
  }

  lemma {:induction false} SummaryWithin(f: Field, rows: seq<Totals>, lo: real, hi: real)
    requires forall i :: 0 <= i < |rows| ==> Within(f, rows[i], lo, hi)
    ensures Within(f, Summary(rows), lo, hi)
  {
    if rows == [] {
      ZeroWithin(f, lo, hi);
      assert Summary(rows) == ZERO;
    } else {
      var rest := rows[1..];
      SummaryWithin(f, rest, lo, hi);
      AddWithin(f, rows[0], Summary(rest), lo, hi);
      assert Summary(rows) == Add(rows[0], Summary(rest));
    }
  }

  lemma {:induction false} SpansInMembers(spans: seq<Span>, bucket: real -> real, start: real)
    ensures forall s <- SpansIn(spans, bucket, start) :: s in spans && bucket(s.reading.time) == start
  {
    if spans != [] { SpansInMembers(spans[1..], bucket, start); }
  }

  function AverageOf(f: Field, a: AveragePower): real
    requires f.Generated? || f.Consumed? || f.Exported? || f.Imported?
  {
    match f
    case Generated => a.solar
    case Consumed => a.cons
    case Exported => a.exported
    case Imported => a.imported
  }

  /** The average power, held for the covered hours, gives the energy; without covered time it is zero. */
  lemma AverageExact(f: Field, t: Totals)
    requires f.Generated? || f.Consumed? || f.Exported? || f.Imported?
    ensures t.covered > 0.0 ==> AverageOf(f, Average(t)) * t.covered == Column(f, t)
    ensures t.covered <= 0.0 ==> AverageOf(f, Average(t)) == 0.0
  {}

  lemma AverageFromWithin(f: Field, t: Totals, lo: real, hi: real)
    requires f.Generated? || f.Consumed? || f.Exported? || f.Imported?
    requires Within(f, t, lo, hi) && t.covered > 0.0
    ensures lo <= AverageOf(f, Average(t)) <= hi
  {
    Quotient(Column(f, t), t.covered, lo, hi);
  }

  /**
   * Each average power served for a bucket lies between the smallest and the largest such power among the readings
   * that fall in the bucket: solar among solar, consumption among consumption, export and import among the net.
   */
  lemma AverageWithinReadings(f: Field, spans: seq<Span>, bucket: real -> real, start: real, lo: real, hi: real)
    requires f.Generated? || f.Consumed? || f.Exported? || f.Imported?
    requires forall s <- spans :: s.seconds >= 0.0
    requires forall s <- spans :: bucket(s.reading.time) == start ==> lo <= Power(f, s.reading) <= hi
    ensures var t := Summary(InBucket(Tagged(spans, bucket), start));
            t.covered > 0.0 ==> lo <= AverageOf(f, Average(t)) <= hi
  {
    BucketRows(spans, bucket, start);
    SpansInMembers(spans, bucket, start);
    RowsWithin(f, SpansIn(spans, bucket, start), lo, hi);
    SummaryWithin(f, Rows(SpansIn(spans, bucket, start)), lo, hi);
    var t := Summary(InBucket(Tagged(spans, bucket), start));
    if t.covered > 0.0 { AverageFromWithin(f, t, lo, hi); }
  }

  datatype ServedBucket = ServedBucket(start: real, totals: Totals, average: AveragePower)

  function Serve(b: Bucket): ServedBucket {
    ServedBucket(b.start, b.totals, Average(b.totals))
  }

  ghost predicate ServedFrom(groups: seq<Bucket>, out: seq<ServedBucket>) {
    |out| == |groups| && forall i :: 0 <= i < |out| ==> out[i] == Serve(groups[i])
  }

  lemma ServedStarts(groups: seq<Bucket>, out: seq<ServedBucket>)
    requires ServedFrom(groups, out)
    ensures (set b <- out :: b.start) == Starts(groups)
  {}

  lemma ServedTotals(rows: seq<Bucket>, out: seq<ServedBucket>, i: nat)
    requires ServedFrom(Series(rows), out) && i < |out|
    ensures out[i].totals == Summary(InBucket(rows, out[i].start)) && out[i].average == Average(out[i].totals)
  {
    SeriesExact(rows);
    AtIndex(Series(rows), i);
  }

  /** The served series: one entry per bucket with readings, in order, with its average power. */
  method ServeSeries(rows: seq<Bucket>) returns (out: seq<ServedBucket>)
    ensures forall i, j :: 0 <= i < j < |out| ==> out[i].start < out[j].start
    ensures (set b <- out :: b.start) == Starts(rows)
    ensures forall i :: 0 <= i < |out| ==>
              && out[i].totals == Summary(InBucket(rows, out[i].start))
              && out[i].average == Average(out[i].totals)
  {
    var groups := Series(rows);
    out := [];
    for i := 0 to |groups|
      invariant ServedFrom(groups[..i], out)
    {
      out := out + [Serve(groups[i])];
    }
    assert groups[..|groups|] == groups;
    SeriesExact(rows);
    ServedStarts(groups, out);
    forall i: nat | i < |out|
      ensures out[i].totals == Summary(InBucket(rows, out[i].start)) && out[i].average == Average(out[i].totals)
    {
      ServedTotals(rows, out, i);
    }
  }
}
