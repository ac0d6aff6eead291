/**
 * The energy queries are separate statements, and each orders the rows by time alone: rows with the same time come in
 * whatever order the database likes, statement by statement. Here every statement has its own order of the same rows.
 */
module EnergyOrders {
  import opened Common
  import opened Energy

  /** One order a statement may see the rows in. */
  ghost predicate Orders(rs: seq<Reading>, order: seq<Reading>) {
    Sorted(order) && multiset(order) == multiset(rs)
  }

  /** Rows of the range with the same time have the same power. */
  ghost predicate TiesAgree(rs: seq<Reading>, start: real, end: real, power: Reading -> real) {
    forall x <- rs, y <- rs :: x.time == y.time && start <= x.time < end ==> power(x) == power(y)
  }

  /** Same times throughout, and same powers inside the range. */
  ghost predicate Alike(xs: seq<Reading>, ys: seq<Reading>, start: real, end: real, power: Reading -> real) {
    |xs| == |ys| && forall i :: 0 <= i < |xs| ==>
                      xs[i].time == ys[i].time && (start <= xs[i].time < end ==> power(xs[i]) == power(ys[i]))
  }

  // ---------------------------------------------------------------------------------------
  // Two orders of the same rows

  function Without(ys: seq<Reading>, j: nat): seq<Reading>
    requires j < |ys|
  {
    ys[..j] + ys[j + 1..]
  }

  lemma WithoutFacts(ys: seq<Reading>, j: nat)
    requires j < |ys| && Sorted(ys)
    ensures Sorted(Without(ys, j)) && multiset(Without(ys, j)) == multiset(ys) - multiset{ys[j]}
  {
    assert ys == ys[..j] + [ys[j]] + ys[j + 1..];
  }

  lemma SameHeads(xs: seq<Reading>, ys: seq<Reading>, j: nat)
    requires Sorted(xs) && Sorted(ys) && multiset(xs) == multiset(ys) && xs != [] && j < |ys| && ys[j] == xs[0]
    ensures forall i :: 0 <= i <= j ==> ys[i].time == xs[0].time
  {
    assert ys[0] in multiset(xs);
    var i :| 0 <= i < |xs| && xs[i] == ys[0];
  }

  /** Taking out a row tied with the first one leaves the times of all but the first. */
  lemma WithoutTimes(ys: seq<Reading>, j: nat)
    requires j < |ys| && forall i :: 0 <= i <= j ==> ys[i].time == ys[0].time
    ensures |Without(ys, j)| == |ys| - 1 && forall i :: 0 <= i < |ys| - 1 ==> Without(ys, j)[i].time == ys[i + 1].time
  {}

  /** All sorted orders of the same rows show the same times. */
  lemma {:induction false} SameTimes(xs: seq<Reading>, ys: seq<Reading>)
    requires Sorted(xs) && Sorted(ys) && multiset(xs) == multiset(ys)
    ensures |xs| == |ys| && forall i :: 0 <= i < |xs| ==> xs[i].time == ys[i].time
  {
    assert |xs| == |multiset(xs)| && |ys| == |multiset(ys)|;
    if xs != [] {
      assert xs[0] in multiset(ys);
      var j :| 0 <= j < |ys| && ys[j] == xs[0];
      SameHeads(xs, ys, j);
      WithoutFacts(ys, j);
      WithoutTimes(ys, j);
      assert xs == [xs[0]] + xs[1..];
      var rest := Without(ys, j);
      assert multiset(rest) == multiset(xs[1..]);
      SameTimes(xs[1..], rest);
      forall i | 0 < i < |xs| ensures xs[i].time == ys[i].time {
        assert xs[1..][i - 1].time == rest[i - 1].time;
      }
    }
  }

  lemma OrdersAlike(rs: seq<Reading>, xs: seq<Reading>, ys: seq<Reading>, start: real, end: real,
                    power: Reading -> real)
    requires Orders(rs, xs) && Orders(rs, ys) && TiesAgree(rs, start, end, power)
    ensures Alike(xs, ys, start, end, power)
  {
    SameTimes(xs, ys);
    forall i | 0 <= i < |xs| && start <= xs[i].time < end ensures power(xs[i]) == power(ys[i]) {
      assert xs[i] in multiset(rs) && ys[i] in multiset(rs);
    }
  }

  lemma {:induction false} WindowsAlike(xs: seq<Reading>, ys: seq<Reading>, start: real, end: real, a: real, c: real,
                                        power: Reading -> real)
    requires Alike(xs, ys, start, end, power) && start <= a && c <= end
    ensures Alike(Window(xs, a, c), Window(ys, a, c), a, c, power)
  {
    if xs != [] { WindowsAlike(xs[1..], ys[1..], start, end, a, c, power); }
  }

  lemma {:induction false} SpansAlike(xs: seq<Reading>, ys: seq<Reading>, start: real, end: real,
                                      power: Reading -> real, w: Span -> real)
    requires Alike(xs, ys, start, end, power) && Weighs(w, power)
    requires forall i :: 0 <= i < |xs| ==> start <= xs[i].time < end
    ensures Sum(Spans(xs, end), w) == Sum(Spans(ys, end), w)
  {
    if xs != [] {
      var d := Duration(xs[0].time, if |xs| > 1 then xs[1].time else end);
      assert w(Span(xs[0], d)) == Weight(power, xs[0], d) && w(Span(ys[0], d)) == Weight(power, ys[0], d);
      assert Spans(xs, end)[1..] == Spans(xs[1..], end) && Spans(ys, end)[1..] == Spans(ys[1..], end);
      SpansAlike(xs[1..], ys[1..], start, end, power, w);
    }
  }

  /** When tied rows of the range agree, every statement over any part of it sums to the same, whatever its order. */
  lemma AnyOrderSum(rs: seq<Reading>, xs: seq<Reading>, ys: seq<Reading>, start: real, end: real, a: real, c: real,
                    power: Reading -> real, w: Span -> real)
    requires Orders(rs, xs) && Orders(rs, ys) && TiesAgree(rs, start, end, power) && Weighs(w, power) && start <= a
             && c <= end
    ensures Sum(Query(xs, a, c), w) == Sum(Query(ys, a, c), w)
  {
    OrdersAlike(rs, xs, ys, start, end, power);
    WindowsAlike(xs, ys, start, end, a, c, power);
    WindowMembers(xs, a, c);
    SpansAlike(Window(xs, a, c), Window(ys, a, c), a, c, power, w);
  }

  // ---------------------------------------------------------------------------------------
  // Splitting a range

  /** What is lost by the cut is exactly what the last reading before it would have counted past it. */
  ghost predicate SplitsExactly(first: seq<Reading>, second: seq<Reading>, whole: seq<Reading>, a: real, b: real,
                                c: real, power: Reading -> real, w: Span -> real) {
    Sum(Query(whole, a, c), w)
      == Sum(Query(first, a, b), w) + Sum(Query(second, b, c), w)
         + LostEnergy(Window(whole, a, b), Window(whole, b, c), b, c, power)
  }

  /** With agreeing ties a range splits exactly, whatever order each of the three statements sees. */
  lemma SplitExact(rs: seq<Reading>, first: seq<Reading>, second: seq<Reading>, whole: seq<Reading>,
                   a: real, b: real, c: real, power: Reading -> real, w: Span -> real)
    requires Orders(rs, first) && Orders(rs, second) && Orders(rs, whole) && TiesAgree(rs, a, c, power)
    requires a <= b <= c && Weighs(w, power)
    ensures SplitsExactly(first, second, whole, a, b, c, power, w)
  {
    OneOrderSplitExact(whole, a, b, c, power, w);
    AnyOrderSum(rs, first, whole, a, c, a, b, power, w);
    AnyOrderSum(rs, second, whole, a, c, b, c, power, w);
  }

  /**
   * For any nonnegative power on which tied rows agree, and whatever order each of the three statements sees: the two
   * halves never exceed the whole, fall short by at most 30 seconds of the last reading before the cut, and add up to
   * the whole exactly when nothing precedes the cut, that reading had no power, it had already run out its 30
   * seconds, or another reading (or the range end) sits on the cut.
   */
  lemma SplitEnergy(rs: seq<Reading>, first: seq<Reading>, second: seq<Reading>, whole: seq<Reading>, a: real, b: real,
                    c: real, power: Reading -> real, w: Span -> real)
    requires Orders(rs, first) && Orders(rs, second) && Orders(rs, whole) && TiesAgree(rs, a, c, power)
    requires a <= b <= c && Weighs(w, power) && forall r <- rs :: power(r) >= 0.0
    ensures Sum(Query(first, a, b), w) + Sum(Query(second, b, c), w) <= Sum(Query(whole, a, c), w)
    ensures Sum(Query(whole, a, c), w)
         <= Sum(Query(first, a, b), w) + Sum(Query(second, b, c), w) + MostLost(Window(whole, a, b), power)
    ensures Sum(Query(first, a, b), w) + Sum(Query(second, b, c), w) == Sum(Query(whole, a, c), w) <==>
            || LastPower(Window(whole, a, b), power) == 0.0
            || NothingLost(Window(whole, a, b), Window(whole, b, c), b, c)
  {
    forall r <- whole ensures power(r) >= 0.0 { assert r in multiset(rs); }
    OneOrderSplitEnergy(whole, a, b, c, power, w);
    AnyOrderSum(rs, first, whole, a, c, a, b, power, w);
    AnyOrderSum(rs, second, whole, a, c, b, c, power, w);
  }

  // ---------------------------------------------------------------------------------------
  // Exactly when the order does not matter

  lemma {:induction false} SpansAt(xs: seq<Reading>, end: real, n: nat)
    requires n < |xs|
    ensures |Spans(xs, end)| == |xs|
    ensures Spans(xs, end)[n] == Span(xs[n], Duration(xs[n].time, if n + 1 < |xs| then xs[n + 1].time else end))
  {
    if n > 0 {
      SpansAt(xs[1..], end, n - 1);
    } else if |xs| > 1 {
      SpansAt(xs[1..], end, 0);
    }
  }

  lemma {:induction false} OneTermDiffers(xs: seq<Span>, ys: seq<Span>, w: Span -> real, j: nat)
    requires |xs| == |ys| && j < |xs| && forall i :: 0 <= i < |xs| && i != j ==> w(xs[i]) == w(ys[i])
    ensures Sum(xs, w) - Sum(ys, w) == w(xs[j]) - w(ys[j])
  {
    if j == 0 {
      AllTermsSame(xs[1..], ys[1..], w);
    } else {
      OneTermDiffers(xs[1..], ys[1..], w, j - 1);
    }
  }

  lemma {:induction false} AllTermsSame(xs: seq<Span>, ys: seq<Span>, w: Span -> real)
    requires |xs| == |ys| && forall i :: 0 <= i < |xs| ==> w(xs[i]) == w(ys[i])
    ensures Sum(xs, w) == Sum(ys, w)
  {
    if xs != [] { AllTermsSame(xs[1..], ys[1..], w); }
  }

  /** The last row with the time of row i. */
  lemma LastOfTie(xs: seq<Reading>, i: nat) returns (m: nat)
    requires Sorted(xs) && i < |xs|
    ensures i <= m < |xs| && xs[m].time == xs[i].time && forall n :: m < n < |xs| ==> xs[n].time > xs[i].time
    decreases |xs| - i
  {
    if i + 1 < |xs| && xs[i + 1].time == xs[i].time { m := LastOfTie(xs, i + 1); } else { m := i; }
  }

  function Swap(xs: seq<Reading>, k: nat, m: nat): seq<Reading>
    requires k < |xs| && m < |xs|
  {
    xs[k := xs[m]][m := xs[k]]
  }

  /** Exchanging two tied rows changes no term but the later one. */
  lemma SwapTerm(xs: seq<Reading>, end: real, k: nat, m: nat, n: nat, power: Reading -> real, w: Span -> real)
    requires Sorted(xs) && Weighs(w, power) && k < m < |xs| && xs[k].time == xs[m].time && n < |xs| && n != m
    ensures |Spans(Swap(xs, k, m), end)| == |Spans(xs, end)| == |xs|
    ensures w(Spans(Swap(xs, k, m), end)[n]) == w(Spans(xs, end)[n])
  {
    SpansAt(xs, end, n);
    SpansAt(Swap(xs, k, m), end, n);
    if n == k {
      NoTimeNoEnergy(w, power, xs[k]);
      NoTimeNoEnergy(w, power, xs[m]);
    }
  }

  lemma SwapOrders(xs: seq<Reading>, k: nat, m: nat)
    requires Sorted(xs) && k < m < |xs| && xs[k].time == xs[m].time
    ensures Orders(xs, Swap(xs, k, m))
  {}

  /**
   * Exchanging a tied row with the one that counts changes the sum by the difference of their powers over its
   * duration.
   */
  lemma SwapChanges(xs: seq<Reading>, end: real, k: nat, m: nat, power: Reading -> real, w: Span -> real)
    requires Sorted(xs) && Weighs(w, power) && k < m < |xs| && xs[k].time == xs[m].time
    ensures var d := Duration(xs[m].time, if m + 1 < |xs| then xs[m + 1].time else end);
            Sum(Spans(Swap(xs, k, m), end), w) - Sum(Spans(xs, end), w) == Kwh(power(xs[k]), d) - Kwh(power(xs[m]), d)
  {
    var ys := Swap(xs, k, m);
    var d := Duration(xs[m].time, if m + 1 < |xs| then xs[m + 1].time else end);
    SpansAt(xs, end, m);
    SpansAt(ys, end, m);
    forall n | 0 <= n < |xs| && n != m ensures w(Spans(ys, end)[n]) == w(Spans(xs, end)[n]) {
      SwapTerm(xs, end, k, m, n, power, w);
    }
    OneTermDiffers(Spans(ys, end), Spans(xs, end), w, m);
    assert w(Span(xs[k], d)) == Weight(power, xs[k], d) && w(Span(xs[m], d)) == Weight(power, xs[m], d);
  }

  lemma NoTimeNoEnergy(w: Span -> real, power: Reading -> real, r: Reading)
    requires Weighs(w, power)
    ensures w(Span(r, 0.0)) == 0.0
  {
    assert w(Span(r, 0.0)) == Weight(power, r, 0.0);
  }

  lemma DifferentPowers(p: real, q: real, d: real)
    requires p != q && d > 0.0
    ensures Kwh(p, d) != Kwh(q, d)
  {
    assert (p - q) * Hours(d) != 0.0;
  }

  /**
   * The rows a range selects add up to one energy, whatever order the statement sees them in, exactly when rows with
   * the same time have the same power.
   */
  lemma TieOrderExact(xs: seq<Reading>, start: real, end: real, power: Reading -> real, w: Span -> real)
    requires Sorted(xs) && Weighs(w, power) && forall i :: 0 <= i < |xs| ==> start <= xs[i].time < end
    ensures (forall ys :: Orders(xs, ys) ==> Sum(Spans(ys, end), w) == Sum(Spans(xs, end), w)) <==>
            TiesAgree(xs, start, end, power)
  {
    if TiesAgree(xs, start, end, power) {
      forall ys | Orders(xs, ys) ensures Sum(Spans(ys, end), w) == Sum(Spans(xs, end), w) {
        OrdersAlike(xs, xs, ys, start, end, power);
        SpansAlike(xs, ys, start, end, power, w);
      }
    } else {
      var k, m := TieThatCounts(xs, start, end, power);
      SwapChanges(xs, end, k, m, power, w);
      DifferentPowers(power(xs[k]), power(xs[m]), Duration(xs[m].time, if m + 1 < |xs| then xs[m + 1].time else end));
      SwapOrders(xs, k, m);
    }
  }

  lemma TieThatCounts(xs: seq<Reading>, start: real, end: real, power: Reading -> real) returns (k: nat, m: nat)
    requires Sorted(xs) && !TiesAgree(xs, start, end, power)
    ensures k < m < |xs| && xs[k].time == xs[m].time && power(xs[k]) != power(xs[m])
    ensures forall n :: m < n < |xs| ==> xs[n].time > xs[m].time
  {
    var x, y :| x in xs && y in xs && x.time == y.time && start <= x.time < end && power(x) != power(y);
    var i :| 0 <= i < |xs| && xs[i] == x;
    var j :| 0 <= j < |xs| && xs[j] == y;
    m := LastOfTie(xs, i);
    k := if power(x) != power(xs[m]) then i else j;
  }

  // ---------------------------------------------------------------------------------------
  // From the rows of a range to the whole history

  function Below(rs: seq<Reading>, start: real): seq<Reading> {
    if rs == [] then []
    else if rs[0].time < start then [rs[0]] + Below(rs[1..], start)
    else Below(rs[1..], start)
  }

  function Above(rs: seq<Reading>, end: real): seq<Reading> {
    if rs == [] then []
    else if rs[0].time >= end then [rs[0]] + Above(rs[1..], end)
    else Above(rs[1..], end)
  }

  lemma {:induction false} BelowEmpty(rs: seq<Reading>, start: real)
    requires forall i :: 0 <= i < |rs| ==> rs[i].time >= start
    ensures Below(rs, start) == []
  {
    if rs != [] { BelowEmpty(rs[1..], start); }
  }

  lemma {:induction false} PartsConcat(rs: seq<Reading>, start: real, end: real)
    requires Sorted(rs) && start <= end
    ensures rs == Below(rs, start) + Window(rs, start, end) + Above(rs, end)
  {
    if rs != [] {
      PartsConcat(rs[1..], start, end);
      assert rs == [rs[0]] + rs[1..];
      if rs[0].time >= start { BelowEmpty(rs[1..], start); }
      if rs[0].time >= end { WindowEmpty(rs[1..], start, end); }
    }
  }

  lemma {:induction false} PartTimes(rs: seq<Reading>, start: real, end: real)
    ensures forall i :: 0 <= i < |Below(rs, start)| ==> Below(rs, start)[i].time < start
    ensures forall i :: 0 <= i < |Above(rs, end)| ==> Above(rs, end)[i].time >= end
  {
    if rs != [] { PartTimes(rs[1..], start, end); }
  }

  /** A sorted history is what lies before a range, the range, and what lies after. */
  lemma SortedParts(rs: seq<Reading>, lo: seq<Reading>, xs: seq<Reading>, hi: seq<Reading>)
    requires Sorted(rs) && rs == lo + xs + hi
    ensures Sorted(lo) && Sorted(hi)
  {
    assert lo == rs[..|lo|] && hi == rs[|lo + xs|..];
  }

  lemma {:induction false} WindowConcat(xs: seq<Reading>, ys: seq<Reading>, start: real, end: real)
    ensures Window(xs + ys, start, end) == Window(xs, start, end) + Window(ys, start, end)
  {
    if xs == [] {
      assert xs + ys == ys;
    } else {
      assert (xs + ys)[1..] == xs[1..] + ys;
      WindowConcat(xs[1..], ys, start, end);
    }
  }

  lemma {:induction false} WindowAll(xs: seq<Reading>, start: real, end: real)
    requires forall i :: 0 <= i < |xs| ==> start <= xs[i].time < end
    ensures Window(xs, start, end) == xs
  {
    if xs != [] { WindowAll(xs[1..], start, end); }
  }

  lemma {:induction false} WindowBefore(xs: seq<Reading>, start: real, end: real)
    requires forall i :: 0 <= i < |xs| ==> xs[i].time < start
    ensures Window(xs, start, end) == []
  {
    if xs != [] { WindowBefore(xs[1..], start, end); }
  }

  lemma OrderInRange(rs: seq<Reading>, xs: seq<Reading>, start: real, end: real)
    requires Sorted(rs) && Orders(Window(rs, start, end), xs)
    ensures forall i :: 0 <= i < |xs| ==> start <= xs[i].time < end
  {
    WindowMembers(rs, start, end);
    forall i | 0 <= i < |xs| ensures start <= xs[i].time < end {
      assert xs[i] in multiset(Window(rs, start, end));
    }
  }

  /** Every order of the rows in a range is part of an order of the whole history. */
  lemma Lift(rs: seq<Reading>, start: real, end: real, xs: seq<Reading>) returns (order: seq<Reading>)
    requires Sorted(rs) && start <= end && Orders(Window(rs, start, end), xs)
    ensures Orders(rs, order) && Window(order, start, end) == xs
  {
    var lo, hi := Below(rs, start), Above(rs, end);
    PartsConcat(rs, start, end);
    PartTimes(rs, start, end);
    SortedParts(rs, lo, Window(rs, start, end), hi);
    OrderInRange(rs, xs, start, end);
    order := lo + xs + hi;
    assert multiset(rs) == multiset(lo) + multiset(Window(rs, start, end)) + multiset(hi);
    WindowConcat(lo + xs, hi, start, end);
    WindowConcat(lo, xs, start, end);
    WindowBefore(lo, start, end);
    WindowAll(xs, start, end);
    WindowEmpty(hi, start, end);
  }

  lemma {:induction false} InWindow(rs: seq<Reading>, start: real, end: real, x: Reading)
    requires x in rs && start <= x.time < end
    ensures x in Window(rs, start, end)
  {
    if x != rs[0] { InWindow(rs[1..], start, end, x); }
  }

  /** A statement over a range sums to the same in every order of the history only if tied rows of the range agree. */
  lemma RangeSettled(rs: seq<Reading>, start: real, end: real, power: Reading -> real, w: Span -> real)
    requires Sorted(rs) && start <= end && Weighs(w, power)
    requires forall o :: Orders(rs, o) ==> Sum(Query(o, start, end), w) == Sum(Query(rs, start, end), w)
    ensures TiesAgree(rs, start, end, power)
  {
    var xs := Window(rs, start, end);
    WindowMembers(rs, start, end);
    forall ys | Orders(xs, ys) ensures Sum(Spans(ys, end), w) == Sum(Spans(xs, end), w) {
      var o := Lift(rs, start, end, ys);
      assert Query(o, start, end) == Spans(ys, end);
    }
    TieOrderExact(xs, start, end, power, w);
    forall x <- rs, y <- rs | x.time == y.time && start <= x.time < end ensures power(x) == power(y) {
      InWindow(rs, start, end, x);
      InWindow(rs, start, end, y);
    }
  }

  ghost predicate AlwaysSplitsExactly(rs: seq<Reading>, a: real, b: real, c: real, power: Reading -> real,
                                      w: Span -> real) {
    forall first, second, whole :: Orders(rs, first) && Orders(rs, second) && Orders(rs, whole) ==>
                                     SplitsExactly(first, second, whole, a, b, c, power, w)
  }

  lemma HalvesSettled(rs: seq<Reading>, o: seq<Reading>, a: real, b: real, c: real, power: Reading -> real,
                      w: Span -> real)
    requires Sorted(rs) && Orders(rs, o) && a <= b <= c && Weighs(w, power)
             && AlwaysSplitsExactly(rs, a, b, c, power, w)
    ensures Sum(Query(o, a, b), w) == Sum(Query(rs, a, b), w) && Sum(Query(o, b, c), w) == Sum(Query(rs, b, c), w)
  {
    OneOrderSplitExact(rs, a, b, c, power, w);
    assert Orders(rs, rs);
    assert SplitsExactly(o, rs, rs, a, b, c, power, w);
    assert SplitsExactly(rs, o, rs, a, b, c, power, w);
  }

  /** A range splits exactly in all orders of the three statements if and only if tied rows of the range agree. */
  lemma SplitExactOnlyIfTiesAgree(rs: seq<Reading>, a: real, b: real, c: real, power: Reading -> real, w: Span -> real)
    requires Sorted(rs) && a <= b <= c && Weighs(w, power)
    ensures AlwaysSplitsExactly(rs, a, b, c, power, w) <==> TiesAgree(rs, a, c, power)
  {
    if TiesAgree(rs, a, c, power) {
      forall first, second, whole | Orders(rs, first) && Orders(rs, second) && Orders(rs, whole)
        ensures SplitsExactly(first, second, whole, a, b, c, power, w)
      {
        SplitExact(rs, first, second, whole, a, b, c, power, w);
      }
    }
    if AlwaysSplitsExactly(rs, a, b, c, power, w) {
      forall o | Orders(rs, o)
        ensures Sum(Query(o, a, b), w) == Sum(Query(rs, a, b), w) && Sum(Query(o, b, c), w) == Sum(Query(rs, b, c), w)
      {
        HalvesSettled(rs, o, a, b, c, power, w);
      }
      RangeSettled(rs, a, b, power, w);
      RangeSettled(rs, b, c, power, w);
    }
  }

  // ---------------------------------------------------------------------------------------
  // Series against summary

  /** Everything the sums look at. */
  ghost predicate SamePowers(x: Reading, y: Reading) {
    && x.solar == y.solar && x.cons == y.cons && x.net == y.net
    && Charge(x.storage) == Charge(y.storage) && Discharge(x.storage) == Discharge(y.storage)
  }

  ghost predicate TiedRowsAgree(rs: seq<Reading>, start: real, end: real) {
    forall x <- rs, y <- rs :: x.time == y.time && start <= x.time < end ==> SamePowers(x, y)
  }

  ghost predicate RowsAlike(xs: seq<Reading>, ys: seq<Reading>, start: real, end: real) {
    |xs| == |ys| && forall i :: 0 <= i < |xs| ==>
                      xs[i].time == ys[i].time && (start <= xs[i].time < end ==> SamePowers(xs[i], ys[i]))
  }

  lemma OrdersRowsAlike(rs: seq<Reading>, xs: seq<Reading>, ys: seq<Reading>, start: real, end: real)
    requires Orders(rs, xs) && Orders(rs, ys) && TiedRowsAgree(rs, start, end)
    ensures RowsAlike(xs, ys, start, end)
  {
    SameTimes(xs, ys);
    forall i | 0 <= i < |xs| && start <= xs[i].time < end ensures SamePowers(xs[i], ys[i]) {
      assert xs[i] in multiset(rs) && ys[i] in multiset(rs);
    }
  }

  lemma {:induction false} WindowsRowsAlike(xs: seq<Reading>, ys: seq<Reading>, start: real, end: real)
    requires RowsAlike(xs, ys, start, end)
    ensures RowsAlike(Window(xs, start, end), Window(ys, start, end), start, end)
  {
    if xs != [] { WindowsRowsAlike(xs[1..], ys[1..], start, end); }
  }

  lemma SamePowersSameRow(x: Reading, y: Reading, k: real -> real, h: real)
    requires SamePowers(x, y)
    ensures RowWith(x, k, h) == RowWith(y, k, h)
  {}

  lemma {:induction false} RowsSame(xs: seq<Reading>, ys: seq<Reading>, start: real, end: real)
    requires RowsAlike(xs, ys, start, end) && forall i :: 0 <= i < |xs| ==> start <= xs[i].time < end
    ensures Rows(Spans(xs, end)) == Rows(Spans(ys, end))
  {
    if xs != [] {
      var d := Duration(xs[0].time, if |xs| > 1 then xs[1].time else end);
      SamePowersSameRow(xs[0], ys[0], Times(d), Hours(d));
      assert Spans(xs, end)[1..] == Spans(xs[1..], end) && Spans(ys, end)[1..] == Spans(ys[1..], end);
      RowsSame(xs[1..], ys[1..], start, end);
    }
  }

  /** Whatever order each statement sees, agreeing ties give the same rows, so the same totals. */
  lemma AnyOrderRows(rs: seq<Reading>, xs: seq<Reading>, ys: seq<Reading>, start: real, end: real)
    requires Orders(rs, xs) && Orders(rs, ys) && TiedRowsAgree(rs, start, end)
    ensures Rows(Query(xs, start, end)) == Rows(Query(ys, start, end))
  {
    OrdersRowsAlike(rs, xs, ys, start, end);
    WindowsRowsAlike(xs, ys, start, end);
    WindowMembers(xs, start, end);
    RowsSame(Window(xs, start, end), Window(ys, start, end), start, end);
  }

  /**
   * For any stored history and any bucketing, with the series and the summary each in its own order: every bucket and
   * the summary balance source by source and demand by demand; and when tied rows agree the buckets add up to the
   * summary.
   */
  lemma EnergyConserved(rs: seq<Reading>, series: seq<Reading>, summary: seq<Reading>, start: real, end: real,
                        bucket: real -> real)
    requires Orders(rs, series) && Orders(rs, summary) && forall r <- rs :: r.solar >= 0.0 && r.cons >= 0.0
    ensures var total := Summary(Rows(Query(summary, start, end)));
            var buckets := Series(Tagged(Query(series, start, end), bucket));
            && Balanced(total)
            && (forall i :: 0 <= i < |buckets| ==> Balanced(buckets[i].totals))
            && (TiedRowsAgree(rs, start, end) ==> Summary(AllTotals(buckets)) == total)
  {
    forall r | r in series || r in summary ensures r.solar >= 0.0 && r.cons >= 0.0 {
      assert r in multiset(series) || r in multiset(summary);
      assert r in multiset(rs);
    }
    OneOrderConserved(series, start, end, bucket);
    OneOrderConserved(summary, start, end, bucket);
    if TiedRowsAgree(rs, start, end) { AnyOrderRows(rs, series, summary, start, end); }
  }

  lemma TimesWeighs(f: Field, w: Span -> real)
    requires forall s: Span :: w(s) == Kwh(Power(f, s.reading), s.seconds)
    ensures Weighs(w, (r: Reading) => Power(f, r))
  {}

  ghost predicate SummarySettled(xs: seq<Reading>, end: real) {
    forall ys :: Orders(xs, ys) ==> Summary(Rows(Spans(ys, end))) == Summary(Rows(Spans(xs, end)))
  }

  /** The power of each column agrees on ties if the summary does not depend on the order. */
  lemma ColumnSettles(xs: seq<Reading>, start: real, end: real, f: Field, x: Reading, y: Reading)
    requires Sorted(xs) && forall i :: 0 <= i < |xs| ==> start <= xs[i].time < end
    requires SummarySettled(xs, end) && x in xs && y in xs && x.time == y.time && start <= x.time < end
    ensures Power(f, x) == Power(f, y)
  {
    var w := (s: Span) => Kwh(Power(f, s.reading), s.seconds);
    var power := (r: Reading) => Power(f, r);
    TimesWeighs(f, w);
    assert Weighs(w, power);
    forall ys | Orders(xs, ys) ensures Sum(Spans(ys, end), w) == Sum(Spans(xs, end), w) {
      ColumnExact(f, Spans(ys, end), w);
      ColumnExact(f, Spans(xs, end), w);
    }
    TieOrderExact(xs, start, end, power, w);
    assert power(x) == power(y);
  }

  lemma PowersSettle(xs: seq<Reading>, start: real, end: real, x: Reading, y: Reading)
    requires Sorted(xs) && forall i :: 0 <= i < |xs| ==> start <= xs[i].time < end
    requires SummarySettled(xs, end) && x in xs && y in xs && x.time == y.time && start <= x.time < end
    ensures SamePowers(x, y)
  {
    ColumnSettles(xs, start, end, Generated, x, y);
    ColumnSettles(xs, start, end, Consumed, x, y);
    ColumnSettles(xs, start, end, Exported, x, y);
    ColumnSettles(xs, start, end, Imported, x, y);
    ColumnSettles(xs, start, end, Charged, x, y);
    ColumnSettles(xs, start, end, Discharged, x, y);
  }

  /**
   * The summary of a range is the same in every order exactly when rows with the same time have the same solar,
   * consumption, net, charging and discharging power.
   */
  lemma SummaryOrderExact(xs: seq<Reading>, start: real, end: real)
    requires Sorted(xs) && forall i :: 0 <= i < |xs| ==> start <= xs[i].time < end
    ensures SummarySettled(xs, end) <==> TiedRowsAgree(xs, start, end)
  {
    if TiedRowsAgree(xs, start, end) {
      forall ys | Orders(xs, ys) ensures Summary(Rows(Spans(ys, end))) == Summary(Rows(Spans(xs, end))) {
        OrdersRowsAlike(xs, xs, ys, start, end);
        RowsSame(xs, ys, start, end);
      }
    } else if SummarySettled(xs, end) {
      forall x <- xs, y <- xs | x.time == y.time && start <= x.time < end ensures SamePowers(x, y) {
        PowersSettle(xs, start, end, x, y);
      }
    }
  }

  /** What the buckets of a series add up to. */
  function SeriesSum(order: seq<Reading>, start: real, end: real, bucket: real -> real): Totals {
    Summary(AllTotals(Series(Tagged(Query(order, start, end), bucket))))
  }

  lemma SeriesSumIsSummary(order: seq<Reading>, start: real, end: real, bucket: real -> real)
    ensures SeriesSum(order, start, end, bucket) == Summary(Rows(Query(order, start, end)))
  {
    TaggedTotals(Query(order, start, end), bucket);
    SeriesTotal(Tagged(Query(order, start, end), bucket));
  }

  ghost predicate AlwaysAddsUp(rs: seq<Reading>, start: real, end: real, bucket: real -> real) {
    forall series, summary :: Orders(rs, series) && Orders(rs, summary) ==>
                                SeriesSum(series, start, end, bucket) == Summary(Rows(Query(summary, start, end)))
  }

  lemma RangeSummarySettled(rs: seq<Reading>, start: real, end: real, bucket: real -> real)
    requires Sorted(rs) && start <= end && AlwaysAddsUp(rs, start, end, bucket)
    ensures SummarySettled(Window(rs, start, end), end)
  {
    var xs := Window(rs, start, end);
    SeriesSumIsSummary(rs, start, end, bucket);
    assert Orders(rs, rs);
    forall ys | Orders(xs, ys) ensures Summary(Rows(Spans(ys, end))) == Summary(Rows(Spans(xs, end))) {
      var o := Lift(rs, start, end, ys);
      assert Query(o, start, end) == Spans(ys, end);
      assert SeriesSum(rs, start, end, bucket) == Summary(Rows(Query(o, start, end)));
    }
  }

  /**
   * The series adds up to the summary in all orders of the two statements if and only if tied rows of the range
   * agree.
   */
  lemma AddsUpOnlyIfTiesAgree(rs: seq<Reading>, start: real, end: real, bucket: real -> real)
    requires Sorted(rs)
    ensures AlwaysAddsUp(rs, start, end, bucket) <==> TiedRowsAgree(rs, start, end)
  {
    if TiedRowsAgree(rs, start, end) {
      forall series, summary | Orders(rs, series) && Orders(rs, summary)
        ensures SeriesSum(series, start, end, bucket) == Summary(Rows(Query(summary, start, end)))
      {
        SeriesSumIsSummary(series, start, end, bucket);
        AnyOrderRows(rs, series, summary, start, end);
      }
    }
    if AlwaysAddsUp(rs, start, end, bucket) && start <= end {
      RangeSummarySettled(rs, start, end, bucket);
      WindowMembers(rs, start, end);
      SummaryOrderExact(Window(rs, start, end), start, end);
      forall x <- rs, y <- rs | x.time == y.time && start <= x.time < end ensures SamePowers(x, y) {
        InWindow(rs, start, end, x);
        InWindow(rs, start, end, y);
      }
    }
  }

  /**
   * Every column of the served summaries splits: the halves never exceed the whole and fall short by at most 30
   * seconds of the last reading before the cut.
   */
  lemma ColumnsSplit(f: Field, rs: seq<Reading>, first: seq<Reading>, second: seq<Reading>, whole: seq<Reading>,
                     a: real, b: real, c: real)
    requires Orders(rs, first) && Orders(rs, second) && Orders(rs, whole) && TiedRowsAgree(rs, a, c)
    requires a <= b <= c && forall r <- rs :: r.solar >= 0.0 && r.cons >= 0.0
    ensures var parts := Column(f, Summary(Rows(Query(first, a, b)))) + Column(f, Summary(Rows(Query(second, b, c))));
            && parts <= Column(f, Summary(Rows(Query(whole, a, c))))
            && Column(f, Summary(Rows(Query(whole, a, c))))
               <= parts + MostLost(Window(whole, a, b), (r: Reading) => Power(f, r))
  {
    var w := (s: Span) => Kwh(Power(f, s.reading), s.seconds);
    var power := (r: Reading) => Power(f, r);
    TimesWeighs(f, w);
    assert Weighs(w, power);
    forall r <- rs ensures power(r) >= 0.0 { PowerNonNegative(f, r); }
    assert TiesAgree(rs, a, c, power);
    SplitEnergy(rs, first, second, whole, a, b, c, power, w);
    ColumnExact(f, Query(first, a, b), w);
    ColumnExact(f, Query(second, b, c), w);
    ColumnExact(f, Query(whole, a, c), w);
    assert MostLost(Window(whole, a, b), power) == MostLost(Window(whole, a, b), (r: Reading) => Power(f, r));
  }

  // ---------------------------------------------------------------------------------------
  // What disagreeing ties do

  /** Two rows at one time, one without solar and one with. */
  ghost predicate SolarTie(x: Reading, y: Reading, end: real) {
    x.time == y.time < end && x.solar == 0.0 < y.solar
  }

  lemma TieEnergy(x: Reading, y: Reading, end: real)
    requires x.time == y.time
    ensures Sorted([x, y]) && Spans([x, y], end) == [Span(x, 0.0), Span(y, Duration(y.time, end))]
    ensures Summary(Rows(Spans([x, y], end))).generated == Kwh(x.solar, 0.0) + Kwh(y.solar, Duration(y.time, end))
  {
    assert [x, y][1..] == [y] && [y][1..] == [];
    assert Spans([y], end) == [Span(y, Duration(y.time, end))];
    var spans := [Span(x, 0.0), Span(y, Duration(y.time, end))];
    assert Duration(x.time, y.time) == 0.0 && Spans([x, y], end) == spans;
    var w := (s: Span) => Kwh(Power(Generated, s.reading), s.seconds);
    ColumnExact(Generated, spans, w);
    assert spans[1..] == [spans[1]] && [spans[1]][1..] == [];
    assert Sum([spans[1]], w) == w(spans[1]) + Sum([], w);
    assert Sum(spans, w) == w(spans[0]) + Sum([spans[1]], w);
  }

  /**
   * Any such pair breaks the split: in one order of the rows the first half alone exceeds the whole in the other
   * order.
   */
  lemma TiesBreakSplit(x: Reading, y: Reading, p: seq<Reading>, q: seq<Reading>, b: real, c: real)
    requires SolarTie(x, y, b) && b <= c && p == [x, y] && q == [y, x]
    ensures Orders(p, p) && Orders(p, q)
    ensures Summary(Rows(Query(p, x.time, b))).generated > Summary(Rows(Query(q, x.time, c))).generated
  {
    TiesAreOrders(x, y);
    TieQueries(x, y, p, q, b);
    TieQueries(x, y, p, q, c);
  }

  /**
   * And it breaks the sum: however it is bucketed, the series in one order adds up to more than the summary in the
   * other.
   */
  lemma TiesBreakSeries(x: Reading, y: Reading, p: seq<Reading>, q: seq<Reading>, c: real, bucket: real -> real)
    requires SolarTie(x, y, c) && p == [x, y] && q == [y, x]
    ensures Orders(p, p) && Orders(p, q)
    ensures SeriesSum(p, x.time, c, bucket).generated > Summary(Rows(Query(q, x.time, c))).generated
  {
    TiesAreOrders(x, y);
    SeriesSumIsSummary(p, x.time, c, bucket);
    TieQueries(x, y, p, q, c);
  }

  lemma TiesAreOrders(x: Reading, y: Reading)
    requires x.time == y.time
    ensures Orders([x, y], [x, y]) && Orders([x, y], [y, x])
  {}

  lemma TieQueries(x: Reading, y: Reading, p: seq<Reading>, q: seq<Reading>, end: real)
    requires SolarTie(x, y, end) && p == [x, y] && q == [y, x]
    ensures Summary(Rows(Query(p, x.time, end))).generated > 0.0 == Summary(Rows(Query(q, x.time, end))).generated
  {
    WindowAll(p, x.time, end);
    WindowAll(q, x.time, end);
    TieGenerates(x, y, end);
  }

  lemma TieGenerates(x: Reading, y: Reading, end: real)
    requires SolarTie(x, y, end)
    ensures Summary(Rows(Spans([x, y], end))).generated > 0.0 == Summary(Rows(Spans([y, x], end))).generated
  {
    TieEnergy(x, y, end);
    TieEnergy(y, x, end);
    SomeEnergy(y.solar, Duration(y.time, end));
    NoEnergy(Duration(x.time, end), y.solar);
    NoEnergy(0.0, x.solar);
  }

  lemma SomeEnergy(p: real, d: real)
    requires p > 0.0 && d > 0.0
    ensures Kwh(p, d) > 0.0
  {
    assert Hours(d) > 0.0;
  }

  lemma NoEnergy(d: real, p: real)
    ensures Kwh(0.0, d) == 0.0 && Kwh(p, 0.0) == 0.0
  {}
}
