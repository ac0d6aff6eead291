/** Byte-wise string order, sorted listings of finite id sets and keyset pages over them. */
module Ordering {

  /** Strict lexicographic order, as used by ORDER BY and by the keyset filters. */
  predicate Less(a: string, b: string) {
    if b == "" then false
    else if a == "" then true
    else if a[0] != b[0] then a[0] < b[0]
    else Less(a[1..], b[1..])
  }

  /** a and b agree before k, where a ends or has the smaller character. */
  ghost predicate ComesFirst(a: string, b: string, k: nat) {
    k <= |a| && k < |b| && a[..k] == b[..k] && (k == |a| || a[k] < b[k])
  }

  lemma {:induction false} LessExact(a: string, b: string)
    ensures Less(a, b) <==> exists k: nat :: ComesFirst(a, b, k)
  {
    if b != "" && a != "" && a[0] == b[0] {
      LessExact(a[1..], b[1..]);
      if k: nat :| ComesFirst(a[1..], b[1..], k) {
        assert a[..k + 1] == [a[0]] + a[1..][..k] && b[..k + 1] == [b[0]] + b[1..][..k];
        assert ComesFirst(a, b, k + 1);
      }
      if k: nat :| ComesFirst(a, b, k) {
        assert a[1..][..k - 1] == a[..k][1..] && b[1..][..k - 1] == b[..k][1..];
        assert ComesFirst(a[1..], b[1..], k - 1);
      }
    } else if b != "" {
      if Less(a, b) { assert ComesFirst(a, b, 0); }
      if k: nat :| ComesFirst(a, b, k) {
        if k > 0 { assert a[..k][0] == b[..k][0]; }
      }
    }
  }

  lemma {:induction false} LessIrreflexive(a: string)
    ensures !Less(a, a)
  {
    if a != "" { LessIrreflexive(a[1..]); }
  }

  lemma {:induction false} LessTransitive(a: string, b: string, c: string)
    requires Less(a, b) && Less(b, c)
    ensures Less(a, c)
  {
    if a != "" && a[0] == b[0] == c[0] {
      LessTransitive(a[1..], b[1..], c[1..]);
    }
  }

  lemma {:induction false} LessTotal(a: string, b: string)
    ensures a == b || Less(a, b) || Less(b, a)
  {
    if a != "" && b != "" && a[0] == b[0] {
      LessTotal(a[1..], b[1..]);
      assert a == [a[0]] + a[1..] && b == [b[0]] + b[1..];
    }
  }

  lemma LessAsymmetric(a: string, b: string)
    requires Less(a, b)
    ensures !Less(b, a)
  {}

  /** Strictly ascending, hence free of duplicates. */
  ghost predicate Ascending(ids: seq<string>) {
    forall i, j :: 0 <= i < j < |ids| ==> Less(ids[i], ids[j])
  }

  predicate IsLeast(m: string, s: set<string>) {
    m in s && forall y <- s :: y == m || Less(m, y)
  }

  lemma {:induction false} LeastExists(s: set<string>)
    requires s != {}
    ensures exists m :: IsLeast(m, s)
    ensures forall m, n :: IsLeast(m, s) && IsLeast(n, s) ==> m == n
  {
    forall m, n | IsLeast(m, s) && IsLeast(n, s) ensures m == n {
      if m != n { LessAsymmetric(m, n); }
    }
    var x :| x in s;
    if s == {x} {
      assert IsLeast(x, s);
    } else {
      LeastExists(s - {x});
      var rest :| IsLeast(rest, s - {x});
      LessTotal(x, rest);
      var m := if Less(x, rest) then x else rest;
      forall y <- s ensures y == m || Less(m, y) {
        if y != x && y != rest && m == x { LessTransitive(x, rest, y); }
      }
      assert IsLeast(m, s);
    }
  }

  /** The ids of a finite table in ascending order: what ORDER BY returns. */
  function Listing(s: set<string>): seq<string> {
    if s == {} then []
    else
      LeastExists(s);
      var m :| IsLeast(m, s);
      [m] + Listing(s - {m})
  }

  lemma {:induction false} ListingSorted(s: set<string>)
    ensures Ascending(Listing(s))
    ensures forall x :: x in Listing(s) <==> x in s
    ensures |Listing(s)| == |s|
  {
    if s != {} {
      var l := Listing(s);
      ListingSorted(s - {l[0]});
    }
  }

  /** An ascending sequence is determined by its members. */
  lemma {:induction false} AscendingUnique(a: seq<string>, b: seq<string>)
    requires Ascending(a) && Ascending(b)
    requires forall x :: x in a <==> x in b
    ensures a == b
  {
    if a == [] {
      assert forall i :: 0 <= i < |b| ==> b[i] in b;
    } else {
      assert a[0] in a && b != [] && b[0] in b;
      if a[0] != b[0] {
        var i :| 0 <= i < |b| && b[i] == a[0];
        var j :| 0 <= j < |a| && a[j] == b[0];
        LessAsymmetric(b[0], a[0]);
        assert false;
      }
      forall x ensures x in a[1..] <==> x in b[1..] {
        LessIrreflexive(x);
        if x in a[1..] { assert x in a; assert x != a[0]; }
        if x in b[1..] { assert x in b; assert x != b[0]; }
      }
      AscendingUnique(a[1..], b[1..]);
    }
  }

  /** WHERE id > after ORDER BY id LIMIT limit. */
  function Page(ids: set<string>, after: string, limit: nat): seq<string> {
    var all := Listing(set x <- ids | Less(after, x));
    if |all| <= limit then all else all[..limit]
  }

  /** What the keyset query promises: the `limit` smallest ids after the cursor, ascending. */
  ghost predicate IsPage(page: seq<string>, ids: set<string>, after: string, limit: nat) {
    && Ascending(page)
    && |page| <= limit
    && (forall x <- page :: x in ids && Less(after, x))
    && (forall x <- ids :: Less(after, x) && x !in page ==>
                             |page| == limit && forall y <- page :: Less(y, x))
  }

  lemma PageIsPage(ids: set<string>, after: string, limit: nat)
    ensures IsPage(Page(ids, after, limit), ids, after, limit)
  {
    var past := set x <- ids | Less(after, x);
    var all := Listing(past);
    var page := Page(ids, after, limit);
    ListingSorted(past);
    forall x <- page ensures x in ids && Less(after, x) {
      assert x in all;
    }
    forall x <- ids | Less(after, x) && x !in page
      ensures |page| == limit && forall y <- page :: Less(y, x)
    {
      assert x in past;
      var k :| 0 <= k < |all| && all[k] == x;
      assert |all| > limit && k >= limit;
      forall y <- page ensures Less(y, x) {
        var j :| 0 <= j < |page| && page[j] == y;
        assert all[j] == y;
      }
    }
  }
}
