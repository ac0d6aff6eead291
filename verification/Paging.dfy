/**
 * Listing houses page by page: the opaque page token (unpadded URL-safe base64, section 5 of
 * RFC 4648), the size-plus-one lookahead, and what a client gets by following the tokens.
 * A Go string is a byte sequence; here it is a Dafny string whose characters are below 256.
 */
module Paging {
  import opened Common
  import opened Ordering

  // ---------------------------------------------------------------------------------------
  // Unpadded URL-safe base64

  ghost predicate IsBytes(s: string) {
    forall i :: 0 <= i < |s| ==> s[i] as int < 256
  }

  function Symbol(v: int): char
    requires 0 <= v < 64
  {
    if v < 26 then (v + 65) as char
    else if v < 52 then (v + 71) as char
    else if v < 62 then (v - 4) as char
    else if v == 62 then '-' else '_'
  }

  /** The URL-safe alphabet: A to Z, a to z, 0 to 9, then '-' and '_'. */
  lemma SymbolExact(v: int)
    requires 0 <= v < 64
    ensures Symbol(0) == 'A' && Symbol(25) == 'Z' && Symbol(26) == 'a' && Symbol(51) == 'z'
    ensures Symbol(52) == '0' && Symbol(61) == '9' && Symbol(62) == '-' && Symbol(63) == '_'
    ensures v < 61 && v != 25 && v != 51 ==> Symbol(v + 1) as int == Symbol(v) as int + 1
  {}

  function SymbolValue(c: char): Option<int> {
    if 'A' <= c <= 'Z' then Some(c as int - 65)
    else if 'a' <= c <= 'z' then Some(c as int - 71)
    else if '0' <= c <= '9' then Some(c as int + 4)
    else if c == '-' then Some(62)
    else if c == '_' then Some(63)
    else None
  }

  /** The four 6-bit groups of three bytes; a short tail is encoded as if followed by zero bytes. */
  function Groups(a: int, b: int, c: int): (int, int, int, int)
    requires 0 <= a < 256 && 0 <= b < 256 && 0 <= c < 256
  {
    (a / 4, a % 4 * 16 + b / 16, b % 16 * 4 + c / 64, c % 64)
  }

  function Byte0(p: int, q: int): int { (p * 4 + q / 16) % 256 }
  function Byte1(q: int, r: int): int { (q % 16 * 16 + r / 4) % 256 }
  function Byte2(r: int, t: int): int { (r % 4 * 64 + t) % 256 }

  /** Three bytes and their four groups are the same 24-bit number, most significant first. */
  lemma GroupsExact(a: int, b: int, c: int)
    requires 0 <= a < 256 && 0 <= b < 256 && 0 <= c < 256
    ensures var (p, q, r, t) := Groups(a, b, c);
            p * 262144 + q * 4096 + r * 64 + t == a * 65536 + b * 256 + c
  {
    assert a == a / 4 * 4 + a % 4 && b == b / 16 * 16 + b % 16 && c == c / 64 * 64 + c % 64;
  }

  lemma Sixteens(y: int, u: int)
    requires 0 <= u < 16
    ensures (y * 16 + u) / 16 == y && (y * 16 + u) % 16 == u
  {}

  lemma Fours(v: int, m: int)
    requires 0 <= m < 4
    ensures (v * 4 + m) / 4 == v && (v * 4 + m) % 4 == m
  {}

  lemma FirstByte(a: int, y: int, u: int)
    requires 0 <= a < 256 && y == a % 4 && 0 <= u < 16
    ensures Byte0(a / 4, y * 16 + u) == a
  {
    Sixteens(y, u);
  }

  lemma SecondByte(y: int, b: int, m: int)
    requires 0 <= b < 256 && 0 <= y && 0 <= m < 4
    ensures Byte1(y * 16 + b / 16, b % 16 * 4 + m) == b
  {
    Sixteens(y, b / 16);
    Fours(b % 16, m);
  }

  lemma ThirdByte(v: int, c: int)
    requires 0 <= c < 256 && 0 <= v
    ensures Byte2(v * 4 + c / 64, c % 64) == c
  {
    Fours(v, c / 64);
  }

  lemma GroupsRoundTrip(a: int, b: int, c: int)
    requires 0 <= a < 256 && 0 <= b < 256 && 0 <= c < 256
    ensures var (p, q, r, t) := Groups(a, b, c);
            && 0 <= p < 64 && 0 <= q < 64 && 0 <= r < 64 && 0 <= t < 64
            && Byte0(p, q) == a && Byte1(q, r) == b && Byte2(r, t) == c
  {
    FirstByte(a, a % 4, b / 16);
    SecondByte(a % 4, b, c / 64);
    ThirdByte(b % 16, c);
  }

  function Encode(s: string): string
    requires IsBytes(s)
  {
    if s == "" then ""
    else
      var a := s[0] as int;
      var b := if |s| > 1 then s[1] as int else 0;
      var c := if |s| > 2 then s[2] as int else 0;
      GroupsRoundTrip(a, b, c);
      var (p, q, r, t) := Groups(a, b, c);
      if |s| == 1 then [Symbol(p), Symbol(q)]
      else if |s| == 2 then [Symbol(p), Symbol(q), Symbol(r)]
      else [Symbol(p), Symbol(q), Symbol(r), Symbol(t)] + Encode(s[3..])
  }

  /** The decoder ignores line breaks wherever they stand. */
  function Unwrap(s: string): string {
    if s == "" then ""
    else (if s[0] == '\r' || s[0] == '\n' then [] else [s[0]]) + Unwrap(s[1..])
  }

  /** Decodes symbols four at a time; unused trailing bits are not checked. */
  function DecodeSymbols(s: string): Option<string> {
    if s == "" then Some("")
    else if |s| == 1 then None
    else
      var p, q := SymbolValue(s[0]), SymbolValue(s[1]);
      var r, t := if |s| > 2 then SymbolValue(s[2]) else Some(0), if |s| > 3 then SymbolValue(s[3]) else Some(0);
      if p.None? || q.None? || r.None? || t.None? then None
      else
        var a := Byte0(p.value, q.value) as char;
        var b := Byte1(q.value, r.value) as char;
        var c := Byte2(r.value, t.value) as char;
        if |s| == 2 then Some([a])
        else if |s| == 3 then Some([a, b])
        else
          match DecodeSymbols(s[4..])
          case Some(rest) => Some([a, b, c] + rest)
          case None => None
  }

  function Decode(s: string): Option<string> {
    DecodeSymbols(Unwrap(s))
  }

  lemma {:induction false} UnwrapConcat(a: string, b: string)
    ensures Unwrap(a + b) == Unwrap(a) + Unwrap(b)
  {
    if a == "" {
      assert a + b == b;
    } else {
      assert (a + b)[0] == a[0] && (a + b)[1..] == a[1..] + b;
      UnwrapConcat(a[1..], b);
    }
  }

  /** A line break anywhere in a token makes no difference. */
  lemma BreaksIgnored(a: string, b: string, c: char)
    requires c == '\r' || c == '\n'
    ensures Decode(a + [c] + b) == Decode(a + b)
  {
    UnwrapConcat(a, b);
    UnwrapConcat(a + [c], b);
    UnwrapConcat(a, [c]);
    assert Unwrap([c]) == [] && Unwrap(a) + [] == Unwrap(a);
  }

  lemma SymbolRoundTrip(v: int)
    requires 0 <= v < 64
    ensures SymbolValue(Symbol(v)) == Some(v)
    ensures Symbol(v) != '\r' && Symbol(v) != '\n'
  {}

  predicate NoBreaks(s: string) {
    forall i :: 0 <= i < |s| ==> s[i] != '\r' && s[i] != '\n'
  }

  lemma {:induction false} UnwrapKeeps(s: string)
    requires NoBreaks(s)
    ensures Unwrap(s) == s
  {
    if s != "" {
      UnwrapKeeps(s[1..]);
      assert s == [s[0]] + s[1..];
    }
  }

  lemma {:induction false} EncodedHasNoBreaks(s: string)
    requires IsBytes(s)
    ensures NoBreaks(Encode(s))
  {
    forall v | 0 <= v < 64 ensures Symbol(v) != '\r' && Symbol(v) != '\n' { SymbolRoundTrip(v); }
    if |s| >= 3 { EncodedHasNoBreaks(s[3..]); }
  }

  function Quad(g: (int, int, int, int)): string
    requires 0 <= g.0 < 64 && 0 <= g.1 < 64 && 0 <= g.2 < 64 && 0 <= g.3 < 64
  {
    [Symbol(g.0), Symbol(g.1), Symbol(g.2), Symbol(g.3)]
  }

  /** Four symbols decode to the three bytes they stand for, then the rest. */
  lemma QuadDecodes(p: int, q: int, r: int, t: int, e: string, rest: string)
    requires 0 <= p < 64 && 0 <= q < 64 && 0 <= r < 64 && 0 <= t < 64
    requires DecodeSymbols(e) == Some(rest)
    ensures DecodeSymbols(Quad((p, q, r, t)) + e)
            == Some([Byte0(p, q) as char, Byte1(q, r) as char, Byte2(r, t) as char] + rest)
  {
    SymbolRoundTrip(p); SymbolRoundTrip(q); SymbolRoundTrip(r); SymbolRoundTrip(t);
    assert (Quad((p, q, r, t)) + e)[4..] == e;
  }

  lemma QuadRoundTrip(s: string, p: int, q: int, r: int, t: int, e: string)
    requires |s| >= 3 && DecodeSymbols(e) == Some(s[3..])
    requires 0 <= p < 64 && 0 <= q < 64 && 0 <= r < 64 && 0 <= t < 64
    requires Byte0(p, q) == s[0] as int && Byte1(q, r) == s[1] as int && Byte2(r, t) == s[2] as int
    ensures DecodeSymbols(Quad((p, q, r, t)) + e) == Some(s)
  {
    QuadDecodes(p, q, r, t, e, s[3..]);
    assert s == [s[0], s[1], s[2]] + s[3..];
  }

  lemma GroupRoundTrip(s: string, e: string)
    requires IsBytes(s) && |s| >= 3 && DecodeSymbols(e) == Some(s[3..])
    ensures var g := Groups(s[0] as int, s[1] as int, s[2] as int);
            && 0 <= g.0 < 64 && 0 <= g.1 < 64 && 0 <= g.2 < 64 && 0 <= g.3 < 64
            && DecodeSymbols(Quad(g) + e) == Some(s)
  {
    var g := Groups(s[0] as int, s[1] as int, s[2] as int);
    GroupsRoundTrip(s[0] as int, s[1] as int, s[2] as int);
    QuadRoundTrip(s, g.0, g.1, g.2, g.3, e);
    assert g == (g.0, g.1, g.2, g.3);
  }

  lemma OneByteGroup(a: int)
    requires 0 <= a < 256
    ensures 0 <= a / 4 < 64 && 0 <= a % 4 * 16 < 64 && Byte0(a / 4, a % 4 * 16) == a
  {
    assert a == a / 4 * 4 + a % 4;
    assert a % 4 * 16 / 16 == a % 4;
  }

  lemma EncodeOne(s: string, p: int, q: int)
    requires IsBytes(s) && |s| == 1 && p == s[0] as int / 4 && q == s[0] as int % 4 * 16
    ensures 0 <= p < 64 && 0 <= q < 64
    ensures Encode(s) == [Symbol(p), Symbol(q)]
  {
  }

  lemma DecodeOne(p: int, q: int)
    requires 0 <= p < 64 && 0 <= q < 64
    ensures DecodeSymbols([Symbol(p), Symbol(q)]) == Some([Byte0(p, q) as char])
  {}

  lemma OneByteRoundTrip(s: string)
    requires IsBytes(s) && |s| == 1
    ensures DecodeSymbols(Encode(s)) == Some(s)
  {
    var p, q := s[0] as int / 4, s[0] as int % 4 * 16;
    EncodeOne(s, p, q);
    DecodeOne(p, q);
    OneByteGroup(s[0] as int);
    assert s == [s[0]];
  }

  lemma TwoByteRoundTrip(s: string)
    requires IsBytes(s) && |s| == 2
    ensures DecodeSymbols(Encode(s)) == Some(s)
  {
    var a, b := s[0] as int, s[1] as int;
    GroupsRoundTrip(a, b, 0);
    var (p, q, r, t) := Groups(a, b, 0);
    SymbolRoundTrip(p); SymbolRoundTrip(q); SymbolRoundTrip(r);
    assert Byte0(p, q) == a && Byte1(q, r) == b;
    assert s == [s[0], s[1]];
  }

  lemma {:induction false} SymbolsRoundTrip(s: string)
    requires IsBytes(s)
    ensures DecodeSymbols(Encode(s)) == Some(s)
  {
    if |s| == 1 {
      OneByteRoundTrip(s);
    } else if |s| == 2 {
      TwoByteRoundTrip(s);
    } else if s != "" {
      SymbolsRoundTrip(s[3..]);
      GroupRoundTrip(s, Encode(s[3..]));
    }
  }

  // ---------------------------------------------------------------------------------------
  // Page tokens and page sizes

  datatype Result<+T> = Ok(value: T) | Invalid(field: string) | Unavailable

  const DEFAULT_PAGE_SIZE := 50
  const MAX_PAGE_SIZE := 200

  function PageSize(requested: int): Result<nat> {
    if requested < 0 then Invalid("page_size")
    else if requested == 0 then Ok(DEFAULT_PAGE_SIZE)
    else if requested > MAX_PAGE_SIZE then Ok(MAX_PAGE_SIZE)
    else Ok(requested)
  }

  function EncodeToken(houseId: string): string
    requires IsBytes(houseId)
  {
    Encode(houseId)
  }

  function DecodeToken(token: string): Result<string> {
    if token == "" then Ok("")
    else match Decode(token)
         case Some(id) => if id == "" then Invalid("page_token") else Ok(id)
         case None => Invalid("page_token")
  }

  /** Every token the service hands out is read back as the house id it stands for. */
  lemma TokenRoundTrip(houseId: string)
    requires IsBytes(houseId)
    ensures DecodeToken(EncodeToken(houseId)) == Ok(houseId)
    ensures houseId != "" <==> EncodeToken(houseId) != ""
  {
    EncodedHasNoBreaks(houseId);
    UnwrapKeeps(Encode(houseId));
    SymbolsRoundTrip(houseId);
  }

  /** Distinct houses never share a token. */
  lemma TokensDistinct(a: string, b: string)
    requires IsBytes(a) && IsBytes(b)
    ensures EncodeToken(a) == EncodeToken(b) <==> a == b
  {
    TokenRoundTrip(a);
    TokenRoundTrip(b);
  }

  // ---------------------------------------------------------------------------------------
  // ListHouses

  datatype HouseRow = HouseRow(gridId: string, owner: Option<string>)
  datatype Liveness = Online(lastHeartbeat: int) | Offline | Broken
  datatype House = House(houseId: string, row: HouseRow, liveness: Liveness)
  datatype Listed = Listed(houses: seq<House>, next: string)

  /** The owner and grid filters; an empty filter admits every house. */
  function Matching(table: map<string, HouseRow>, owner: string, grid: string): set<string> {
    set h <- table | (owner == "" || table[h].owner == Some(owner)) && (grid == "" || table[h].gridId == grid)
  }

  /** One page of ids and the token of the next page ("" on the last one). */
  function ReadPage(ids: set<string>, after: string, size: nat): (seq<string>, string)
    requires size > 0 && forall x <- ids :: IsBytes(x)
  {
    var rows := Page(ids, after, size + 1);
    if |rows| > size then
      PageIsPage(ids, after, size + 1);
      (rows[..size], EncodeToken(rows[size - 1]))
    else (rows, "")
  }

  function StatusOf(status: map<string, Liveness>, id: string): Liveness {
    if id in status then status[id] else Offline
  }

  /** The house ids, each with its row and its liveness. */
  ghost predicate Attached(table: map<string, HouseRow>, status: map<string, Liveness>, ids: seq<string>,
                           houses: seq<House>) {
    && |houses| == |ids|
    && forall i :: 0 <= i < |ids| ==>
         ids[i] in table && houses[i] == House(ids[i], table[ids[i]], StatusOf(status, ids[i]))
  }

  ghost predicate SomeBroken(status: map<string, Liveness>, ids: seq<string>) {
    exists i :: 0 <= i < |ids| && StatusOf(status, ids[i]).Broken?
  }

  method AttachLiveness(table: map<string, HouseRow>, status: map<string, Liveness>, ids: seq<string>)
    returns (houses: Option<seq<House>>)
    requires forall i :: 0 <= i < |ids| ==> ids[i] in table
    ensures houses.None? <==> SomeBroken(status, ids)
    ensures houses.Some? ==> Attached(table, status, ids, houses.value)
  {
    var out: seq<House> := [];
    for i := 0 to |ids|
      invariant |out| == i
      invariant forall j :: 0 <= j < i ==> !StatusOf(status, ids[j]).Broken?
      invariant forall j :: 0 <= j < i ==> out[j] == House(ids[j], table[ids[j]], StatusOf(status, ids[j]))
    {
      var beat := StatusOf(status, ids[i]);
      if beat.Broken? { return None; }
      out := out + [House(ids[i], table[ids[i]], beat)];
    }
    return Some(out);
  }

  lemma PageWithin(ids: set<string>, after: string, size: nat)
    requires size > 0 && forall x <- ids :: IsBytes(x)
    ensures |ReadPage(ids, after, size).0| <= size
    ensures forall i :: 0 <= i < |ReadPage(ids, after, size).0| ==> ReadPage(ids, after, size).0[i] in ids
  {
    PageIsPage(ids, after, size + 1);
    var rows := Page(ids, after, size + 1);
    assert forall i :: 0 <= i < |rows| ==> rows[i] in rows;
  }

  /** The house has the asked owner and grid; an empty filter asks for nothing. */
  ghost predicate Asked(row: HouseRow, owner: string, grid: string) {
    (owner != "" ==> row.owner == Some(owner)) && (grid != "" ==> row.gridId == grid)
  }

  /** A listed house is a house of the table that was asked for, online exactly when it has a status. */
  ghost predicate Serves(table: map<string, HouseRow>, status: map<string, Liveness>, owner: string, grid: string,
                         h: House) {
    && h.houseId in table && h.row == table[h.houseId] && Asked(h.row, owner, grid)
    && (h.houseId in status ==> h.liveness == status[h.houseId]) && (h.houseId !in status ==> h.liveness == Offline)
  }

  lemma ServedFacts(table: map<string, HouseRow>, status: map<string, Liveness>, owner: string, grid: string,
                    after: string, size: nat, houses: seq<House>)
    requires size > 0 && forall x <- table :: IsBytes(x)
    requires Attached(table, status, ReadPage(Matching(table, owner, grid), after, size).0, houses)
    ensures forall h <- houses :: Serves(table, status, owner, grid, h) && Less(after, h.houseId)
    ensures ReadPage(Matching(table, owner, grid), after, size).1 != "" ==> |houses| == size
    ensures ReadPage(Matching(table, owner, grid), after, size).1 == "" ==>
              forall x <- table :: Asked(table[x], owner, grid) && Less(after, x) ==>
                exists h <- houses :: h.houseId == x
  {
    var ids := Matching(table, owner, grid);
    var (page, next) := ReadPage(ids, after, size);
    var rows := Page(ids, after, size + 1);
    PageIsPage(ids, after, size + 1);
    forall h <- houses ensures Serves(table, status, owner, grid, h) && Less(after, h.houseId) {
      var i :| 0 <= i < |houses| && houses[i] == h;
      assert page[i] == rows[i] && rows[i] in rows;
    }
    if |rows| > size {
      assert rows[size - 1] in rows && Less(after, rows[size - 1]);
      TokenRoundTrip(rows[size - 1]);
    }
    if next == "" {
      forall x <- table | Asked(table[x], owner, grid) && Less(after, x) ensures exists h <- houses :: h.houseId == x {
        assert x in ids && x in page;
        var i :| 0 <= i < |page| && page[i] == x;
        assert houses[i].houseId == x;
      }
    }
  }

  /**
   * The request as served: validate, read one page with lookahead, attach liveness row by row.
   * A Redis error other than "not found" fails the whole call.
   */
  method ListHouses(table: map<string, HouseRow>, status: map<string, Liveness>,
                    owner: string, grid: string, requested: int, token: string)
    returns (res: Result<Listed>)
    requires forall x <- table :: IsBytes(x)
    ensures res.Ok? ==>
              |res.value.houses| <= (if requested == 0 then 50 else if requested > 200 then 200 else requested)
    ensures res.Ok? && res.value.next != "" ==>
              |res.value.houses| == (if requested == 0 then 50 else if requested > 200 then 200 else requested)
    ensures res.Ok? ==> forall h <- res.value.houses :: Serves(table, status, owner, grid, h)
    ensures res.Ok? ==>
              DecodeToken(token).Ok? && forall h <- res.value.houses :: Less(DecodeToken(token).value, h.houseId)
    ensures res.Ok? && res.value.next == "" ==>
              forall x <- table :: Asked(table[x], owner, grid) && Less(DecodeToken(token).value, x) ==>
                exists h <- res.value.houses :: h.houseId == x
    ensures requested < 0 ==> res == Invalid("page_size")
    ensures requested >= 0 && !DecodeToken(token).Ok? ==> res == Invalid("page_token")
    ensures requested >= 0 && DecodeToken(token).Ok? ==>
              var size := PageSize(requested).value;
              var (ids, next) := ReadPage(Matching(table, owner, grid), DecodeToken(token).value, size);
              if SomeBroken(status, ids) then res == Unavailable
              else res.Ok? && res.value.next == next && |ids| <= size && Attached(table, status, ids, res.value.houses)
  {
    var size := PageSize(requested);
    if !size.Ok? { return Invalid("page_size"); }
    var after := DecodeToken(token);
    if !after.Ok? { return Invalid("page_token"); }

    var matching := Matching(table, owner, grid);
    PageWithin(matching, after.value, size.value);
    var (ids, next) := ReadPage(matching, after.value, size.value);
    var houses := AttachLiveness(table, status, ids);
    if houses.None? { return Unavailable; }
    ServedFacts(table, status, owner, grid, after.value, size.value, houses.value);
    return Ok(Listed(houses.value, next));
  }

  // ---------------------------------------------------------------------------------------
  // Following the tokens

  /** One served page: the ids that matched when it was read, what came back, the next token. */
  datatype Read = Read(ids: set<string>, page: seq<string>, next: string)

  /** A client that starts at `token` and follows every token it is given; the table may change between served. */
  ghost predicate Follows(served: seq<Read>, token: string, size: nat)
    requires size > 0
  {
    served == []
    || (
         var r := served[0];
         && (forall x <- r.ids :: IsBytes(x) && x != "")
         && DecodeToken(token).Ok?
         && (r.page, r.next) == ReadPage(r.ids, DecodeToken(token).value, size)
         && (if r.next == "" then |served| == 1 else Follows(served[1..], r.next, size))
       )
  }

  ghost function Collected(served: seq<Read>): seq<string> {
    if served == [] then [] else served[0].page + Collected(served[1..])
  }

  lemma AscendingConcat(after: string, a: seq<string>, b: seq<string>)
    requires Ascending(a) && Ascending(b)
    requires forall x <- a :: Less(after, x)
    requires forall y <- b :: Less(if a == [] then after else a[|a| - 1], y)
    ensures Ascending(a + b) && forall x <- a + b :: Less(after, x)
  {
    forall y <- b ensures Less(after, y) && forall x <- a :: Less(x, y) {
      if a != [] {
        var last := a[|a| - 1];
        assert last in a;
        LessTransitive(after, last, y);
        forall i | 0 <= i < |a| ensures Less(a[i], y) {
          if i < |a| - 1 { LessTransitive(a[i], last, y); }
        }
      }
    }
    forall i, j | 0 <= i < j < |a + b| ensures Less((a + b)[i], (a + b)[j]) {
      if i < |a| <= j { assert a[i] in a && b[j - |a|] in b; }
    }
  }

  /** What one read contributes: rows of its own table past the cursor, in order, and where to resume. */
  ghost predicate PageFacts(r: Read, after: string, size: nat)
    requires size > 0
  {
    && Ascending(r.page)
    && (forall x <- r.page :: x in r.ids && Less(after, x))
    && (r.next == "" ==> forall x <- r.ids :: Less(after, x) ==> x in r.page)
    && (r.next != "" ==>
          && |r.page| == size
          && DecodeToken(r.next) == Ok(r.page[size - 1])
          && forall x <- r.ids :: Less(after, x) && !Less(r.page[size - 1], x) ==> x in r.page)
  }

  lemma ReadPageFacts(r: Read, after: string, size: nat)
    requires size > 0 && forall x <- r.ids :: IsBytes(x) && x != ""
    requires (r.page, r.next) == ReadPage(r.ids, after, size)
    ensures PageFacts(r, after, size)
  {
    var rows := Page(r.ids, after, size + 1);
    PageIsPage(r.ids, after, size + 1);
    if |rows| > size {
      assert rows[size - 1] in rows;
      TokenRoundTrip(rows[size - 1]);
      forall x <- r.ids | Less(after, x) && !Less(r.page[size - 1], x) ensures x in r.page {
        assert r.page[size - 1] in rows;
        assert x in rows;
      }
    }
  }

  /** The same chain, told by what each page holds instead of how it was read. */
  ghost predicate Chain(served: seq<Read>, after: string, size: nat)
    requires size > 0
  {
    served != [] ==>
      && PageFacts(served[0], after, size)
      && if served[0].next == "" then |served| == 1 else Chain(served[1..], served[0].page[size - 1], size)
  }

  lemma {:induction false} FollowsIsChain(served: seq<Read>, token: string, size: nat)
    requires size > 0 && served != [] && Follows(served, token, size)
    ensures Chain(served, DecodeToken(token).value, size)
  {
    var r := served[0];
    ReadPageFacts(r, DecodeToken(token).value, size);
    if r.next != "" && served[1..] != [] { FollowsIsChain(served[1..], r.next, size); }
  }

  /** Houses come back in id order, none twice, none at or before the cursor. */
  lemma {:induction false} CollectedAscending(served: seq<Read>, after: string, size: nat)
    requires size > 0 && Chain(served, after, size)
    ensures Ascending(Collected(served))
    ensures forall x <- Collected(served) :: Less(after, x)
  {
    if served != [] {
      var r := served[0];
      if r.next == "" {
        assert Collected(served) == r.page;
      } else {
        CollectedAscending(served[1..], r.page[size - 1], size);
        AscendingConcat(after, r.page, Collected(served[1..]));
      }
    }
  }

  /** Every house handed out matched the filter when its page was read. */
  lemma {:induction false} CollectedMatched(served: seq<Read>, after: string, size: nat)
    requires size > 0 && Chain(served, after, size)
    ensures forall x <- Collected(served) :: exists i :: 0 <= i < |served| && x in served[i].ids
  {
    if served != [] {
      var r, rest := served[0], served[1..];
      if r.next != "" { CollectedMatched(rest, r.page[size - 1], size); }
      forall x <- Collected(served) ensures exists i :: 0 <= i < |served| && x in served[i].ids {
        if x in r.page {
          assert x in served[0].ids;
        } else {
          assert x in Collected(rest) && rest != [];
          var j :| 0 <= j < |rest| && x in rest[j].ids;
          assert rest[j] == served[j + 1];
        }
      }
    }
  }

  /** A house past the cursor that matched at every read is handed out by the time the tokens end. */
  lemma {:induction false} CollectedComplete(served: seq<Read>, after: string, size: nat, x: string)
    requires size > 0 && served != [] && Chain(served, after, size)
    requires served[|served| - 1].next == ""
    requires forall i :: 0 <= i < |served| ==> x in served[i].ids
    requires Less(after, x)
    ensures x in Collected(served)
  {
    var r := served[0];
    assert x in served[0].ids;
    if r.next != "" && x !in r.page {
      forall i | 0 <= i < |served[1..]| ensures x in served[1..][i].ids { assert served[1..][i] == served[i + 1]; }
      CollectedComplete(served[1..], r.page[size - 1], size, x);
    }
  }

  ghost predicate FullBeforeLast(served: seq<Read>, size: nat) {
    forall i :: 0 <= i < |served| - 1 ==> |served[i].page| == size
  }

  /** Every page but the last is full. */
  lemma {:induction false} PagesFull(served: seq<Read>, after: string, size: nat)
    requires size > 0 && served != [] && Chain(served, after, size)
    ensures FullBeforeLast(served, size)
  {
    if served[1..] != [] { PagesFull(served[1..], served[0].page[size - 1], size); }
  }

  lemma {:induction false} CollectedSize(served: seq<Read>, size: nat)
    requires served != [] && FullBeforeLast(served, size)
    ensures size * (|served| - 1) <= |Collected(served)|
  {
    var rest := served[1..];
    if rest != [] {
      CollectedSize(rest, size);
      var n := |rest|;
      assert size * n == size * (n - 1) + size;
    }
  }

  /** Distinct members of a finite universe number at most its size. */
  lemma {:induction false} AscendingWithin(ids: seq<string>, universe: set<string>)
    requires Ascending(ids) && forall x <- ids :: x in universe
    ensures |ids| <= |universe|
  {
    if ids != [] {
      forall x <- ids[1..] ensures x in universe - {ids[0]} {
        LessIrreflexive(ids[0]);
      }
      AscendingWithin(ids[1..], universe - {ids[0]});
    }
  }

  /**
   * Starting without a token, whatever the table does between pages: houses are listed in id
   * order, none twice and each while it matched; once the tokens end, every house that matched
   * throughout has been listed; and while only finitely many houses ever match, the tokens end.
   */
  lemma ListingComplete(served: seq<Read>, size: nat, universe: set<string>)
    requires size > 0 && served != [] && Follows(served, "", size)
    requires forall i :: 0 <= i < |served| ==> served[i].ids <= universe
    ensures Ascending(Collected(served))
    ensures forall x <- Collected(served) :: exists i :: 0 <= i < |served| && x in served[i].ids
    ensures served[|served| - 1].next == "" ==>
              forall x :: x != "" && (forall i :: 0 <= i < |served| ==> x in served[i].ids) ==> x in Collected(served)
    ensures size * (|served| - 1) <= |universe|
  {
    FollowsIsChain(served, "", size);
    CollectedAscending(served, "", size);
    CollectedMatched(served, "", size);
    PagesFull(served, "", size);
    CollectedSize(served, size);
    AscendingWithin(Collected(served), universe);
    if served[|served| - 1].next == "" {
      forall x | x != "" && (forall i :: 0 <= i < |served| ==> x in served[i].ids) ensures x in Collected(served) {
        CollectedComplete(served, "", size, x);
      }
    }
  }
}
