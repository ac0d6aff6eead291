/**
 * The identity grammar: a house is {grid}-house{N}, its meter is "meter-" + house. The grammar
 * makes a house id determine its grid and meter, and keeps all Redis keys apart.
 */
module Identity {
  import opened Common
  import opened Domain

  const MAX_GRID_ID_LEN := 32
  const MAX_HOUSE_DIGITS := 10
  const MAX_ASSET_ID_LEN := 64

  predicate IsLowerAlnum(c: char) { 'a' <= c <= 'z' || '0' <= c <= '9' }
  predicate IsDigit(c: char) { '0' <= c <= '9' }
  predicate IsAssetIdChar(c: char) { 'a' <= c <= 'z' || 'A' <= c <= 'Z' || '0' <= c <= '9' || c == '_' || c == '-' }

  ghost predicate ValidGrid(g: string) {
    1 <= |g| <= 32 && forall i :: 0 <= i < |g| ==> 'a' <= g[i] <= 'z' || '0' <= g[i] <= '9'
  }

  /** house == grid + "-house" + N with one to ten digits. */
  ghost predicate ValidHouse(h: string, g: string) {
    exists n: string ::
      && h == g + "-house" + n
      && 1 <= |n| <= 10
      && forall i :: 0 <= i < |n| ==> '0' <= n[i] <= '9'
  }

  ghost predicate ValidMeter(m: string, h: string) {
    m == "meter-" + h
  }

  ghost predicate ValidAssetId(a: string) {
    && 1 <= |a| <= 64
    && forall i :: 0 <= i < |a| ==>
         'a' <= a[i] <= 'z' || 'A' <= a[i] <= 'Z' || '0' <= a[i] <= '9' || a[i] == '_' || a[i] == '-'
  }

  // ---------------------------------------------------------------------------------------
  // The validators, as written

  method ValidateGridId(g: string) returns (ok: bool)
    ensures ok <==> ValidGrid(g)
  {
    if g == "" || |g| > MAX_GRID_ID_LEN { return false; }
    for i := 0 to |g|
      invariant forall j :: 0 <= j < i ==> IsLowerAlnum(g[j])
    {
      if !IsLowerAlnum(g[i]) { return false; }
    }
    return true;
  }

  /** Rules out a house once its digits are pinned down. */
  lemma HouseShape(h: string, g: string, n: string)
    requires h == g + "-house" + n
    ensures ValidHouse(h, g) <==> 0 < |n| <= MAX_HOUSE_DIGITS && AllDigits(n)
  {
    if ValidHouse(h, g) {
      var m: string :| h == g + "-house" + m && 0 < |m| <= MAX_HOUSE_DIGITS && AllDigits(m);
      assert n == h[|g| + 6..] == m;
    }
  }

  lemma NeedsGridAndDash(h: string, g: string)
    requires !(g <= h) || |h| <= |g| || h[|g|] != '-'
    ensures !ValidHouse(h, g)
  {}

  lemma NeedsHouseWord(h: string, g: string)
    requires |h| > |g| && !("house" <= h[|g| + 1..])
    ensures !ValidHouse(h, g)
  {}

  lemma HouseParts(h: string, g: string)
    requires g <= h && |h| > |g| && h[|g|] == '-' && "house" <= h[|g| + 1..]
    ensures h == g + "-house" + h[|g| + 6..]
  {}

  predicate AllDigits(s: string) { forall i :: 0 <= i < |s| ==> IsDigit(s[i]) }

  method CheckDigits(digits: string) returns (ok: bool)
    ensures ok <==> 0 < |digits| <= MAX_HOUSE_DIGITS && AllDigits(digits)
  {
    if digits == "" || |digits| > MAX_HOUSE_DIGITS { return false; }
    for i := 0 to |digits|
      invariant forall j :: 0 <= j < i ==> IsDigit(digits[j])
    {
      if !IsDigit(digits[i]) { return false; }
    }
    return true;
  }

  method ValidateHouseId(h: string, g: string) returns (ok: bool)
    ensures ok <==> ValidHouse(h, g)
  {
    if h == "" || !(g <= h) || |h| <= |g| || h[|g|] != '-' {
      NeedsGridAndDash(h, g);
      return false;
    }
    if !("house" <= h[|g| + 1..]) {
      NeedsHouseWord(h, g);
      return false;
    }
    HouseParts(h, g);
    HouseShape(h, g, h[|g| + 6..]);
    ok := CheckDigits(h[|g| + 6..]);
  }

  method ValidateMeterId(m: string, h: string) returns (ok: bool)
    ensures ok <==> ValidMeter(m, h)
  {
    if m == "" { return false; }
    assert ("meter-" + h)[6..] == h;
    if !("meter-" <= m) || m[6..] != h { return false; }
    assert m == m[..6] + m[6..];
    return true;
  }

  method ValidateAssetId(a: string) returns (ok: bool)
    ensures ok <==> ValidAssetId(a)
  {
    if a == "" || |a| > MAX_ASSET_ID_LEN { return false; }
    for i := 0 to |a|
      invariant forall j :: 0 <= j < i ==> IsAssetIdChar(a[j])
    {
      if !IsAssetIdChar(a[i]) { return false; }
    }
    return true;
  }

  /** The three device classes by their names. */
  ghost predicate ClassNamed(s: string, class_: DeviceClass) {
    || (s == "consumer" && class_ == Consumer)
    || (s == "residential_prosumer" && class_ == ResidentialProsumer)
    || (s == "commercial" && class_ == Commercial)
  }

  function DeviceClassOf(s: string): Option<DeviceClass> {
    if s == "consumer" then Some(Consumer)
    else if s == "residential_prosumer" then Some(ResidentialProsumer)
    else if s == "commercial" then Some(Commercial)
    else None
  }

  /** The identity rules together: what provisioning and both decoders accept. */
  ghost predicate ValidIdentity(g: string, h: string, m: string) {
    ValidGrid(g) && ValidHouse(h, g) && ValidMeter(m, h)
  }

  method ValidateHouseIdentity(g: string, h: string, m: string, class_: string) returns (res: Option<DeviceClass>)
    ensures res == if ValidIdentity(g, h, m) then DeviceClassOf(class_) else None
    ensures res.Some? ==> ClassNamed(class_, res.value)
    ensures res.None? <==> !ValidIdentity(g, h, m) || class_ !in {"consumer", "residential_prosumer", "commercial"}
  {
    var grid := ValidateGridId(g);
    if !grid { return None; }
    var house := ValidateHouseId(h, g);
    if !house { return None; }
    var meter := ValidateMeterId(m, h);
    if !meter { return None; }
    return DeviceClassOf(class_);
  }

  // ---------------------------------------------------------------------------------------
  // What the grammar determines

  /** A valid house id has its first dash right after the grid, so it names one grid and one meter. */
  lemma HouseDeterminesIdentity(g: string, g': string, h: string, m: string, m': string)
    requires ValidIdentity(g, h, m) && ValidIdentity(g', h, m')
    ensures g == g' && m == m'
  {
    GridIsPrefix(h, g);
    GridIsPrefix(h, g');
  }

  lemma GridIsPrefix(h: string, g: string)
    requires ValidHouse(h, g)
    ensures |h| > |g| && h[..|g|] == g && h[|g|] == '-'
  {}

  lemma MeterDeterminesHouse(g: string, h: string, g': string, h': string, m: string)
    requires ValidIdentity(g, h, m) && ValidIdentity(g', h', m)
    ensures h == h'
  {
    assert m[6..] == h && m[6..] == h';
  }

  ghost predicate NoColon(s: string) {
    forall i :: 0 <= i < |s| ==> s[i] != ':'
  }

  lemma ValidHasNoColon(g: string, h: string)
    requires ValidGrid(g) && ValidHouse(h, g)
    ensures NoColon(g) && NoColon(h)
  {}

  // ---------------------------------------------------------------------------------------
  // Redis keys

  function MeterLatestKey(g: string, h: string): string { "meter:" + g + ":" + h + ":latest" }
  function HouseStatusKey(h: string): string { "house:" + h + ":status" }
  function GridHousesKey(g: string): string { "grid:" + g + ":houses" }

  /** The keys as they are spelled. */
  lemma KeyTexts()
    ensures MeterLatestKey("g1", "g1-house2") == "meter:g1:g1-house2:latest"
    ensures HouseStatusKey("g1-house2") == "house:g1-house2:status"
    ensures GridHousesKey("g1") == "grid:g1:houses"
  {}

  /** Splitting at the first colon is unambiguous. */
  lemma FirstColon(a: string, b: string, a': string, b': string)
    requires NoColon(a) && NoColon(a') && a + ":" + b == a' + ":" + b'
    ensures a == a' && b == b'
  {
    var s, s' := a + ":" + b, a' + ":" + b';
    assert s[|a|] == ':' && s'[|a'|] == ':';
    assert forall i :: 0 <= i < |a| ==> s[i] == a[i];
    assert forall i :: 0 <= i < |a'| ==> s'[i] == a'[i];
    assert |a| == |a'|;
    assert s[..|a|] == a && s'[..|a'|] == a';
    assert s[|a| + 1..] == b && s'[|a'| + 1..] == b';
  }

  lemma LatestKeysDistinct(g: string, h: string, g': string, h': string)
    requires NoColon(g) && NoColon(h) && NoColon(g') && NoColon(h')
    requires MeterLatestKey(g, h) == MeterLatestKey(g', h')
    ensures g == g' && h == h'
  {
    var tail, tail' := h + ":" + "latest", h' + ":" + "latest";
    assert MeterLatestKey(g, h) == "meter" + ":" + (g + ":" + tail);
    assert MeterLatestKey(g', h') == "meter" + ":" + (g' + ":" + tail');
    FirstColon("meter", g + ":" + tail, "meter", g' + ":" + tail');
    FirstColon(g, tail, g', tail');
    FirstColon(h, "latest", h', "latest");
  }

  lemma WrappedKeysDistinct(family: string, x: string, x': string, suffix: string)
    requires NoColon(family) && NoColon(x) && NoColon(x')
    requires family + ":" + x + ":" + suffix == family + ":" + x' + ":" + suffix
    ensures x == x'
  {
    assert family + ":" + x + ":" + suffix == family + ":" + (x + ":" + suffix);
    assert family + ":" + x' + ":" + suffix == family + ":" + (x' + ":" + suffix);
    FirstColon(family, x + ":" + suffix, family, x' + ":" + suffix);
    FirstColon(x, suffix, x', suffix);
  }

  lemma StatusKeysDistinct(h: string, h': string)
    requires NoColon(h) && NoColon(h') && HouseStatusKey(h) == HouseStatusKey(h')
    ensures h == h'
  {
    assert HouseStatusKey(h) == "house" + ":" + h + ":" + "status";
    assert HouseStatusKey(h') == "house" + ":" + h' + ":" + "status";
    WrappedKeysDistinct("house", h, h', "status");
  }

  lemma GridKeysDistinct(g: string, g': string)
    requires NoColon(g) && NoColon(g') && GridHousesKey(g) == GridHousesKey(g')
    ensures g == g'
  {
    assert GridHousesKey(g) == "grid" + ":" + g + ":" + "houses";
    assert GridHousesKey(g') == "grid" + ":" + g' + ":" + "houses";
    WrappedKeysDistinct("grid", g, g', "houses");
  }

  lemma FamiliesApart(g: string, h: string, g': string, h': string)
    ensures MeterLatestKey(g, h) != HouseStatusKey(h') && MeterLatestKey(g, h) != GridHousesKey(g')
    ensures HouseStatusKey(h) != GridHousesKey(g')
  {
    assert MeterLatestKey(g, h)[0] == 'm' && HouseStatusKey(h')[0] == 'h' && GridHousesKey(g')[0] == 'g';
    assert HouseStatusKey(h)[0] == 'h';
  }

  /** Keys of different houses or grids differ, and no key of one family is a key of another. */
  lemma KeysDistinct(g: string, h: string, g': string, h': string)
    requires ValidGrid(g) && ValidHouse(h, g) && ValidGrid(g') && ValidHouse(h', g')
    ensures MeterLatestKey(g, h) == MeterLatestKey(g', h') <==> h == h'
    ensures HouseStatusKey(h) == HouseStatusKey(h') <==> h == h'
    ensures GridHousesKey(g) == GridHousesKey(g') <==> g == g'
    ensures MeterLatestKey(g, h) != HouseStatusKey(h') && MeterLatestKey(g, h) != GridHousesKey(g')
    ensures HouseStatusKey(h) != GridHousesKey(g')
  {
    ValidHasNoColon(g, h);
    ValidHasNoColon(g', h');
    FamiliesApart(g, h, g', h');
    if h == h' { HouseDeterminesIdentity(g, g', h, "meter-" + h, "meter-" + h); }
    if MeterLatestKey(g, h) == MeterLatestKey(g', h') { LatestKeysDistinct(g, h, g', h'); }
    if HouseStatusKey(h) == HouseStatusKey(h') { StatusKeysDistinct(h, h'); }
    if GridHousesKey(g) == GridHousesKey(g') { GridKeysDistinct(g, g'); }
  }

  /** Without the grammar the latest keys are ambiguous. */
  lemma UnvalidatedKeysCollide()
    ensures MeterLatestKey("a:b", "c") == MeterLatestKey("a", "b:c")
  {}
}
