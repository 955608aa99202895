/** The GetFeature request URL that `download_geojson_file` builds for a WFS
    server (a GeoServer `ows` endpoint) from its parameter dictionary:
    presence checks on `host` and `layer`, then an optional spatial reference
    fragment, an optional property-name list and an optional percent-encoded
    CQL filter, appended to a base URL in that order. */
module WfsUrl {
  import opened Common
  import opened UrlQuote

  /** `srs_code` is an int (an EPSG number) or a string. */
  datatype SrsCode = SrsNumber(n: int) | SrsName(s: string)

  /** The parameter dictionary; `None` is a key that is not in it. */
  datatype WfsParams = WfsParams(
    host: Option<string>,
    layer: Option<string>,
    srsCode: Option<SrsCode>,
    properties: Option<seq<string>>,
    geomField: Option<string>,
    filterProperty: Option<string>,
    filterValues: Option<seq<string>>)

  // Python truthiness of the parameter values: 0, "" and [] are false.

  predicate SrsTruthy(c: SrsCode) {
    match c
    case SrsNumber(n) => n != 0
    case SrsName(s) => s != ""
  }

  predicate Truthy<T>(o: Option<seq<T>>) {
    o.Some? && |o.value| > 0
  }

  const DIGITS: string := "0123456789"

  /** `str(n)` of a non-negative int. */
  function NatString(n: nat): (s: string)
    decreases n
  {
    if n < 10 then [DIGITS[n]] else NatString(n / 10) + [DIGITS[n % 10]]
  }

  /** `str(n)` of an int. */
  function IntString(n: int): (s: string) {
    if n < 0 then "-" + NatString(-n) else NatString(n)
  }

  predicate IsDigit(c: char) {
    '0' <= c <= '9'
  }

  predicate AllDigits(s: string) {
    forall i :: 0 <= i < |s| ==> IsDigit(s[i])
  }

  /** What `int` accepts here: an optional '-' followed by at least one
      decimal digit. */
  predicate IsDecimal(s: string) {
    if s != [] && s[0] == '-' then |s| > 1 && AllDigits(s[1..]) else s != [] && AllDigits(s)
  }

  /** `int(s)` of a string of decimal digits. */
  function ParseNat(s: string): (n: nat)
    requires AllDigits(s)
  {
    if s == [] then 0
    else
      assert IsDigit(s[|s| - 1]);
      ParseNat(s[..|s| - 1]) * 10 + (s[|s| - 1] as int - '0' as int)
  }

  /** `int(s)`. */
  function ParseInt(s: string): (n: int)
    requires IsDecimal(s)
  {
    if s != [] && s[0] == '-' then 0 - ParseNat(s[1..]) else ParseNat(s)
  }

  /** `"{}".format(srs_code)`. */
  function SrsString(c: SrsCode): (s: string) {
    match c
    case SrsNumber(n) => IntString(n)
    case SrsName(s) => s
  }

  function SrsText(p: WfsParams): (t: string) {
    if p.srsCode.Some? && SrsTruthy(p.srsCode.value) then "&srsName=epsg:" + SrsString(p.srsCode.value)
    else ""
  }

  /** The `item_string` loop: every property name followed by a comma. */
  function ItemString(items: seq<string>): (s: string) {
    if items == [] then "" else ItemString(items[..|items| - 1]) + items[|items| - 1] + ","
  }

  /** The geometry field, added after the property names when truthy. */
  function GeomPart(p: WfsParams): (g: string) {
    if p.geomField.Some? && p.geomField.value != "" then p.geomField.value else ""
  }

  function PropertyText(p: WfsParams): (t: string) {
    if Truthy(p.properties) then "&PROPERTYNAME=" + ItemString(p.properties.value) + GeomPart(p)
    else ""
  }

  /** One CQL condition: `P LIKE '%v%'`. */
  function LikeClause(fp: string, v: string): (c: string) {
    fp + " LIKE '%" + v + "%'"
  }

  /** The `filter_text` loop: the first condition, then "OR " and the next
      condition for each later value (with no space before "OR"). */
  function FilterClauses(fp: string, vs: seq<string>): (text: string)
    requires |vs| >= 1
  {
    if |vs| == 1 then LikeClause(fp, vs[0])
    else FilterClauses(fp, vs[..|vs| - 1]) + "OR " + LikeClause(fp, vs[|vs| - 1])
  }

  /** The filter fragment, or the KeyError of `params["filter_values"]` when
      `filter_property` is truthy and `filter_values` is absent. */
  function FilterText(p: WfsParams): (r: Result<string>) {
    if p.filterProperty.Some? && p.filterProperty.value != "" then
      if p.filterValues.None? then Err(KeyError("filter_values"))
      else if |p.filterValues.value| == 0 then Ok("")
      else Ok("&CQL_FILTER=" + Quote(FilterClauses(p.filterProperty.value, p.filterValues.value)))
    else Ok("")
  }

  function BaseUrl(host: string, layer: string): (url: string) {
    "http://" + host + "/geoserver/ows?service=WFS&version=1.0.0&request=GetFeature&typeName="
    + layer + "&outputFormat=json"
  }

  /** The URL `download_geojson_file` requests, or the exception it raises. */
  function RequestUrl(p: WfsParams): (r: Result<string>) {
    if p.host.None? then Err(ValueError("Value for 'host' required"))
    else if p.layer.None? then Err(ValueError("Value for 'layer' required"))
    else if FilterText(p).Err? then Err(FilterText(p).error)
    else Ok(BaseUrl(p.host.value, p.layer.value) + SrsText(p) + PropertyText(p) + FilterText(p).value)
  }

  /** The `item_string` loop. */
  method BuildItemString(items: seq<string>) returns (itemString: string)
    ensures itemString == ItemString(items)
  {
    itemString := "";
    var i := 0;
    while i < |items|
      invariant 0 <= i <= |items|
      invariant itemString == ItemString(items[..i])
    {
      assert items[..i + 1][..i] == items[..i];
      itemString := itemString + items[i] + ",";
      i := i + 1;
    }
    assert items[..|items|] == items;
  }

  /** The `filter_text` loop, before quoting. */
  method BuildFilterClauses(fp: string, vs: seq<string>) returns (filterText: string)
    requires |vs| >= 1
    ensures filterText == FilterClauses(fp, vs)
  {
    filterText := LikeClause(fp, vs[0]);
    var i := 1;
    while i < |vs|
      invariant 1 <= i <= |vs|
      invariant filterText == FilterClauses(fp, vs[..i])
    {
      assert vs[..i + 1][..i] == vs[..i];
      filterText := filterText + "OR " + LikeClause(fp, vs[i]);
      i := i + 1;
    }
    assert vs[..|vs|] == vs;
  }

  method BuildPropertyText(p: WfsParams) returns (propertyText: string)
    ensures propertyText == PropertyText(p)
  {
    propertyText := "";
    if p.properties.Some? && |p.properties.value| > 0 {
      var itemString := BuildItemString(p.properties.value);
      if p.geomField.Some? && p.geomField.value != "" {
        itemString := itemString + p.geomField.value;
      }
      propertyText := "&PROPERTYNAME=" + itemString;
    }
  }

  method BuildFilterText(p: WfsParams) returns (filterText: Result<string>)
    ensures filterText == FilterText(p)
  {
    filterText := Ok("");
    if p.filterProperty.Some? && p.filterProperty.value != "" {
      if p.filterValues.None? {
        return Err(KeyError("filter_values"));
      }
      if |p.filterValues.value| > 0 {
        var clauses := BuildFilterClauses(p.filterProperty.value, p.filterValues.value);
        filterText := Ok("&CQL_FILTER=" + Quote(clauses));
      }
    }
  }

  /** The URL builder, growing its fragments by concatenation. */
  method BuildRequestUrl(p: WfsParams) returns (r: Result<string>)
    ensures r == RequestUrl(p)
  {
    if p.host.None? {
      return Err(ValueError("Value for 'host' required"));
    }
    if p.layer.None? {
      return Err(ValueError("Value for 'layer' required"));
    }
    var srsText := "";
    if p.srsCode.Some? && SrsTruthy(p.srsCode.value) {
      srsText := "&srsName=epsg:" + SrsString(p.srsCode.value);
    }
    var propertyText := BuildPropertyText(p);
    var filterText := BuildFilterText(p);
    if filterText.Err? {
      return Err(filterText.error);
    }
    var url := BaseUrl(p.host.value, p.layer.value);
    url := url + srsText;
    url := url + propertyText;
    url := url + filterText.value;
    return Ok(url);
  }

  /** Only the presence of `host` and `layer` is checked, in that order, and
      then the presence of `filter_values` when `filter_property` is truthy;
      every other parameter record gives a URL. */
  lemma RequestUrlErrors(p: WfsParams)
    ensures RequestUrl(p) == Err(ValueError("Value for 'host' required")) <==> p.host.None?
    ensures RequestUrl(p) == Err(ValueError("Value for 'layer' required")) <==> p.host.Some? && p.layer.None?
    ensures RequestUrl(p) == Err(KeyError("filter_values")) <==>
              p.host.Some? && p.layer.Some? && p.filterProperty.Some? && p.filterProperty.value != ""
              && p.filterValues.None?
    ensures RequestUrl(p).Ok? <==>
              p.host.Some? && p.layer.Some?
              && (p.filterProperty.Some? && p.filterProperty.value != "" ==> p.filterValues.Some?)
  {
  }

  lemma DigitChar(d: nat)
    requires d < 10
    ensures IsDigit(DIGITS[d]) && DIGITS[d] as int - '0' as int == d
  {
  }

  /** Reading one more digit multiplies by ten and adds it. */
  lemma ParseNatSnoc(s: string, d: nat)
    requires AllDigits(s) && d < 10
    ensures AllDigits(s + [DIGITS[d]])
    ensures ParseNat(s + [DIGITS[d]]) == ParseNat(s) * 10 + d
  {
    DigitChar(d);
    var t := s + [DIGITS[d]];
    assert t[..|t| - 1] == s;
  }

  /** `str(n)` is read back by `int`. */
  lemma {:induction false} NatStringDigits(n: nat)
    ensures NatString(n) != []
    ensures AllDigits(NatString(n))
    ensures ParseNat(NatString(n)) == n
    decreases n
  {
    if n < 10 {
      ParseNatSnoc([], n);
      assert [] + [DIGITS[n]] == NatString(n);
    } else {
      NatStringDigits(n / 10);
      ParseNatSnoc(NatString(n / 10), n % 10);
      assert NatString(n) == NatString(n / 10) + [DIGITS[n % 10]];
    }
  }

  lemma ParseSigned(t: string)
    requires t != [] && AllDigits(t)
    ensures IsDecimal("-" + t) && ParseInt("-" + t) == 0 - ParseNat(t)
  {
    assert ("-" + t)[1..] == t;
  }

  lemma ParseUnsigned(t: string)
    requires t != [] && AllDigits(t)
    ensures IsDecimal(t) && ParseInt(t) == ParseNat(t)
  {
    assert IsDigit(t[0]);
  }

  lemma IntStringRoundTrip(n: int)
    ensures IntString(n) != []
    ensures IsDecimal(IntString(n))
    ensures ParseInt(IntString(n)) == n
  {
    if n < 0 {
      NatStringDigits(-n);
      ParseSigned(NatString(-n));
    } else {
      NatStringDigits(n);
      ParseUnsigned(NatString(n));
    }
  }

  /** The srsName fragment is there exactly when `srs_code` is present and
      truthy, and names the code: an EPSG number is read back from it. */
  lemma SrsFragment(p: WfsParams)
    ensures SrsText(p) != "" <==> p.srsCode.Some? && SrsTruthy(p.srsCode.value)
    ensures p.srsCode.Some? && p.srsCode.value.SrsNumber? && p.srsCode.value.n != 0 ==>
              var t := SrsText(p);
              var prefix := "&srsName=epsg:";
              |t| > |prefix| && t[..|prefix|] == prefix && IsDecimal(t[|prefix|..]) && ParseInt(t[|prefix|..]) == p.srsCode.value.n
  {
    if p.srsCode.Some? && p.srsCode.value.SrsNumber? && p.srsCode.value.n != 0 {
      IntStringRoundTrip(p.srsCode.value.n);
      var t := SrsText(p);
      assert t[|"&srsName=epsg:"|..] == IntString(p.srsCode.value.n);
    }
  }

  /** Python's `s.split(",")`. */
  function SplitComma(s: string): (parts: seq<string>)
    ensures |parts| >= 1
  {
    if s == [] then [""]
    else if s[0] == ',' then [""] + SplitComma(s[1..])
    else
      var r := SplitComma(s[1..]);
      [[s[0]] + r[0]] + r[1..]
  }

  predicate CommaFree(s: string) {
    forall i :: 0 <= i < |s| ==> s[i] != ','
  }

  lemma {:induction false} SplitCommaFree(s: string)
    requires CommaFree(s)
    ensures SplitComma(s) == [s]
  {
    if s != [] {
      SplitCommaFree(s[1..]);
      assert [s[0]] + s[1..] == s;
    }
  }

  lemma {:induction false} SplitAtComma(x: string, y: string)
    ensures SplitComma(x + [','] + y) == SplitComma(x) + SplitComma(y)
  {
    if x == [] {
      assert x + [','] + y == [','] + y;
      assert ([','] + y)[1..] == y;
    } else {
      var s := x + [','] + y;
      assert s[0] == x[0];
      assert s[1..] == x[1..] + [','] + y;
      SplitAtComma(x[1..], y);
    }
  }

  lemma {:induction false} SplitItems(items: seq<string>, g: string)
    requires forall j :: 0 <= j < |items| ==> CommaFree(items[j])
    ensures SplitComma(ItemString(items) + g) == items + SplitComma(g)
  {
    if items == [] {
      assert ItemString(items) + g == g;
    } else {
      var init := items[..|items| - 1];
      var last := items[|items| - 1];
      var g' := last + [','] + g;
      assert ItemString(items) == ItemString(init) + last + ",";
      assert ItemString(items) + g == ItemString(init) + g';
      SplitItems(init, g');
      SplitAtComma(last, g);
      SplitCommaFree(last);
      assert items == init + [last];
    }
  }

  /** The PROPERTYNAME list is there exactly when `properties` is a non-empty
      list, and splitting it at its commas gives the property names back,
      followed by the geometry field (the empty string when that is not
      truthy, from the trailing comma). */
  lemma PropertyFragment(p: WfsParams)
    requires p.properties.Some? ==> forall j :: 0 <= j < |p.properties.value| ==> CommaFree(p.properties.value[j])
    requires CommaFree(GeomPart(p))
    ensures PropertyText(p) != "" <==> Truthy(p.properties)
    ensures Truthy(p.properties) ==>
              var t := PropertyText(p);
              var prefix := "&PROPERTYNAME=";
              |t| > |prefix| && t[..|prefix|] == prefix
              && SplitComma(t[|prefix|..]) == p.properties.value + [GeomPart(p)]
  {
    if Truthy(p.properties) {
      var t := PropertyText(p);
      var rest := ItemString(p.properties.value) + GeomPart(p);
      assert t[|"&PROPERTYNAME="|..] == rest;
      SplitItems(p.properties.value, GeomPart(p));
      SplitCommaFree(GeomPart(p));
    }
  }

  /** `sep.join(parts)`: an independent definition of the filter text. */
  function Join(sep: string, parts: seq<string>): (s: string)
    requires |parts| >= 1
  {
    if |parts| == 1 then parts[0] else parts[0] + sep + Join(sep, parts[1..])
  }

  function LikeClauses(fp: string, vs: seq<string>): (cs: seq<string>)
    ensures |cs| == |vs|
  {
    seq(|vs|, i requires 0 <= i < |vs| => LikeClause(fp, vs[i]))
  }

  lemma {:induction false} JoinSnoc(sep: string, parts: seq<string>, x: string)
    requires |parts| >= 1
    ensures Join(sep, parts + [x]) == Join(sep, parts) + sep + x
  {
    if |parts| > 1 {
      assert (parts + [x])[1..] == parts[1..] + [x];
      JoinSnoc(sep, parts[1..], x);
    } else {
      assert (parts + [x])[1..] == [x];
    }
  }

  /** The filter text is the conditions joined by "OR ". */
  lemma {:induction false} FilterClausesJoin(fp: string, vs: seq<string>)
    requires |vs| >= 1
    ensures FilterClauses(fp, vs) == Join("OR ", LikeClauses(fp, vs))
  {
    if |vs| > 1 {
      var init := vs[..|vs| - 1];
      FilterClausesJoin(fp, init);
      assert LikeClauses(fp, vs) == LikeClauses(fp, init) + [LikeClause(fp, vs[|vs| - 1])];
      JoinSnoc("OR ", LikeClauses(fp, init), LikeClause(fp, vs[|vs| - 1]));
    }
  }

  /** With a truthy filter property and values, the CQL_FILTER fragment holds
      only URL-safe characters and '%' (no '&' to end the query parameter
      early), and percent-decoding it gives the UTF-8 bytes of the
      conditions joined by "OR ". */
  lemma FilterFragment(p: WfsParams)
    requires p.filterProperty.Some? && p.filterProperty.value != ""
    requires Truthy(p.filterValues)
    ensures FilterText(p).Ok?
    ensures var t := FilterText(p).value;
            var prefix := "&CQL_FILTER=";
            |t| >= |prefix| && t[..|prefix|] == prefix
            && (forall i :: |prefix| <= i < |t| ==> IsSafe(t[i]) || t[i] == '%')
            && PercentDecode(t[|prefix|..])
               == Utf8String(Join("OR ", LikeClauses(p.filterProperty.value, p.filterValues.value)))
  {
    var fp := p.filterProperty.value;
    var vs := p.filterValues.value;
    var q := Quote(FilterClauses(fp, vs));
    var t := FilterText(p).value;
    assert t[|"&CQL_FILTER="|..] == q;
    QuoteIsUrlSafe(FilterClauses(fp, vs));
    QuoteRoundTrip(FilterClauses(fp, vs));
    FilterClausesJoin(fp, vs);
  }

  /** No filter fragment without a truthy filter property and values. */
  lemma NoFilterFragment(p: WfsParams)
    requires !(p.filterProperty.Some? && p.filterProperty.value != "") || (p.filterValues.Some? && p.filterValues.value == [])
    ensures FilterText(p) == Ok("")
  {
  }

  /** Two values: the second condition follows the first with no space. */
  lemma TwoValueFilter(fp: string, a: string, b: string)
    ensures FilterClauses(fp, [a, b]) == LikeClause(fp, a) + "OR " + LikeClause(fp, b)
  {
    assert [a, b][..1] == [a];
  }
}
