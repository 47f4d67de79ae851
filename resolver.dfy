/** The decision part of `ShorthornApiScraper.search`: from the decoded
    interpreter reply to the endpoint parameters `l` and `v`, to an error
    dict, or to the Python exception the code lets escape. */
module Resolver {
  import opened Common
  import opened Text
  import opened JsonValues
  import opened Registry
  import opened Api

  datatype Resolution =
    | Proceed(params: Params)
    | Reject(failure: Failure)
    | Raise(exception: string)

  function AttributeError(): string { "AttributeError" }

  function TypeError(): string { "TypeError" }

  /** The guard `not parsed_query or "error" in parsed_query` and the
      `.get` calls after it. A decoded value that is not an object has no
      `.get`, and `"error" in` a number or a boolean is a type error. */
  function Resolve(parsed: Json, reg: Locations): Resolution {
    if !Truthy(parsed) then
      if parsed.JObj? then Reject(InterpretFailed(JNull)) else Raise(AttributeError())
    else
      match parsed
      case JObj(fields) =>
        if "error" in fields then Reject(InterpretFailed(fields["error"])) else BuildParams(fields, reg)
      case JStr(_) => Raise(AttributeError())
      case JArr(_) => Raise(AttributeError())
      case _ => Raise(TypeError())
  }

  /** `parsed_query.get('name') or ''`. */
  function NameFilter(fields: map<string, Json>): Json {
    var name := Get(fields, "name");
    if Truthy(name) then name else JStr("")
  }

  /** Building `params` from an interpreted object without an `error` key. */
  function BuildParams(fields: map<string, Json>, reg: Locations): Resolution {
    var v := NameFilter(fields);
    var country := Get(fields, "country");
    var province := Get(fields, "province");
    if !Truthy(country) then Proceed(Params("", v))
    else if !country.JStr? then Raise(AttributeError())
    else
      match CountryEntry(reg, country.s)
      case None => Reject(UnknownCountry(country.s))
      case Some(entry) =>
        if !Truthy(province) then Proceed(Params(entry.apiCode + "|", v))
        else if !province.JStr? then Raise(AttributeError())
        else
          match ProvinceCode(entry, province.s)
          case None => Reject(UnknownProvince(province.s, country.s))
          case Some(code) => Proceed(Params(entry.apiCode + "|" + code, v))
  }

  /** Only an object gets past the guard; an object carrying `error`, or
      an empty one, is rejected with that entry as the details; and an
      object escapes as an exception only when its country or province is
      truthy but not a string. */
  lemma GuardOutcomes(parsed: Json, reg: Locations)
    ensures !parsed.JObj? ==> Resolve(parsed, reg).Raise?
    ensures parsed.JObj? && ("error" in parsed.fields || |parsed.fields| == 0) ==>
              Resolve(parsed, reg) == Reject(InterpretFailed(Get(parsed.fields, "error")))
    ensures parsed.JObj? && Resolve(parsed, reg).Raise? ==>
              var country := Get(parsed.fields, "country");
              var province := Get(parsed.fields, "province");
              (Truthy(country) && !country.JStr?) || (Truthy(province) && !province.JStr?)
  {
  }

  /** An interpreted query whose fields are strings or absent, as the
      interpreter is asked to produce. */
  datatype Query = Query(country: Option<string>, province: Option<string>, name: Option<string>)

  function Field(o: Option<string>): Json {
    match o
    case None => JNull
    case Some(s) => JStr(s)
  }

  function QueryObject(q: Query): Json {
    JObj(map["country" := Field(q.country), "province" := Field(q.province), "name" := Field(q.name)])
  }

  function OrEmpty(o: Option<string>): string {
    match o
    case None => ""
    case Some(s) => s
  }

  /** The resolution rules for a well-shaped query, case by case: no country
      (absent or empty) gives an empty location whatever the province; a
      country is looked up lower-cased and must be registered; with no
      province the location is the country code and a trailing `|`; a
      province must be registered under that country with a non-empty code
      and is appended after the `|`. The name filter is the name as given,
      or empty, in every successful case; nothing raises. */
  lemma StringQueryRules(q: Query, reg: Locations)
    ensures var r := Resolve(QueryObject(q), reg);
      var c := OrEmpty(q.country);
      var p := OrEmpty(q.province);
      var v := JStr(OrEmpty(q.name));
      && (c == "" ==> r == Proceed(Params("", v)))
      && (c != "" && Lower(c) !in reg ==> r == Reject(UnknownCountry(c)))
      && (c != "" && Lower(c) in reg && p == "" ==>
            r == Proceed(Params(reg[Lower(c)].apiCode + "|", v)))
      && (c != "" && Lower(c) in reg && p != "" ==>
            var provinces := reg[Lower(c)].provinces;
            if Lower(p) in provinces && provinces[Lower(p)] != "" then
              r == Proceed(Params(reg[Lower(c)].apiCode + "|" + provinces[Lower(p)], v))
            else
              r == Reject(UnknownProvince(p, c)))
  {
    var fields := QueryObject(q).fields;
    assert Get(fields, "country") == Field(q.country);
    assert Get(fields, "province") == Field(q.province);
    assert Get(fields, "name") == Field(q.name);
    assert "error" !in fields;
  }

  /** Resolution fails closed: once a country is given, a successful
      resolution never degrades to an unfiltered search; its location
      starts with that country's registered code and a `|`. */
  lemma NeverDegrades(parsed: Json, reg: Locations)
    requires parsed.JObj? && Truthy(Get(parsed.fields, "country"))
    requires Resolve(parsed, reg).Proceed?
    ensures var country := Get(parsed.fields, "country");
      && country.JStr?
      && Lower(country.s) in reg
      && StartsWith(Resolve(parsed, reg).params.l, reg[Lower(country.s)].apiCode + "|")
      && Resolve(parsed, reg).params.l != ""
  {
    var l := Resolve(parsed, reg).params.l;
    var country := Get(parsed.fields, "country");
    var prefix := reg[Lower(country.s)].apiCode + "|";
    assert l[..|prefix|] == prefix;
  }

  /** How the endpoint reads a location code: the country code before the
      first `|` and the province code after it. */
  function SplitLocation(l: string): Option<(string, string)>
    decreases |l|
  {
    if l == [] then None
    else if l[0] == '|' then Some(([], l[1..]))
    else
      match SplitLocation(l[1..])
      case None => None
      case Some(parts) => Some(([l[0]] + parts.0, parts.1))
  }

  /** Joining with `|` is undone by splitting at the first `|`, provided
      the country code holds none. */
  lemma {:induction false} SplitJoin(apiCode: string, code: string)
    requires '|' !in apiCode
    ensures SplitLocation(apiCode + "|" + code) == Some((apiCode, code))
    decreases |apiCode|
  {
    var l := apiCode + "|" + code;
    if apiCode == [] {
      assert l == "|" + code;
    } else {
      assert l[0] == apiCode[0];
      assert l[1..] == apiCode[1..] + "|" + code;
      SplitJoin(apiCode[1..], code);
      assert [apiCode[0]] + apiCode[1..] == apiCode;
    }
  }

  /** With a well-formed registry every location the resolver emits for a
      given country can be read back as that country's code and the
      province's registered code (empty for "all provinces"). */
  lemma LocationReadsBack(parsed: Json, reg: Locations)
    requires WellFormed(reg)
    requires parsed.JObj? && Truthy(Get(parsed.fields, "country"))
    requires Resolve(parsed, reg).Proceed?
    ensures var country := Get(parsed.fields, "country");
      var province := Get(parsed.fields, "province");
      && country.JStr? && Lower(country.s) in reg
      && (Truthy(province) ==> province.JStr? && Lower(province.s) in reg[Lower(country.s)].provinces)
      && SplitLocation(Resolve(parsed, reg).params.l)
         == Some((reg[Lower(country.s)].apiCode,
                  if Truthy(province) then reg[Lower(country.s)].provinces[Lower(province.s)] else ""))
  {
    var country := Get(parsed.fields, "country");
    var province := Get(parsed.fields, "province");
    var entry := reg[Lower(country.s)];
    if Truthy(province) {
      SplitJoin(entry.apiCode, entry.provinces[Lower(province.s)]);
    } else {
      SplitJoin(entry.apiCode, "");
      assert entry.apiCode + "|" + "" == entry.apiCode + "|";
    }
  }

  /** The registry entries the examples below rely on. */
  lemma ExampleEntries()
    ensures Lower("united states") == "united states" && Lower("texas") == "texas"
    ensures Lower("argentina") == "argentina"
    ensures "united states" in LocationData() && "argentina" in LocationData()
    ensures LocationData()["united states"] == Entry("United States", UnitedStatesProvinces())
    ensures LocationData()["argentina"] == Entry("Argentina", map[])
    ensures "texas" in UnitedStatesProvinces() && UnitedStatesProvinces()["texas"] == "TX"
  {
    LowerNormalizes("united states");
    LowerNormalizes("texas");
    LowerNormalizes("argentina");
    assert "texas" in StatesTnToVa() && StatesTnToVa()["texas"] == "TX";
    assert "texas" !in StatesWaToWy();
  }

  /** "Find all ranches in Texas". */
  lemma TexasExample()
    ensures Resolve(QueryObject(Query(Some("united states"), Some("texas"), None)), LocationData())
            == Proceed(Params("United States|TX", JStr("")))
  {
    TexasLookups();
    StringQueryRules(Query(Some("united states"), Some("texas"), None), LocationData());
  }

  lemma TexasLookups()
    ensures CountryEntry(LocationData(), "united states") == Some(Entry("United States", UnitedStatesProvinces()))
    ensures ProvinceCode(Entry("United States", UnitedStatesProvinces()), "texas") == Some("TX")
    ensures "United States" + "|" + "TX" == "United States|TX"
  {
    ExampleEntries();
  }

  /** "Show me all breeders in the US". */
  lemma WholeCountryExample()
    ensures Resolve(QueryObject(Query(Some("united states"), None, None)), LocationData())
            == Proceed(Params("United States|", JStr("")))
  {
    ExampleEntries();
    StringQueryRules(Query(Some("united states"), None, None), LocationData());
  }

  /** "Search for 'Circle M' in Texas": the name passes through unchanged. */
  lemma NamedExample()
    ensures Resolve(QueryObject(Query(Some("united states"), Some("texas"), Some("Circle M"))), LocationData())
            == Proceed(Params("United States|TX", JStr("Circle M")))
  {
    TexasLookups();
    StringQueryRules(Query(Some("united states"), Some("texas"), Some("Circle M")), LocationData());
  }

  /** Argentina has no registered provinces, so any province is refused. */
  lemma ArgentinaProvinceRefused(province: string)
    requires province != ""
    ensures Resolve(QueryObject(Query(Some("argentina"), Some(province), None)), LocationData())
            == Reject(UnknownProvince(province, "argentina"))
  {
    ExampleEntries();
    StringQueryRules(Query(Some("argentina"), Some(province), None), LocationData());
  }
}
