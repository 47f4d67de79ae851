/** `ShorthornApiScraper.search`: interpret the command, build the
    endpoint parameters from the interpreted object, and call the endpoint
    only when they could be built. */
module Scraper {
  import opened Common
  import opened Text
  import opened JsonValues
  import opened Registry
  import opened Api
  import opened Interpreter
  import opened Resolver
  import opened Retrieval

  /** The result of `search`. A command that is rejected, or makes the
      code raise, sends nothing to the endpoint; any other sends exactly one
      request, with the resolved parameters, and returns its outcome. */
  method Search(command: string, backend: Backend, decode: Decoder, reg: Locations, endpoint: Endpoint, read: Reader)
    returns (result: SearchResult)
    modifies endpoint
    ensures match Resolve(InterpretCommand(backend, decode, command), reg)
      case Raise(exception) => result == Raised(exception) && endpoint.requests == old(endpoint.requests)
      case Reject(failure) => result == Returned(Failed(failure)) && endpoint.requests == old(endpoint.requests)
      case Proceed(params) =>
        && endpoint.requests == old(endpoint.requests) + [params]
        && result == Returned(ApiOutcome(params, endpoint.fetch, read))
  {
    var parsed := InterpretCommand(backend, decode, command);

    // `not parsed_query or "error" in parsed_query`
    var rejected := !Truthy(parsed);
    if !rejected {
      match parsed
      case JObj(fields) => rejected := "error" in fields;
      case JStr(s) => rejected := Contains(s, "error");
      case JArr(items) => rejected := JStr("error") in items;
      case _ => return Raised(TypeError());
    }
    // Every later step calls `.get`, which only a dict has.
    if !parsed.JObj? {
      return Raised(AttributeError());
    }
    var fields := parsed.fields;
    if rejected {
      return Returned(Failed(InterpretFailed(Get(fields, "error"))));
    }

    var name := Get(fields, "name");
    var params := Params("", if Truthy(name) then name else JStr(""));
    var country := Get(fields, "country");
    var province := Get(fields, "province");

    if Truthy(country) {
      if !country.JStr? {
        return Raised(AttributeError());
      }
      var countryData := CountryEntry(reg, country.s);
      if countryData.None? {
        return Returned(Failed(UnknownCountry(country.s)));
      }
      var location := countryData.value.apiCode;
      if Truthy(province) {
        if !province.JStr? {
          return Raised(AttributeError());
        }
        var provinceCode := ProvinceCode(countryData.value, province.s);
        if provinceCode.None? {
          return Returned(Failed(UnknownProvince(province.s, country.s)));
        }
        location := location + "|" + provinceCode.value;
      } else {
        location := location + "|";
      }
      params := params.(l := location);
    }

    var outcome := CallApi(params, endpoint, read);
    result := Returned(outcome);
  }

  /** When interpretation fails, `search` reports the interpreter's message
      as the details of its error and sends no request. */
  lemma InterpretationFailureStopsSearch(backend: Backend, decode: Decoder, command: string, reg: Locations)
    requires || backend.Unavailable?
             || backend.generate(command).Err?
             || decode(Clean(backend.generate(command).value)).Err?
    ensures var parsed := InterpretCommand(backend, decode, command);
      && parsed.JObj? && "error" in parsed.fields
      && Resolve(parsed, reg) == Reject(InterpretFailed(parsed.fields["error"]))
      && Truthy(parsed.fields["error"])
  {
    FailuresBecomeErrorObjects(backend, decode, command);
  }

  /** A request is sent only for parameters whose location is empty
      (no country given) or names a registered country. */
  lemma RequestsOnlyForKnownLocations(parsed: Json, reg: Locations)
    requires Resolve(parsed, reg).Proceed?
    ensures parsed.JObj?
    ensures var l := Resolve(parsed, reg).params.l;
      l == "" || exists c :: c in reg && StartsWith(l, reg[c].apiCode + "|")
  {
    GuardOutcomes(parsed, reg);
    if Truthy(Get(parsed.fields, "country")) {
      NeverDegrades(parsed, reg);
    }
  }
}
