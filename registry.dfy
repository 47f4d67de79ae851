/** The closed location registry `LOCATION_DATA` and its two lookups. */
module Registry {
  import opened Common
  import opened Text

  /** One supported country: the code the endpoint expects and its
      province (state) names with their short codes. */
  datatype Entry = Entry(apiCode: string, provinces: map<string, string>)

  /** Lower-case country name to its entry. */
  type Locations = map<string, Entry>

  /** The 43 United States entries, grouped four to a row as in
      `LOCATION_DATA`. Each row is a map of its own with its own
      well-formedness lemma: one literal of 43 keys is more than the
      solver can take apart within its resource bound. */
  function UnitedStatesProvinces(): map<string, string> {
    StatesAlToCa()
    + StatesCoToGa()
    + StatesIdToIa()
    + StatesKsToMe()
    + StatesMdToMs()
    + StatesMoToNv()
    + StatesNhToNy()
    + StatesNcToOk()
    + StatesOrToSd()
    + StatesTnToVa()
    + StatesWaToWy()
  }

  function StatesAlToCa(): map<string, string> {
    map["alabama" := "AL", "arizona" := "AZ", "arkansas" := "AR", "california" := "CA"]
  }

  function StatesCoToGa(): map<string, string> {
    map["colorado" := "CO", "delaware" := "DE", "florida" := "FL", "georgia" := "GA"]
  }

  function StatesIdToIa(): map<string, string> {
    map["idaho" := "ID", "illinois" := "IL", "indiana" := "IN", "iowa" := "IA"]
  }

  function StatesKsToMe(): map<string, string> {
    map["kansas" := "KS", "kentucky" := "KY", "louisiana" := "LA", "maine" := "ME"]
  }

  function StatesMdToMs(): map<string, string> {
    map["maryland" := "MD", "michigan" := "MI", "minnesota" := "MN", "mississippi" := "MS"]
  }

  function StatesMoToNv(): map<string, string> {
    map["missouri" := "MO", "montana" := "MT", "nebraska" := "NE", "nevada" := "NV"]
  }

  function StatesNhToNy(): map<string, string> {
    map["new hampshire" := "NH", "new jersey" := "NJ", "new mexico" := "NM", "new york" := "NY"]
  }

  function StatesNcToOk(): map<string, string> {
    map["north carolina" := "NC", "north dakota" := "ND", "ohio" := "OH", "oklahoma" := "OK"]
  }

  function StatesOrToSd(): map<string, string> {
    map["oregon" := "OR", "pennsylvania" := "PA", "south carolina" := "SC", "south dakota" := "SD"]
  }

  function StatesTnToVa(): map<string, string> {
    map["tennessee" := "TN", "texas" := "TX", "utah" := "UT", "virginia" := "VA"]
  }

  function StatesWaToWy(): map<string, string> {
    map["washington" := "WA", "wisconsin" := "WI", "wyoming" := "WY"]
  }

  function CanadaProvinces(): map<string, string> {
    map["alberta" := "AB", "ontario" := "ON", "quebec" := "QC", "saskatchewan" := "SK"]
  }

  /** Argentina is registered without provinces. */
  function LocationData(): Locations {
    map[
      "united states" := Entry("United States", UnitedStatesProvinces()),
      "canada" := Entry("Canada", CanadaProvinces()),
      "argentina" := Entry("Argentina", map[])
    ]
  }

  /** What the resolver needs of a registry: every key is already lower
      case (so every entry can be reached through `Lower`), every code is
      non-empty, and no country code holds the `|` separator. */
  predicate WellFormed(reg: Locations) {
    forall c | c in reg ::
      && NoUpper(c)
      && reg[c].apiCode != ""
      && '|' !in reg[c].apiCode
      && ProvincesWellFormed(reg[c].provinces)
  }

  /** `LOCATION_DATA.get(country.lower())`. Entries are non-empty dicts, so
      a found entry is always truthy. */
  function CountryEntry(reg: Locations, country: string): Option<Entry> {
    var key := Lower(country);
    if key in reg then Some(reg[key]) else None
  }

  /** `country_data['provinces'].get(province.lower())`, where a missing key
      and an empty code are both rejected by `if not province_code`. */
  function ProvinceCode(entry: Entry, province: string): Option<string> {
    var key := Lower(province);
    if key in entry.provinces && entry.provinces[key] != "" then Some(entry.provinces[key]) else None
  }

  /** Lower-case names, non-empty codes. */
  predicate ProvincesWellFormed(provinces: map<string, string>) {
    forall p | p in provinces :: NoUpper(p) && provinces[p] != ""
  }

  lemma ProvincesUnion(a: map<string, string>, b: map<string, string>)
    requires ProvincesWellFormed(a) && ProvincesWellFormed(b)
    ensures ProvincesWellFormed(a + b)
  {
  }

  lemma StatesAlToCaWellFormed()
    ensures ProvincesWellFormed(StatesAlToCa())
  {
  }

  lemma StatesCoToGaWellFormed()
    ensures ProvincesWellFormed(StatesCoToGa())
  {
  }

  lemma StatesIdToIaWellFormed()
    ensures ProvincesWellFormed(StatesIdToIa())
  {
  }

  lemma StatesKsToMeWellFormed()
    ensures ProvincesWellFormed(StatesKsToMe())
  {
  }

  lemma StatesMdToMsWellFormed()
    ensures ProvincesWellFormed(StatesMdToMs())
  {
  }

  lemma StatesMoToNvWellFormed()
    ensures ProvincesWellFormed(StatesMoToNv())
  {
  }

  lemma StatesNhToNyWellFormed()
    ensures ProvincesWellFormed(StatesNhToNy())
  {
  }

  lemma StatesNcToOkWellFormed()
    ensures ProvincesWellFormed(StatesNcToOk())
  {
  }

  lemma StatesOrToSdWellFormed()
    ensures ProvincesWellFormed(StatesOrToSd())
  {
  }

  lemma StatesTnToVaWellFormed()
    ensures ProvincesWellFormed(StatesTnToVa())
  {
  }

  lemma StatesWaToWyWellFormed()
    ensures ProvincesWellFormed(StatesWaToWy())
  {
  }

  lemma UnitedStatesProvincesWellFormed()
    ensures ProvincesWellFormed(UnitedStatesProvinces())
  {
    StatesAlToCaWellFormed();
    StatesCoToGaWellFormed();
    StatesIdToIaWellFormed();
    StatesKsToMeWellFormed();
    StatesMdToMsWellFormed();
    StatesMoToNvWellFormed();
    StatesNhToNyWellFormed();
    StatesNcToOkWellFormed();
    StatesOrToSdWellFormed();
    StatesTnToVaWellFormed();
    StatesWaToWyWellFormed();
    ProvincesUnion(StatesAlToCa(), StatesCoToGa());
    ProvincesUnion(StatesAlToCa() + StatesCoToGa(), StatesIdToIa());
    ProvincesUnion(StatesAlToCa() + StatesCoToGa() + StatesIdToIa(), StatesKsToMe());
    ProvincesUnion(StatesAlToCa() + StatesCoToGa() + StatesIdToIa() + StatesKsToMe(), StatesMdToMs());
    ProvincesUnion(StatesAlToCa() + StatesCoToGa() + StatesIdToIa() + StatesKsToMe() + StatesMdToMs(), StatesMoToNv());
    ProvincesUnion(StatesAlToCa() + StatesCoToGa() + StatesIdToIa() + StatesKsToMe() + StatesMdToMs() + StatesMoToNv(), StatesNhToNy());
    ProvincesUnion(StatesAlToCa() + StatesCoToGa() + StatesIdToIa() + StatesKsToMe() + StatesMdToMs() + StatesMoToNv() + StatesNhToNy(), StatesNcToOk());
    ProvincesUnion(StatesAlToCa() + StatesCoToGa() + StatesIdToIa() + StatesKsToMe() + StatesMdToMs() + StatesMoToNv() + StatesNhToNy() + StatesNcToOk(), StatesOrToSd());
    ProvincesUnion(StatesAlToCa() + StatesCoToGa() + StatesIdToIa() + StatesKsToMe() + StatesMdToMs() + StatesMoToNv() + StatesNhToNy() + StatesNcToOk() + StatesOrToSd(), StatesTnToVa());
    ProvincesUnion(StatesAlToCa() + StatesCoToGa() + StatesIdToIa() + StatesKsToMe() + StatesMdToMs() + StatesMoToNv() + StatesNhToNy() + StatesNcToOk() + StatesOrToSd() + StatesTnToVa(), StatesWaToWy());
  }

  lemma CanadaProvincesWellFormed()
    ensures ProvincesWellFormed(CanadaProvinces())
  {
  }

  /** `LOCATION_DATA` meets what the resolver relies on. */
  lemma LocationDataWellFormed()
    ensures WellFormed(LocationData())
  {
    var reg := LocationData();
    forall c | c in reg
      ensures NoUpper(c) && reg[c].apiCode != "" && '|' !in reg[c].apiCode
      ensures ProvincesWellFormed(reg[c].provinces)
    {
      if c == "united states" {
        UnitedStatesProvincesWellFormed();
      } else if c == "canada" {
        CanadaProvincesWellFormed();
      }
    }
  }

  /** In a well-formed registry each registered country is found under any
      spelling that lowers to its key, an unregistered name never is, and
      each registered province is found with its code. */
  lemma LookupsAreCaseInsensitive(reg: Locations, country: string, province: string)
    requires WellFormed(reg)
    ensures CountryEntry(reg, country).Some? <==> Lower(country) in reg
    ensures forall c | c in reg :: CountryEntry(reg, c) == Some(reg[c])
    ensures CountryEntry(reg, country) == CountryEntry(reg, Lower(country))
    ensures forall c, p | c in reg && p in reg[c].provinces ::
              ProvinceCode(reg[c], p) == Some(reg[c].provinces[p])
    ensures forall c | c in reg :: ProvinceCode(reg[c], province).Some? <==> Lower(province) in reg[c].provinces
  {
    LowerNormalizes(country);
    LowerNormalizes(province);
    forall c | c in reg ensures CountryEntry(reg, c) == Some(reg[c]) {
      LowerNormalizes(c);
    }
    forall c, p | c in reg && p in reg[c].provinces
      ensures ProvinceCode(reg[c], p) == Some(reg[c].provinces[p])
    {
      LowerNormalizes(p);
    }
  }
}
