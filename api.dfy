/** The values that cross the boundary of `ShorthornApiScraper`: the two
    query parameters sent to the endpoint and what `search` hands back. */
module Api {
  import opened JsonValues

  /** The `params` dict: `l` is the location code, `v` the name filter
      (the decoded `name` value, passed on unchanged when truthy). */
  datatype Params = Params(l: string, v: Json)

  /** Every error dict the scraper can return. */
  datatype Failure =
    | InterpretFailed(details: Json)
    | UnknownCountry(country: string)
    | UnknownProvince(province: string, country: string)
    | Unreachable(cause: string)
    | ParseFailed(cause: string)
  {
    /** The `error` text of the returned dict. */
    function Message(): string {
      match this
      case InterpretFailed(_) => "Gagal menafsirkan perintah."
      case UnknownCountry(c) => "Negara tidak dikenal: " + c
      case UnknownProvince(p, c) => "Provinsi/Negara Bagian tidak dikenal '" + p + "' untuk " + c
      case Unreachable(e) => "Gagal menghubungi API: " + e
      case ParseFailed(e) => "Gagal mem-parsing tabel dari respons API: " + e
    }
  }

  /** A returned dict: `{header: [], data: []}` for an empty result, the
      first table's header and rows, or an error. */
  datatype Outcome =
    | Empty
    | Rows(header: seq<string>, data: seq<seq<string>>)
    | Failed(failure: Failure)

  /** `search` either returns a dict or lets a Python exception escape
      (named by its class, e.g. "AttributeError"). */
  datatype SearchResult = Returned(outcome: Outcome) | Raised(exception: string)
}
