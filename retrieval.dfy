/** `ShorthornApiScraper._call_api`: one HTTP round trip, the literal
    "no records" check, the ordered parser fallback, the loose "empty page"
    check, and the shaping of the first table. The HTTP client and
    `pd.read_html` are collaborators given as functions. */
module Retrieval {
  import opened Common
  import opened Text
  import opened Api

  /** A parsed table with its column labels and cells already rendered as
      text (`str(col)`, `astype(str)`); a data frame is rectangular. */
  datatype Table = Table(columns: seq<string>, rows: seq<seq<string>>)

  type Frame = t: Table | forall i :: 0 <= i < |t.rows| ==> |t.rows[i]| == |t.columns|
    witness Table([], [])

  datatype Flavor = Html5lib | Bs4 | Lxml

  /** `parsers = ['html5lib', 'bs4', 'lxml']`, tried in this order. */
  const Flavors: seq<Flavor> := [Html5lib, Bs4, Lxml]

  /** `pd.read_html(StringIO(html), flavor=...)`; `None` is the call
      without a flavor. It returns the tables found or raises. */
  type Reader = (string, Option<Flavor>) -> Result<seq<Frame>, string>

  /** `requests.get` followed by `raise_for_status`: the body of a
      successful response, or the message of the request exception. */
  type Fetch = Params -> Result<string, string>

  /** The literal phrases checked before any parsing, case-sensitively. */
  const NoResultsIndicators: seq<string> :=
    ["No records found matching your criteria", "No records found", "No results found", "0 records found"]

  /** The phrases checked in the lower-cased body once no table was found. */
  const EmptyPatterns: seq<string> := ["no data", "empty", "no results", "not found"]

  predicate SaysNoRecords(html: string) {
    exists indicator | indicator in NoResultsIndicators :: Contains(html, indicator)
  }

  predicate LooksEmpty(lowered: string) {
    exists pattern | pattern in EmptyPatterns :: Contains(lowered, pattern)
  }

  /** The longest indicator adds nothing: it holds the second one, so the
      check is decided by the three shorter phrases alone. */
  lemma LongestIndicatorRedundant(html: string)
    ensures SaysNoRecords(html) <==>
      Contains(html, "No records found") || Contains(html, "No results found") || Contains(html, "0 records found")
  {
    if SaysNoRecords(html) {
      var indicator :| indicator in NoResultsIndicators && Contains(html, indicator);
      if indicator == NoResultsIndicators[0] {
        LongestHoldsSecond();
        ContainsPrefixOfPattern(html, "No records found", " matching your criteria");
      }
    }
    if Contains(html, "No records found") {
      assert NoResultsIndicators[1] in NoResultsIndicators;
    }
    if Contains(html, "No results found") {
      assert NoResultsIndicators[2] in NoResultsIndicators;
    }
    if Contains(html, "0 records found") {
      assert NoResultsIndicators[3] in NoResultsIndicators;
    }
  }

  lemma LongestHoldsSecond()
    ensures NoResultsIndicators[0] == "No records found" + " matching your criteria"
  {
  }

  /** The first success is where the characterization says it is. */
  lemma FirstOkAt<T, E>(results: seq<Result<T, E>>, k: nat)
    requires k <= |results|
    requires forall j :: 0 <= j < k ==> results[j].Err?
    requires k < |results| ==> results[k].Ok?
    ensures FirstOk(results) == k
  {
  }

  /** The index of the first success, or `|results|` when every attempt failed. */
  function FirstOk<T, E>(results: seq<Result<T, E>>): (k: nat)
    ensures k <= |results|
    ensures forall j :: 0 <= j < k ==> results[j].Err?
    ensures k < |results| ==> results[k].Ok?
  {
    if results == [] then 0
    else if results[0].Ok? then 0
    else 1 + FirstOk(results[1..])
  }

  /** What each flavored parser would give on `html`. */
  function FlavorResults(read: Reader, html: string): (rs: seq<Result<seq<Frame>, string>>)
    ensures |rs| == |Flavors|
  {
    seq(|Flavors|, i requires 0 <= i < |Flavors| => read(html, Some(Flavors[i])))
  }

  /** `df_list` and `parse_error` after the parser loop and the flavor-less
      fallback: the tables of the first flavor that does not raise, with the
      error of the flavor just before it (none for the first); failing
      that, the fallback's tables with the last flavor's error, or nothing
      with the fallback's error. */
  function ReadAttempt(read: Reader, html: string): (Option<seq<Frame>>, Option<string>) {
    var rs := FlavorResults(read, html);
    var k := FirstOk(rs);
    if k < |rs| then
      (Some(rs[k].value), if k == 0 then None else Some(rs[k - 1].error))
    else
      match read(html, None)
      case Ok(tables) => (Some(tables), Some(rs[|rs| - 1].error))
      case Err(e) => (None, Some(e))
  }

  /** The parser loop with its `break`, then the flavor-less fallback. */
  method ReadTables(html: string, read: Reader) returns (dfList: Option<seq<Frame>>, parseError: Option<string>)
    ensures (dfList, parseError) == ReadAttempt(read, html)
  {
    ghost var rs := FlavorResults(read, html);
    dfList := None;
    parseError := None;
    for i := 0 to |Flavors|
      invariant dfList == None
      invariant forall j :: 0 <= j < i ==> rs[j].Err?
      invariant parseError == if i == 0 then None else Some(rs[i - 1].error)
    {
      match read(html, Some(Flavors[i]))
      case Ok(tables) =>
        assert rs[i] == read(html, Some(Flavors[i]));
        FirstOkAt(rs, i);
        dfList := Some(tables);
        break;
      case Err(e) =>
        parseError := Some(e);
    }
    if dfList == None {
      assert FirstOk(rs) == |rs|;
      match read(html, None)
      case Ok(tables) =>
        dfList := Some(tables);
      case Err(e) =>
        parseError := Some(e);
    }
  }

  /** `str(parse_error)`, which is "None" when no parser raised. */
  function Describe(parseError: Option<string>): string {
    match parseError
    case None => "None"
    case Some(e) => e
  }

  /** The outcome for a body without a literal "no records" phrase. */
  function Shape(html: string, dfList: Option<seq<Frame>>, parseError: Option<string>): Outcome {
    if dfList.None? || |dfList.value| == 0 then
      if LooksEmpty(Lower(html)) then Empty else Failed(ParseFailed(Describe(parseError)))
    else
      Rows(dfList.value[0].columns, dfList.value[0].rows)
  }

  /** The outcome for a response body. */
  function Retrieve(html: string, read: Reader): Outcome {
    if SaysNoRecords(html) then Empty
    else
      var (dfList, parseError) := ReadAttempt(read, html);
      Shape(html, dfList, parseError)
  }

  /** The outcome of one request with the given parameters. */
  function ApiOutcome(params: Params, fetch: Fetch, read: Reader): Outcome {
    match fetch(params)
    case Err(e) => Failed(Unreachable(e))
    case Ok(html) => Retrieve(html, read)
  }

  /** The ranch search endpoint at `self.base_url`. `fetch` is what it
      answers to a query; `requests` is every query sent to it so far,
      oldest first. */
  class Endpoint {
    const fetch: Fetch
    var requests: seq<Params>

    constructor(fetch: Fetch)
      ensures this.fetch == fetch && requests == []
    {
      this.fetch := fetch;
      requests := [];
    }

    /** `requests.get(self.base_url, params=params)` followed by
        `raise_for_status`: one more request is on the log. */
    method Get(params: Params) returns (response: Result<string, string>)
      modifies this
      ensures requests == old(requests) + [params]
      ensures response == fetch(params)
    {
      requests := requests + [params];
      response := fetch(params);
    }
  }

  /** `_call_api`: exactly one request, with the given parameters, whose
      answer is classified as `ApiOutcome` says. */
  method CallApi(params: Params, endpoint: Endpoint, read: Reader) returns (outcome: Outcome)
    modifies endpoint
    ensures endpoint.requests == old(endpoint.requests) + [params]
    ensures outcome == ApiOutcome(params, endpoint.fetch, read)
  {
    var response := endpoint.Get(params);
    match response
    case Err(e) =>
      return Failed(Unreachable(e));
    case Ok(html) =>
      if SaysNoRecords(html) {
        return Empty;
      }
      var dfList, parseError := ReadTables(html, read);
      if dfList.None? || |dfList.value| == 0 {
        var lowered := Lower(html);
        if LooksEmpty(lowered) {
          return Empty;
        }
        return Failed(ParseFailed(Describe(parseError)));
      }
      var first := dfList.value[0];
      var header := first.columns;
      var data := first.rows;
      return Rows(header, data);
  }

  /** A body holding a literal "no records" phrase is an empty result
      whatever the parsers would have made of it: none of them is consulted. */
  lemma NoRecordsSkipsParsing(html: string, read1: Reader, read2: Reader)
    requires SaysNoRecords(html)
    ensures Retrieve(html, read1) == Empty
    ensures Retrieve(html, read1) == Retrieve(html, read2)
  {
  }

  /** No table list was obtained, or the one obtained is empty. */
  predicate NoTable(read: Reader, html: string) {
    var dfList := ReadAttempt(read, html).0;
    dfList.None? || |dfList.value| == 0
  }

  /** Nothing is parsed exactly when all four attempts raise. */
  lemma NothingParsedIffAllRaise(read: Reader, html: string)
    ensures ReadAttempt(read, html).0.None? <==>
      (forall f | f in Flavors :: read(html, Some(f)).Err?) && read(html, None).Err?
  {
    var rs := FlavorResults(read, html);
    if forall f | f in Flavors :: read(html, Some(f)).Err? {
      assert forall j :: 0 <= j < |rs| ==> rs[j] == read(html, Some(Flavors[j]));
      FirstOkAt(rs, |rs|);
    } else if ReadAttempt(read, html).0.None? {
      forall f | f in Flavors ensures read(html, Some(f)).Err? {
        var j :| 0 <= j < |Flavors| && Flavors[j] == f;
        assert rs[j] == read(html, Some(f));
      }
    }
  }

  /** The parsers after the first one that succeeds are never consulted,
      and the flavor-less attempt only when all three flavors raise: two
      readers that agree up to that point yield the same tables and error. */
  lemma LaterParsersNotTried(read1: Reader, read2: Reader, html: string)
    requires var k := FirstOk(FlavorResults(read1, html));
      && (forall j :: 0 <= j < |Flavors| && j <= k ==> read1(html, Some(Flavors[j])) == read2(html, Some(Flavors[j])))
      && (k == |Flavors| ==> read1(html, None) == read2(html, None))
    ensures ReadAttempt(read1, html) == ReadAttempt(read2, html)
  {
    var rs1 := FlavorResults(read1, html);
    var rs2 := FlavorResults(read2, html);
    var k := FirstOk(rs1);
    forall j | 0 <= j < k ensures rs2[j] == rs1[j] { }
    if k < |rs1| {
      assert rs2[k] == rs1[k];
    }
    assert FirstOk(rs2) == k;
  }

  /** The classification is exhaustive and exclusive: an empty result
      exactly when a literal phrase matches or, with no table, a loose
      pattern matches the lower-cased body; a parse error exactly when
      neither matches and no table was obtained; rows otherwise. */
  lemma Classification(html: string, read: Reader)
    ensures var r := Retrieve(html, read);
      && (r == Empty <==> SaysNoRecords(html) || (NoTable(read, html) && LooksEmpty(Lower(html))))
      && (r.Failed? <==> !SaysNoRecords(html) && NoTable(read, html) && !LooksEmpty(Lower(html)))
      && (r.Rows? <==> !SaysNoRecords(html) && !NoTable(read, html))
  {
  }

  /** Rows come from the first table of the first successful parse only,
      and every row has one cell per header column. */
  lemma RowsFromFirstTable(html: string, read: Reader)
    requires Retrieve(html, read).Rows?
    ensures var r := Retrieve(html, read);
      var dfList := ReadAttempt(read, html).0;
      && dfList.Some? && |dfList.value| > 0
      && dfList.value[0] == Table(r.header, r.data)
      && forall i :: 0 <= i < |r.data| ==> |r.data[i]| == |r.header|
  {
    var dfList := ReadAttempt(read, html).0;
    var first: Frame := dfList.value[0];
    assert forall i :: 0 <= i < |first.rows| ==> |first.rows[i]| == |first.columns|;
  }

  /** A parse error reports the error of the last attempt that raised. */
  lemma ParseErrorNamesLastRaise(html: string, read: Reader)
    requires Retrieve(html, read).Failed?
    ensures var rs := FlavorResults(read, html);
      var k := FirstOk(rs);
      Retrieve(html, read).failure == ParseFailed(
        if k == 0 then "None"
        else if k < |rs| then rs[k - 1].error
        else if read(html, None).Err? then read(html, None).error
        else rs[|rs| - 1].error)
  {
  }
}
