/** `get_site_xml`: fetching one sitemap and parsing it. The GET and the XML
    parser are outside the model: the GET's outcome is an input, and the
    parser is a function from the response content to a tree or an error. */
module SiteXml {
  import opened Wrappers
  import opened Http
  import opened Events
  import opened Xml

  /** Why discovering a sitemap failed; in the program each is an exception
      that nothing catches. */
  datatype DiscoveryError =
    | TransportError(detail: string)   // raised by the GET itself
    | HttpError(status: int)           // raised by `raise_for_status`
    | ParseError(detail: string)       // raised by `ElementTree.fromstring`

  /** `raise_for_status` raises for client (4xx) and server (5xx) errors only. */
  predicate RaisesForStatus(status: int)
  {
    400 <= status < 600
  }

  /** The events of one fetch-and-parse and the tree, or the error, it ends in. */
  datatype Fetched = Fetched(trace: seq<Event>, result: Result<Element, DiscoveryError>)

  /** One sitemap fetch: a tree comes back exactly when the GET returned a
      response, its status is not an error status and its content parses;
      the sitemap is fetched once, and nothing is submitted. */
  function GetSiteXml(site: string, got: GetOutcome, parse: Bytes -> Result<Element, string>): (r: Fetched)
    ensures r.result.Ok? <==> got.GetResponse? && !RaisesForStatus(got.status) && parse(got.content).Ok?
    ensures r.result.Ok? ==> r.result.value == parse(got.content).value
    ensures got.GetRaised? ==> r.result == Err(TransportError(got.detail))
    ensures got.GetResponse? && RaisesForStatus(got.status) ==> r.result == Err(HttpError(got.status))
    ensures got.GetResponse? && !RaisesForStatus(got.status) && parse(got.content).Err? ==>
      r.result == Err(ParseError(parse(got.content).error))
    ensures |r.trace| >= 2 && r.trace[..2] == [Log(Info, FetchingSitemap(site)), Fetch(site)]
    ensures Fetches(r.trace) == [site]
    ensures Quiet(r.trace)
  {
    var before := [Log(Info, FetchingSitemap(site)), Fetch(site)];
    var after := before + [Log(Info, ParsingSitemap(site))];
    assert Fetches(before) == [site] && Fetches(after) == [site] by {
      FetchesAppend([Log(Info, FetchingSitemap(site))], [Fetch(site)]);
      FetchesAppend(before, [Log(Info, ParsingSitemap(site))]);
    }
    match got
    case GetRaised(detail) => Fetched(before, Err(TransportError(detail)))
    case GetResponse(status, content) =>
      if RaisesForStatus(status) then Fetched(before, Err(HttpError(status)))
      else
        match parse(content)
        case Err(detail) => Fetched(after, Err(ParseError(detail)))
        case Ok(root) => Fetched(after, Ok(root))
  }
}
