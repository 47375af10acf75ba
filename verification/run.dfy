/** `main`: discover every configured sitemap's URLs, concatenating them in
    configuration order, then submit each URL once, pausing before every
    submission. The network is an input: the `World` says what each GET,
    each parse and each POST comes back with. */
module Run {
  import opened Wrappers
  import opened Http
  import opened Events
  import opened Xml
  import opened Sitemap
  import opened SiteXml
  import opened Archive
  import opened Discovery

  /** The configured sitemaps. */
  const SiteMapUrls: seq<string> := ["https://amarahospital.com/page-sitemap.xml"]

  /** The pause before each submission, for a quota of 12 pages a minute. */
  const PaceSeconds: nat := 10

  /** What the outside world answers: the outcome of the i-th GET (by its
      position in the run) for a site, the parse of some content, and the
      outcome of the k-th POST for a request. */
  datatype World = World(
    get: (nat, string) -> GetOutcome,
    parse: Bytes -> Result<Element, string>,
    post: (nat, Request) -> PostOutcome)

  /** What fetching and parsing each configured sitemap gives, in order. */
  function Fetchings(sites: seq<string>, w: World): (fs: seq<Fetched>)
    ensures FetchesOf(fs, sites)
  {
    var fs := seq(|sites|, i requires 0 <= i < |sites| => GetSiteXml(sites[i], w.get(i, sites[i]), w.parse));
    assert forall j :: 0 <= j < |fs| ==> fs[j] == GetSiteXml(sites[j], w.get(j, sites[j]), w.parse);
    fs
  }

  /** What fetching and parsing the i-th configured sitemap gives. */
  function SiteResult(sites: seq<string>, w: World, i: nat): Result<Element, DiscoveryError>
    requires i < |sites|
  {
    Fetchings(sites, w)[i].result
  }

  /** The discovery phase of a run. */
  function Discover(sites: seq<string>, w: World): Discovered
  {
    DiscoverFrom(Fetchings(sites, w), 0, [])
  }

  /** The requests for a URL list, one per URL, in order. */
  function Requests(urls: seq<string>, c: Credentials): (r: seq<Request>)
    ensures |r| == |urls|
    ensures forall i :: 0 <= i < |r| ==> "url" in r[i].form && r[i].form["url"] == FormText(urls[i])
  {
    var r := seq(|urls|, i requires 0 <= i < |urls| => BuildRequest(urls[i], c));
    assert forall i :: 0 <= i < |r| ==> "url" in r[i].form.Keys;
    r
  }

  /** One iteration of the submission loop: pause, then submit the k-th URL. */
  function Round(urls: seq<string>, k: nat, c: Credentials, w: World): seq<Event>
    requires k < |urls|
  {
    [Sleep(PaceSeconds)] + ArchivePage(urls[k], c, req => w.post(k, req))
  }

  /** A round pauses for the pace, then submits the k-th URL's request and
      nothing else, and fetches nothing. */
  lemma RoundIsPaced(urls: seq<string>, k: nat, c: Credentials, w: World)
    requires k < |urls|
    ensures Submitted(Round(urls, k, c, w)) == [BuildRequest(urls[k], c)]
    ensures TotalSleep(Round(urls, k, c, w)) == PaceSeconds
    ensures NoFetch(Round(urls, k, c, w))
    ensures Paced(Round(urls, k, c, w), PaceSeconds)
  {
    var page := ArchivePage(urls[k], c, req => w.post(k, req));
    var r := Round(urls, k, c, w);
    SubmittedAppend([Sleep(PaceSeconds)], page);
    TotalSleepAppend([Sleep(PaceSeconds)], page);
    assert TotalSleep(page) == 0 by {
      assert Quiet(page[1..]);
      QuietProjections(page[1..]);
      assert page == [page[0]] + page[1..];
      TotalSleepAppend([page[0]], page[1..]);
    }
    assert forall j :: 0 <= j < |r| ==> r[j] == (if j == 0 then Sleep(PaceSeconds) else page[j - 1]);
  }

  /** The submission loop from the k-th URL on. */
  function SubmitFrom(urls: seq<string>, k: nat, c: Credentials, w: World): seq<Event>
    requires k <= |urls|
    decreases |urls| - k
  {
    if k == |urls| then [] else Round(urls, k, c, w) + SubmitFrom(urls, k + 1, c, w)
  }

  /** The submission loop makes exactly one paced submission per remaining
      URL, in list order, and fetches no sitemap. */
  lemma {:induction false} SubmitFromIsPaced(urls: seq<string>, k: nat, c: Credentials, w: World)
    requires k <= |urls|
    ensures Submitted(SubmitFrom(urls, k, c, w)) == Requests(urls[k..], c)
    ensures TotalSleep(SubmitFrom(urls, k, c, w)) == PaceSeconds * (|urls| - k)
    ensures NoFetch(SubmitFrom(urls, k, c, w))
    ensures Paced(SubmitFrom(urls, k, c, w), PaceSeconds)
    decreases |urls| - k
  {
    if k < |urls| {
      var head := Round(urls, k, c, w);
      var rest := SubmitFrom(urls, k + 1, c, w);
      RoundIsPaced(urls, k, c, w);
      SubmitFromIsPaced(urls, k + 1, c, w);
      SubmittedAppend(head, rest);
      TotalSleepAppend(head, rest);
      PacedAppend(head, rest, PaceSeconds);
      var t := head + rest;
      assert forall j :: |head| <= j < |t| ==> t[j] == rest[j - |head|];
      assert forall j :: 0 <= j < |head| ==> t[j] == head[j];
      assert Requests(urls[k..], c) == [BuildRequest(urls[k], c)] + Requests(urls[k + 1..], c);
    }
  }

  lemma SubmitFromStep(urls: seq<string>, k: nat, c: Credentials, w: World)
    requires k < |urls|
    ensures SubmitFrom(urls, k, c, w) == Round(urls, k, c, w) + SubmitFrom(urls, k + 1, c, w)
  {
  }

  datatype Outcome = Completed | Aborted(error: DiscoveryError)

  datatype RunResult = RunResult(trace: seq<Event>, outcome: Outcome)

  /** The whole run. It completes exactly when discovery succeeds, and then
      submits every discovered URL once, in order, after a pause of its own;
      when discovery fails the error escapes and nothing is submitted. Every
      sitemap fetch precedes every submission. */
  function ArchiveSitemaps(sites: seq<string>, c: Credentials, w: World): (r: RunResult)
    ensures r.outcome.Completed? <==> forall j :: 0 <= j < |sites| ==> SiteResult(sites, w, j).Ok?
    ensures r.outcome.Aborted? ==> Discover(sites, w).urls == Err(r.outcome.error)
    ensures r.outcome.Aborted? ==> Submitted(r.trace) == [] && TotalSleep(r.trace) == 0
    ensures r.outcome.Completed? ==>
      && Discover(sites, w).urls.Ok?
      && Submitted(r.trace) == Requests(Discover(sites, w).urls.value, c)
      && TotalSleep(r.trace) == PaceSeconds * |Discover(sites, w).urls.value|
    ensures Fetches(r.trace) == Fetches(Discover(sites, w).trace)
    ensures Paced(r.trace, PaceSeconds)
    ensures FetchesFirst(r.trace)
  {
    var d := Discover(sites, w);
    DiscoverFromSucceedsIff(Fetchings(sites, w), 0, []);
    assert forall j :: 0 <= j < |sites| ==> SiteResult(sites, w, j) == Fetchings(sites, w)[j].result;
    DiscoverFromQuiet(Fetchings(sites, w), sites, 0, []);
    QuietProjections(d.trace);
    QuietIsPaced(d.trace, PaceSeconds);
    match d.urls
    case Err(e) => RunResult(d.trace, Aborted(e))
    case Ok(urls) =>
      var s := SubmitFrom(urls, 0, c, w);
      var t := d.trace + s;
      SubmitFromIsPaced(urls, 0, c, w);
      SubmittedAppend(d.trace, s);
      TotalSleepAppend(d.trace, s);
      FetchesAppend(d.trace, s);
      NoFetchProjection(s);
      PacedAppend(d.trace, s, PaceSeconds);
      assert urls[0..] == urls;
      QuietThenNoFetch(d.trace, s);
      RunResult(t, Completed)
  }

  /** The first loop of `main`: fetch each sitemap in turn and append its
      URLs, stopping at the first failure. */
  method DiscoverLoop(sites: seq<string>, w: World) returns (d: Discovered)
    ensures d == Discover(sites, w)
  {
    ghost var fs := Fetchings(sites, w);
    var trace: seq<Event> := [];
    var all: seq<string> := [];
    var i := 0;
    while i < |sites|
      invariant 0 <= i <= |sites|
      invariant Discover(sites, w) == Discovered(trace + DiscoverFrom(fs, i, all).trace, DiscoverFrom(fs, i, all).urls)
    {
      var fetched := GetSiteXml(sites[i], w.get(i, sites[i]), w.parse);
      assert fetched == fs[i];
      if fetched.result.Err? {
        return Discovered(trace + fetched.trace, Err(fetched.result.error));
      }
      var step := fetched.trace + [Log(Info, ExtractingUrls)];
      // Proof only: the discovery still to come, which the loop never builds.
      ghost var rest := DiscoverFrom(fs, i + 1, all + GetUrls(fetched.result.value));
      assert DiscoverFrom(fs, i, all) == Discovered(step + rest.trace, rest.urls);
      assert trace + (step + rest.trace) == (trace + step) + rest.trace;
      trace := trace + step;
      all := all + GetUrls(fetched.result.value);
      i := i + 1;
    }
    assert trace + [] == trace;
    d := Discovered(trace, Ok(all));
  }

  /** The second loop of `main`: for each URL in order, pause, then submit. */
  method SubmitLoop(urls: seq<string>, c: Credentials, w: World) returns (t: seq<Event>)
    ensures t == SubmitFrom(urls, 0, c, w)
  {
    t := [];
    var k := 0;
    while k < |urls|
      invariant 0 <= k <= |urls|
      invariant t + SubmitFrom(urls, k, c, w) == SubmitFrom(urls, 0, c, w)
    {
      var round := Round(urls, k, c, w);
      // Proof only: the rounds still to come, which the loop never builds.
      ghost var rest := SubmitFrom(urls, k + 1, c, w);
      assert t + SubmitFrom(urls, k, c, w) == (t + round) + rest by {
        SubmitFromStep(urls, k, c, w);
        assert t + (round + rest) == (t + round) + rest;
      }
      t := t + round;
      k := k + 1;
    }
    assert t + [] == t;
  }

  /** `main` as written: discovery, then submission unless discovery raised. */
  method RunArchive(sites: seq<string>, c: Credentials, w: World) returns (r: RunResult)
    ensures r == ArchiveSitemaps(sites, c, w)
  {
    var d := DiscoverLoop(sites, w);
    if d.urls.Err? {
      return RunResult(d.trace, Aborted(d.urls.error));
    }
    var t := SubmitLoop(d.urls.value, c, w);
    r := RunResult(d.trace + t, Completed);
  }

  /** When every configured sitemap parses, the run completes, fetches every
      sitemap once in order, and submits the concatenation of their URL
      lists, pausing ten seconds per URL. */
  lemma CompletedRun(sites: seq<string>, c: Credentials, w: World, trees: seq<Element>)
    requires |trees| == |sites|
    requires forall j :: 0 <= j < |sites| ==> SiteResult(sites, w, j) == Ok(trees[j])
    ensures ArchiveSitemaps(sites, c, w).outcome == Completed
    ensures Fetches(ArchiveSitemaps(sites, c, w).trace) == sites
    ensures Submitted(ArchiveSitemaps(sites, c, w).trace) == Requests(Concat(UrlLists(trees)), c)
    ensures TotalSleep(ArchiveSitemaps(sites, c, w).trace) == PaceSeconds * SumLengths(UrlLists(trees))
  {
    var fs := Fetchings(sites, w);
    assert forall j :: 0 <= j < |sites| ==> fs[j].result == SiteResult(sites, w, j);
    DiscoverFromAllParsed(fs, sites, trees, 0, []);
    assert UrlLists(trees)[0..] == UrlLists(trees);
    assert sites[0..] == sites;
    assert [] + Concat(UrlLists(trees)) == Concat(UrlLists(trees));
    ConcatLength(UrlLists(trees));
  }

  /** When the k-th sitemap is the first that fails, the run aborts with its
      error, fetches no later sitemap, and submits nothing. */
  lemma AbortedRun(sites: seq<string>, c: Credentials, w: World, k: nat)
    requires k < |sites|
    requires forall j :: 0 <= j < k ==> SiteResult(sites, w, j).Ok?
    requires SiteResult(sites, w, k).Err?
    ensures ArchiveSitemaps(sites, c, w).outcome == Aborted(SiteResult(sites, w, k).error)
    ensures Fetches(ArchiveSitemaps(sites, c, w).trace) == sites[..k + 1]
    ensures Submitted(ArchiveSitemaps(sites, c, w).trace) == []
    ensures TotalSleep(ArchiveSitemaps(sites, c, w).trace) == 0
  {
    var fs := Fetchings(sites, w);
    assert forall j :: 0 <= j <= k ==> fs[j].result == SiteResult(sites, w, j);
    DiscoverFromFails(fs, sites, 0, [], k);
    assert sites[0..k + 1] == sites[..k + 1];
  }

  /** The configured run fetches its one sitemap exactly once, whether it
      completes or aborts, and completes exactly when that sitemap parses. */
  lemma ConfiguredRun(c: Credentials, w: World)
    ensures Fetches(ArchiveSitemaps(SiteMapUrls, c, w).trace) == SiteMapUrls
    ensures ArchiveSitemaps(SiteMapUrls, c, w).outcome.Completed? <==> SiteResult(SiteMapUrls, w, 0).Ok?
  {
    var result := SiteResult(SiteMapUrls, w, 0);
    if result.Ok? {
      CompletedRun(SiteMapUrls, c, w, [result.value]);
    } else {
      AbortedRun(SiteMapUrls, c, w, 0);
      assert SiteMapUrls[..1] == SiteMapUrls;
    }
  }
}
