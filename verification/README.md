# web-archive: sitemap-driven archiving, modelled in Dafny

`archive_pages.py` is a one-shot batch script with two phases:

1. It reads a fixed list of sitemaps. For each one it fetches the document, parses it as XML and collects the non-empty text of every sitemaps.org 0.9 `<url>/<loc>` element.
2. It sends each collected URL to the Wayback Machine's Save Page Now endpoint. It waits ten seconds before each submission.

A sitemap fetch or parse failure aborts the run. A submission failure is only logged.

The model is pure and functional. The XML tree, the HTTP outcomes, the decoded JSON and the run's observable behaviour are all datatypes. Behaviour is an event trace of log records, sitemap fetches, sleeps and submissions. The outside world is an input, the `Run.World` value. It says what each GET, each XML parse and each POST comes back with.

Modules, one per concern of the script:

- `Wrappers`: `Option` and `Result`.
- `Json`: decoded JSON values.
  - Python truthiness of a value.
  - The type name an `AttributeError` reports.
  - `dict.get`.
- `Http`: byte content and requests, with headers and a form body. Also the outcome of a GET and of a POST. A POST response carries its status, its text and its decoded body, or the reason decoding failed.
- `Events`: the trace alphabet, plus its projections:
  - the submitted requests;
  - the fetched sitemaps;
  - the total sleep.

  It also defines the trace shapes the run guarantees:
  - `Quiet`: no sleep and no submission;
  - `Paced`: every submission immediately follows a ten-second sleep, and every sleep immediately precedes a submission;
  - `FetchesFirst`: every fetch precedes every submission.
- `Xml`: an element tree with Clark-notation tags (`{namespace}local`), optional text and ordered children. Also the ElementPath child step and `findall` over a relative path.
- `Sitemap`: `get_urls_sitemap`, as a function (`GetUrls`) and as the loop the script runs (`ExtractUrls`).
- `SiteXml`: `get_site_xml`. The model covers:
  - the GET;
  - `raise_for_status`, which raises for status 400 to 599;
  - the parse;
  - the three errors that escape.
- `Archive`: `archive_page`.
  - The request it builds.
  - The log records it writes for each outcome.
  - The explicit three-way classification: accepted, rejected, or raised.
- `Discovery`: the first loop of `main`, over the sequence of fetch results.
- `Run`: `main`, as a function of the configured sitemaps, the credentials and the world (`ArchiveSitemaps`), and as the two loops the script runs (`RunArchive`).

Details of the code that the model keeps:

- `raise_for_status` raises only for status 400 to 599. A 204, or a 3xx that is not followed, goes on to the parse. `SiteXml.GetSiteXml` fails with `HttpError` exactly for 400 to 599.
- The exception `raise_for_status` raises carries the whole response. The model's `HttpError` keeps only the status, by choice.
- With status 200, the exception branch of `archive_page` is still reached in two cases:
  - the body does not decode as JSON;
  - the body decodes to something other than an object, so `.get` raises `AttributeError`.

  `Archive.Classify` sends both to `Raised`, with the error text, and `Archive.ArchiveLogs` logs that text as one warning.
- The "message" warning is written when the value is truthy under Python's rules, not merely when the key is present.
- Missing credentials render as the text `None` inside the `Authorization` header.

## Model

| member | source | states |
|---|---|---|
| Xml.ChildStep | archive_pages.py:31 | one ElementPath child step: for each context element in order, its children with the step's tag, in document order, without deduplication; characterised by `Xml.ChildStepMembers` |
| Xml.FindAll | archive_pages.py:31 | `findall` of a relative path of tags: child steps applied one after another, starting from the root alone |
| Xml.ChildStepMembers | archive_pages.py:31 | one path step keeps exactly the children, of any context element, that carry the step's tag; nothing deeper is reached |
| Sitemap.LocationsMembers | archive_pages.py:11-31 | the `findall` path selects exactly the namespaced `loc` children of namespaced `url` children of the root; un-namespaced or more deeply nested `loc`s are never selected |
| Sitemap.TextsMembers | archive_pages.py:35-38 | the filter keeps a string exactly when it is the present, non-empty text of some matched element |
| Sitemap.GetUrlsMembers | archive_pages.py:29-40 | a URL is returned if and only if it is the non-empty text of a namespaced `loc` directly under a namespaced `url` directly under the root; never more URLs than matched `loc`s |
| Sitemap.TextsIsOrderedFilter | archive_pages.py:30-40 | the output is an order-preserving filter of the matched `loc`s: a strictly increasing choice of positions, taking the text at each, that includes every position with non-empty text |
| Sitemap.TextsAppend | archive_pages.py:35-38 | filtering distributes over concatenation, which is what makes the append loop correct |
| Sitemap.GetUrls | archive_pages.py:29-40 | `get_urls_sitemap`: the non-empty texts of the `findall` matches, in order; characterised by `Sitemap.GetUrlsMembers`, `Sitemap.TextsIsOrderedFilter` and `Sitemap.SitemapRoundTrip` |
| Sitemap.ExtractUrls | archive_pages.py:29-40 | the script's append loop computes exactly the filtered `loc` texts |
| Sitemap.SitemapRoundTrip | archive_pages.py:29-40 | writing any list of non-empty URLs as a sitemap and extracting gives back that list, in order and with duplicates |
| Sitemap.ReextractIsIdentity | archive_pages.py:29-40 | extracting from a sitemap rebuilt from an extraction's output changes nothing |
| Sitemap.ThreeEntries | archive_pages.py:35-38 | entries with texts "https://a.com/1", "" and "https://a.com/3" yield the first and the last |
| SiteXml.GetSiteXml | archive_pages.py:19-27 | a tree results exactly when the GET returned, its status is outside 400-599 and the content parses; each failure is its own error; the sitemap is fetched once, after its log record, and nothing is submitted or slept |
| Archive.AuthorizationOf | archive_pages.py:45 | the `Authorization` value: `LOW `, the access key, a colon, the secret key, each missing key rendered as `None`; read back by `Archive.AuthorizationRoundTrip` |
| Archive.NoGetAttribute | archive_pages.py:61 | the text of the `AttributeError` from calling `.get` on a decoded body that is not a dict, naming the body's Python type |
| Archive.BuildRequest | archive_pages.py:43-54 | the endpoint, the exact header keys and values, and the exact form keys and values, with `url` the input URL |
| Archive.RequestVariesOnlyWithInputs | archive_pages.py:43-52 | changing the URL changes only the `url` form field; changing the credentials changes only the `Authorization` header |
| Archive.AuthorizationRoundTrip | archive_pages.py:45 | the header reads back as scheme `LOW` and both keys as rendered, whenever the access key has no colon |
| Archive.ArchiveLogs | archive_pages.py:53-65 | one or two log records, never an error; info exactly when status 200 and the body is a JSON object; that record carries `url` and `job_id`; a second record exactly when `message` is truthy, carrying it; a non-200 gives one warning with the body; an exception, including a JSON decode failure or `.get` on a non-dict body after a 200, gives one warning with its text |
| Archive.ArchivePage | archive_pages.py:42-65 | exactly one submission, of the built request, followed only by the log records for its outcome |
| Archive.Classify | archive_pages.py:53-65 | the three-way outcome: success if and only if accepted, rejected if and only if a non-200 response, and a note on success if and only if the message is truthy; a success carries `url`, `job_id` and the message value, a rejection the status and body, and every exception path its error text |
| Archive.LogsFollowClassification | archive_pages.py:53-65 | the catch-all handler logs exactly what the explicit three-way classification reports |
| Archive.AcceptedWithoutMessage | archive_pages.py:59-62 | a 200 with `url` and `job_id` and no `message` gives one info record and no warning |
| Archive.AcceptedWithMessage | archive_pages.py:59-63 | the same with `message` adds one warning carrying it |
| Json.Truthy | archive_pages.py:62 | Python truthiness of a decoded JSON value: `null`, `false`, zero, the empty string, the empty list and the empty object are false |
| Json.Get | archive_pages.py:61-62 | `dict.get` gives a value exactly when the key is present, and then the value stored under it |
| Discovery.DiscoverFrom | archive_pages.py:69-72 | the first loop of `main` from the i-th sitemap: each fetch's trace, then the extraction log, appending its URLs; the first failure ends the loop with its error |
| Discovery.DiscoverFromQuiet | archive_pages.py:69-72 | discovery neither sleeps nor submits |
| Discovery.DiscoverFromSucceedsIff | archive_pages.py:70-72 | discovery succeeds if and only if every sitemap's fetch and parse succeeded |
| Discovery.DiscoverFromAllParsed | archive_pages.py:69-72 | when every sitemap parses, the URL list is the concatenation of the per-sitemap lists in configuration order, and each sitemap is fetched once, in order |
| Discovery.DiscoverFromFails | archive_pages.py:21-25 | at the first failing sitemap, discovery ends with that error, and no later sitemap is fetched |
| Discovery.ConcatLength | archive_pages.py:72 | the aggregated length is the sum of the per-sitemap lengths |
| Discovery.ConcatKeepsDuplicates | archive_pages.py:72 | the aggregated multiset is the sum of the per-sitemap multisets, so duplicates are kept |
| Run.Round | archive_pages.py:75-77 | one iteration of the second loop: a ten-second sleep, then `archive_page` on the k-th URL; proved paced by `Run.RoundIsPaced` |
| Run.SubmitFrom | archive_pages.py:74-77 | the second loop of `main` from the k-th URL: the rounds in list order; proved paced by `Run.SubmitFromIsPaced` |
| Run.Requests | archive_pages.py:74-77 | one request per URL, in order, each carrying its URL |
| Run.RoundIsPaced | archive_pages.py:75-77 | one iteration sleeps ten seconds, then submits that URL's request once and fetches nothing |
| Run.SubmitFromIsPaced | archive_pages.py:74-77 | the submission loop submits one request per URL in list order, sleeps ten seconds per URL, each sleep directly before its submission, and fetches nothing |
| Run.ArchiveSitemaps | archive_pages.py:67-77 | the run completes if and only if every sitemap parses. When it aborts, the error is discovery's and nothing is submitted or slept. When it completes, the submissions are the requests for the discovered URLs in order, with ten seconds of sleep per URL. The trace is paced, and every fetch precedes every submission |
| Run.CompletedRun | archive_pages.py:67-77 | when every sitemap parses, every sitemap is fetched once in order, and the concatenated URL lists are submitted with ten seconds per URL |
| Run.AbortedRun | archive_pages.py:21-25 | when the k-th sitemap is the first to fail, the run aborts with its error, fetches only sitemaps up to the k-th, and submits and sleeps nothing |
| Run.ConfiguredRun | archive_pages.py:13-15 | with the configured sitemap list, the run fetches that one sitemap exactly once, whatever happens, and completes exactly when it parses |
| Run.DiscoverLoop | archive_pages.py:69-72 | the script's first loop computes exactly the discovery function |
| Run.SubmitLoop | archive_pages.py:74-77 | the script's second loop computes exactly the paced submission trace |
| Run.RunArchive | archive_pages.py:67-77 | `main` as written computes exactly the run function |

## Left out

- The network. `requests.get` and `requests.post` are inputs through `Run.World`: a response or the text of the exception. So are their default timeouts and blocking behaviour.
- XML parsing. `ElementTree.fromstring` is the `parse` input, from bytes to a tree or an error text. Attributes, tails and comments are not modelled, since the extraction never reads them.
- JSON decoding. `resp.json()` is an input: a decoded value, or the text of the decode error. Floating-point values are reals, so NaN is not represented.
- Wall-clock time. `time.sleep(10)` is a `Sleep(10)` event.
- Process configuration. The `os.environ` credential lookup is the `Credentials` parameter. `logging.basicConfig`, timestamps and the line format are outside the model. Log records carry structured messages rather than formatted text. For example, the URL and job id are kept as the JSON values `dict.get` returned.
- Exceptions outside `Exception`, such as `KeyboardInterrupt`. These would escape `archive_page`. The model has no such outcome.
- Sitemap.GetUrls: the "same result twice" property holds because the model is a pure function, so no lemma states it. `Sitemap.ReextractIsIdentity` states the idempotence that needs a proof.
- Archive.AuthorizationRoundTrip: it requires the access key to contain no colon, because a colon inside the access key makes the header ambiguous.
- SiteXml.GetSiteXml: an `HttpError` carries only the status. The response the exception carries (headers, body) and its message text (reason and URL) are not modelled.
