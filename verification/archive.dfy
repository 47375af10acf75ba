/** `archive_page`: building the Save Page Now request for one URL and
    turning whatever comes back into log records. It never fails: every
    outcome, including an exception, ends in a log record and a normal
    return. */
module Archive {
  import opened Wrappers
  import opened Http
  import opened Events
  import Json

  const SaveUrl := "https://web.archive.org/save"

  /** The access and secret keys read from the environment at start-up;
      either may be missing. */
  datatype Credentials = Credentials(accessKey: Option<string>, secretKey: Option<string>)

  /** How an f-string renders a value that may be `None`. */
  function Rendered(o: Option<string>): string
  {
    match o
    case None => "None"
    case Some(s) => s
  }

  /** The `Authorization` header: scheme `LOW`, then `access:secret`. */
  function AuthorizationOf(c: Credentials): string
  {
    "LOW " + Rendered(c.accessKey) + ":" + Rendered(c.secretKey)
  }

  /** The request for `url`: a fixed endpoint, a fixed header map whose only
      input is the credentials, and a fixed form whose only input is the URL. */
  function BuildRequest(url: string, c: Credentials): (r: Request)
    ensures r.endpoint == SaveUrl
    ensures r.headers.Keys == {"Accept", "Authorization"}
    ensures r.headers["Accept"] == "application/json"
    ensures r.headers["Authorization"] == AuthorizationOf(c)
    ensures r.form.Keys == {"url", "delay_wb_availability", "skip_first_archive", "if_not_archived_within"}
    ensures r.form["url"] == FormText(url)
    ensures r.form["delay_wb_availability"] == FormInt(1)
    ensures r.form["skip_first_archive"] == FormInt(1)
    ensures r.form["if_not_archived_within"] == FormText("15h")
  {
    Request(
      SaveUrl,
      map["Accept" := "application/json", "Authorization" := AuthorizationOf(c)],
      map["url" := FormText(url), "delay_wb_availability" := FormInt(1),
          "skip_first_archive" := FormInt(1), "if_not_archived_within" := FormText("15h")])
  }

  /** Two requests for the same credentials differ at most in the `url` form
      field, and two requests for the same URL differ at most in the
      `Authorization` header. */
  lemma RequestVariesOnlyWithInputs(u1: string, u2: string, c1: Credentials, c2: Credentials)
    ensures BuildRequest(u1, c1).headers == BuildRequest(u2, c1).headers
    ensures BuildRequest(u2, c1).form == BuildRequest(u1, c1).form["url" := FormText(u2)]
    ensures BuildRequest(u1, c2).headers == BuildRequest(u1, c1).headers["Authorization" := AuthorizationOf(c2)]
    ensures BuildRequest(u1, c2).form == BuildRequest(u1, c1).form
    ensures BuildRequest(u1, c2).endpoint == BuildRequest(u2, c1).endpoint
  {
  }

  /** The two halves of `s` around its first `sep`, or `None` when `s` has
      no `sep`. */
  function SplitAtFirst(s: string, sep: char): (r: Option<(string, string)>)
    ensures r.None? <==> sep !in s
    ensures r.Some? ==> s == r.value.0 + [sep] + r.value.1 && sep !in r.value.0
  {
    if |s| == 0 then None
    else if s[0] == sep then Some(([], s[1..]))
    else
      match SplitAtFirst(s[1..], sep)
      case None => None
      case Some(halves) => Some(([s[0]] + halves.0, halves.1))
  }

  /** Reading the two keys back out of an `Authorization` header. */
  function ParseAuthorization(h: string): Option<(string, string)>
  {
    if |h| >= 4 && h[..4] == "LOW " then SplitAtFirst(h[4..], ':') else None
  }

  lemma {:induction false} SplitAtFirstJoin(a: string, b: string, sep: char)
    requires sep !in a
    ensures SplitAtFirst(a + [sep] + b, sep) == Some((a, b))
  {
    if |a| > 0 {
      assert (a + [sep] + b)[1..] == a[1..] + [sep] + b;
      SplitAtFirstJoin(a[1..], b, sep);
      assert [a[0]] + a[1..] == a;
    } else {
      assert a + [sep] + b == [sep] + b;
    }
  }

  /** The header carries both keys as rendered, recoverable whenever the
      access key contains no colon. */
  lemma AuthorizationRoundTrip(c: Credentials)
    requires ':' !in Rendered(c.accessKey)
    ensures ParseAuthorization(AuthorizationOf(c)) == Some((Rendered(c.accessKey), Rendered(c.secretKey)))
  {
    var h := AuthorizationOf(c);
    assert h[..4] == "LOW ";
    assert h[4..] == Rendered(c.accessKey) + [':'] + Rendered(c.secretKey);
    SplitAtFirstJoin(Rendered(c.accessKey), Rendered(c.secretKey), ':');
  }

  /** The text of the `AttributeError` raised by calling `.get` on a decoded
      body that is not a dict. */
  function NoGetAttribute(v: Json.Value): string
  {
    "'" + Json.TypeName(v) + "' object has no attribute 'get'"
  }

  /** The service accepted the page: status 200 and a body that decodes to a
      JSON object. */
  predicate Accepted(o: PostOutcome)
  {
    o.PostResponse? && o.status == 200 && o.json.Decoded? && o.json.value.Object?
  }

  /** The accepted response carries a truthy `message`. */
  predicate HasNote(o: PostOutcome)
  {
    Accepted(o) && "message" in o.json.value.fields && Json.Truthy(o.json.value.fields["message"])
  }

  /** The log records `archive_page` writes for the response (or exception)
      `o` to its submission of `url`. */
  function ArchiveLogs(url: string, o: PostOutcome): (r: seq<Event>)
    ensures 1 <= |r| <= 2
    ensures forall j :: 0 <= j < |r| ==> r[j].Log?
    ensures r[0].level == Info <==> Accepted(o)
    ensures |r| == 2 <==> HasNote(o)
    ensures Accepted(o) ==> r[0].message == Archived(Json.Get(o.json.value.fields, "url"), Json.Get(o.json.value.fields, "job_id"))
    ensures HasNote(o) ==> r[1] == Log(Warning, ServiceMessage(o.json.value.fields["message"]))
    ensures o.PostResponse? && o.status != 200 ==> r == [Log(Warning, Unarchived(url, o.text))]
    ensures o.PostRaised? ==> r == [Log(Warning, Failure(o.detail))]
    ensures o.PostResponse? && o.status == 200 && o.json.Undecodable? ==>
      r == [Log(Warning, Failure(o.json.detail))]
    ensures o.PostResponse? && o.status == 200 && o.json.Decoded? && !o.json.value.Object? ==>
      r == [Log(Warning, Failure(NoGetAttribute(o.json.value)))]
  {
    match o
    case PostRaised(detail) => [Log(Warning, Failure(detail))]
    case PostResponse(status, text, json) =>
      if status != 200 then [Log(Warning, Unarchived(url, text))]
      else
        match json
        case Undecodable(detail) => [Log(Warning, Failure(detail))]
        case Decoded(data) =>
          match data
          case Object(fields) =>
            [Log(Info, Archived(Json.Get(fields, "url"), Json.Get(fields, "job_id")))]
            + (match Json.Get(fields, "message")
               case Some(note) => if Json.Truthy(note) then [Log(Warning, ServiceMessage(note))] else []
               case None => [])
          case _ => [Log(Warning, Failure(NoGetAttribute(data)))]
  }

  /** One submission: the request is sent, then its outcome is logged. */
  function ArchivePage(url: string, c: Credentials, respond: Request -> PostOutcome): (r: seq<Event>)
    ensures Submitted(r) == [BuildRequest(url, c)]
    ensures r[0] == Submit(BuildRequest(url, c))
    ensures forall j :: 1 <= j < |r| ==> r[j].Log?
    ensures r[1..] == ArchiveLogs(url, respond(BuildRequest(url, c)))
  {
    var request := BuildRequest(url, c);
    var logs := ArchiveLogs(url, respond(request));
    var r := [Submit(request)] + logs;
    assert Submitted(logs) == [] by {
      assert Quiet(logs);
      QuietProjections(logs);
    }
    assert r[1..] == logs;
    r
  }

  /** The three outcomes of a submission, made explicit. */
  datatype Submission =
    | Success(location: Option<Json.Value>, jobId: Option<Json.Value>, note: Option<Json.Value>)
    | Rejected(status: int, body: string)
    | Raised(detail: string)

  /** Classifying a POST outcome: a non-200 status is a rejection, a 200 whose
      body is a JSON object is a success, and everything else is an
      exception inside the `try`. */
  function Classify(o: PostOutcome): (s: Submission)
    ensures s.Success? <==> Accepted(o)
    ensures s.Rejected? <==> o.PostResponse? && o.status != 200
    ensures s.Success? ==> (s.note.Some? <==> HasNote(o))
    ensures Accepted(o) ==>
      && s.location == Json.Get(o.json.value.fields, "url")
      && s.jobId == Json.Get(o.json.value.fields, "job_id")
    ensures HasNote(o) ==> s.note == Some(o.json.value.fields["message"])
    ensures s.Rejected? ==> s == Rejected(o.status, o.text)
    ensures o.PostRaised? ==> s == Raised(o.detail)
    ensures o.PostResponse? && o.status == 200 && o.json.Undecodable? ==> s == Raised(o.json.detail)
    ensures o.PostResponse? && o.status == 200 && o.json.Decoded? && !o.json.value.Object? ==>
      s == Raised(NoGetAttribute(o.json.value))
  {
    match o
    case PostRaised(detail) => Raised(detail)
    case PostResponse(status, text, json) =>
      if status != 200 then Rejected(status, text)
      else
        match json
        case Undecodable(detail) => Raised(detail)
        case Decoded(data) =>
          match data
          case Object(fields) =>
            var m := Json.Get(fields, "message");
            Success(Json.Get(fields, "url"), Json.Get(fields, "job_id"),
                    if m.Some? && Json.Truthy(m.value) then m else None)
          case _ => Raised(NoGetAttribute(data))
  }

  /** The log records for a classified submission of `url`. */
  function Report(url: string, s: Submission): seq<Event>
  {
    match s
    case Success(location, jobId, note) =>
      [Log(Info, Archived(location, jobId))] + (if note.Some? then [Log(Warning, ServiceMessage(note.value))] else [])
    case Rejected(_, body) => [Log(Warning, Unarchived(url, body))]
    case Raised(detail) => [Log(Warning, Failure(detail))]
  }

  /** The catch-all handler writes exactly the records of the explicit
      three-way classification. */
  lemma LogsFollowClassification(url: string, o: PostOutcome)
    ensures ArchiveLogs(url, o) == Report(url, Classify(o))
  {
  }

  /** A 200 response `{"url": "http://web.archive.org/X", "job_id": "123"}`
      gives one record with both values and no message warning. */
  lemma AcceptedWithoutMessage(url: string, text: string)
    ensures ArchiveLogs(url, PostResponse(200, text, Decoded(Json.Object(map[
              "url" := Json.String("http://web.archive.org/X"), "job_id" := Json.String("123")]))))
         == [Log(Info, Archived(Some(Json.String("http://web.archive.org/X")), Some(Json.String("123"))))]
  {
  }

  /** The same response with `"message": "rate limited"` adds one warning
      carrying the message. */
  lemma AcceptedWithMessage(url: string, text: string)
    ensures ArchiveLogs(url, PostResponse(200, text, Decoded(Json.Object(map[
              "url" := Json.String("http://web.archive.org/X"), "job_id" := Json.String("123"),
              "message" := Json.String("rate limited")]))))
         == [Log(Info, Archived(Some(Json.String("http://web.archive.org/X")), Some(Json.String("123")))),
             Log(Warning, ServiceMessage(Json.String("rate limited")))]
  {
  }
}
