/** The observable behaviour of a run as a trace of events: log records,
    sitemap fetches, pauses and archive submissions, in the order they
    happen. Real time is not modelled; a pause is an event carrying its
    length in seconds. */
module Events {
  import opened Wrappers
  import opened Http
  import Json

  datatype Level = Info | Warning

  /** The log records the program writes, one constructor per format string,
      each carrying the values it interpolates. */
  datatype Message =
    | FetchingSitemap(site: string)                                 // "Get site map from {site}"
    | ParsingSitemap(site: string)                                  // "Parsing XML for {site}"
    | ExtractingUrls                                                // "Extracting all urls from sitemap"
    | Unarchived(url: string, body: string)                         // "Unable to archive page {url} due to {data}"
    | Archived(location: Option<Json.Value>, jobId: Option<Json.Value>) // "Archived page under {url} via {job_id}"
    | ServiceMessage(note: Json.Value)                              // "Message: {message}"
    | Failure(detail: string)                                       // str(ex)

  datatype Event =
    | Log(level: Level, message: Message)
    | Fetch(site: string)
    | Sleep(seconds: nat)
    | Submit(request: Request)

  /** The requests submitted in a trace, in order. */
  function Submitted(t: seq<Event>): seq<Request>
  {
    if |t| == 0 then []
    else (if t[0].Submit? then [t[0].request] else []) + Submitted(t[1..])
  }

  /** The sitemaps fetched in a trace, in order. */
  function Fetches(t: seq<Event>): seq<string>
  {
    if |t| == 0 then []
    else (if t[0].Fetch? then [t[0].site] else []) + Fetches(t[1..])
  }

  /** The total number of seconds a trace spends paused. */
  function TotalSleep(t: seq<Event>): nat
  {
    if |t| == 0 then 0
    else (if t[0].Sleep? then t[0].seconds else 0) + TotalSleep(t[1..])
  }

  /** No submission and no pause happens anywhere in `t`. */
  predicate Quiet(t: seq<Event>)
  {
    forall j :: 0 <= j < |t| ==> !t[j].Submit? && !t[j].Sleep?
  }

  /** No sitemap is fetched anywhere in `t`. */
  predicate NoFetch(t: seq<Event>)
  {
    forall j :: 0 <= j < |t| ==> !t[j].Fetch?
  }

  /** Every submission in `t` comes immediately after a pause of `pace`
      seconds, and every pause is exactly `pace` seconds long and comes
      immediately before a submission. */
  predicate Paced(t: seq<Event>, pace: nat)
  {
    forall j {:trigger t[j]} :: 0 <= j < |t| ==>
      && (t[j].Submit? ==> j > 0 && t[j - 1] == Sleep(pace))
      && (t[j].Sleep? ==> t[j] == Sleep(pace) && j + 1 < |t| && t[j + 1].Submit?)
  }

  /** Every sitemap fetch in `t` comes before every submission. */
  predicate FetchesFirst(t: seq<Event>)
  {
    forall i, j :: 0 <= i < |t| && 0 <= j < |t| && t[i].Fetch? && t[j].Submit? ==> i < j
  }

  /** A phase that submits nothing followed by one that fetches nothing
      fetches before it submits. */
  lemma QuietThenNoFetch(a: seq<Event>, b: seq<Event>)
    requires Quiet(a) && NoFetch(b)
    ensures FetchesFirst(a + b)
  {
    var t := a + b;
    assert forall i :: |a| <= i < |t| ==> t[i] == b[i - |a|];
    assert forall j :: 0 <= j < |a| ==> t[j] == a[j];
  }

  lemma {:induction false} SubmittedAppend(a: seq<Event>, b: seq<Event>)
    ensures Submitted(a + b) == Submitted(a) + Submitted(b)
  {
    if |a| == 0 {
      assert a + b == b;
    } else {
      var head := if a[0].Submit? then [a[0].request] else [];
      assert (a + b)[0] == a[0];
      assert (a + b)[1..] == a[1..] + b;
      SubmittedAppend(a[1..], b);
      assert Submitted(a + b) == head + Submitted(a[1..] + b);
      assert Submitted(a) == head + Submitted(a[1..]);
    }
  }

  lemma {:induction false} FetchesAppend(a: seq<Event>, b: seq<Event>)
    ensures Fetches(a + b) == Fetches(a) + Fetches(b)
  {
    if |a| == 0 {
      assert a + b == b;
    } else {
      assert (a + b)[1..] == a[1..] + b;
      FetchesAppend(a[1..], b);
    }
  }

  lemma {:induction false} TotalSleepAppend(a: seq<Event>, b: seq<Event>)
    ensures TotalSleep(a + b) == TotalSleep(a) + TotalSleep(b)
  {
    if |a| == 0 {
      assert a + b == b;
    } else {
      assert (a + b)[1..] == a[1..] + b;
      TotalSleepAppend(a[1..], b);
    }
  }

  /** A trace without submissions or pauses submits nothing and sleeps for
      no time. */
  lemma {:induction false} QuietProjections(t: seq<Event>)
    requires Quiet(t)
    ensures Submitted(t) == [] && TotalSleep(t) == 0
  {
    if |t| > 0 {
      assert !t[0].Submit? && !t[0].Sleep?;
      QuietProjections(t[1..]);
    }
  }

  /** A trace without fetches fetches nothing. */
  lemma {:induction false} NoFetchProjection(t: seq<Event>)
    requires NoFetch(t)
    ensures Fetches(t) == []
  {
    if |t| > 0 {
      NoFetchProjection(t[1..]);
    }
  }

  /** Pacing survives concatenation: a paced trace never ends in a pause and
      never starts with a submission, so the seam cannot break it. */
  lemma PacedAppend(a: seq<Event>, b: seq<Event>, pace: nat)
    requires Paced(a, pace) && Paced(b, pace)
    ensures Paced(a + b, pace)
  {
    var t := a + b;
    forall j | 0 <= j < |t|
      ensures t[j].Submit? ==> j > 0 && t[j - 1] == Sleep(pace)
      ensures t[j].Sleep? ==> t[j] == Sleep(pace) && j + 1 < |t| && t[j + 1].Submit?
    {
      if j < |a| {
        assert t[j] == a[j];
        assert a[j].Submit? ==> j > 0 && a[j - 1] == Sleep(pace);
        assert a[j].Sleep? ==> a[j] == Sleep(pace) && j + 1 < |a| && a[j + 1].Submit?;
        if j > 0 { assert t[j - 1] == a[j - 1]; }
        if j + 1 < |a| { assert t[j + 1] == a[j + 1]; }
      } else {
        var k := j - |a|;
        assert t[j] == b[k];
        assert b[k].Submit? ==> k > 0 && b[k - 1] == Sleep(pace);
        assert b[k].Sleep? ==> b[k] == Sleep(pace) && k + 1 < |b| && b[k + 1].Submit?;
        if k > 0 { assert t[j - 1] == b[k - 1]; }
        if k + 1 < |b| { assert t[j + 1] == b[k + 1]; }
      }
    }
  }

  lemma QuietIsPaced(t: seq<Event>, pace: nat)
    requires Quiet(t)
    ensures Paced(t, pace)
  {
  }
}
