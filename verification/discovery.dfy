/** The discovery phase of `main`: the sitemaps are fetched and parsed one
    after the other, their URL lists appended in configuration order, and the
    first failure ends the phase with its error. The phase works on the
    outcomes of the individual fetches, whatever produced them. */
module Discovery {
  import opened Wrappers
  import opened Events
  import opened Xml
  import opened Sitemap
  import opened SiteXml

  /** The events of the discovery phase and the URL list it ends in, or the
      error that stopped it. */
  datatype Discovered = Discovered(trace: seq<Event>, urls: Result<seq<string>, DiscoveryError>)

  /** The discovery loop from the i-th fetch on, with `acc` the URLs found so
      far: each parsed sitemap adds its events, an extraction record and its
      URLs; a failed one adds its events and stops the loop. */
  function DiscoverFrom(fs: seq<Fetched>, i: nat, acc: seq<string>): Discovered
    requires i <= |fs|
    decreases |fs| - i
  {
    if i == |fs| then Discovered([], Ok(acc))
    else
      match fs[i].result
      case Err(e) => Discovered(fs[i].trace, Err(e))
      case Ok(tree) =>
        var rest := DiscoverFrom(fs, i + 1, acc + GetUrls(tree));
        Discovered(fs[i].trace + [Log(Info, ExtractingUrls)] + rest.trace, rest.urls)
  }

  /** `fs` are the fetches of `sites`, in order: each fetched its own sitemap
      once and submitted nothing. */
  predicate FetchesOf(fs: seq<Fetched>, sites: seq<string>)
  {
    && |fs| == |sites|
    && forall j :: 0 <= j < |fs| ==> Quiet(fs[j].trace) && Fetches(fs[j].trace) == [sites[j]]
  }

  /** Discovery never submits and never pauses. */
  lemma {:induction false} DiscoverFromQuiet(fs: seq<Fetched>, sites: seq<string>, i: nat, acc: seq<string>)
    requires FetchesOf(fs, sites) && i <= |fs|
    ensures Quiet(DiscoverFrom(fs, i, acc).trace)
    decreases |fs| - i
  {
    if i < |fs| && fs[i].result.Ok? {
      DiscoverFromQuiet(fs, sites, i + 1, acc + GetUrls(fs[i].result.value));
    }
  }

  /** Discovery from the i-th fetch on succeeds exactly when every remaining
      fetch succeeded. */
  lemma {:induction false} DiscoverFromSucceedsIff(fs: seq<Fetched>, i: nat, acc: seq<string>)
    requires i <= |fs|
    ensures DiscoverFrom(fs, i, acc).urls.Ok? <==> forall j :: i <= j < |fs| ==> fs[j].result.Ok?
    decreases |fs| - i
  {
    if i < |fs| && fs[i].result.Ok? {
      DiscoverFromSucceedsIff(fs, i + 1, acc + GetUrls(fs[i].result.value));
    }
  }

  /** The concatenation of a list of URL lists, in order. */
  function Concat(ls: seq<seq<string>>): seq<string>
  {
    if |ls| == 0 then [] else ls[0] + Concat(ls[1..])
  }

  function SumLengths(ls: seq<seq<string>>): nat
  {
    if |ls| == 0 then 0 else |ls[0]| + SumLengths(ls[1..])
  }

  function SumMultisets(ls: seq<seq<string>>): multiset<string>
  {
    if |ls| == 0 then multiset{} else multiset(ls[0]) + SumMultisets(ls[1..])
  }

  /** The aggregated list is as long as all per-sitemap lists together. */
  lemma {:induction false} ConcatLength(ls: seq<seq<string>>)
    ensures |Concat(ls)| == SumLengths(ls)
  {
    if |ls| > 0 {
      ConcatLength(ls[1..]);
    }
  }

  /** No deduplication: every URL occurs in the aggregated list as often as
      in all per-sitemap lists together. */
  lemma {:induction false} ConcatKeepsDuplicates(ls: seq<seq<string>>)
    ensures multiset(Concat(ls)) == SumMultisets(ls)
  {
    if |ls| > 0 {
      ConcatKeepsDuplicates(ls[1..]);
      assert multiset(ls[0] + Concat(ls[1..])) == multiset(ls[0]) + multiset(Concat(ls[1..]));
    }
  }

  /** The URL lists of the given sitemap trees. */
  function UrlLists(trees: seq<Element>): (r: seq<seq<string>>)
    ensures |r| == |trees|
  {
    seq(|trees|, i requires 0 <= i < |trees| => GetUrls(trees[i]))
  }

  /** When every fetch from the i-th on parsed (to `trees`), discovery
      appends their URL lists to `acc` in configuration order and fetches
      each of those sitemaps once, in order. */
  lemma {:induction false} DiscoverFromAllParsed(fs: seq<Fetched>, sites: seq<string>, trees: seq<Element>, i: nat, acc: seq<string>)
    requires FetchesOf(fs, sites) && |trees| == |fs| && i <= |fs|
    requires forall j :: i <= j < |fs| ==> fs[j].result == Ok(trees[j])
    ensures DiscoverFrom(fs, i, acc).urls == Ok(acc + Concat(UrlLists(trees)[i..]))
    ensures Fetches(DiscoverFrom(fs, i, acc).trace) == sites[i..]
    decreases |fs| - i
  {
    if i == |fs| {
      assert UrlLists(trees)[i..] == [];
      assert acc + [] == acc;
    } else {
      var acc' := acc + GetUrls(trees[i]);
      var rest := DiscoverFrom(fs, i + 1, acc');
      DiscoverFromAllParsed(fs, sites, trees, i + 1, acc');
      var ls := UrlLists(trees)[i..];
      assert ls[0] == GetUrls(trees[i]) && ls[1..] == UrlLists(trees)[i + 1..];
      assert acc' + Concat(ls[1..]) == acc + Concat(ls);
      FetchesAppend(fs[i].trace, [Log(Info, ExtractingUrls)]);
      FetchesAppend(fs[i].trace + [Log(Info, ExtractingUrls)], rest.trace);
      assert sites[i..] == [sites[i]] + sites[i + 1..];
    }
  }

  /** When the k-th fetch is the first from the i-th on that failed,
      discovery ends with its error, having fetched the sitemaps up to and
      including the k-th and no later one. */
  lemma {:induction false} DiscoverFromFails(fs: seq<Fetched>, sites: seq<string>, i: nat, acc: seq<string>, k: nat)
    requires FetchesOf(fs, sites) && i <= k < |fs|
    requires forall j :: i <= j < k ==> fs[j].result.Ok?
    requires fs[k].result.Err?
    ensures DiscoverFrom(fs, i, acc).urls == Err(fs[k].result.error)
    ensures Fetches(DiscoverFrom(fs, i, acc).trace) == sites[i..k + 1]
    decreases k - i
  {
    if i < k {
      var acc' := acc + GetUrls(fs[i].result.value);
      var rest := DiscoverFrom(fs, i + 1, acc');
      DiscoverFromFails(fs, sites, i + 1, acc', k);
      FetchesAppend(fs[i].trace, [Log(Info, ExtractingUrls)]);
      FetchesAppend(fs[i].trace + [Log(Info, ExtractingUrls)], rest.trace);
      assert sites[i..k + 1] == [sites[i]] + sites[i + 1..k + 1];
    } else {
      assert sites[i..k + 1] == [sites[i]];
    }
  }
}
