/** URL extraction from a parsed sitemap in the sitemaps.org protocol 0.9
    format, `<urlset><url><loc>...</loc></url>...</urlset>`: the text of every
    `loc` of every `url` entry, in document order, skipping the empty ones. */
module Sitemap {
  import opened Wrappers
  import opened Xml

  const Namespace := "http://www.sitemaps.org/schemas/sitemap/0.9"
  /** The Clark-notation prefix ElementTree puts on every tag in the namespace. */
  const Prefix := "{" + Namespace + "}"
  const UrlTag := Prefix + "url"
  const LocTag := Prefix + "loc"

  /** The elements `root.findall("./{ns}url/{ns}loc")` yields. */
  function Locations(root: Element): seq<Element>
  {
    FindAll(root, [UrlTag, LocTag])
  }

  /** The path selects the namespaced `loc` children of the namespaced `url`
      children of the root, and nothing nested deeper or outside the
      namespace. */
  lemma LocationsMembers(root: Element)
    ensures forall x :: x in Locations(root) <==>
      x.tag == LocTag && exists u :: u in root.children && u.tag == UrlTag && x in u.children
  {
    var path := [UrlTag, LocTag];
    var urls := ChildStep([root], UrlTag);
    assert Locations(root) == ChildStep(urls, LocTag) by {
      assert path[0] == UrlTag && path[1..] == [LocTag];
      assert Select([root], path) == Select(urls, [LocTag]);
      assert [LocTag][0] == LocTag && [LocTag][1..] == [];
      assert Select(urls, [LocTag]) == Select(ChildStep(urls, LocTag), []);
    }
    ChildStepMembers([root], UrlTag);
    ChildStepMembers(urls, LocTag);
  }

  /** The truthiness test `if elem.text:` — the text is present and not empty. */
  predicate HasText(e: Element)
  {
    e.text.Some? && e.text.value != ""
  }

  /** The non-empty texts of `es`, in order. */
  function Texts(es: seq<Element>): (r: seq<string>)
    ensures |r| <= |es|
  {
    if |es| == 0 then [] else (if HasText(es[0]) then [es[0].text.value] else []) + Texts(es[1..])
  }

  /** A string is kept exactly when it is the non-empty text of some element. */
  lemma {:induction false} TextsMembers(es: seq<Element>)
    ensures forall s :: s in Texts(es) <==> s != "" && exists e :: e in es && e.text == Some(s)
  {
    if |es| > 0 {
      TextsMembers(es[1..]);
      assert forall e :: e in es <==> e == es[0] || e in es[1..];
    }
  }

  /** `get_urls_sitemap`: the non-empty texts of the `findall` result. */
  function GetUrls(root: Element): seq<string>
  {
    Texts(Locations(root))
  }

  /** Every URL extracted is the non-empty text of a namespaced `loc`
      directly under a namespaced `url` directly under the root, every such
      text is extracted, and there are never more URLs than `loc` elements. */
  lemma GetUrlsMembers(root: Element)
    ensures |GetUrls(root)| <= |Locations(root)|
    ensures forall s :: s in GetUrls(root) <==>
      s != "" && exists u, l :: u in root.children && u.tag == UrlTag
                             && l in u.children && l.tag == LocTag && l.text == Some(s)
  {
    LocationsMembers(root);
    TextsMembers(Locations(root));
  }

  /** Filtering distributes over concatenation, so appending one element to
      the input appends at most its text to the output. */
  lemma {:induction false} TextsAppend(a: seq<Element>, b: seq<Element>)
    ensures Texts(a + b) == Texts(a) + Texts(b)
  {
    if |a| == 0 {
      assert a + b == b;
    } else {
      var head := if HasText(a[0]) then [a[0].text.value] else [];
      assert (a + b)[0] == a[0];
      assert (a + b)[1..] == a[1..] + b;
      assert Texts(a + b) == head + Texts(a[1..] + b);
      assert Texts(a) == head + Texts(a[1..]);
      TextsAppend(a[1..], b);
      assert head + (Texts(a[1..]) + Texts(b)) == (head + Texts(a[1..])) + Texts(b);
    }
  }

  /** The positions in `es` of the elements with non-empty text, ascending. */
  function KeptPositions(es: seq<Element>): seq<nat>
  {
    if |es| == 0 then []
    else
      var rest := KeptPositions(es[1..]);
      (if HasText(es[0]) then [0] else []) + seq(|rest|, k requires 0 <= k < |rest| => rest[k] + 1)
  }

  /** The k-th output of `Texts` is the text at the k-th kept position. */
  lemma {:induction false} KeptPositionsMatchTexts(es: seq<Element>)
    ensures |KeptPositions(es)| == |Texts(es)|
    ensures forall k :: 0 <= k < |KeptPositions(es)| ==>
      KeptPositions(es)[k] < |es| && es[KeptPositions(es)[k]].text == Some(Texts(es)[k])
  {
    if |es| > 0 {
      var tail := es[1..];
      KeptPositionsMatchTexts(tail);
      var rest := KeptPositions(tail);
      var h := if HasText(es[0]) then 1 else 0;
      var idx := KeptPositions(es);
      assert Texts(es) == (if HasText(es[0]) then [es[0].text.value] else []) + Texts(tail);
      forall k | h <= k < |idx|
        ensures idx[k] < |es| && es[idx[k]].text == Some(Texts(es)[k])
      {
        assert idx[k] == rest[k - h] + 1;
        assert es[idx[k]] == tail[rest[k - h]];
        assert Texts(es)[k] == Texts(tail)[k - h];
      }
    }
  }

  lemma {:induction false} KeptPositionsIncrease(es: seq<Element>)
    ensures forall k, m :: 0 <= k < m < |KeptPositions(es)| ==> KeptPositions(es)[k] < KeptPositions(es)[m]
  {
    if |es| > 0 {
      KeptPositionsIncrease(es[1..]);
    }
  }

  lemma {:induction false} KeptPositionsComplete(es: seq<Element>)
    ensures forall i :: 0 <= i < |es| && HasText(es[i]) ==> i in KeptPositions(es)
  {
    if |es| > 0 {
      var tail := es[1..];
      KeptPositionsComplete(tail);
      var rest := KeptPositions(tail);
      var h := if HasText(es[0]) then 1 else 0;
      var idx := KeptPositions(es);
      forall i | 1 <= i < |es| && HasText(es[i])
        ensures i in idx
      {
        assert tail[i - 1] == es[i];
        var k :| 0 <= k < |rest| && rest[k] == i - 1;
        assert idx[k + h] == i;
      }
    }
  }

  /** `Texts` is the order-preserving filter of its input: `idx` lists, in
      increasing order, exactly the positions of the elements with non-empty
      text, and the k-th output is the text at the k-th of them. So the
      output is as long as the number of such elements. */
  lemma TextsIsOrderedFilter(es: seq<Element>) returns (idx: seq<nat>)
    ensures |idx| == |Texts(es)|
    ensures forall k :: 0 <= k < |idx| ==> idx[k] < |es| && es[idx[k]].text == Some(Texts(es)[k])
    ensures forall k, m :: 0 <= k < m < |idx| ==> idx[k] < idx[m]
    ensures forall i :: 0 <= i < |es| && HasText(es[i]) ==> i in idx
  {
    idx := KeptPositions(es);
    KeptPositionsMatchTexts(es);
    KeptPositionsIncrease(es);
    KeptPositionsComplete(es);
  }

  /** `get_urls_sitemap` as written: one pass over the `findall` result,
      appending each element's text when it is truthy. */
  method ExtractUrls(tree: Element) returns (urls: seq<string>)
    ensures urls == GetUrls(tree)
  {
    urls := [];
    var all := Locations(tree);
    var i := 0;
    while i < |all|
      invariant 0 <= i <= |all|
      invariant urls == Texts(all[..i])
    {
      var current := all[i].text;
      if current.Some? && current.value != "" {
        urls := urls + [current.value];
      }
      assert all[..i + 1] == all[..i] + [all[i]];
      TextsAppend(all[..i], [all[i]]);
      i := i + 1;
    }
    assert all[..i] == all;
  }

  /** An `url` entry whose single `loc` has the given text. */
  function Entry(text: Option<string>): Element
  {
    Element(UrlTag, None, [Element(LocTag, text, [])])
  }

  /** A `urlset` of entries, one per given `loc` text. */
  function UrlSet(texts: seq<Option<string>>): Element
  {
    Element(Prefix + "urlset", None, seq(|texts|, i requires 0 <= i < |texts| => Entry(texts[i])))
  }

  /** The `loc` elements of a `UrlSet` are its entries' `loc`s, in order. */
  lemma {:induction false} UrlSetLocations(texts: seq<Option<string>>)
    ensures Locations(UrlSet(texts)) == seq(|texts|, i requires 0 <= i < |texts| => Element(LocTag, texts[i], []))
  {
    var root := UrlSet(texts);
    assert ChildStep([root], UrlTag) == root.children by {
      assert [root][1..] == [];
      TaggedAll(root.children, UrlTag);
    }
    EntriesLocs(texts);
    assert FindAll(root, [UrlTag, LocTag]) == ChildStep(root.children, LocTag) by {
      assert [UrlTag, LocTag][1..] == [LocTag] && [LocTag][1..] == [];
      assert Select([root], [UrlTag, LocTag]) == Select(root.children, [LocTag]);
      assert Select(root.children, [LocTag]) == Select(ChildStep(root.children, LocTag), []);
    }
  }

  lemma {:induction false} TaggedAll(es: seq<Element>, tag: string)
    requires forall i :: 0 <= i < |es| ==> es[i].tag == tag
    ensures Tagged(es, tag) == es
  {
    if |es| > 0 {
      TaggedAll(es[1..], tag);
    }
  }

  lemma {:induction false} EntriesLocs(texts: seq<Option<string>>)
    ensures ChildStep(seq(|texts|, i requires 0 <= i < |texts| => Entry(texts[i])), LocTag)
         == seq(|texts|, i requires 0 <= i < |texts| => Element(LocTag, texts[i], []))
  {
    var entries := seq(|texts|, i requires 0 <= i < |texts| => Entry(texts[i]));
    if |texts| > 0 {
      EntriesLocs(texts[1..]);
      assert entries[1..] == seq(|texts[1..]|, i requires 0 <= i < |texts[1..]| => Entry(texts[1..][i]));
      var e := entries[0];
      assert Tagged(e.children, LocTag) == e.children by { TaggedAll(e.children, LocTag); }
    }
  }

  /** A sitemap listing exactly `urls`, one entry each, in order. */
  function SitemapOf(urls: seq<string>): Element
  {
    UrlSet(seq(|urls|, i requires 0 <= i < |urls| => Some(urls[i])))
  }

  lemma {:induction false} TextsOfLocs(urls: seq<string>)
    requires forall i :: 0 <= i < |urls| ==> urls[i] != ""
    ensures Texts(seq(|urls|, i requires 0 <= i < |urls| => Element(LocTag, Some(urls[i]), []))) == urls
  {
    if |urls| > 0 {
      var locs := seq(|urls|, i requires 0 <= i < |urls| => Element(LocTag, Some(urls[i]), []));
      TextsOfLocs(urls[1..]);
      assert locs[1..] == seq(|urls[1..]|, i requires 0 <= i < |urls[1..]| => Element(LocTag, Some(urls[1..][i]), []));
      assert [urls[0]] + urls[1..] == urls;
    }
  }

  /** Extraction is the inverse of writing a sitemap: every list of
      non-empty URLs comes back unchanged, in order and with duplicates. */
  lemma SitemapRoundTrip(urls: seq<string>)
    requires forall i :: 0 <= i < |urls| ==> urls[i] != ""
    ensures GetUrls(SitemapOf(urls)) == urls
  {
    var texts := seq(|urls|, i requires 0 <= i < |urls| => Some(urls[i]));
    UrlSetLocations(texts);
    assert seq(|texts|, i requires 0 <= i < |texts| => Element(LocTag, texts[i], []))
        == seq(|urls|, i requires 0 <= i < |urls| => Element(LocTag, Some(urls[i]), []));
    TextsOfLocs(urls);
  }

  /** Writing the extracted URLs back out as a sitemap and extracting again
      gives the same list, so extraction applied to its own output is
      idempotent. */
  lemma ReextractIsIdentity(root: Element)
    ensures GetUrls(SitemapOf(GetUrls(root))) == GetUrls(root)
  {
    var urls := GetUrls(root);
    GetUrlsMembers(root);
    assert forall i :: 0 <= i < |urls| ==> urls[i] in urls;
    SitemapRoundTrip(urls);
  }

  /** Three entries with texts "https://a.com/1", "" and "https://a.com/3"
      yield the first and the last. */
  lemma ThreeEntries()
    ensures GetUrls(UrlSet([Some("https://a.com/1"), Some(""), Some("https://a.com/3")]))
            == ["https://a.com/1", "https://a.com/3"]
  {
    var texts := [Some("https://a.com/1"), Some(""), Some("https://a.com/3")];
    UrlSetLocations(texts);
    var locs := seq(|texts|, i requires 0 <= i < |texts| => Element(LocTag, texts[i], []));
    assert locs[1..][1..][1..] == [];
  }
}
