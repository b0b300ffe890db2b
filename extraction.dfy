/** The tender extractor of server/routes.ts (`scrapeSchoolTenders`): which
    anchors of a fetched page are read, the keyword filter on their text, and
    the candidate tender built from each kept anchor, with its fingerprint.
    Fetching and HTML parsing are an oracle that yields the page's anchors, in
    document order, or a failure. */
module Extraction {
  import opened Text
  import opened Schema
  import opened Platforms
  import Base64
  import Utf8

  /** An `<a>` element: its text content and its `href` attribute, if any. */
  datatype Anchor = Anchor(text: string, href: Option<string>)

  /** What fetching and parsing one URL gives: the page's anchors, or a failure
      (network error, timeout, non-2xx status, unparsable content). */
  datatype Page = Fetched(anchors: seq<Anchor>) | FetchFailed

  /** The selector `a[href*="bandi"], a[href*="gara"], a[href*="amministrazione-trasparente"]`. */
  predicate Selected(a: Anchor)
  {
    a.href.Some? &&
    (Contains(a.href.value, "bandi") || Contains(a.href.value, "gara") ||
     Contains(a.href.value, "amministrazione-trasparente"))
  }

  /** The selected anchors, in document order. */
  function Sections(anchors: seq<Anchor>): (r: seq<Anchor>)
    ensures forall a :: a in r <==> a in anchors && Selected(a)
    ensures |r| <= |anchors|
  {
    if anchors == [] then []
    else (if Selected(anchors[0]) then [anchors[0]] else []) + Sections(anchors[1..])
  }

  /** `PROCUREMENT_KEYWORDS.test(title)` for
      /bando.*gara|gara.*appalto|procedura.*negoziata|appalto|fornitura|servizi/i. */
  predicate IsProcurement(title: string)
  {
    var t := LowerStr(title);
    ThenOnSameLine(t, "bando", "gara") || ThenOnSameLine(t, "gara", "appalto") ||
    ThenOnSameLine(t, "procedura", "negoziata") ||
    Contains(t, "appalto") || Contains(t, "fornitura") || Contains(t, "servizi")
  }

  /** `EXCLUDE_KEYWORDS.test(title)` for
      /concorso|selezione.*personale|graduatoria|albo.*pretorio/i. */
  predicate IsExcluded(title: string)
  {
    var t := LowerStr(title);
    Contains(t, "concorso") || ThenOnSameLine(t, "selezione", "personale") ||
    Contains(t, "graduatoria") || ThenOnSameLine(t, "albo", "pretorio")
  }

  /** The anchor text, trimmed, is the tender title: an infix of the text with
      only white space around it, starting and ending with no white space. */
  function Title(a: Anchor): (r: string)
    ensures exists i :: InfixBetweenSpaces(a.text, r, i)
    ensures r == [] || (!IsJsSpace(r[0]) && !IsJsSpace(r[|r| - 1]))
  {
    TrimSpec(a.text);
    Trim(a.text)
  }

  /** A selected anchor becomes a tender when its title is procurement-like and
      not excluded; the exclusion wins over the inclusion. */
  predicate Kept(a: Anchor)
  {
    IsProcurement(Title(a)) && !IsExcluded(Title(a))
  }

  /** `title.substring(0, 100) + (title.length > 100 ? '...' : '')`. */
  function Excerpt(title: string): (r: string)
    ensures |title| <= 100 ==> r == title
    ensures |title| > 100 ==> |r| == 103 && r[..100] == title[..100] && r[100..] == "..."
  {
    if |title| > 100 then title[..100] + "..." else title
  }

  /** `\d{1,2}\/\d{1,2}\/\d{4}` matched at index `i` with `l1` digits of day and
      `l2` digits of month. */
  predicate ShapeAt(s: string, i: nat, l1: nat, l2: nat)
  {
    1 <= l1 <= 2 && 1 <= l2 <= 2 && i + l1 + l2 + 6 <= |s| &&
    (forall k :: i <= k < i + l1 ==> IsDigit(s[k])) &&
    s[i + l1] == '/' &&
    (forall k :: i + l1 + 1 <= k < i + l1 + 1 + l2 ==> IsDigit(s[k])) &&
    s[i + l1 + 1 + l2] == '/' &&
    (forall k :: i + l1 + l2 + 2 <= k < i + l1 + l2 + 6 ==> IsDigit(s[k]))
  }

  /** Where the pattern matches at `i`, the digit counts are forced: a digit is
      never a '/'. */
  lemma ShapeUnique(s: string, i: nat, l1: nat, l2: nat, m1: nat, m2: nat)
    requires ShapeAt(s, i, l1, l2) && ShapeAt(s, i, m1, m2)
    ensures l1 == m1 && l2 == m2
  {
  }

  /** The match of the date pattern that starts at `i`, in the order the
      backtracking regex tries the greedy `{1,2}` counts. */
  function DateAt(s: string, i: nat): (r: Option<string>)
    ensures r.Some? <==> exists l1, l2 :: ShapeAt(s, i, l1, l2)
    ensures forall l1, l2 :: ShapeAt(s, i, l1, l2) ==> r == Some(s[i..i + l1 + l2 + 6])
  {
    if ShapeAt(s, i, 2, 2) then Some(s[i..i + 10])
    else if ShapeAt(s, i, 2, 1) then Some(s[i..i + 9])
    else if ShapeAt(s, i, 1, 2) then Some(s[i..i + 9])
    else if ShapeAt(s, i, 1, 1) then Some(s[i..i + 8])
    else
      assert forall l1, l2 :: !ShapeAt(s, i, l1, l2);
      None
  }

  /** No match of the date pattern starts in `[i, j)`. */
  predicate NoDateIn(s: string, i: nat, j: nat)
  {
    forall k :: i <= k < j ==> DateAt(s, k).None?
  }

  function FirstDateFrom(s: string, i: nat): Option<string>
    decreases |s| - i
  {
    if i > |s| then None
    else if DateAt(s, i).Some? then DateAt(s, i)
    else FirstDateFrom(s, i + 1)
  }

  /** With no match at `i`, "no match in `[i + 1, j)`" is "no match in `[i, j)`". */
  lemma NoDateStep(s: string, i: nat, j: nat)
    requires i < j && DateAt(s, i).None?
    ensures NoDateIn(s, i + 1, j) <==> NoDateIn(s, i, j)
  {
  }

  lemma {:induction false} FirstDateFromIsLeftmost(s: string, i: nat)
    ensures FirstDateFrom(s, i).None? <==> NoDateIn(s, i, |s| + 1)
    ensures FirstDateFrom(s, i).Some? ==>
      exists j :: i <= j <= |s| && DateAt(s, j) == FirstDateFrom(s, i) && NoDateIn(s, i, j)
    decreases |s| - i
  {
    if i > |s| {
    } else if DateAt(s, i).Some? {
      assert NoDateIn(s, i, i);
    } else {
      var r := FirstDateFrom(s, i + 1);
      assert FirstDateFrom(s, i) == r;
      FirstDateFromIsLeftmost(s, i + 1);
      NoDateStep(s, i, |s| + 1);
      if r.Some? {
        var j :| i + 1 <= j <= |s| && DateAt(s, j) == r && NoDateIn(s, i + 1, j);
        NoDateStep(s, i, j);
      }
    }
  }

  /** `title.match(DATE_REGEX)?.[0]`: the leftmost match of the date pattern. */
  function Deadline(title: string): (r: Option<string>)
    ensures r.None? <==> NoDateIn(title, 0, |title| + 1)
    ensures r.Some? ==> exists j :: 0 <= j <= |title| && DateAt(title, j) == r && NoDateIn(title, 0, j)
  {
    FirstDateFromIsLeftmost(title, 0);
    FirstDateFrom(title, 0)
  }

  /** The type: the first of "bando", "gara", "avviso" the lower-cased title
      contains, else "determina". */
  function Kind(title: string): (r: string)
    ensures r in {"bando", "gara", "avviso", "determina"}
    ensures r == "bando" <==> Contains(LowerStr(title), "bando")
    ensures r == "gara" <==> !Contains(LowerStr(title), "bando") && Contains(LowerStr(title), "gara")
    ensures r == "avviso" <==>
      !Contains(LowerStr(title), "bando") && !Contains(LowerStr(title), "gara") &&
      Contains(LowerStr(title), "avviso")
  {
    var t := LowerStr(title);
    if Contains(t, "bando") then "bando"
    else if Contains(t, "gara") then "gara"
    else if Contains(t, "avviso") then "avviso"
    else "determina"
  }

  /** `href?.includes('.pdf') ? href : null`. */
  function PdfUrl(href: Option<string>): (r: Option<string>)
    ensures r.Some? <==> href.Some? && Contains(href.value, ".pdf")
    ensures r.Some? ==> r == href
  {
    if href.Some? && Contains(href.value, ".pdf") then href else None
  }

  /** `href || title`: the link, or the title when the link is absent or empty. */
  function LinkOrTitle(href: Option<string>, title: string): string
  {
    if href.Some? && href.value != [] then href.value else title
  }

  /** `${school.id}-${href || title}-${platform}`. */
  function HashKey(schoolId: nat, linkOrTitle: string, platform: Platform): string
  {
    Decimal(schoolId) + "-" + (linkOrTitle + "-" + platform.Tag())
  }

  /** `Buffer.from(key).toString('base64')`: decoding it gives back the UTF-8
      bytes of the key. */
  function Fingerprint(schoolId: nat, linkOrTitle: string, platform: Platform): (r: string)
    ensures Base64.Decode(r) == Utf8.EncodeString(HashKey(schoolId, linkOrTitle, platform))
  {
    var bytes := Utf8.EncodeString(HashKey(schoolId, linkOrTitle, platform));
    Base64.RoundTrip(bytes);
    Base64.Encode(bytes)
  }

  /** The candidate tender built from one kept anchor of the page at `url`. */
  function Build(a: Anchor, url: string, platform: Platform, schoolId: nat): NewTender
  {
    var title := Title(a);
    NewTender(schoolId, title, Some(Excerpt(title)), Deadline(title), Kind(title),
      platform.Tag(), PdfUrl(a.href), Some(url),
      Fingerprint(schoolId, LinkOrTitle(a.href, title), platform))
  }

  /** What one section of the page at `url` yields: its tender when it is kept. */
  function Yield(url: string, platform: Platform, schoolId: nat): Anchor -> seq<NewTender>
  {
    a => if Kept(a) then [Build(a, url, platform, schoolId)] else []
  }

  /** The tenders of one fetched page: one per kept section, in document order. */
  function PageTenders(sections: seq<Anchor>, url: string, platform: Platform, schoolId: nat): seq<NewTender>
  {
    Gather(sections, Yield(url, platform, schoolId))
  }

  /** What one URL contributes: nothing when the fetch fails. */
  function UrlTenders(url: string, page: Page, schoolId: nat): seq<NewTender>
  {
    match page
    case FetchFailed => []
    case Fetched(anchors) => PageTenders(Sections(anchors), url, DetectPlatform(url), schoolId)
  }

  /** What the items of `xs` yield, in order, given what each one yields; the
      loops over URLs and over sections both build their list this way.
      Defined from the end so that it follows a loop step by step. */
  function Gather<X>(xs: seq<X>, share: X -> seq<NewTender>): seq<NewTender>
  {
    if xs == [] then []
    else Gather(xs[..|xs| - 1], share) + share(xs[|xs| - 1])
  }

  /** What each URL contributes for the school with identifier `schoolId`. */
  function Share(fetch: string -> Page, schoolId: nat): string -> seq<NewTender>
  {
    url => UrlTenders(url, fetch(url), schoolId)
  }

  /** `scrapeSchoolTenders(school)`: the tenders of every candidate URL, in order. */
  function SchoolTenders(school: School, fetch: string -> Page): seq<NewTender>
  {
    Gather(CandidateUrls(school), Share(fetch, school.id))
  }

  lemma GatherSnoc<X>(xs: seq<X>, i: nat, share: X -> seq<NewTender>)
    requires i < |xs|
    ensures Gather(xs[..i + 1], share) == Gather(xs[..i], share) + share(xs[i])
  {
    var p := xs[..i + 1];
    assert p[..|p| - 1] == xs[..i] && p[|p| - 1] == xs[i];
  }

  /** The `each` loop over one fetched page's selected anchors, appending the
      tender of every kept one. */
  method ScrapePage(sections: seq<Anchor>, url: string, platform: Platform, schoolId: nat)
    returns (found: seq<NewTender>)
    ensures found == PageTenders(sections, url, platform, schoolId)
  {
    found := [];
    var i := 0;
    while i < |sections|
      invariant 0 <= i <= |sections|
      invariant found == Gather(sections[..i], Yield(url, platform, schoolId))
    {
      var a := sections[i];
      if Kept(a) {
        found := found + [Build(a, url, platform, schoolId)];
      }
      GatherSnoc(sections, i, Yield(url, platform, schoolId));
      i := i + 1;
    }
    assert sections[..i] == sections;
  }

  /** One pass of the loop over URLs: a fetched page is scraped, a failed
      fetch (the `catch`) yields nothing. */
  method ScrapeUrl(url: string, page: Page, schoolId: nat) returns (found: seq<NewTender>)
    ensures found == UrlTenders(url, page, schoolId)
  {
    found := [];
    if page.Fetched? {
      found := ScrapePage(Sections(page.anchors), url, DetectPlatform(url), schoolId);
    }
  }

  /** `scrapeSchoolTenders`: a loop over the candidate URLs, appending what
      each fetched page yields. */
  method ScrapeSchoolTenders(school: School, fetch: string -> Page) returns (tenders: seq<NewTender>)
    ensures tenders == SchoolTenders(school, fetch)
  {
    tenders := [];
    var urls := CandidateUrls(school);
    var u := 0;
    while u < |urls|
      invariant 0 <= u <= |urls|
      invariant tenders == Gather(urls[..u], Share(fetch, school.id))
    {
      var found := ScrapeUrl(urls[u], fetch(urls[u]), school.id);
      tenders := tenders + found;
      GatherSnoc(urls, u, Share(fetch, school.id));
      u := u + 1;
    }
    assert urls[..u] == urls;
  }

  // ---------------------------------------------------------------------------
  // Properties of the extraction

  /** What a list yields is what its items yield. */
  lemma {:induction false} GatherMembers<X>(xs: seq<X>, share: X -> seq<NewTender>, t: NewTender)
    ensures t in Gather(xs, share) <==> exists x :: x in xs && t in share(x)
  {
    if xs != [] {
      var init, last := xs[..|xs| - 1], xs[|xs| - 1];
      GatherMembers(init, share, t);
      assert xs == init + [last];
      assert forall x :: x in xs <==> x in init || x == last;
    }
  }

  /** Each tender of a page comes from a selected anchor that passes the
      keyword filter, and each such anchor gives one. */
  lemma PageTendersExactly(sections: seq<Anchor>, url: string, platform: Platform, schoolId: nat)
    ensures forall t :: t in PageTenders(sections, url, platform, schoolId) <==>
      exists a :: a in sections && Kept(a) && t == Build(a, url, platform, schoolId)
  {
    forall t
      ensures t in PageTenders(sections, url, platform, schoolId) <==>
        exists a :: a in sections && Kept(a) && t == Build(a, url, platform, schoolId)
    {
      GatherMembers(sections, Yield(url, platform, schoolId), t);
    }
  }

  /** An anchor without a tender-like `href`, or whose title fails the filter,
      yields nothing: only selected, kept anchors become tenders. */
  lemma FromKeptSectionsOnly(anchors: seq<Anchor>, url: string, schoolId: nat, t: NewTender)
    requires t in UrlTenders(url, Fetched(anchors), schoolId)
    ensures exists a :: (a in anchors && Selected(a) && Kept(a) &&
                         t == Build(a, url, DetectPlatform(url), schoolId))
  {
    PageTendersExactly(Sections(anchors), url, DetectPlatform(url), schoolId);
  }

  /** The title filter: exclusion overrides inclusion. */
  lemma ExclusionWins(a: Anchor)
    requires IsExcluded(Title(a))
    ensures !Kept(a)
  {
  }

  /** The URLs are processed independently: the result for a list is the
      concatenation of the results for its parts. */
  lemma {:induction false} GatherAppend<X>(xs: seq<X>, ys: seq<X>, share: X -> seq<NewTender>)
    ensures Gather(xs + ys, share) == Gather(xs, share) + Gather(ys, share)
    decreases |ys|
  {
    if ys == [] {
      assert xs + ys == xs;
    } else {
      var n := |ys| - 1;
      assert (xs + ys)[..|xs + ys| - 1] == xs + ys[..n];
      GatherAppend(xs, ys[..n], share);
    }
  }

  /** A URL whose fetch fails contributes nothing, and the URLs around it are
      still processed. */
  lemma FailedUrlIsolated(xs: seq<string>, url: string, ys: seq<string>, fetch: string -> Page, schoolId: nat)
    requires fetch(url) == FetchFailed
    ensures Gather(xs + [url] + ys, Share(fetch, schoolId)) ==
      Gather(xs, Share(fetch, schoolId)) + Gather(ys, Share(fetch, schoolId))
  {
    var share := Share(fetch, schoolId);
    assert share(url) == [];
    assert Gather([url], share) == [] by {
      assert [url][..0] == [];
    }
    GatherAppend(xs + [url], ys, share);
    GatherAppend(xs, [url], share);
  }

  /** A school with no site and no listed platform contributes no tender. */
  lemma NoUrlsNoTenders(school: School, fetch: string -> Page)
    requires CandidateUrls(school) == []
    ensures SchoolTenders(school, fetch) == []
  {
  }

  /** The fields of every built tender, as the record builder promises. */
  lemma BuiltTender(a: Anchor, url: string, platform: Platform, schoolId: nat)
    requires Selected(a)
    ensures var t := Build(a, url, platform, schoolId);
      t.schoolId == schoolId && t.title == Trim(a.text) && t.platform == platform.Tag() &&
      t.sourceUrl == Some(url) &&
      t.excerpt.Some? && |t.excerpt.value| <= 103 &&
      (t.pdfUrl.Some? <==> Contains(a.href.value, ".pdf")) &&
      t.hash == Fingerprint(schoolId, a.href.value, platform)
  {
  }

  // ---------------------------------------------------------------------------
  // The fingerprint: stable for equal triples, distinct for distinct ones

  lemma NoDashInDecimal(n: nat)
    ensures forall k :: 0 <= k < |Decimal(n)| ==> Decimal(n)[k] != '-'
  {
  }

  /** Splitting at the first '-' of a dash-free head. */
  lemma SplitHead(a: string, r: string, b: string, s: string)
    requires forall k :: 0 <= k < |a| ==> a[k] != '-'
    requires forall k :: 0 <= k < |b| ==> b[k] != '-'
    requires a + "-" + r == b + "-" + s
    ensures a == b && r == s
  {
    var x := a + "-" + r;
    assert x[..|a|] == a && x[|a|] == '-' && x[|a| + 1..] == r;
    assert x[..|b|] == b && x[|b|] == '-' && x[|b| + 1..] == s;
  }

  /** Splitting at the last '-' before a dash-free tail. */
  lemma SplitTail(r: string, a: string, s: string, b: string)
    requires forall k :: 0 <= k < |a| ==> a[k] != '-'
    requires forall k :: 0 <= k < |b| ==> b[k] != '-'
    requires r + "-" + a == s + "-" + b
    ensures a == b && r == s
  {
    var x := r + "-" + a;
    var n := |x|;
    assert x[n - |a|..] == a && x[n - 1 - |a|] == '-' && x[..n - 1 - |a|] == r;
    assert x[n - |b|..] == b && x[n - 1 - |b|] == '-' && x[..n - 1 - |b|] == s;
  }

  /** The key determines the triple: the decimal id has no '-', nor has any platform tag. */
  lemma HashKeyInjective(id1: nat, m1: string, p1: Platform, id2: nat, m2: string, p2: Platform)
    requires HashKey(id1, m1, p1) == HashKey(id2, m2, p2)
    ensures id1 == id2 && m1 == m2 && p1 == p2
  {
    NoDashInDecimal(id1);
    NoDashInDecimal(id2);
    SplitHead(Decimal(id1), m1 + "-" + p1.Tag(), Decimal(id2), m2 + "-" + p2.Tag());
    DecimalInjective(id1, id2);
    SplitTail(m1, p1.Tag(), m2, p2.Tag());
    TagInjective(p1, p2);
  }

  /** Equal triples give equal fingerprints, and distinct triples distinct ones. */
  lemma FingerprintIdentifiesTriple(id1: nat, m1: string, p1: Platform, id2: nat, m2: string, p2: Platform)
    ensures Fingerprint(id1, m1, p1) == Fingerprint(id2, m2, p2) <==> (id1 == id2 && m1 == m2 && p1 == p2)
  {
    if Fingerprint(id1, m1, p1) == Fingerprint(id2, m2, p2) {
      Base64.EncodeInjective(Utf8.EncodeString(HashKey(id1, m1, p1)), Utf8.EncodeString(HashKey(id2, m2, p2)));
      Utf8.EncodeStringInjective(HashKey(id1, m1, p1), HashKey(id2, m2, p2));
      HashKeyInjective(id1, m1, p1, id2, m2, p2);
    }
  }
}
