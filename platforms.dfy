/** The platform resolver of server/routes.ts: the hosting platforms a school's
    tenders may be published on, `detectPlatform`, and the list of URLs
    `scrapeSchoolTenders` visits for one school. No network access happens here. */
module Platforms {
  import opened Text
  import opened Schema

  datatype Platform = Axios | Argo | Spaggiari | Net4market | Edu {
    /** The tag stored in a tender's `platform` column and in `detectedPlatforms`. */
    function Tag(): (t: string)
      ensures t != [] && forall k :: 0 <= k < |t| ==> t[k] != '-'
    {
      match this
      case Axios => "axios"
      case Argo => "argo"
      case Spaggiari => "spaggiari"
      case Net4market => "net4market"
      case Edu => "edu"
    }
  }

  lemma TagInjective(p: Platform, q: Platform)
    requires p.Tag() == q.Tag()
    ensures p == q
  {
    assert p.Tag()[0] == q.Tag()[0];
    if p.Tag()[0] == 'a' { assert p.Tag()[1] == q.Tag()[1]; }
  }

  const AxiosHost := "trasparenzascuole.it"
  const ArgoHost := "portaleargo.it"
  const SpaggiariHost := "spaggiari.eu"
  const Net4marketHost := "net4market"

  /** `detectPlatform(url)`: the hostname patterns are tried in the fixed order
      axios, argo, spaggiari, net4market, case-sensitively; the first one that
      occurs anywhere in the URL wins, and "edu" is the fallback. */
  function DetectPlatform(url: string): (p: Platform)
    ensures p == Axios <==> Contains(url, AxiosHost)
    ensures p == Argo <==> !Contains(url, AxiosHost) && Contains(url, ArgoHost)
    ensures p == Spaggiari <==>
      !Contains(url, AxiosHost) && !Contains(url, ArgoHost) && Contains(url, SpaggiariHost)
    ensures p == Net4market <==>
      !Contains(url, AxiosHost) && !Contains(url, ArgoHost) && !Contains(url, SpaggiariHost) &&
      Contains(url, Net4marketHost)
    ensures p == Edu <==>
      !Contains(url, AxiosHost) && !Contains(url, ArgoHost) && !Contains(url, SpaggiariHost) &&
      !Contains(url, Net4marketHost)
  {
    if Contains(url, AxiosHost) then Axios
    else if Contains(url, ArgoHost) then Argo
    else if Contains(url, SpaggiariHost) then Spaggiari
    else if Contains(url, Net4marketHost) then Net4market
    else Edu
  }

  /** The third-party platforms, each with a URL template. */
  type Hosted = p: Platform | p != Edu witness Axios

  /** The URL template of each third-party platform, keyed by the school code. */
  function TemplateUrl(p: Hosted, code: string): string
  {
    match p
    case Axios => "https://" + AxiosHost + "/scuola/" + code
    case Argo => "https://" + ArgoHost + "/" + code
    case Spaggiari => "https://web." + SpaggiariHost + "/" + code
    case Net4market => "https://" + code + "." + Net4marketHost + ".com"
  }

  /** `school.detectedPlatforms?.includes(tag)`. */
  predicate Lists(school: School, p: Platform)
  {
    school.fields.detectedPlatforms.Some? && p.Tag() in school.fields.detectedPlatforms.value
  }

  /** The school's own site when it is a non-empty string (`[sitoWeb].filter(Boolean)`). */
  function OwnSite(school: School): (r: seq<string>)
    ensures |r| <= 1
    ensures r != [] <==> school.fields.sitoWeb.Some? && school.fields.sitoWeb.value != []
    ensures r != [] ==> r[0] == school.fields.sitoWeb.value
  {
    match school.fields.sitoWeb
    case Some(site) => if site != [] then [site] else []
    case None => []
  }

  function IfListed(school: School, p: Hosted): (r: seq<string>)
  {
    if Lists(school, p) then [TemplateUrl(p, school.fields.codiceMeccanografico)] else []
  }

  /** The URLs `scrapeSchoolTenders` visits, in order: the school's site, then
      one templated URL for each of axios, argo, spaggiari and net4market that
      `detectedPlatforms` lists. */
  function CandidateUrls(school: School): seq<string>
  {
    OwnSite(school) + IfListed(school, Axios) + IfListed(school, Argo) +
    IfListed(school, Spaggiari) + IfListed(school, Net4market)
  }

  /** The default `[]` of `detectedPlatforms` and an absent list are scraped
      alike: `?.includes` on `undefined` and `includes` on `[]` are both false,
      so only the school's own site is visited. */
  lemma AbsentPlatformsAsEmpty(school: School)
    ensures var absent := School(school.id, school.fields.(detectedPlatforms := None));
      var empty := School(school.id, school.fields.(detectedPlatforms := Some([])));
      CandidateUrls(absent) == CandidateUrls(empty) == OwnSite(school)
  {
  }

  /** The platforms whose templates `CandidateUrls` uses, in the order it uses them. */
  function ListedPlatforms(school: School): (ps: seq<Hosted>)
  {
    Single(school, Axios) + Single(school, Argo) + Single(school, Spaggiari) + Single(school, Net4market)
  }

  /** Position of a platform in the fixed order of the templates. */
  function Rank(p: Platform): nat
  {
    match p
    case Axios => 0
    case Argo => 1
    case Spaggiari => 2
    case Net4market => 3
    case Edu => 4
  }

  /** The templated URLs of a list of platforms, in the same order. */
  function Templates(ps: seq<Hosted>, code: string): (urls: seq<string>)
    ensures |urls| == |ps|
    ensures forall k :: 0 <= k < |ps| ==> urls[k] == TemplateUrl(ps[k], code)
  {
    if ps == [] then [] else [TemplateUrl(ps[0], code)] + Templates(ps[1..], code)
  }

  function Single(school: School, p: Hosted): (ps: seq<Hosted>)
  {
    if Lists(school, p) then [p] else []
  }

  lemma {:induction false} TemplatesAppend(a: seq<Hosted>, b: seq<Hosted>, code: string)
    ensures Templates(a + b, code) == Templates(a, code) + Templates(b, code)
  {
    if a == [] {
      assert a + b == b;
    } else {
      assert (a + b)[1..] == a[1..] + b;
      TemplatesAppend(a[1..], b, code);
    }
  }

  lemma TemplatesOfListed(school: School)
    ensures Templates(ListedPlatforms(school), school.fields.codiceMeccanografico) ==
      IfListed(school, Axios) + IfListed(school, Argo) + IfListed(school, Spaggiari) + IfListed(school, Net4market)
  {
    var code := school.fields.codiceMeccanografico;
    var a, b, c, d := Single(school, Axios), Single(school, Argo), Single(school, Spaggiari), Single(school, Net4market);
    TemplatesSingle(school, Axios);
    TemplatesSingle(school, Argo);
    TemplatesSingle(school, Spaggiari);
    TemplatesSingle(school, Net4market);
    TemplatesAppend(a, b, code);
    TemplatesAppend(a + b, c, code);
    TemplatesAppend(a + b + c, d, code);
  }

  lemma CandidateUrlsRegroup(school: School)
    ensures CandidateUrls(school) == OwnSite(school) +
      (IfListed(school, Axios) + IfListed(school, Argo) + IfListed(school, Spaggiari) + IfListed(school, Net4market))
  {
    var s, x, y, z, w := OwnSite(school), IfListed(school, Axios), IfListed(school, Argo),
      IfListed(school, Spaggiari), IfListed(school, Net4market);
    assert s + x + y + z + w == s + (x + y + z + w);
  }

  /** `CandidateUrls` is the own site followed by the templates of the listed platforms. */
  lemma CandidateUrlsAreTemplates(school: School)
    ensures CandidateUrls(school) ==
      OwnSite(school) + Templates(ListedPlatforms(school), school.fields.codiceMeccanografico)
  {
    TemplatesOfListed(school);
    CandidateUrlsRegroup(school);
  }

  lemma TemplatesSingle(school: School, p: Hosted)
    ensures Templates(Single(school, p), school.fields.codiceMeccanografico) == IfListed(school, p)
  {
  }

  /** The listed platforms come in the fixed order, each at most once. */
  lemma ListedInOrder(school: School)
    ensures var ps := ListedPlatforms(school);
      |ps| <= 4 && forall i, j :: 0 <= i < j < |ps| ==> Rank(ps[i]) < Rank(ps[j])
  {
    var ps := ListedPlatforms(school);
    forall i, j | 0 <= i < j < |ps| ensures Rank(ps[i]) < Rank(ps[j]) {
    }
  }

  /** The list has at most five entries: the own site first when there is one,
      then one templated URL per listed known platform, in the fixed order,
      without repetition; an unknown tag contributes nothing. */
  lemma CandidateUrlsShape(school: School)
    ensures var urls, site, ps := CandidateUrls(school), OwnSite(school), ListedPlatforms(school);
      |urls| == |site| + |ps| && |urls| <= 5 &&
      urls[..|site|] == site &&
      (forall k :: 0 <= k < |ps| ==> urls[|site| + k] == TemplateUrl(ps[k], school.fields.codiceMeccanografico)) &&
      (forall i, j :: 0 <= i < j < |ps| ==> Rank(ps[i]) < Rank(ps[j]))
  {
    var urls, site, ps := CandidateUrls(school), OwnSite(school), ListedPlatforms(school);
    var t := Templates(ps, school.fields.codiceMeccanografico);
    CandidateUrlsAreTemplates(school);
    ListedInOrder(school);
    assert urls == site + t;
    assert urls[..|site|] == site;
    forall k | 0 <= k < |ps| ensures urls[|site| + k] == t[k] { }
  }

  /** A school without a usable site and without listed platforms has nothing to visit. */
  lemma NoCandidates(school: School)
    requires school.fields.sitoWeb.None? || school.fields.sitoWeb.value == []
    requires school.fields.detectedPlatforms.None? || school.fields.detectedPlatforms.value == []
    ensures CandidateUrls(school) == []
  {
  }

  /** An occurrence of a pattern with a '.' inside shows a '.' in the text
      between the same two neighbours. */
  lemma DotNeighbours(s: string, p: string, k: int)
    requires Contains(s, p)
    requires 0 < k < |p| - 1 && p[k] == '.'
    ensures exists j :: 0 < j < |s| - 1 && s[j] == '.' && s[j - 1] == p[k - 1] && s[j + 1] == p[k + 1]
  {
    var i :| 0 <= i <= |s| - |p| && OccursAt(s, p, i);
    assert s[i + k] == s[i..i + |p|][k];
    assert s[i + k - 1] == s[i..i + |p|][k - 1];
    assert s[i + k + 1] == s[i..i + |p|][k + 1];
  }

  lemma OccursInPrefix(a: string, b: string, p: string, i: int)
    requires OccursAt(a, p, i)
    ensures OccursAt(a + b, p, i)
  {
    assert (a + b)[i..i + |p|] == a[i..i + |p|];
  }

  predicate NoDot(code: string)
  {
    forall k :: 0 <= k < |code| ==> code[k] != '.'
  }

  lemma NotAxios(s: string)
    requires forall j :: 0 < j < |s| - 1 && s[j] == '.' ==> s[j - 1] != 'e' || s[j + 1] != 'i'
    ensures !Contains(s, AxiosHost)
  {
    if Contains(s, AxiosHost) { DotNeighbours(s, AxiosHost, 17); }
  }

  lemma NotArgo(s: string)
    requires forall j :: 0 < j < |s| - 1 && s[j] == '.' ==> s[j - 1] != 'o' || s[j + 1] != 'i'
    ensures !Contains(s, ArgoHost)
  {
    if Contains(s, ArgoHost) { DotNeighbours(s, ArgoHost, 11); }
  }

  lemma NotSpaggiari(s: string)
    requires forall j :: 0 < j < |s| - 1 && s[j] == '.' ==> s[j - 1] != 'i' || s[j + 1] != 'e'
    ensures !Contains(s, SpaggiariHost)
  {
    if Contains(s, SpaggiariHost) { DotNeighbours(s, SpaggiariHost, 9); }
  }

  lemma OccursBetween(a: string, p: string, b: string)
    ensures OccursAt(a + p + b, p, |a|)
  {
    assert (a + p + b)[|a|..|a| + |p|] == p;
  }

  lemma AxiosDetected(code: string)
    ensures DetectPlatform(TemplateUrl(Axios, code)) == Axios
  {
    OccursBetween("https://", AxiosHost, "/scuola/" + code);
    assert TemplateUrl(Axios, code) == "https://" + AxiosHost + ("/scuola/" + code);
  }

  lemma ArgoDetected(code: string)
    requires NoDot(code)
    ensures DetectPlatform(TemplateUrl(Argo, code)) == Argo
  {
    var s := TemplateUrl(Argo, code);
    assert forall j :: 0 <= j < |s| && s[j] == '.' ==> j == 19;
    NotAxios(s);
    OccursBetween("https://", ArgoHost, "/" + code);
    assert s == "https://" + ArgoHost + ("/" + code);
  }

  lemma SpaggiariDetected(code: string)
    requires NoDot(code)
    ensures DetectPlatform(TemplateUrl(Spaggiari, code)) == Spaggiari
  {
    var s := TemplateUrl(Spaggiari, code);
    assert forall j :: 0 <= j < |s| && s[j] == '.' ==> j == 11 || j == 21;
    NotAxios(s);
    NotArgo(s);
    OccursBetween("https://web.", SpaggiariHost, "/" + code);
    assert s == "https://web." + SpaggiariHost + ("/" + code);
  }

  lemma Net4marketDetected(code: string)
    requires NoDot(code)
    ensures DetectPlatform(TemplateUrl(Net4market, code)) == Net4market
  {
    var s := TemplateUrl(Net4market, code);
    var n := 8 + |code|;
    assert forall j :: 0 <= j < |s| && s[j] == '.' ==> j == n || j == n + 11;
    assert s[n + 1] == 'n' && s[n + 12] == 'c';
    NotAxios(s);
    NotArgo(s);
    NotSpaggiari(s);
    OccursBetween("https://" + code + ".", Net4marketHost, ".com");
  }

  /** For a school code without '.', each templated URL is detected as the
      platform whose template produced it. */
  lemma TemplateDetectsItsPlatform(p: Hosted, code: string)
    requires NoDot(code)
    ensures DetectPlatform(TemplateUrl(p, code)) == p
  {
    match p
    case Axios => AxiosDetected(code);
    case Argo => ArgoDetected(code);
    case Spaggiari => SpaggiariDetected(code);
    case Net4market => Net4marketDetected(code);
  }

  /** Every URL that follows the own site is detected as the platform it was built for. */
  lemma CandidatesDetectBack(school: School)
    requires NoDot(school.fields.codiceMeccanografico)
    ensures var urls, site, ps := CandidateUrls(school), OwnSite(school), ListedPlatforms(school);
      |urls| == |site| + |ps| &&
      forall k :: 0 <= k < |ps| ==> DetectPlatform(urls[|site| + k]) == ps[k]
  {
    CandidateUrlsShape(school);
    var ps := ListedPlatforms(school);
    forall k | 0 <= k < |ps| ensures DetectPlatform(TemplateUrl(ps[k], school.fields.codiceMeccanografico)) == ps[k] {
      TemplateDetectsItsPlatform(ps[k], school.fields.codiceMeccanografico);
    }
  }
}
