/** The school upload of server/routes.ts once the file is read: the records
    of Calabria are kept and mapped onto school inserts, then the store's
    schools and tenders are replaced by them. A raw record is the parsed
    file's column-to-text map; a column the record lacks is `undefined`. */
module Upload {
  import opened Text
  import opened Schema
  import opened Storage
  import Platforms
  import Lists

  type Raw = map<string, string>

  /** A column of the record, if it has one. */
  function Get(raw: Raw, column: string): Option<string>
  {
    if column in raw then Some(raw[column]) else None
  }

  /** `a || b` on optional texts: `a` when it is a non-empty text, else `b`. */
  function Or(a: Option<string>, b: Option<string>): (r: Option<string>)
    ensures Truthy(r) <==> Truthy(a) || Truthy(b)
    ensures Truthy(a) ==> r == a
  {
    if Truthy(a) then a else b
  }

  /** `raw.UPPER || raw.lower`: the upper-case column wins when non-empty. */
  function Column(raw: Raw, upper: string, lower: string): Option<string>
  {
    Or(Get(raw, upper), Get(raw, lower))
  }

  /** `raw.UPPER || raw.lower || ''`. */
  function TextOf(raw: Raw, upper: string, lower: string): (r: string)
    ensures r == [] <==> !Truthy(Column(raw, upper, lower))
  {
    var c := Column(raw, upper, lower);
    if Truthy(c) then c.value else []
  }

  /** The province codes of Calabria that the filter looks for. */
  const ProvinceCodes: seq<string> := ["CS", "CZ", "RC", "KR", "VV"]

  /** The filter: the region names Calabria in any letter case, or the
      province holds one of the five codes, in capitals, anywhere. */
  predicate InCalabria(raw: Raw)
  {
    Contains(LowerStr(TextOf(raw, "REGIONE", "regione")), "calabria") ||
    exists code | code in ProvinceCodes :: Contains(TextOf(raw, "PROVINCIA", "provincia"), code)
  }

  /** The insert built from a kept record: region and area fixed to Calabria
      and the South, no platforms detected yet. */
  function ToSchool(raw: Raw): NewSchool
  {
    NewSchool(
      TextOf(raw, "CODICEMECCANOGRAFICO", "codiceMeccanografico"),
      TextOf(raw, "DENOMINAZIONESCUOLA", "denominazioneScuola"),
      Column(raw, "CODICEISTITUTORIFERIMENTO", "codiceIstitutoRiferimento"),
      Column(raw, "DENOMINAZIONEISTITUTORIFERIMENTO", "denominazioneIstitutoRiferimento"),
      Column(raw, "INDIRIZZOEMAILSCUOLA", "indirizzoEmail"),
      Column(raw, "SITOWEBSCUOLA", "sitoWeb"),
      Column(raw, "INDIRIZZO", "indirizzo"),
      Column(raw, "CAP", "cap"),
      Column(raw, "COMUNE", "comune"),
      Column(raw, "PROVINCIA", "provincia"),
      Some("CALABRIA"),
      Some("SUD"),
      Column(raw, "TIPOISTRUZIONE", "tipoIstituto"),
      Some([]))
  }

  /** An insert as the upload builds it. */
  predicate Uploaded(s: NewSchool)
  {
    s.regione == Some("CALABRIA") && s.areaGeografica == Some("SUD") && s.detectedPlatforms == Some([])
  }

  /** `calabriaSchools`: the kept records, mapped, in file order. */
  function CalabriaSchools(raws: seq<Raw>): seq<NewSchool>
  {
    Lists.FilterMap(raws, InCalabria, ToSchool)
  }

  /** The inserts are exactly the mapped records that pass the filter, no more
      of them than there are records, and each is built as the upload builds it. */
  lemma CalabriaSchoolsSpec(raws: seq<Raw>)
    ensures |CalabriaSchools(raws)| <= |raws|
    ensures forall s :: s in CalabriaSchools(raws) <==> exists raw :: raw in raws && InCalabria(raw) && s == ToSchool(raw)
    ensures forall k :: 0 <= k < |CalabriaSchools(raws)| ==> Uploaded(CalabriaSchools(raws)[k])
  {
    var r := CalabriaSchools(raws);
    Lists.FilterMapMembers(raws, InCalabria, ToSchool);
    forall k | 0 <= k < |r|
      ensures Uploaded(r[k])
    {
      assert r[k] in r;
    }
  }

  /** Filtering and mapping commute with concatenation: file order is kept. */
  lemma CalabriaSchoolsAppend(xs: seq<Raw>, ys: seq<Raw>)
    ensures CalabriaSchools(xs + ys) == CalabriaSchools(xs) + CalabriaSchools(ys)
  {
    Lists.FilterMapAppend(xs, ys, InCalabria, ToSchool);
  }

  /** An uploaded school lists no platform, so the scraper tries at most its
      own site. */
  lemma OnlyOwnSiteScraped(s: School)
    requires Uploaded(s.fields)
    ensures Platforms.CandidateUrls(s) == Platforms.OwnSite(s)
  {
  }

  /** After an upload the geographic data has the one area SUD (when any
      school was kept), with the one region CALABRIA under it. */
  lemma {:induction false} UploadedGeography(xs: seq<School>, a: string, r: string)
    requires forall k :: 0 <= k < |xs| ==> Uploaded(xs[k].fields)
    ensures a in AreaSet(xs) <==> xs != [] && a == "SUD"
    ensures r in RegionSet(xs, a) <==> xs != [] && a == "SUD" && r == "CALABRIA"
    ensures r in RegionKeys(xs) <==> xs != [] && r == "CALABRIA"
  {
    GeoSetsMembers(xs, a, r, []);
    if xs != [] {
      assert xs[0] in xs;
    }
  }

  /** The reply: how many schools were stored and the first ten of them. */
  datatype UploadReply = UploadReply(count: nat, preview: seq<School>)

  /** The upload once the file is parsed: schools and tenders cleared, the
      kept records stored with identifiers from 1, scan sessions untouched. */
  method UploadSchools(store: MemStorage, raws: seq<Raw>) returns (reply: UploadReply)
    requires store.Valid()
    modifies store
    ensures store.Valid()
    ensures store.Schools() == Numbered(CalabriaSchools(raws), 1)
    ensures store.Tenders() == [] && store.currentTenderId == 1
    ensures store.scanSessions == old(store.scanSessions) && store.currentScanId == old(store.currentScanId)
    ensures reply.count == |CalabriaSchools(raws)|
    ensures reply.preview == store.Schools()[..if reply.count < 10 then reply.count else 10]
  {
    var kept := CalabriaSchools(raws);
    store.ClearSchools();
    store.ClearTenders();
    var created := store.CreateSchools(kept);
    assert store.Schools() == created;
    reply := UploadReply(|created|, created[..if |created| < 10 then |created| else 10]);
  }
}
