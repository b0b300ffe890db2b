/** The `/api/tenders` reply (server/routes.ts): the tenders `getTenders`
    selects, each paired with a short summary of its school, or with nothing
    when no stored school has the tender's `schoolId`. */
module Enrichment {
  import opened Schema
  import opened Storage

  /** `{ name, code, location }` of the reply. */
  datatype SchoolSummary = SchoolSummary(name: string, code: string, location: string)

  /** A tender spread into the reply object, plus its `school` member. */
  datatype EnrichedTender = EnrichedTender(tender: Tender, school: Option<SchoolSummary>)

  /** A template literal's rendering of an optional column that the upload
      leaves `undefined` when the file has no value for it. */
  function Show(o: Option<string>): string
  {
    match o
    case Some(v) => v
    case None => "undefined"
  }

  /** The summary of a school: its name, its code and `comune (provincia)`. */
  function Summary(s: School): SchoolSummary
  {
    SchoolSummary(s.fields.denominazioneScuola, s.fields.codiceMeccanografico,
                  Show(s.fields.comune) + " (" + Show(s.fields.provincia) + ")")
  }

  /** The `school` member of a tender with identifier `schoolId`: the summary
      of the stored school with that identifier, or nothing when there is none. */
  function SchoolOf(store: MemStorage, schoolId: int): (r: Option<SchoolSummary>)
    reads store
    requires store.Valid()
    ensures r.Some? <==> exists s :: s in store.Schools() && s.id == schoolId
    ensures forall s :: s in store.Schools() && s.id == schoolId ==> r == Some(Summary(s))
  {
    match store.GetSchoolById(schoolId)
    case Some(s) => Some(Summary(s))
    case None =>
      assert forall s :: s in store.Schools() ==> 1 <= s.id < store.currentSchoolId by {
        forall s | s in store.Schools()
          ensures 1 <= s.id < store.currentSchoolId
        {
          var k :| 0 <= k < |store.Schools()| && store.Schools()[k] == s;
        }
      }
      None
  }

  /** `tenders.map(...)`: each tender with the `school` member of its `schoolId`. */
  function Enrich(store: MemStorage, ts: seq<Tender>): (r: seq<EnrichedTender>)
    reads store
    requires store.Valid()
    ensures |r| == |ts|
    ensures forall k :: 0 <= k < |r| ==> r[k].tender == ts[k] && r[k].school == SchoolOf(store, ts[k].fields.schoolId)
  {
    seq(|ts|, k requires 0 <= k < |ts| && store.Valid() reads store =>
      EnrichedTender(ts[k], SchoolOf(store, ts[k].fields.schoolId)))
  }

  /** The reply: the tenders `getTenders` selects, in their order, enriched. */
  function EnrichedTenders(store: MemStorage, f: TenderFilters): seq<EnrichedTender>
    reads store
    requires store.Valid()
  {
    Enrich(store, store.GetTenders(f))
  }
}
