/** The record shapes of shared/schema.ts: the `schools`, `tenders` and
    `scan_sessions` tables, the insert shapes (which leave out what the store
    assigns), the column defaults, the declared uniqueness constraints, and the
    request schemas `scanRequestSchema` and `filterOptionsSchema`. A nullable or
    optional column is an `Option`; a timestamp is a logical clock value. */
module Schema {

  datatype Option<+T> = None | Some(value: T) {
    function GetOr(default: T): T
    {
      match this
      case Some(v) => v
      case None => default
    }
  }

  /** An insert into `schools`: every column but `id`. */
  datatype NewSchool = NewSchool(
    codiceMeccanografico: string,
    denominazioneScuola: string,
    codiceIstitutoRiferimento: Option<string>,
    denominazioneIstitutoRiferimento: Option<string>,
    indirizzoEmail: Option<string>,
    sitoWeb: Option<string>,
    indirizzo: Option<string>,
    cap: Option<string>,
    comune: Option<string>,
    provincia: Option<string>,
    regione: Option<string>,
    areaGeografica: Option<string>,
    tipoIstituto: Option<string>,
    detectedPlatforms: Option<seq<string>>)

  /** A stored school: the insert plus the identifier the store assigned. */
  datatype School = School(id: nat, fields: NewSchool)

  /** An insert into `tenders`: every column but `id` and `createdAt`. */
  datatype NewTender = NewTender(
    schoolId: int,
    title: string,
    excerpt: Option<string>,
    deadline: Option<string>,
    kind: string,
    platform: string,
    pdfUrl: Option<string>,
    sourceUrl: Option<string>,
    hash: string)

  /** A stored tender: the insert plus its identifier and creation time. */
  datatype Tender = Tender(id: nat, createdAt: nat, fields: NewTender)

  /** One school's entry in a session's `progress` object. */
  datatype ProgressEntry = Completed(tendersFound: nat) | SchoolError(message: string)

  type Progress = map<int, ProgressEntry>

  /** An insert into `scan_sessions`: every column but `id` and `startedAt`;
      the columns with a default may be left out. */
  datatype NewScanSession = NewScanSession(
    status: Option<string>,
    totalSchools: int,
    completedSchools: Option<int>,
    totalTenders: Option<int>,
    completedAt: Option<nat>,
    progress: Option<Progress>)

  /** A stored scan session. The in-memory store copies the insert as it is, so a
      column the insert left out stays absent (`None`) rather than defaulted. */
  datatype ScanSession = ScanSession(
    id: nat,
    status: Option<string>,
    totalSchools: int,
    completedSchools: Option<int>,
    totalTenders: Option<int>,
    startedAt: nat,
    completedAt: Option<nat>,
    progress: Option<Progress>)

  /** `Partial<ScanSession>`: every field may be supplied or not. */
  datatype SessionPatch = SessionPatch(
    id: Option<nat>,
    status: Option<string>,
    totalSchools: Option<int>,
    completedSchools: Option<int>,
    totalTenders: Option<int>,
    startedAt: Option<nat>,
    completedAt: Option<Option<nat>>,
    progress: Option<Progress>)

  const NoChanges := SessionPatch(None, None, None, None, None, None, None, None)

  /** `{ ...session, ...updates }`: a supplied field replaces the stored one, the others stay. */
  function Merge(s: ScanSession, p: SessionPatch): ScanSession
  {
    ScanSession(
      if p.id.Some? then p.id.value else s.id,
      if p.status.Some? then p.status else s.status,
      if p.totalSchools.Some? then p.totalSchools.value else s.totalSchools,
      if p.completedSchools.Some? then p.completedSchools else s.completedSchools,
      if p.totalTenders.Some? then p.totalTenders else s.totalTenders,
      if p.startedAt.Some? then p.startedAt.value else s.startedAt,
      if p.completedAt.Some? then p.completedAt.value else s.completedAt,
      if p.progress.Some? then p.progress else s.progress)
  }

  /** Merging nothing changes nothing; merging twice keeps the later value of each field. */
  lemma MergeLaws(s: ScanSession, p: SessionPatch, q: SessionPatch)
    ensures Merge(s, NoChanges) == s
    ensures q.progress.Some? ==> Merge(Merge(s, p), q).progress == q.progress
    ensures q.progress.None? ==> Merge(Merge(s, p), q).progress == Merge(s, p).progress
  {
  }

  /** The status values the `status` column's comment lists. */
  predicate IsSessionStatus(s: string)
  {
    s == "pending" || s == "running" || s == "completed" || s == "failed"
  }

  /** The row a database insert produces: the columns left out take their
      declared defaults (status "pending", both counters 0, progress {}). */
  function WithDefaults(n: NewScanSession, id: nat, now: nat): (r: ScanSession)
    ensures r.id == id && r.startedAt == now && r.totalSchools == n.totalSchools
    ensures r.status.Some? && r.completedSchools.Some? && r.totalTenders.Some? && r.progress.Some?
    ensures n.status.None? ==> r.status == Some("pending")
    ensures n.status.Some? ==> r.status == n.status
    ensures n.completedSchools.None? ==> r.completedSchools == Some(0)
    ensures n.completedSchools.Some? ==> r.completedSchools == n.completedSchools
    ensures n.totalTenders.None? ==> r.totalTenders == Some(0)
    ensures n.totalTenders.Some? ==> r.totalTenders == n.totalTenders
    ensures n.progress.None? ==> r.progress == Some(map[])
    ensures n.progress.Some? ==> r.progress == n.progress
    ensures r.completedAt == n.completedAt
  {
    ScanSession(id, Some(n.status.GetOr("pending")), n.totalSchools,
      Some(n.completedSchools.GetOr(0)), Some(n.totalTenders.GetOr(0)), now,
      n.completedAt, Some(n.progress.GetOr(map[])))
  }

  /** An insert that supplies nothing optional becomes a pending session with
      zero counts and an empty progress map. */
  lemma DefaultSession(total: int, id: nat, now: nat)
    ensures var r := WithDefaults(NewScanSession(None, total, None, None, None, None), id, now);
      r.status == Some("pending") && IsSessionStatus(r.status.value) &&
      r.completedSchools == Some(0) && r.totalTenders == Some(0) && r.progress == Some(map[])
  {
  }

  /** `codiceMeccanografico` is declared unique. */
  ghost predicate UniqueCodes(schools: seq<School>)
  {
    forall i, j :: 0 <= i < j < |schools| ==>
      schools[i].fields.codiceMeccanografico != schools[j].fields.codiceMeccanografico
  }

  /** `hash` is declared unique: the intended key for recognising a tender seen before. */
  ghost predicate UniqueHashes(tenders: seq<Tender>)
  {
    forall i, j :: 0 <= i < j < |tenders| ==> tenders[i].fields.hash != tenders[j].fields.hash
  }

  /** The JSON values a request body may hold (numbers restricted to integers). */
  datatype Json =
    | JNull
    | JBool(b: bool)
    | JNum(n: int)
    | JStr(s: string)
    | JArr(items: seq<Json>)
    | JObj(members: map<string, Json>)

  predicate AllNumbers(items: seq<Json>)
  {
    forall k :: 0 <= k < |items| ==> items[k].JNum?
  }

  /** `scanRequestSchema.parse`: an object whose `schoolIds` is an array of
      numbers (other members are dropped); anything else is rejected. */
  function ParseScanRequest(body: Json): (r: Option<seq<int>>)
    ensures r.Some? <==> (body.JObj? && "schoolIds" in body.members &&
                          body.members["schoolIds"].JArr? && AllNumbers(body.members["schoolIds"].items))
    ensures r.Some? ==> (|r.value| == |body.members["schoolIds"].items| &&
                         forall k :: 0 <= k < |r.value| ==> body.members["schoolIds"].items[k] == JNum(r.value[k]))
  {
    if body.JObj? && "schoolIds" in body.members && body.members["schoolIds"].JArr? &&
       AllNumbers(body.members["schoolIds"].items)
    then
      var items := body.members["schoolIds"].items;
      Some(seq(|items|, k requires 0 <= k < |items| => items[k].n))
    else None
  }

  /** The schema does not require a non-empty list: `{"schoolIds": []}` is accepted. */
  lemma EmptyScanRequestAccepted()
    ensures ParseScanRequest(JObj(map["schoolIds" := JArr([])])) == Some([])
  {
  }

  /** `filterOptionsSchema`: every filter is optional. */
  datatype FilterOptions = FilterOptions(
    areaGeografica: Option<string>,
    regione: Option<string>,
    provincia: Option<seq<string>>,
    search: Option<string>)

  /** The filters of `getTenders`. */
  datatype TenderFilters = TenderFilters(
    schoolIds: Option<seq<int>>,
    search: Option<string>,
    kind: Option<string>,
    platform: Option<string>)
}
