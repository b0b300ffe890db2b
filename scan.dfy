/** The scan of server/routes.ts (`POST /api/scan`): a session is created as
    running, then the requested schools are scanned one after the other, the
    session is updated after each, the tenders found are stored in one batch, and
    the session is marked completed. The background job is run to its end here;
    what a school's scrape throws is an oracle `crash`, fetching is the oracle
    of the extractor, and the clock readings are parameters. */
module Scan {
  import opened Schema
  import opened Extraction
  import opened Storage

  /** What the loop does with one requested identifier. */
  datatype Step =
    | Skipped(id: int)                                   // no such school: `continue`
    | Scanned(id: int, tenders: seq<NewTender>)          // scraped
    | Failed(id: int, message: string)                   // the scrape threw

  function StepOf(schools: map<int, School>, id: int, fetch: string -> Page, crash: School -> Option<string>): Step
  {
    if id !in schools then Skipped(id)
    else if crash(schools[id]).Some? then Failed(id, crash(schools[id]).value)
    else Scanned(id, SchoolTenders(schools[id], fetch))
  }

  function Steps(schools: map<int, School>, ids: seq<int>, fetch: string -> Page, crash: School -> Option<string>): (r: seq<Step>)
    ensures |r| == |ids|
    ensures forall k :: 0 <= k < |r| ==> r[k] == StepOf(schools, ids[k], fetch, crash)
  {
    seq(|ids|, k requires 0 <= k < |ids| => StepOf(schools, ids[k], fetch, crash))
  }

  /** `allTenders`: the tenders of the scanned schools, in order. */
  function Found(steps: seq<Step>): seq<NewTender>
  {
    if steps == [] then []
    else Found(steps[..|steps| - 1]) + (if steps[|steps| - 1].Scanned? then steps[|steps| - 1].tenders else [])
  }

  /** `completedCount`: the schools scanned without error. */
  function Succeeded(steps: seq<Step>): (n: nat)
    ensures n <= |steps|
  {
    if steps == [] then 0
    else Succeeded(steps[..|steps| - 1]) + (if steps[|steps| - 1].Scanned? then 1 else 0)
  }

  /** The progress entry an update writes for a step, if it writes one. */
  function Entry(st: Step): ProgressEntry
    requires !st.Skipped?
  {
    if st.Scanned? then Completed(|st.tenders|) else SchoolError(st.message)
  }

  /** Step `k` wrote a progress entry and no later step did. */
  predicate IsLastReport(steps: seq<Step>, k: int)
  {
    0 <= k < |steps| && !steps[k].Skipped? && forall j :: k < j < |steps| ==> steps[j].Skipped?
  }

  /** The last step that wrote a progress entry. */
  function LastReported(steps: seq<Step>): (r: Option<Step>)
    ensures r.Some? ==> exists k :: IsLastReport(steps, k) && steps[k] == r.value
    ensures r.None? <==> forall k :: 0 <= k < |steps| ==> steps[k].Skipped?
  {
    if steps == [] then None
    else if !steps[|steps| - 1].Skipped? then
      assert IsLastReport(steps, |steps| - 1);
      Some(steps[|steps| - 1])
    else
      var init := steps[..|steps| - 1];
      assert forall k :: 0 <= k < |init| ==> init[k] == steps[k];
      assert forall k :: IsLastReport(init, k) ==> IsLastReport(steps, k);
      LastReported(init)
  }

  /** The progress the handler leaves: each update writes
      `{ ...captured, [schoolId]: entry }`, where `captured` is the progress of
      the session object returned at creation, so each update replaces the
      previous entries. */
  function ProgressAsWritten(captured: Progress, steps: seq<Step>, initial: Option<Progress>): Option<Progress>
  {
    match LastReported(steps)
    case None => initial
    case Some(st) => Some(captured[st.id := Entry(st)])
  }

  /** The progress the view of the scan expects: every reported school keeps its
      entry, each update spreading the progress stored so far. */
  function ProgressAccumulated(initial: Progress, steps: seq<Step>): Progress
  {
    if steps == [] then initial
    else
      var st := steps[|steps| - 1];
      var before := ProgressAccumulated(initial, steps[..|steps| - 1]);
      if st.Skipped? then before else before[st.id := Entry(st)]
  }

  /** The session while the loop runs, after the steps taken so far. */
  function Interim(s0: ScanSession, captured: Progress, steps: seq<Step>): ScanSession
  {
    var n := Succeeded(steps);
    ScanSession(s0.id, s0.status, s0.totalSchools,
      if n > 0 then Some(n) else s0.completedSchools,
      if n > 0 then Some(|Found(steps)|) else s0.totalTenders,
      s0.startedAt, s0.completedAt,
      ProgressAsWritten(captured, steps, s0.progress))
  }

  /** The update after a school that threw. */
  function ErrorPatch(progress: Progress): SessionPatch
  {
    SessionPatch(None, None, None, None, None, None, None, Some(progress))
  }

  /** The update after a scanned school. */
  function CountersPatch(completed: int, total: int, progress: Progress): SessionPatch
  {
    SessionPatch(None, None, None, Some(completed), Some(total), None, None, Some(progress))
  }

  /** The last update: `{ status: 'completed', completedAt: new Date() }`. */
  function CompletionPatch(now: nat): SessionPatch
  {
    SessionPatch(None, Some("completed"), None, None, None, None, Some(Some(now)), None)
  }

  /** The session after the update (if any) the loop makes for step `st`, with
      the counters the handler holds after it. */
  function AfterStep(s: ScanSession, captured: Progress, st: Step, completed: int, total: int): ScanSession
  {
    match st
    case Skipped(_) => s
    case Failed(id, m) => Merge(s, ErrorPatch(captured[id := SchoolError(m)]))
    case Scanned(id, ts) => Merge(s, CountersPatch(completed, total, captured[id := Completed(|ts|)]))
  }

  lemma InterimStep(s0: ScanSession, captured: Progress, steps: seq<Step>, k: nat)
    requires k < |steps|
    ensures Interim(s0, captured, steps[..k + 1]) ==
      AfterStep(Interim(s0, captured, steps[..k]), captured, steps[k],
                Succeeded(steps[..k + 1]), |Found(steps[..k + 1])|)
  {
    var p := steps[..k + 1];
    assert p[..|p| - 1] == steps[..k] && p[|p| - 1] == steps[k];
  }

  /** One pass of the loop body for the requested identifier `id`. */
  method ScanSchool(store: MemStorage, sessionId: int, captured: Progress, id: int, fetch: string -> Page,
                    crash: School -> Option<string>, allTenders: seq<NewTender>, completedCount: int)
    returns (allTenders': seq<NewTender>, completedCount': int)
    requires store.Valid() && sessionId in store.scanSessions
    modifies store
    ensures store.Valid()
    ensures var st := StepOf(store.schools, id, fetch, crash);
      allTenders' == allTenders + (if st.Scanned? then st.tenders else []) &&
      completedCount' == completedCount + (if st.Scanned? then 1 else 0) &&
      store.scanSessions == old(store.scanSessions)[sessionId :=
        AfterStep(old(store.scanSessions)[sessionId], captured, st, completedCount', |allTenders'|)]
    ensures store.schools == old(store.schools) && store.currentSchoolId == old(store.currentSchoolId)
    ensures store.tenders == old(store.tenders) && store.currentTenderId == old(store.currentTenderId)
    ensures store.currentScanId == old(store.currentScanId)
  {
    allTenders', completedCount' := allTenders, completedCount;
    var school := store.GetSchoolById(id);
    if school.None? {
      return;
    }
    var failure := crash(school.value);
    if failure.Some? {
      var _ := store.UpdateScanSession(sessionId, ErrorPatch(captured[id := SchoolError(failure.value)]));
    } else {
      var tenders := ScrapeSchoolTenders(school.value, fetch);
      allTenders' := allTenders' + tenders;
      completedCount' := completedCount' + 1;
      var _ := store.UpdateScanSession(sessionId,
        CountersPatch(completedCount', |allTenders'|, captured[id := Completed(|tenders|)]));
    }
  }

  /** The `for` loop of the background job: every requested identifier in turn. */
  method ScanAll(store: MemStorage, sessionId: int, captured: Progress, ids: seq<int>, fetch: string -> Page,
                 crash: School -> Option<string>) returns (allTenders: seq<NewTender>)
    requires store.Valid() && sessionId in store.scanSessions
    modifies store
    ensures store.Valid()
    ensures var steps := Steps(store.schools, ids, fetch, crash);
      allTenders == Found(steps) &&
      store.scanSessions == old(store.scanSessions)[sessionId := Interim(old(store.scanSessions)[sessionId], captured, steps)]
    ensures store.schools == old(store.schools) && store.currentSchoolId == old(store.currentSchoolId)
    ensures store.tenders == old(store.tenders) && store.currentTenderId == old(store.currentTenderId)
    ensures store.currentScanId == old(store.currentScanId)
  {
    ghost var steps := Steps(store.schools, ids, fetch, crash);
    ghost var s0 := store.scanSessions[sessionId];
    allTenders := [];
    var completedCount := 0;
    var k := 0;
    while k < |ids|
      invariant 0 <= k <= |ids|
      invariant store.Valid()
      invariant store.schools == old(store.schools) && store.currentSchoolId == old(store.currentSchoolId)
      invariant store.tenders == old(store.tenders) && store.currentTenderId == old(store.currentTenderId)
      invariant store.currentScanId == old(store.currentScanId)
      invariant allTenders == Found(steps[..k]) && completedCount == Succeeded(steps[..k])
      invariant store.scanSessions == old(store.scanSessions)[sessionId := Interim(s0, captured, steps[..k])]
    {
      assert steps[k] == StepOf(store.schools, ids[k], fetch, crash);
      InterimStep(s0, captured, steps, k);
      FoundStep(steps, k);
      allTenders, completedCount := ScanSchool(store, sessionId, captured, ids[k], fetch, crash, allTenders, completedCount);
      UpdateTwice(old(store.scanSessions), sessionId, Interim(s0, captured, steps[..k]), Interim(s0, captured, steps[..k + 1]));
      k := k + 1;
    }
    assert steps[..k] == steps;
  }

  /** The background job of `POST /api/scan`, for the session `session` as
      `createScanSession` returned it: the loop, one `createTenders` call when
      something was found, and the completion update. */
  method RunScan(store: MemStorage, session: ScanSession, ids: seq<int>, fetch: string -> Page,
                 crash: School -> Option<string>, saveClock: nat -> nat, endTime: nat)
    requires store.Valid() && session.id in store.scanSessions
    modifies store
    ensures store.Valid()
    ensures var steps := Steps(old(store.schools), ids, fetch, crash);
      store.Tenders() == old(store.Tenders()) + Stamped(Found(steps), old(store.currentTenderId), saveClock) &&
      store.scanSessions == old(store.scanSessions)[session.id :=
        Merge(Interim(old(store.scanSessions)[session.id], session.progress.GetOr(map[]), steps),
              CompletionPatch(endTime))]
    ensures store.schools == old(store.schools) && store.currentSchoolId == old(store.currentSchoolId)
    ensures store.currentScanId == old(store.currentScanId)
  {
    ghost var before := store.Tenders();
    var allTenders := ScanAll(store, session.id, session.progress.GetOr(map[]), ids, fetch, crash);
    assert store.Tenders() == before;
    if |allTenders| > 0 {
      var _ := store.CreateTenders(allTenders, saveClock);
    } else {
      assert Stamped(allTenders, store.currentTenderId, saveClock) == [];
    }
    var _ := store.UpdateScanSession(session.id, CompletionPatch(endTime));
  }

  lemma UpdateTwice(m: map<int, ScanSession>, id: int, a: ScanSession, b: ScanSession)
    ensures m[id := a][id := b] == m[id := b]
  {
  }

  lemma FoundStep(steps: seq<Step>, k: nat)
    requires k < |steps|
    ensures Found(steps[..k + 1]) == Found(steps[..k]) + (if steps[k].Scanned? then steps[k].tenders else [])
    ensures Succeeded(steps[..k + 1]) == Succeeded(steps[..k]) + (if steps[k].Scanned? then 1 else 0)
  {
    var p := steps[..k + 1];
    assert p[..|p| - 1] == steps[..k] && p[|p| - 1] == steps[k];
  }

  /** The reply of `POST /api/scan`. */
  datatype ScanReply = ScanReply(sessionId: nat, totalSchools: nat)

  /** The session `POST /api/scan` creates. */
  function RunningSession(ids: seq<int>): NewScanSession
  {
    NewScanSession(Some("running"), |ids|, Some(0), Some(0), None, Some(map[]))
  }

  /** `POST /api/scan`: a body that fails the schema gets an error and changes
      nothing; otherwise a running session is created and the scan is run. */
  method StartScan(store: MemStorage, body: Json, fetch: string -> Page, crash: School -> Option<string>,
                   startTime: nat, saveClock: nat -> nat, endTime: nat) returns (reply: Option<ScanReply>)
    requires store.Valid()
    modifies store
    ensures store.Valid()
    ensures reply.None? <==> ParseScanRequest(body).None?
    ensures reply.None? ==> unchanged(store)
    ensures reply.Some? ==>
      var ids := ParseScanRequest(body).value;
      var steps := Steps(old(store.schools), ids, fetch, crash);
      reply.value == ScanReply(old(store.currentScanId), |ids|) &&
      store.Tenders() == old(store.Tenders()) + Stamped(Found(steps), old(store.currentTenderId), saveClock) &&
      store.scanSessions == old(store.scanSessions)[old(store.currentScanId) :=
        Finished(ids, steps, old(store.currentScanId), startTime, endTime)] &&
      store.currentScanId == old(store.currentScanId) + 1 &&
      store.schools == old(store.schools) && store.currentSchoolId == old(store.currentSchoolId)
  {
    var parsed := ParseScanRequest(body);
    if parsed.None? {
      return None;
    }
    var ids := parsed.value;
    var session := store.CreateScanSession(RunningSession(ids), startTime);
    RunScan(store, session, ids, fetch, crash, saveClock, endTime);
    FinishedIsInterim(ids, Steps(old(store.schools), ids, fetch, crash), session.id, startTime, endTime);
    UpdateTwice(old(store.scanSessions), session.id, session,
      Finished(ids, Steps(old(store.schools), ids, fetch, crash), session.id, startTime, endTime));
    reply := Some(ScanReply(session.id, |ids|));
  }

  /** The session a scan leaves: completed, with the count of schools scanned
      without error, the count of tenders found, and the progress as written. */
  function Finished(ids: seq<int>, steps: seq<Step>, id: nat, startTime: nat, endTime: nat): (s: ScanSession)
    ensures s.status == Some("completed") && s.completedAt == Some(endTime)
    ensures s.totalSchools == |ids| && s.completedSchools == Some(Succeeded(steps))
    ensures s.totalTenders == Some(|Found(steps)|)
    ensures s.progress == ProgressAsWritten(map[], steps, Some(map[]))
  {
    ScanSession(id, Some("completed"), |ids|, Some(Succeeded(steps)), Some(|Found(steps)|), startTime,
      Some(endTime), ProgressAsWritten(map[], steps, Some(map[])))
  }

  lemma FinishedIsInterim(ids: seq<int>, steps: seq<Step>, id: nat, startTime: nat, endTime: nat)
    ensures var s0 := FromInsert(RunningSession(ids), id, startTime);
      Merge(Interim(s0, map[], steps), CompletionPatch(endTime)) == Finished(ids, steps, id, startTime, endTime)
  {
    if Succeeded(steps) == 0 {
      EmptyFound(steps);
    }
  }

  /** With no school scanned, no tender was found. */
  lemma {:induction false} EmptyFound(steps: seq<Step>)
    requires Succeeded(steps) == 0
    ensures Found(steps) == []
  {
    if steps != [] {
      EmptyFound(steps[..|steps| - 1]);
    }
  }

  // ---------------------------------------------------------------------------
  // Properties of the scan

  /** The counters a poller sees never decrease, never exceed the requested
      count, and the tenders found so far are a prefix of the final list. */
  lemma {:induction false} CountersMonotone(steps: seq<Step>, i: nat, j: nat)
    requires i <= j <= |steps|
    ensures Succeeded(steps[..i]) <= Succeeded(steps[..j]) <= j
    ensures Found(steps[..i]) <= Found(steps[..j])
    decreases j - i
  {
    if i < j {
      CountersMonotone(steps, i, j - 1);
      FoundStep(steps, j - 1);
    }
  }

  /** Every requested school that exists and does not throw counts as
      completed: when all do, the scan completes `totalSchools` schools. */
  lemma {:induction false} AllScannedAllCompleted(steps: seq<Step>)
    requires forall k :: 0 <= k < |steps| ==> steps[k].Scanned?
    ensures Succeeded(steps) == |steps|
  {
    if steps != [] {
      AllScannedAllCompleted(steps[..|steps| - 1]);
    }
  }

  /** An identifier without a school is counted in `totalSchools` but never
      completed: such a scan ends with fewer completed schools than requested. */
  lemma {:induction false} SkippedShortfall(steps: seq<Step>, k: nat)
    requires k < |steps| && steps[k].Skipped?
    ensures Succeeded(steps) < |steps|
  {
    var init := steps[..|steps| - 1];
    if k < |steps| - 1 {
      assert init[k] == steps[k];
      SkippedShortfall(init, k);
    }
  }

  /** As written, the stored progress holds at most one school: the last one
      reported. Two schools scanned one after the other leave only the second. */
  lemma ProgressForgetsEarlierSchools(a: int, b: int, ta: seq<NewTender>, tb: seq<NewTender>)
    requires a != b
    ensures var steps := [Scanned(a, ta), Scanned(b, tb)];
      ProgressAsWritten(map[], steps, Some(map[])) == Some(map[b := Completed(|tb|)]) &&
      a !in ProgressAsWritten(map[], steps, Some(map[])).value &&
      a in ProgressAccumulated(map[], steps)
  {
    var steps := [Scanned(a, ta), Scanned(b, tb)];
    assert steps[..1] == [Scanned(a, ta)];
    assert [Scanned(a, ta)][..0] == [];
  }

  /** With each update spreading the stored progress, every reported school
      keeps an entry, and it is the entry of its last report. */
  lemma {:induction false} AccumulatedKeepsEverySchool(initial: Progress, steps: seq<Step>, k: nat)
    requires k < |steps| && !steps[k].Skipped?
    requires forall j :: k < j < |steps| ==> steps[j].id != steps[k].id
    ensures steps[k].id in ProgressAccumulated(initial, steps)
    ensures ProgressAccumulated(initial, steps)[steps[k].id] == Entry(steps[k])
  {
    var init := steps[..|steps| - 1];
    if k < |steps| - 1 {
      assert init[k] == steps[k];
      AccumulatedKeepsEverySchool(initial, init, k);
    }
  }

  /** As written, the session a scan leaves holds the progress entry of one
      school only, the one reported last; when no school was reported it is {}. */
  lemma AsWrittenKeepsOnlyLast(ids: seq<int>, steps: seq<Step>, id: nat, startTime: nat, endTime: nat, k: int)
    requires IsLastReport(steps, k) || (k == -1 && forall j :: 0 <= j < |steps| ==> steps[j].Skipped?)
    ensures k == -1 ==> Finished(ids, steps, id, startTime, endTime).progress == Some(map[])
    ensures k >= 0 ==>
      Finished(ids, steps, id, startTime, endTime).progress == Some(map[steps[k].id := Entry(steps[k])])
  {
    if k >= 0 {
      var r := LastReported(steps);
      assert r.Some? by {
        assert !steps[k].Skipped?;
      }
      var k' :| IsLastReport(steps, k') && steps[k'] == r.value;
      assert k' == k;
    }
  }
}
