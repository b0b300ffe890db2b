/** The in-memory store of server/storage.ts (`MemStorage`): three maps keyed
    by identifier and three counters that hand out identifiers from 1.
    A JavaScript `Map` iterates in insertion order; because identifiers are
    inserted in increasing order and a clear resets both map and counter, that
    order is the identifier order, which `Valid` states and `Schools` and
    `Tenders` use. A timestamp read once per call is a `now` parameter; the
    clock `createTenders` reads once per tender is a `clock` parameter. */
module Storage {
  import opened Text
  import opened Schema
  import Collate

  /** JavaScript truthiness of an optional string: present and non-empty. */
  predicate Truthy(o: Option<string>)
  {
    o.Some? && o.value != []
  }

  /** The values stored under keys 1..n, in key order. */
  function ValuesUpTo<V>(m: map<int, V>, n: nat): (r: seq<V>)
    requires forall id :: 1 <= id <= n ==> id in m
    ensures |r| == n
    ensures forall k :: 0 <= k < n ==> r[k] == m[k + 1]
  {
    if n == 0 then [] else ValuesUpTo(m, n - 1) + [m[n]]
  }

  /** Storing `xs` under the keys after `n`, and changing nothing under 1..n,
      appends `xs` to the values in key order. */
  lemma ValuesUpToGrow<V>(m: map<int, V>, m0: map<int, V>, n: nat, xs: seq<V>)
    requires forall id :: 1 <= id <= n ==> id in m0 && id in m && m[id] == m0[id]
    requires forall id :: n < id <= n + |xs| ==> id in m && m[id] == xs[id - n - 1]
    ensures ValuesUpTo(m, n + |xs|) == ValuesUpTo(m0, n) + xs
  {
  }

  predicate SchoolIdsAscending(xs: seq<School>)
  {
    forall i, j :: 0 <= i < j < |xs| ==> xs[i].id < xs[j].id
  }

  predicate TenderIdsAscending(xs: seq<Tender>)
  {
    forall i, j :: 0 <= i < j < |xs| ==> xs[i].id < xs[j].id
  }

  /** The schools `createSchools` builds: each insert with the next identifier. */
  function Numbered(inserts: seq<NewSchool>, first: nat): (r: seq<School>)
    ensures |r| == |inserts|
    ensures forall k :: 0 <= k < |r| ==> r[k] == School(first + k, inserts[k])
  {
    seq(|inserts|, k requires 0 <= k < |inserts| => School(first + k, inserts[k]))
  }

  /** The tenders `createTenders` builds: each insert with the next identifier
      and its own creation time, `clock(k)` being the time read while the k-th
      insert of the call is built. */
  function Stamped(inserts: seq<NewTender>, first: nat, clock: nat -> nat): (r: seq<Tender>)
    ensures |r| == |inserts|
    ensures forall k :: 0 <= k < |r| ==> r[k] == Tender(first + k, clock(k), inserts[k])
  {
    seq(|inserts|, k requires 0 <= k < |inserts| => Tender(first + k, clock(k), inserts[k]))
  }

  /** The session `createScanSession` stores: the insert copied as it is (no
      column defaults), the identifier, the start time, and no completion time. */
  function FromInsert(n: NewScanSession, id: nat, now: nat): ScanSession
  {
    ScanSession(id, n.status, n.totalSchools, n.completedSchools, n.totalTenders, now, None, n.progress)
  }

  /** `text.toLowerCase().includes(search.toLowerCase())`. */
  predicate SearchHit(text: string, search: string)
  {
    Contains(LowerStr(text), LowerStr(search))
  }

  // ---------------------------------------------------------------------------
  // getSchools

  /** A school passes every filter that is set (a filter that is absent or
      empty is not applied). */
  predicate SchoolMatches(s: School, f: FilterOptions)
  {
    var d := s.fields;
    (Truthy(f.areaGeografica) ==> d.areaGeografica == f.areaGeografica) &&
    (Truthy(f.regione) ==> d.regione == f.regione) &&
    (f.provincia.Some? && |f.provincia.value| > 0 ==>
      Truthy(d.provincia) && d.provincia.value in f.provincia.value) &&
    (Truthy(f.search) ==>
      SearchHit(d.denominazioneScuola, f.search.value) ||
      SearchHit(d.codiceMeccanografico, f.search.value) ||
      (Truthy(d.comune) && SearchHit(d.comune.value, f.search.value)))
  }

  /** The filter chain of `getSchools`: the matching schools, in their order. */
  function FilterSchools(xs: seq<School>, f: FilterOptions): (r: seq<School>)
    ensures forall s :: s in r <==> s in xs && SchoolMatches(s, f)
    ensures SchoolIdsAscending(xs) ==> SchoolIdsAscending(r)
    ensures |r| <= |xs|
  {
    if xs == [] then []
    else
      assert forall s :: s in xs <==> s == xs[0] || s in xs[1..];
      var rest := FilterSchools(xs[1..], f);
      assert SchoolIdsAscending(xs) ==> forall k :: 0 <= k < |rest| ==> xs[0].id < rest[k].id by {
        forall k | 0 <= k < |rest| && SchoolIdsAscending(xs)
          ensures xs[0].id < rest[k].id
        {
          assert rest[k] in xs[1..];
        }
      }
      (if SchoolMatches(xs[0], f) then [xs[0]] else []) + rest
  }

  const NoSchoolFilter := FilterOptions(None, None, None, None)

  /** Without filters every school is returned, in order. */
  lemma {:induction false} NoSchoolFilterKeepsAll(xs: seq<School>)
    ensures FilterSchools(xs, NoSchoolFilter) == xs
  {
    if xs != [] {
      NoSchoolFilterKeepsAll(xs[1..]);
      assert xs == [xs[0]] + xs[1..];
    }
  }

  // ---------------------------------------------------------------------------
  // getTenders

  /** A tender passes every filter that is set. */
  predicate TenderMatches(t: Tender, f: TenderFilters)
  {
    var d := t.fields;
    (f.schoolIds.Some? && |f.schoolIds.value| > 0 ==> d.schoolId in f.schoolIds.value) &&
    (Truthy(f.search) ==>
      SearchHit(d.title, f.search.value) ||
      (Truthy(d.excerpt) && SearchHit(d.excerpt.value, f.search.value))) &&
    (Truthy(f.kind) ==> d.kind == f.kind.value) &&
    (Truthy(f.platform) ==> d.platform == f.platform.value)
  }

  function FilterTenders(xs: seq<Tender>, f: TenderFilters): (r: seq<Tender>)
    ensures forall t :: t in r <==> t in xs && TenderMatches(t, f)
    ensures TenderIdsAscending(xs) ==> TenderIdsAscending(r)
  {
    if xs == [] then []
    else
      assert forall t :: t in xs <==> t == xs[0] || t in xs[1..];
      var rest := FilterTenders(xs[1..], f);
      assert TenderIdsAscending(xs) ==> forall k :: 0 <= k < |rest| ==> xs[0].id < rest[k].id by {
        forall k | 0 <= k < |rest| && TenderIdsAscending(xs)
          ensures xs[0].id < rest[k].id
        {
          assert rest[k] in xs[1..];
        }
      }
      (if TenderMatches(xs[0], f) then [xs[0]] else []) + rest
  }

  /** The order `getTenders` returns: newest first; a stable sort keeps tenders
      created at the same time in their stored order, which is identifier order. */
  predicate Before(a: Tender, b: Tender)
  {
    a.createdAt > b.createdAt || (a.createdAt == b.createdAt && a.id < b.id)
  }

  predicate NewestFirst(xs: seq<Tender>)
  {
    forall i, j :: 0 <= i < j < |xs| ==> Before(xs[i], xs[j])
  }

  /** One step of a stable sort by `createdAt`, newest first: `x`, which comes
      after every element of `s` in the input, goes after all of them that are
      at least as new. */
  function InsertNewest(x: Tender, s: seq<Tender>): (r: seq<Tender>)
    ensures multiset(r) == multiset(s) + multiset{x}
  {
    if s == [] then [x]
    else if s[0].createdAt < x.createdAt then [x] + s
    else
      assert s == [s[0]] + s[1..];
      [s[0]] + InsertNewest(x, s[1..])
  }

  /** `tenders.sort((a, b) => b.createdAt - a.createdAt)`, a stable sort. */
  function SortNewest(xs: seq<Tender>): (r: seq<Tender>)
    ensures multiset(r) == multiset(xs)
  {
    if xs == [] then []
    else
      assert xs == xs[..|xs| - 1] + [xs[|xs| - 1]];
      InsertNewest(xs[|xs| - 1], SortNewest(xs[..|xs| - 1]))
  }

  lemma {:induction false} InsertNewestSorted(x: Tender, s: seq<Tender>)
    requires NewestFirst(s)
    requires forall k :: 0 <= k < |s| ==> s[k].id < x.id
    ensures NewestFirst(InsertNewest(x, s))
  {
    if s != [] && s[0].createdAt >= x.createdAt {
      InsertNewestSorted(x, s[1..]);
      var r := InsertNewest(x, s[1..]);
      forall k | 0 <= k < |r|
        ensures Before(s[0], r[k])
      {
        assert r[k] in multiset(r);
        if r[k] != x {
          assert r[k] in s[1..];
        }
      }
    }
  }

  /** Sorting tenders stored in identifier order gives them newest first,
      ties in identifier order. */
  lemma {:induction false} SortNewestSorted(xs: seq<Tender>)
    requires TenderIdsAscending(xs)
    ensures NewestFirst(SortNewest(xs))
  {
    if xs != [] {
      var init, x := xs[..|xs| - 1], xs[|xs| - 1];
      SortNewestSorted(init);
      var s := SortNewest(init);
      forall k | 0 <= k < |s|
        ensures s[k].id < x.id
      {
        assert s[k] in multiset(init);
      }
      InsertNewestSorted(x, s);
    }
  }

  /** The sort is stable: tenders created at the same moment (the clock did not
      tick between them) come back in the order they were stored. */
  lemma {:induction false} SameTimeKeepsOrder(xs: seq<Tender>)
    requires forall k :: 0 <= k < |xs| ==> xs[k].createdAt == xs[0].createdAt
    ensures SortNewest(xs) == xs
  {
    if xs != [] {
      var init, x := xs[..|xs| - 1], xs[|xs| - 1];
      assert xs == init + [x];
      SameTimeKeepsOrder(init);
      InsertAtEnd(x, init);
    }
  }

  /** When the clock ticks while one call builds two tenders, the second one
      stored comes back first. */
  lemma TickPutsLaterFirst(a: NewTender, b: NewTender, first: nat, clock: nat -> nat)
    requires clock(0) < clock(1)
    ensures var s := Stamped([a, b], first, clock); SortNewest(s) == [s[1], s[0]]
  {
    var s := Stamped([a, b], first, clock);
    assert s[..1] == [s[0]];
  }

  lemma {:induction false} InsertAtEnd(x: Tender, s: seq<Tender>)
    requires forall k :: 0 <= k < |s| ==> s[k].createdAt == x.createdAt
    ensures InsertNewest(x, s) == s + [x]
  {
    if s != [] {
      InsertAtEnd(x, s[1..]);
      assert s == [s[0]] + s[1..];
    }
  }

  /** `hash` is declared unique, but the store does not enforce it: storing the
      same extracted tenders twice (a second scan of the same school) leaves
      two tenders with one hash. */
  lemma RescanDuplicatesHashes(stored: seq<Tender>, batch: seq<NewTender>, first1: nat, clock1: nat -> nat,
                                first2: nat, clock2: nat -> nat)
    requires batch != []
    ensures !UniqueHashes(stored + Stamped(batch, first1, clock1) + Stamped(batch, first2, clock2))
  {
    var all := stored + Stamped(batch, first1, clock1) + Stamped(batch, first2, clock2);
    var i, j := |stored|, |stored| + |batch|;
    assert all[i].fields.hash == batch[0].hash == all[j].fields.hash;
  }

  // ---------------------------------------------------------------------------
  // getGeographicData

  /** `{ areas, regions, provinces }`: the sorted areas, and for each area (and
      region) the sorted regions (provinces) seen with it. */
  datatype GeoData = GeoData(areas: seq<string>, regions: map<string, seq<string>>, provinces: map<string, seq<string>>)

  /** The areas of the schools. */
  function AreaSet(xs: seq<School>): set<string>
  {
    if xs == [] then {}
    else
      var s := xs[|xs| - 1].fields;
      AreaSet(xs[..|xs| - 1]) + (if Truthy(s.areaGeografica) then {s.areaGeografica.value} else {})
  }

  /** The regions of the schools of area `a`. */
  function RegionSet(xs: seq<School>, a: string): set<string>
  {
    if xs == [] then {}
    else
      var s := xs[|xs| - 1].fields;
      RegionSet(xs[..|xs| - 1], a) +
      (if Truthy(s.areaGeografica) && s.areaGeografica.value == a && Truthy(s.regione) then {s.regione.value} else {})
  }

  /** The regions that get a province list: those of schools that also have an area. */
  function RegionKeys(xs: seq<School>): set<string>
  {
    if xs == [] then {}
    else
      var s := xs[|xs| - 1].fields;
      RegionKeys(xs[..|xs| - 1]) +
      (if Truthy(s.areaGeografica) && Truthy(s.regione) then {s.regione.value} else {})
  }

  /** The provinces of the schools of region `r` that have an area. */
  function ProvinceSet(xs: seq<School>, r: string): set<string>
  {
    if xs == [] then {}
    else
      var s := xs[|xs| - 1].fields;
      ProvinceSet(xs[..|xs| - 1], r) +
      (if Truthy(s.areaGeografica) && Truthy(s.regione) && s.regione.value == r && Truthy(s.provincia)
       then {s.provincia.value} else {})
  }

  /** What the sets hold, school by school. */
  lemma {:induction false} GeoSetsMembers(xs: seq<School>, a: string, r: string, p: string)
    ensures a in AreaSet(xs) <==> exists s :: s in xs && Truthy(s.fields.areaGeografica) && s.fields.areaGeografica.value == a
    ensures r in RegionSet(xs, a) <==>
      exists s :: s in xs && Truthy(s.fields.areaGeografica) && s.fields.areaGeografica.value == a &&
                  Truthy(s.fields.regione) && s.fields.regione.value == r
    ensures r in RegionKeys(xs) <==>
      exists s :: s in xs && Truthy(s.fields.areaGeografica) && Truthy(s.fields.regione) && s.fields.regione.value == r
    ensures p in ProvinceSet(xs, r) <==>
      exists s :: s in xs && Truthy(s.fields.areaGeografica) && Truthy(s.fields.regione) &&
                  s.fields.regione.value == r && Truthy(s.fields.provincia) && s.fields.provincia.value == p
  {
    if xs != [] {
      GeoSetsMembers(xs[..|xs| - 1], a, r, p);
      assert xs == xs[..|xs| - 1] + [xs[|xs| - 1]];
      assert forall s :: s in xs <==> s in xs[..|xs| - 1] || s == xs[|xs| - 1];
    }
  }

  /** Every area with a region has a region list. */
  lemma {:induction false} RegionsHaveArea(xs: seq<School>, a: string)
    ensures RegionSet(xs, a) != {} ==> a in AreaSet(xs)
  {
    if xs != [] {
      RegionsHaveArea(xs[..|xs| - 1], a);
    }
  }

  /** Every region with a province has a province list. */
  lemma {:induction false} ProvincesHaveRegion(xs: seq<School>, r: string)
    ensures ProvinceSet(xs, r) != {} ==> r in RegionKeys(xs)
  {
    if xs != [] {
      ProvincesHaveRegion(xs[..|xs| - 1], r);
    }
  }

  /** The region lists only hold regions that have a province list. */
  lemma {:induction false} RegionsHaveProvinceList(xs: seq<School>, a: string, r: string)
    ensures r in RegionSet(xs, a) ==> r in RegionKeys(xs)
  {
    if xs != [] {
      RegionsHaveProvinceList(xs[..|xs| - 1], a, r);
    }
  }

  // ---------------------------------------------------------------------------
  // The store

  class MemStorage {
    var schools: map<int, School>
    var tenders: map<int, Tender>
    var scanSessions: map<int, ScanSession>
    var currentSchoolId: nat
    var currentTenderId: nat
    var currentScanId: nat

    /** Identifiers 1 up to the counter are in use, each school and tender is
        stored under its own identifier. */
    ghost predicate Valid()
      reads this
    {
      1 <= currentSchoolId && 1 <= currentTenderId && 1 <= currentScanId &&
      (forall id :: id in schools <==> 1 <= id < currentSchoolId) &&
      (forall id | id in schools :: schools[id].id == id) &&
      (forall id :: id in tenders <==> 1 <= id < currentTenderId) &&
      (forall id | id in tenders :: tenders[id].id == id) &&
      (forall id :: id in scanSessions <==> 1 <= id < currentScanId)
    }

    constructor()
      ensures Valid()
      ensures schools == map[] && tenders == map[] && scanSessions == map[]
      ensures currentSchoolId == 1 && currentTenderId == 1 && currentScanId == 1
    {
      schools := map[];
      tenders := map[];
      scanSessions := map[];
      currentSchoolId := 1;
      currentTenderId := 1;
      currentScanId := 1;
    }

    /** `Array.from(this.schools.values())`. */
    function Schools(): (r: seq<School>)
      reads this
      requires Valid()
      ensures |r| == currentSchoolId - 1
      ensures forall k :: 0 <= k < |r| ==> r[k].id == k + 1 && r[k] == schools[k + 1]
      ensures SchoolIdsAscending(r)
    {
      ValuesUpTo(schools, currentSchoolId - 1)
    }

    /** `Array.from(this.tenders.values())`. */
    function Tenders(): (r: seq<Tender>)
      reads this
      requires Valid()
      ensures |r| == currentTenderId - 1
      ensures forall k :: 0 <= k < |r| ==> r[k].id == k + 1 && r[k] == tenders[k + 1]
      ensures TenderIdsAscending(r)
    {
      ValuesUpTo(tenders, currentTenderId - 1)
    }

    /** `createSchools`: each insert gets the next identifier and is stored. */
    method CreateSchools(inserts: seq<NewSchool>) returns (created: seq<School>)
      requires Valid()
      modifies this
      ensures Valid()
      ensures created == Numbered(inserts, old(currentSchoolId))
      ensures currentSchoolId == old(currentSchoolId) + |inserts|
      ensures Schools() == old(Schools()) + created
      ensures tenders == old(tenders) && scanSessions == old(scanSessions)
      ensures currentTenderId == old(currentTenderId) && currentScanId == old(currentScanId)
    {
      created := [];
      var i := 0;
      while i < |inserts|
        invariant 0 <= i <= |inserts|
        invariant Valid()
        invariant currentSchoolId == old(currentSchoolId) + i
        invariant created == Numbered(inserts[..i], old(currentSchoolId))
        invariant forall id | id in old(schools) :: schools[id] == old(schools)[id]
        invariant forall id :: old(currentSchoolId) <= id < currentSchoolId ==>
          id in schools && schools[id] == School(id, inserts[id - old(currentSchoolId)])
        invariant tenders == old(tenders) && scanSessions == old(scanSessions)
        invariant currentTenderId == old(currentTenderId) && currentScanId == old(currentScanId)
      {
        var school := InsertSchool(inserts[i]);
        created := created + [school];
        i := i + 1;
      }
      assert inserts[..i] == inserts;
      ValuesUpToGrow(schools, old(schools), old(currentSchoolId) - 1, created);
    }

    /** The body of the `createSchools` loop: the insert gets the next
        identifier and is stored under it. */
    method InsertSchool(insert: NewSchool) returns (school: School)
      requires Valid()
      modifies this
      ensures Valid()
      ensures school == School(old(currentSchoolId), insert)
      ensures schools == old(schools)[school.id := school] && currentSchoolId == old(currentSchoolId) + 1
      ensures tenders == old(tenders) && scanSessions == old(scanSessions)
      ensures currentTenderId == old(currentTenderId) && currentScanId == old(currentScanId)
    {
      var id := currentSchoolId;
      currentSchoolId := currentSchoolId + 1;
      school := School(id, insert);
      schools := schools[id := school];
    }

    /** `getSchools`: the stored schools that pass the filters, in order. */
    function GetSchools(f: FilterOptions): (r: seq<School>)
      reads this
      requires Valid()
      ensures forall s :: s in r <==> s in Schools() && SchoolMatches(s, f)
      ensures SchoolIdsAscending(r)
    {
      FilterSchools(Schools(), f)
    }

    /** `getSchoolById`. */
    function GetSchoolById(id: int): (r: Option<School>)
      reads this
      requires Valid()
      ensures r.Some? <==> 1 <= id < currentSchoolId
      ensures r.Some? ==> r.value.id == id && r.value in Schools()
    {
      if id in schools then
        assert schools[id] == Schools()[id - 1];
        Some(schools[id])
      else None
    }

    /** `clearSchools`: the map is emptied and identifiers start again at 1. */
    method ClearSchools()
      requires Valid()
      modifies this
      ensures Valid()
      ensures Schools() == [] && currentSchoolId == 1
      ensures tenders == old(tenders) && scanSessions == old(scanSessions)
      ensures currentTenderId == old(currentTenderId) && currentScanId == old(currentScanId)
    {
      schools := map[];
      currentSchoolId := 1;
    }

    /** `createTenders`: each insert gets the next identifier and the time read
        while it is built. */
    method CreateTenders(inserts: seq<NewTender>, clock: nat -> nat) returns (created: seq<Tender>)
      requires Valid()
      modifies this
      ensures Valid()
      ensures created == Stamped(inserts, old(currentTenderId), clock)
      ensures currentTenderId == old(currentTenderId) + |inserts|
      ensures Tenders() == old(Tenders()) + created
      ensures schools == old(schools) && scanSessions == old(scanSessions)
      ensures currentSchoolId == old(currentSchoolId) && currentScanId == old(currentScanId)
    {
      created := [];
      var i := 0;
      while i < |inserts|
        invariant 0 <= i <= |inserts|
        invariant Valid()
        invariant currentTenderId == old(currentTenderId) + i
        invariant created == Stamped(inserts[..i], old(currentTenderId), clock)
        invariant forall id | id in old(tenders) :: tenders[id] == old(tenders)[id]
        invariant forall id :: old(currentTenderId) <= id < currentTenderId ==>
          id in tenders && tenders[id] == created[id - old(currentTenderId)]
        invariant schools == old(schools) && scanSessions == old(scanSessions)
        invariant currentSchoolId == old(currentSchoolId) && currentScanId == old(currentScanId)
      {
        var tender := InsertTender(inserts[i], clock(i));
        created := created + [tender];
        i := i + 1;
      }
      assert inserts[..i] == inserts;
      ValuesUpToGrow(tenders, old(tenders), old(currentTenderId) - 1, created);
    }

    /** The body of the `createTenders` loop: the insert gets the next
        identifier and the creation time, and is stored under the identifier. */
    method InsertTender(insert: NewTender, now: nat) returns (tender: Tender)
      requires Valid()
      modifies this
      ensures Valid()
      ensures tender == Tender(old(currentTenderId), now, insert)
      ensures tenders == old(tenders)[tender.id := tender] && currentTenderId == old(currentTenderId) + 1
      ensures schools == old(schools) && scanSessions == old(scanSessions)
      ensures currentSchoolId == old(currentSchoolId) && currentScanId == old(currentScanId)
    {
      var id := currentTenderId;
      currentTenderId := currentTenderId + 1;
      tender := Tender(id, now, insert);
      tenders := tenders[id := tender];
    }

    /** `getTenders`: the stored tenders that pass the filters, newest first,
        tenders of the same time in identifier order. */
    function GetTenders(f: TenderFilters): (r: seq<Tender>)
      reads this
      requires Valid()
      ensures forall t :: t in r <==> t in Tenders() && TenderMatches(t, f)
      ensures multiset(r) == multiset(FilterTenders(Tenders(), f))
      ensures NewestFirst(r)
    {
      var matching := FilterTenders(Tenders(), f);
      SortNewestSorted(matching);
      assert forall t :: t in SortNewest(matching) <==> t in multiset(matching);
      SortNewest(matching)
    }

    /** `clearTenders`. */
    method ClearTenders()
      requires Valid()
      modifies this
      ensures Valid()
      ensures Tenders() == [] && currentTenderId == 1
      ensures schools == old(schools) && scanSessions == old(scanSessions)
      ensures currentSchoolId == old(currentSchoolId) && currentScanId == old(currentScanId)
    {
      tenders := map[];
      currentTenderId := 1;
    }

    /** `createScanSession`: stored under a fresh identifier, started now. */
    method CreateScanSession(insert: NewScanSession, now: nat) returns (session: ScanSession)
      requires Valid()
      modifies this
      ensures Valid()
      ensures session == FromInsert(insert, old(currentScanId), now)
      ensures session.id !in old(scanSessions)
      ensures scanSessions == old(scanSessions)[session.id := session]
      ensures currentScanId == old(currentScanId) + 1
      ensures schools == old(schools) && tenders == old(tenders)
      ensures currentSchoolId == old(currentSchoolId) && currentTenderId == old(currentTenderId)
    {
      var id := currentScanId;
      currentScanId := currentScanId + 1;
      session := FromInsert(insert, id, now);
      scanSessions := scanSessions[id := session];
    }

    /** `updateScanSession`: an unknown identifier changes nothing and gives
        `undefined`; a known one has the patch merged over it. */
    method UpdateScanSession(id: int, updates: SessionPatch) returns (r: Option<ScanSession>)
      requires Valid()
      modifies this
      ensures Valid()
      ensures id !in old(scanSessions) ==> r == None && scanSessions == old(scanSessions)
      ensures id in old(scanSessions) ==>
        r == Some(Merge(old(scanSessions)[id], updates)) && scanSessions == old(scanSessions)[id := r.value]
      ensures schools == old(schools) && tenders == old(tenders)
      ensures currentSchoolId == old(currentSchoolId) && currentTenderId == old(currentTenderId)
      ensures currentScanId == old(currentScanId)
    {
      if id !in scanSessions {
        return None;
      }
      var updated := Merge(scanSessions[id], updates);
      scanSessions := scanSessions[id := updated];
      r := Some(updated);
    }

    /** `getScanSession`. */
    function GetScanSession(id: int): (r: Option<ScanSession>)
      reads this
      requires Valid()
      ensures r.Some? <==> 1 <= id < currentScanId
      ensures r.Some? ==> r.value == scanSessions[id]
    {
      if id in scanSessions then Some(scanSessions[id]) else None
    }

    /** `getGeographicData`: one pass over the schools collecting, in insertion
        order, the areas, each area's regions and each region's provinces, then
        each list sorted. */
    method GetGeographicData() returns (g: GeoData)
      requires Valid()
      ensures Collate.StrictlySorted(g.areas)
      ensures forall a :: a in g.areas <==> a in AreaSet(Schools())
      ensures g.regions.Keys == AreaSet(Schools())
      ensures forall a | a in g.regions ::
        Collate.StrictlySorted(g.regions[a]) && forall r :: r in g.regions[a] <==> r in RegionSet(Schools(), a)
      ensures g.provinces.Keys == RegionKeys(Schools())
      ensures forall r | r in g.provinces ::
        Collate.StrictlySorted(g.provinces[r]) && forall p :: p in g.provinces[r] <==> p in ProvinceSet(Schools(), r)
    {
      var xs := Schools();
      var areas: seq<string> := [];
      var regions: map<string, seq<string>> := map[];
      var provinces: map<string, seq<string>> := map[];
      var i := 0;
      while i < |xs|
        invariant 0 <= i <= |xs|
        invariant AreasIndex(areas, xs[..i])
        invariant RegionsIndex(regions, xs[..i])
        invariant ProvincesIndex(provinces, xs[..i])
      {
        assert xs[..i + 1] == xs[..i] + [xs[i]];
        areas, regions, provinces := IndexSchool(xs[i], xs[..i], areas, regions, provinces);
        i := i + 1;
      }
      assert xs[..i] == xs;
      g := Collated(areas, regions, provinces);
      CollatedSorted(areas, regions, provinces, xs);
    }
  }

  /** The reply of `getGeographicData`: each collected list sorted. */
  function Collated(areas: seq<string>, regions: map<string, seq<string>>, provinces: map<string, seq<string>>)
    : GeoData
  {
    GeoData(Collate.Sort(areas),
            map a | a in regions :: Collate.Sort(regions[a]),
            map r | r in provinces :: Collate.Sort(provinces[r]))
  }

  /** Sorting the collected lists keeps their members and leaves them strictly
      sorted: the reply lists each area, region and province once. */
  lemma CollatedSorted(areas: seq<string>, regions: map<string, seq<string>>, provinces: map<string, seq<string>>,
                       xs: seq<School>)
    requires AreasIndex(areas, xs) && RegionsIndex(regions, xs) && ProvincesIndex(provinces, xs)
    ensures var g := Collated(areas, regions, provinces);
      Collate.StrictlySorted(g.areas) &&
      (forall a :: a in g.areas <==> a in AreaSet(xs)) &&
      g.regions.Keys == AreaSet(xs) &&
      (forall a | a in g.regions ::
        Collate.StrictlySorted(g.regions[a]) && forall r :: r in g.regions[a] <==> r in RegionSet(xs, a)) &&
      g.provinces.Keys == RegionKeys(xs) &&
      (forall r | r in g.provinces ::
        Collate.StrictlySorted(g.provinces[r]) && forall p :: p in g.provinces[r] <==> p in ProvinceSet(xs, r))
  {
    Collate.SortSorted(areas);
    SortKeepsMembers(areas);
    forall a | a in regions
      ensures Collate.StrictlySorted(Collate.Sort(regions[a]))
      ensures forall r :: r in Collate.Sort(regions[a]) <==> r in regions[a]
    {
      Collate.SortSorted(regions[a]);
      SortKeepsMembers(regions[a]);
    }
    forall r | r in provinces
      ensures Collate.StrictlySorted(Collate.Sort(provinces[r]))
      ensures forall p :: p in Collate.Sort(provinces[r]) <==> p in provinces[r]
    {
      Collate.SortSorted(provinces[r]);
      SortKeepsMembers(provinces[r]);
    }
  }

  /** `set.add(x)` on a set kept as its elements in insertion order. */
  function SetAdd(s: seq<string>, x: string): (r: seq<string>)
    ensures Collate.Distinct(s) ==> Collate.Distinct(r)
    ensures forall y :: y in r <==> y in s || y == x
  {
    if x in s then s else s + [x]
  }

  /** The collected areas of the schools `ys`, without duplicates. */
  ghost predicate AreasIndex(areas: seq<string>, ys: seq<School>)
  {
    Collate.Distinct(areas) && forall a :: a in areas <==> a in AreaSet(ys)
  }

  /** The collected regions of each area of the schools `ys`. */
  ghost predicate RegionsIndex(regions: map<string, seq<string>>, ys: seq<School>)
  {
    regions.Keys == AreaSet(ys) &&
    forall a | a in regions ::
      Collate.Distinct(regions[a]) && forall r :: r in regions[a] <==> r in RegionSet(ys, a)
  }

  /** The collected provinces of each region of the schools `ys`. */
  ghost predicate ProvincesIndex(provinces: map<string, seq<string>>, ys: seq<School>)
  {
    provinces.Keys == RegionKeys(ys) &&
    forall r | r in provinces ::
      Collate.Distinct(provinces[r]) && forall p :: p in provinces[r] <==> p in ProvinceSet(ys, r)
  }

  /** The `forEach` callback of `getGeographicData` for one more school `x`
      after the schools `ys`; it touches the three collections independently. */
  method IndexSchool(x: School, ghost ys: seq<School>, areas: seq<string>,
                     regions: map<string, seq<string>>, provinces: map<string, seq<string>>)
    returns (areas': seq<string>, regions': map<string, seq<string>>, provinces': map<string, seq<string>>)
    requires AreasIndex(areas, ys) && RegionsIndex(regions, ys) && ProvincesIndex(provinces, ys)
    ensures AreasIndex(areas', ys + [x]) && RegionsIndex(regions', ys + [x]) && ProvincesIndex(provinces', ys + [x])
  {
    areas' := IndexArea(x, ys, areas);
    regions' := IndexRegion(x, ys, regions);
    provinces' := IndexProvince(x, ys, provinces);
  }

  /** `if (school.areaGeografica) areas.add(school.areaGeografica)`. */
  method IndexArea(x: School, ghost ys: seq<School>, areas: seq<string>) returns (areas': seq<string>)
    requires AreasIndex(areas, ys)
    ensures AreasIndex(areas', ys + [x])
  {
    GeoSnoc(ys, x);
    areas' := areas;
    if Truthy(x.fields.areaGeografica) {
      areas' := SetAdd(areas, x.fields.areaGeografica.value);
    }
  }

  /** An area gets a region set on first sight; a region is added to its area's set. */
  method IndexRegion(x: School, ghost ys: seq<School>, regions: map<string, seq<string>>)
    returns (regions': map<string, seq<string>>)
    requires RegionsIndex(regions, ys)
    ensures RegionsIndex(regions', ys + [x])
  {
    GeoSnoc(ys, x);
    regions' := regions;
    var s := x.fields;
    if Truthy(s.areaGeografica) {
      var a := s.areaGeografica.value;
      if a !in regions' {
        RegionsHaveArea(ys, a);
        regions' := regions'[a := []];
      }
      if Truthy(s.regione) {
        regions' := regions'[a := SetAdd(regions'[a], s.regione.value)];
      }
    }
  }

  /** A region (of a school with an area) gets a province set on first sight; a
      province is added to its region's set. */
  method IndexProvince(x: School, ghost ys: seq<School>, provinces: map<string, seq<string>>)
    returns (provinces': map<string, seq<string>>)
    requires ProvincesIndex(provinces, ys)
    ensures ProvincesIndex(provinces', ys + [x])
  {
    GeoSnoc(ys, x);
    provinces' := provinces;
    var s := x.fields;
    if Truthy(s.areaGeografica) && Truthy(s.regione) {
      var rg := s.regione.value;
      if rg !in provinces' {
        ProvincesHaveRegion(ys, rg);
        provinces' := provinces'[rg := []];
      }
      if Truthy(s.provincia) {
        provinces' := provinces'[rg := SetAdd(provinces'[rg], s.provincia.value)];
      }
    }
  }

  lemma SortKeepsMembers(s: seq<string>)
    ensures forall x :: x in Collate.Sort(s) <==> x in s
  {
    assert forall x :: x in Collate.Sort(s) <==> x in multiset(Collate.Sort(s));
  }

  /** The sets after one more school. */
  lemma GeoSnoc(ys: seq<School>, x: School)
    ensures var s := x.fields;
      AreaSet(ys + [x]) == AreaSet(ys) + (if Truthy(s.areaGeografica) then {s.areaGeografica.value} else {}) &&
      (forall a :: RegionSet(ys + [x], a) == RegionSet(ys, a) +
        (if Truthy(s.areaGeografica) && s.areaGeografica.value == a && Truthy(s.regione) then {s.regione.value} else {})) &&
      RegionKeys(ys + [x]) == RegionKeys(ys) +
        (if Truthy(s.areaGeografica) && Truthy(s.regione) then {s.regione.value} else {}) &&
      (forall r :: ProvinceSet(ys + [x], r) == ProvinceSet(ys, r) +
        (if Truthy(s.areaGeografica) && Truthy(s.regione) && s.regione.value == r && Truthy(s.provincia)
         then {s.provincia.value} else {}))
  {
    var p := ys + [x];
    assert p[..|p| - 1] == ys && p[|p| - 1] == x;
  }
}
