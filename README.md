# School-Tender-Finder in Dafny

School-Tender-Finder collects procurement notices ("bandi", "gare") that Italian
schools publish on their own sites and on four hosting platforms. The server
imports a national list of schools, keeps the ones in Calabria, and scans the
ones a user selects for tender links. It stores the tenders found, and the
browser client filters them and exports them as CSV. This project models the
core of that system and proves what it promises:

- `schema.dfy` (`Schema`): the records of `shared/schema.ts`: schools, tenders,
  scan sessions and their progress entries. Also the `{ ...session, ...updates }`
  merge, the column defaults, and `scanRequestSchema`.
- `storage.dfy` (`Storage`): `MemStorage` as a class with three maps and three
  counters, updated in place by its methods. `Valid` states what the counters
  guarantee: identifiers 1 up to the counter are in use, each record stored
  under its own identifier. A JavaScript `Map` iterates in insertion order,
  and under `Valid` that order is identifier order. The filters of
  `getSchools` and `getTenders` are modelled, and so is the stable
  newest-first sort. `getGeographicData` is a loop over the schools that builds
  insertion-ordered sets and then sorts them.
- `collate.dfy` (`Collate`): the default order of `Array.prototype.sort()` on
  strings, with an insertion sort proved to be a sorting permutation.
- `platforms.dfy` (`Platforms`): `detectPlatform` and the list of URLs
  `scrapeSchoolTenders` visits for a school.
- `extraction.dfy` (`Extraction`): what one page yields. This covers the anchor
  selector, the procurement and exclusion keyword regexes, the title, excerpt,
  deadline, type and PDF link of each tender, and its `hash`. It also covers
  the two loops of `scrapeSchoolTenders`, one over URLs and one over anchors,
  proved against a specification function.
- `text.dfy`, `lists.dfy`, `utf8.dfy`, `base64.dfy`: the string and list
  operations the source relies on. These are `toLowerCase`, `includes`, `trim`,
  `join`, `split` and `filter`, plus UTF-8 and base 64 (section 4 of RFC 4648)
  for the `Buffer.from(...).toString('base64')` fingerprint.
- `scan.dfy` (`Scan`): `POST /api/scan`. It creates a running session, runs the
  loop over the requested identifiers to its end with the session updated
  after each school, stores the tenders in one batch, and marks the session
  completed.
- `upload.dfy` (`Upload`): the Calabria filter and mapping of the school upload,
  and the replacement of the store's contents.
- `enrichment.dfy` (`Enrichment`): the `/api/tenders` reply, where each tender
  carries a summary of its school.
- `results_table.dfy`, `school_selection.dfy`, `geographic_filters.dfy`: the
  pure handlers of the three client components. These are the search and
  drop-down filters, the CSV export, the selection of schools, and the cascade
  of area, region and provinces.

Behaviour of the source that the model keeps as written, and proves:

- Each progress update of a scan spreads the progress object of the session
  as it was created, so the stored progress holds only the school reported
  last (`Scan.ProgressForgetsEarlierSchools`, `Scan.AsWrittenKeepsOnlyLast`).
  The client view iterates over every entry of that object.
  `Scan.ProgressAccumulated` is the progress that view evidently expects;
  `Scan.AccumulatedKeepsEverySchool` proves that it would keep every school.
- The CSV export puts the title and the school name between double quotes
  without doubling quotes inside them, so a field holding `"`, a comma or a
  line feed changes the shape of the file. The CSV lemmas state their
  assumptions about field contents.
- `hash` is declared unique, but the store does not enforce it: scanning a
  school twice stores the same fingerprints twice
  (`Storage.RescanDuplicatesHashes`).
- The toggle handler appends on a tick without testing membership, and on an
  untick removes every copy (`SchoolSelection.ToggleOnOffDropsEarlierCopies`).
  The component only ticks a school that is not selected, because a checkbox is
  ticked exactly when its school is in the selection. So the selection never
  holds an identifier twice (`SchoolSelection.ComponentToggleKeepsNoDup`).
- An identifier without a school counts in `totalSchools` but never in
  `completedSchools` (`Scan.SkippedShortfall`). An empty list of identifiers is
  a valid request (`Schema.EmptyScanRequestAccepted`).

Parameters and oracles: fetching and parsing a URL is a function
`fetch: string -> Page` (a page is its list of anchors, or a failure). An
exception thrown while scanning a school is an oracle
`crash: School -> Option<string>`. Clock readings taken once are `nat`
parameters; the clock `createTenders` reads once per tender is a function
`clock: nat -> nat` from the position in the batch to the time read.

## Model

| member | source | states |
|---|---|---|
| Schema.Merge | server/storage.ts:197 | `{ ...session, ...updates }`: each supplied field replaces the stored one, every other field stays (no ensures of its own; see the "## Left out" line) |
| Schema.MergeLaws | server/storage.ts:197 | merging an empty patch changes nothing; merging twice keeps the later patch's progress when it has one, else the earlier result's |
| Schema.WithDefaults | shared/schema.ts:37-46 | a database insert keeps the id, start time, total and completion time; status, both counters and progress keep the value the insert supplies, and default to "pending", 0, 0 and {} exactly when the insert leaves them out |
| Schema.DefaultSession | shared/schema.ts:37-46 | an insert that gives only the total becomes a pending session with zero counters and empty progress |
| Schema.ParseScanRequest | shared/schema.ts:77-79 | a body is accepted exactly when it is an object whose `schoolIds` is an array of numbers, and the result is those numbers in order |
| Schema.EmptyScanRequestAccepted | shared/schema.ts:77-79 | `{"schoolIds": []}` is accepted with the empty list |
| Text.LowerStrSpec | server/routes.ts:78-80 | lower-casing keeps the length and lowers each character on its own |
| Text.TrimStartSpec | server/routes.ts:67 | what is removed at the front is all white space, and what is kept does not start with white space |
| Text.TrimEndSpec | server/routes.ts:67 | what is removed at the end is all white space, and what is kept does not end with white space |
| Text.TrimSpec | server/routes.ts:67 | `trim()` gives an infix of the text with only white space around it, starting and ending with non-space |
| Text.Decimal | server/routes.ts:85 | the rendering of `school.id` in the hash key is a non-empty string of digits |
| Text.DecimalValue | server/routes.ts:85 | reading the decimal rendering back gives the number |
| Text.DecimalInjective | server/routes.ts:85 | distinct identifiers render differently |
| Text.Join | client/src/components/results-table.tsx:107 | joining no pieces gives "", joining one piece gives that piece |
| Text.JoinCount | client/src/components/results-table.tsx:106-119 | joining n pieces free of a one-character separator puts exactly n - 1 separators in the text |
| Text.Split | client/src/components/results-table.tsx:106-119 | splitting at a character gives one more piece than there are occurrences, none holding the character |
| Text.SplitJoin | client/src/components/results-table.tsx:106-119 | splitting undoes joining when no piece holds the separator |
| Text.JoinAvoids | client/src/components/results-table.tsx:106-119 | a character in neither the pieces nor the separator is not in the joined text |
| Lists.Without | client/src/components/school-selection.tsx:63 | removal drops every copy of the element, keeps the count of every other element, and does not lengthen the list |
| Lists.WithoutAppend | client/src/components/school-selection.tsx:63 | removal commutes with concatenation, so the other elements keep their order |
| Lists.WithoutAbsent | client/src/components/school-selection.tsx:63 | removing an absent element gives the list back |
| Lists.AppendThenWithout | client/src/components/school-selection.tsx:59-65 | appending x and then removing x is removing x |
| Lists.FilterMapAppend | server/routes.ts:132-152 | filter-then-map commutes with concatenation: the input order is kept |
| Lists.FilterMapMembers | server/routes.ts:132-152 | the result holds exactly the images of the kept inputs and is no longer than the input |
| Collate.LessIrreflexive | server/storage.ts:123-129 | no string sorts before itself |
| Collate.LessTotal | server/storage.ts:123-129 | of two distinct strings exactly one sorts first |
| Collate.LessTransitive | server/storage.ts:123-129 | the sort order is transitive |
| Collate.Insert | server/storage.ts:123-129 | one insertion step adds exactly the element |
| Collate.InsertSorted | server/storage.ts:123-129 | inserting a new element into a strictly sorted list keeps it strictly sorted |
| Collate.Sort | server/storage.ts:123-129 | `sort()` is a permutation of its input |
| Collate.SortSorted | server/storage.ts:123-129 | sorting a list without duplicates gives a strictly increasing list |
| Collate.SortedUnique | server/storage.ts:123-129 | two strictly sorted lists with the same members are equal, so the reply is fixed by the sets collected |
| Platforms.Platform.Tag | server/routes.ts:12-18 | each platform tag is non-empty and has no '-' |
| Platforms.TagInjective | server/routes.ts:12-18 | distinct platforms have distinct tags |
| Platforms.DetectPlatform | server/routes.ts:24-30 | each of the five results holds exactly when its pattern occurs in the URL and no earlier pattern does |
| Platforms.OwnSite | server/routes.ts:38 | `[sitoWeb].filter(Boolean)` is [sitoWeb] when it is a non-empty string and [] otherwise |
| Platforms.TemplateUrl | server/routes.ts:41-52 | the URL template of each of axios, argo, spaggiari and net4market over the school code (no ensures; `Platforms.TemplateDetectsItsPlatform` states that each detects back to its platform) |
| Platforms.CandidateUrls | server/routes.ts:38-52 | the school's site, then one template per listed platform in the order axios, argo, spaggiari, net4market (no ensures; `Platforms.CandidateUrlsShape` and `Platforms.CandidateUrlsAreTemplates` state it) |
| Platforms.AbsentPlatformsAsEmpty | server/routes.ts:41-52 | an absent `detectedPlatforms` and the column default [] give the same URLs, only the school's own site |
| Platforms.Templates | server/routes.ts:41-52 | one templated URL per platform, in the same order |
| Platforms.TemplatesAppend | server/routes.ts:41-52 | templating commutes with concatenation |
| Platforms.TemplatesOfListed | server/routes.ts:41-52 | the four `if` blocks give the templates of the listed platforms in the fixed order |
| Platforms.CandidateUrlsRegroup | server/routes.ts:38-52 | the URL list is the own site followed by the four conditional pushes |
| Platforms.CandidateUrlsAreTemplates | server/routes.ts:38-52 | the URL list is the own site followed by the templates of the listed platforms |
| Platforms.TemplatesSingle | server/routes.ts:41-52 | one conditional push is the template of that platform when it is listed, and nothing otherwise |
| Platforms.ListedInOrder | server/routes.ts:41-52 | at most four platforms are used, in the fixed order, each once |
| Platforms.CandidateUrlsShape | server/routes.ts:38-52 | at most five URLs: the own site first when there is one, then one templated URL per listed platform in the fixed order |
| Platforms.NoCandidates | server/routes.ts:38-52 | a school with no usable site and no listed platform has no URL to visit |
| Platforms.AxiosDetected | server/routes.ts:25 | the axios template is detected as axios |
| Platforms.ArgoDetected | server/routes.ts:26 | the argo template is detected as argo when the school code has no '.' |
| Platforms.SpaggiariDetected | server/routes.ts:27 | the spaggiari template is detected as spaggiari when the school code has no '.' |
| Platforms.Net4marketDetected | server/routes.ts:28 | the net4market template is detected as net4market when the school code has no '.' |
| Platforms.TemplateDetectsItsPlatform | server/routes.ts:24-52 | each templated URL is detected as the platform it was built for when the code has no '.' |
| Platforms.CandidatesDetectBack | server/routes.ts:24-59 | every URL after the own site is tagged with the platform it was built for |
| Extraction.Sections | server/routes.ts:64 | the selected anchors are exactly those whose href holds "bandi", "gara" or "amministrazione-trasparente" |
| Extraction.IsProcurement | server/routes.ts:20 | the procurement regex on the lowered title: "bando" then "gara", "gara" then "appalto" or "procedura" then "negoziata" on one line, or "appalto", "fornitura" or "servizi" anywhere (a definition, no ensures) |
| Extraction.IsExcluded | server/routes.ts:21 | the exclusion regex on the lowered title: "concorso", "graduatoria", or "selezione" then "personale" or "albo" then "pretorio" on one line (a definition, no ensures) |
| Extraction.Title | server/routes.ts:67 | the title is an infix of the anchor text with only JavaScript white space around it, and neither starts nor ends with white space |
| Extraction.Kept | server/routes.ts:71 | an anchor is kept when its title is procurement-like and not excluded (no ensures; `Extraction.ExclusionWins` states that the exclusion wins) |
| Extraction.Excerpt | server/routes.ts:76 | a title of at most 100 characters is its own excerpt; a longer one is cut to 100 characters followed by "..." (characters, not UTF-16 units; see "## Left out") |
| Extraction.ShapeUnique | server/routes.ts:22 | where the date pattern matches at a position, the day and month digit counts are forced |
| Extraction.DateAt | server/routes.ts:22 | the match at a position exists exactly when the pattern fits there, and is the matched text |
| Extraction.FirstDateFromIsLeftmost | server/routes.ts:72 | the search finds nothing exactly when no match starts in the range, else the match at the leftmost position |
| Extraction.Deadline | server/routes.ts:72-77 | the deadline is absent exactly when the title has no date, else it is the leftmost match |
| Extraction.Kind | server/routes.ts:78-80 | the type is the first of "bando", "gara", "avviso" that the lower-cased title contains, else "determina" |
| Extraction.PdfUrl | server/routes.ts:82 | the PDF link is the href exactly when the href contains ".pdf" |
| Extraction.ScrapePage | server/routes.ts:66-88 | the `each` loop appends one tender per kept anchor, in document order |
| Extraction.ScrapeUrl | server/routes.ts:58-93 | a fetched page contributes its tenders tagged with the URL's platform; a failed fetch contributes nothing |
| Extraction.ScrapeSchoolTenders | server/routes.ts:36-97 | the loop over candidate URLs returns the tenders of each URL in order |
| Extraction.GatherMembers | server/routes.ts:57-94 | a tender is in the result exactly when some URL yielded it |
| Extraction.PageTendersExactly | server/routes.ts:64-88 | a page's tenders are exactly the built tenders of its selected, kept anchors |
| Extraction.FromKeptSectionsOnly | server/routes.ts:64-86 | every tender comes from a selected anchor that passes the title filter, and is built from it |
| Extraction.ExclusionWins | server/routes.ts:71 | a title matching the exclusion keywords is never kept, whatever it includes |
| Extraction.GatherAppend | server/routes.ts:57-94 | URLs are processed independently: the result for a list is the concatenation of the parts |
| Extraction.FailedUrlIsolated | server/routes.ts:58-93 | a failing URL contributes nothing and does not disturb the URLs around it |
| Extraction.NoUrlsNoTenders | server/routes.ts:36-57 | a school with no URL to visit yields no tender |
| Extraction.BuiltTender | server/routes.ts:74-86 | a built tender carries the school id, the trimmed title, the platform tag, the URL, an excerpt of at most 103 characters, a PDF link exactly for ".pdf" hrefs, and the fingerprint of the href |
| Extraction.Build | server/routes.ts:74-86 | the tender pushed for a kept anchor: title, excerpt, deadline, type, platform, PDF link, source URL, school and hash (no ensures; `Extraction.BuiltTender` states its fields) |
| Extraction.HashKey | server/routes.ts:85 | the key: the school id, "-", the href or, when it is absent or empty, the title, "-", the platform tag (no ensures; `Extraction.HashKeyInjective` states that it determines its three parts) |
| Extraction.Fingerprint | server/routes.ts:85 | the `hash` decodes back, as base 64, to the UTF-8 bytes of the key |
| Extraction.HashKeyInjective | server/routes.ts:85 | the key `${id}-${href or title}-${platform}` determines the id, the link or title and the platform |
| Extraction.FingerprintIdentifiesTriple | server/routes.ts:85 | two fingerprints are equal exactly when the id, the link or title and the platform are equal |
| Utf8.EncodeChar | server/routes.ts:85 | a character encodes as 1 to 4 bytes, one byte exactly for ASCII, continuation bytes in 0x80..0xBF |
| Utf8.DecodeChar | server/routes.ts:85 | the lead byte announces the length and the bytes decode back to the character |
| Utf8.EncodeString | server/routes.ts:85 | the encoding is at least as long as the text and is the character codes for ASCII text |
| Utf8.EncodeStringInjective | server/routes.ts:85 | distinct strings have distinct UTF-8 encodings |
| Base64.CharOf | server/routes.ts:85 | every 6-bit value maps to an alphabet character |
| Base64.ValueOf | server/routes.ts:85 | reading an alphabet character gives the value that maps to it |
| Base64.ValueOfCharOf | server/routes.ts:85 | reading the character of a value gives the value |
| Base64.Quad | server/routes.ts:85 | three bytes become four alphabet characters |
| Base64.Encode | server/routes.ts:85 | the encoding holds only alphabet characters and '=' |
| Base64.QuadRoundTrip | server/routes.ts:85 | a full group of three bytes decodes back |
| Base64.PairRoundTrip | server/routes.ts:85 | a final group of two bytes, padded with one '=', decodes back |
| Base64.SingleRoundTrip | server/routes.ts:85 | a final single byte, padded with "==", decodes back |
| Base64.RoundTrip | server/routes.ts:85 | decoding undoes encoding |
| Base64.EncodeInjective | server/routes.ts:85 | distinct byte strings have distinct encodings |
| Storage.Numbered | server/storage.ts:43-54 | the k-th created school is the k-th insert with identifier first + k |
| Storage.Stamped | server/storage.ts:133-148 | the k-th created tender is the k-th insert with identifier first + k and the clock reading taken while it is built |
| Storage.FromInsert | server/storage.ts:181-191 | the stored session is the insert copied as it is, with its identifier, the start time and no completion time (no ensures; `Storage.MemStorage.CreateScanSession` states it) |
| Storage.SchoolMatches | server/storage.ts:56-81 | a school passes when it meets every filter that is set: area, region, province list, and a search on name, code or truthy comune (a definition, no ensures) |
| Storage.FilterSchools | server/storage.ts:56-81 | the result holds exactly the schools that pass every set filter, keeps identifier order, and is no longer |
| Storage.NoSchoolFilterKeepsAll | server/storage.ts:56-81 | with no filter every school is returned, in order |
| Storage.TenderMatches | server/storage.ts:150-172 | a tender passes when it meets every filter that is set: school list, search on title or truthy excerpt, type and platform (a definition, no ensures) |
| Storage.FilterTenders | server/storage.ts:150-172 | the result holds exactly the tenders that pass every set filter and keeps identifier order |
| Storage.InsertNewest | server/storage.ts:173 | one step of the sort adds exactly the element |
| Storage.SortNewest | server/storage.ts:173 | the sort is a permutation of its input |
| Storage.InsertNewestSorted | server/storage.ts:173 | inserting a later-stored tender keeps the list newest first, ties in identifier order |
| Storage.SortNewestSorted | server/storage.ts:173 | sorting tenders stored in identifier order gives newest first, ties in identifier order |
| Storage.SameTimeKeepsOrder | server/storage.ts:173 | the sort is stable: tenders created at one moment keep their stored order |
| Storage.TickPutsLaterFirst | server/storage.ts:136-141 | when the clock ticks between two tenders of one `createTenders` call, the later one comes back first |
| Storage.RescanDuplicatesHashes | shared/schema.ts:33 | storing the same extracted batch twice breaks the declared uniqueness of `hash` |
| Storage.GeoSetsMembers | server/storage.ts:102-120 | an area, region or province is collected exactly when some school has it, with the required columns truthy |
| Storage.RegionsHaveArea | server/storage.ts:102-120 | every area with a region is itself collected |
| Storage.ProvincesHaveRegion | server/storage.ts:102-120 | every region with a province gets a province list |
| Storage.RegionsHaveProvinceList | server/storage.ts:102-120 | every collected region of an area gets a province list |
| Storage.MemStorage.constructor | server/storage.ts:34-41 | a new store is empty with all counters at 1 |
| Storage.MemStorage.Schools | server/storage.ts:57 | the stored schools in identifier order, the k-th with identifier k + 1 |
| Storage.MemStorage.Tenders | server/storage.ts:151 | the stored tenders in identifier order, the k-th with identifier k + 1 |
| Storage.MemStorage.CreateSchools | server/storage.ts:43-54 | the inserts are numbered from the counter, appended to the stored schools and returned, the counter advanced by their number, nothing else changed |
| Storage.MemStorage.InsertSchool | server/storage.ts:47-50 | one insert is stored under the counter, which is advanced |
| Storage.MemStorage.GetSchools | server/storage.ts:56-81 | exactly the stored schools that pass every set filter, in identifier order |
| Storage.MemStorage.GetSchoolById | server/storage.ts:83-85 | a school is returned exactly for an identifier in use, and it is the one stored under it |
| Storage.MemStorage.ClearSchools | server/storage.ts:87-90 | no school remains and the counter is back at 1, tenders and sessions untouched |
| Storage.MemStorage.CreateTenders | server/storage.ts:133-148 | the inserts are numbered from the counter, stamped with the clock reading taken for each, appended to the stored tenders and returned, nothing else changed |
| Storage.MemStorage.InsertTender | server/storage.ts:137-144 | one insert is stored under the counter with its creation time, and the counter is advanced |
| Storage.MemStorage.GetTenders | server/storage.ts:150-174 | exactly the stored tenders that pass every set filter, as a permutation of the filtered list, newest first with ties in identifier order |
| Storage.MemStorage.ClearTenders | server/storage.ts:176-179 | no tender remains and the counter is back at 1, schools and sessions untouched |
| Storage.MemStorage.CreateScanSession | server/storage.ts:181-191 | the insert is stored as it is under a fresh identifier, started now and not completed |
| Storage.MemStorage.UpdateScanSession | server/storage.ts:193-200 | an unknown identifier changes nothing and gives nothing; a known one is replaced by the merge and returned |
| Storage.MemStorage.GetScanSession | server/storage.ts:202-204 | a session is returned exactly for an identifier in use |
| Storage.MemStorage.GetGeographicData | server/storage.ts:92-131 | the areas, each area's regions and each region's provinces are strictly sorted and hold exactly what the schools give |
| Storage.CollatedSorted | server/storage.ts:122-130 | sorting the collected sets keeps their members and lists each once |
| Storage.IndexSchool | server/storage.ts:102-120 | one pass of the `forEach` callback extends the three collections by one school |
| Storage.IndexArea | server/storage.ts:103-104 | a truthy area is added to the area set |
| Storage.IndexRegion | server/storage.ts:106-111 | an area gets a region set on first sight, and a truthy region is added to it |
| Storage.IndexProvince | server/storage.ts:112-117 | a region gets a province set on first sight, and a truthy province is added to it |
| Storage.SetAdd | server/storage.ts:104 | `Set.add` keeps the elements distinct and adds exactly the element |
| Scan.StepOf | server/routes.ts:216-247 | what the loop does with one identifier: skipped without a school, failed with the thrown message, else scanned with the school's tenders (no ensures; `Scan.Steps` and `Scan.ScanSchool` use it) |
| Scan.Steps | server/routes.ts:216-248 | one step per requested identifier, in request order |
| Scan.Succeeded | server/routes.ts:223 | `completedCount` never exceeds the number of steps |
| Scan.LastReported | server/routes.ts:225-246 | a step that wrote progress after which every step was skipped; absent exactly when every identifier had no school |
| Scan.ScanSchool | server/routes.ts:217-247 | one school's pass: the tenders and count grow for a scanned school, and the session gets the update the step makes |
| Scan.ScanAll | server/routes.ts:216-248 | the loop returns all tenders found, in order, and leaves the session as the steps make it; schools and tenders untouched |
| Scan.RunScan | server/routes.ts:212-259 | the background job appends every tender found as one batch and leaves the session completed |
| Scan.StartScan | server/routes.ts:199-270 | a body that fails the schema changes nothing; otherwise the reply names the new session and the total, the tenders are stored, the new session is stored completed beside the others, which stay as they were, the scan counter advances by one, and the schools are untouched |
| Scan.Finished | server/routes.ts:255-258 | the final session is completed at the end time, with the count of scanned schools and of tenders and the progress as written |
| Scan.FinishedIsInterim | server/routes.ts:203-258 | the session the job leaves is the created session after the loop's updates and the completion update |
| Scan.EmptyFound | server/routes.ts:251-253 | with no school scanned there is no tender, so `createTenders` is not called |
| Scan.CountersMonotone | server/routes.ts:225-235 | between two polls the completed count and the tender list only grow, and the count never exceeds the schools processed |
| Scan.AllScannedAllCompleted | server/routes.ts:216-235 | when every identifier is scanned, `completedSchools` reaches the total |
| Scan.SkippedShortfall | server/routes.ts:205-219 | an identifier without a school keeps `completedSchools` below `totalSchools` |
| Scan.ProgressForgetsEarlierSchools | server/routes.ts:228-234 | after two scanned schools the stored progress holds only the second |
| Scan.AsWrittenKeepsOnlyLast | server/routes.ts:225-246 | the finished session's progress has one key, the school of the step after which every step was skipped, mapped to that step's entry; it is {} when no step wrote progress |
| Scan.AccumulatedKeepsEverySchool | client/src/components/scan-progress.tsx:110 | with progress spread from the stored session, every reported school keeps the entry of its last report |
| Upload.Or | server/routes.ts:134 | the `or` of two optional texts is truthy exactly when one of them is, and is the first when that one is truthy |
| Upload.InCalabria | server/routes.ts:133-136 | a record is kept when its region, lowered, contains "calabria" or its province contains CS, CZ, RC, KR or VV (a definition, no ensures) |
| Upload.ToSchool | server/routes.ts:137-152 | the insert built from a record, with region CALABRIA, area SUD and no platforms (no ensures; `Upload.UploadedGeography` and `Upload.OnlyOwnSiteScraped` state its effect) |
| Upload.TextOf | server/routes.ts:138 | a column read with its upper-case name first and '' last is empty exactly when neither spelling is truthy |
| Upload.CalabriaSchoolsSpec | server/routes.ts:132-152 | the inserts are exactly the mapped records that pass the Calabria filter, at most one per record, each with region CALABRIA, area SUD and no platforms |
| Upload.CalabriaSchoolsAppend | server/routes.ts:132-152 | filtering and mapping keep the file order |
| Upload.OnlyOwnSiteScraped | server/routes.ts:151 | an uploaded school has no listed platform, so only its own site is visited |
| Upload.UploadedGeography | server/routes.ts:148-149 | after an upload the only area is SUD and its only region CALABRIA |
| Upload.UploadSchools | server/routes.ts:131-163 | schools and tenders are replaced by the kept records numbered from 1; the reply counts them and previews the first ten |
| Enrichment.SchoolOf | server/routes.ts:303-310 | the school member is present exactly when a stored school has the tender's `schoolId`, and is that school's summary |
| Enrichment.Enrich | server/routes.ts:301-313 | one enriched tender per tender, in order, each the tender with its school member |
| ResultsTable.FilteredTenders | client/src/components/results-table.tsx:34-43 | the shown tenders are exactly those passing the search and both drop-downs, and no more than the input |
| ResultsTable.FilteredTendersAppend | client/src/components/results-table.tsx:34-43 | filtering keeps the order of the tenders |
| ResultsTable.NoFiltersShowAll | client/src/components/results-table.tsx:34-43 | with no search and no drop-down every tender is shown |
| ResultsTable.SearchMatchesTitleOrExcerpt | client/src/components/results-table.tsx:35-37 | a non-empty term matches exactly when the lowered title or an existing lowered excerpt contains it |
| ResultsTable.Fields | client/src/components/results-table.tsx:108-118 | a row has one field per header |
| ResultsTable.Rows | client/src/components/results-table.tsx:108-118 | one row per shown tender, in order |
| ResultsTable.ExportCsv | client/src/components/results-table.tsx:95-119 | nothing is exported exactly when no tender is shown |
| ResultsTable.HeaderColumns | client/src/components/results-table.tsx:105-107 | split at commas, the header line gives back the nine titles |
| ResultsTable.RowColumns | client/src/components/results-table.tsx:108-118 | a row of comma-free fields splits back into its nine fields |
| ResultsTable.RowStartsWithTitle | client/src/components/results-table.tsx:109 | a row starts with the title between quotes, inner quotes not doubled |
| ResultsTable.HeaderLineSingle | client/src/components/results-table.tsx:107 | the header is one line |
| ResultsTable.RowSingle | client/src/components/results-table.tsx:108-118 | a row of fields free of line feeds is one line |
| ResultsTable.CsvLines | client/src/components/results-table.tsx:106-119 | when no field holds a line feed, the text splits into the header and one row per shown tender, in order |
| SchoolSelection.FilteredSchools | client/src/components/school-selection.tsx:44-49 | the listed schools are exactly those passing the search, and no more than the input |
| SchoolSelection.FilteredSchoolsAppend | client/src/components/school-selection.tsx:44-49 | the search keeps the order of the schools |
| SchoolSelection.EmptySearchKeepsAll | client/src/components/school-selection.tsx:44-45 | an empty search lists every school |
| SchoolSelection.NoneListed | client/src/components/school-selection.tsx:44-49 | when no school passes the search, none is listed |
| SchoolSelection.SelectAll | client/src/components/school-selection.tsx:51-53 | "select all" gives the identifiers of the listed schools in list order, and exactly those |
| SchoolSelection.DeselectAll | client/src/components/school-selection.tsx:55-57 | "deselect all" makes the selection the empty list |
| SchoolSelection.Toggle | client/src/components/school-selection.tsx:59-65 | ticking appends the identifier; unticking removes every copy and keeps the count of every other |
| SchoolSelection.ToggleOnOff | client/src/components/school-selection.tsx:59-65 | ticking then unticking an unselected school restores the selection |
| SchoolSelection.ToggleOnOffDropsEarlierCopies | client/src/components/school-selection.tsx:59-65 | for the handler alone, ticking then unticking a selected school does not restore the selection (a tick the component never makes) |
| SchoolSelection.ComponentToggleKeepsNoDup | client/src/components/school-selection.tsx:59-65 | with the checkbox ticked exactly when the school is selected (lines 179-181), a toggle keeps a duplicate-free selection duplicate-free |
| SchoolSelection.StartScanCall | client/src/components/school-selection.tsx:67-79 | `startScan` is called exactly when the selection is non-empty, with the selection as it is |
| SchoolSelection.NothingSelectedNoScan | client/src/components/school-selection.tsx:51-75 | after "deselect all", or "select all" with nothing listed, no scan is started |
| GeographicFilters.AreaChange | client/src/components/geographic-filters.tsx:28-34 | a new area forgets the region and the provinces |
| GeographicFilters.RegioneChange | client/src/components/geographic-filters.tsx:36-42 | a new region keeps the area and forgets the provinces |
| GeographicFilters.ProvinciaToggle | client/src/components/geographic-filters.tsx:44-53 | ticking appends the province; unticking removes every copy and keeps the rest; area and region stay |
| GeographicFilters.AvailableRegions | client/src/components/geographic-filters.tsx:55 | the regions of the chosen area, or none when no area is chosen, the data is missing or the area unknown |
| GeographicFilters.AvailableProvinces | client/src/components/geographic-filters.tsx:56 | the provinces of the chosen region, or none otherwise |
| GeographicFilters.AreaChangeClearsBelow | client/src/components/geographic-filters.tsx:28-56 | after choosing an area no province is chosen or offered |
| GeographicFilters.ProvinciaToggleOnOff | client/src/components/geographic-filters.tsx:44-53 | ticking then unticking an unchosen province restores the filters |
| GeographicFilters.OfferedOptionsHaveSchools | client/src/components/geographic-filters.tsx:55-56 | with the store's data, every offered region and province belongs to some school of the chosen area or region |

## Left out

- Fetching, HTML parsing with cheerio, the ten-second timeout and the one-second delay between requests are left out. A page is its list of anchors, given by the `fetch` parameter, or a failure.
- Exceptions thrown while scanning a school are the `crash` oracle. The in-memory store never throws, so the only source of such exceptions would be code outside this model.
- The background job runs to its end before the reply is sent. Interleaving with polls and with other requests is not modelled; `Scan.CountersMonotone` states what a poll could see.
- Reading the uploaded file (multer, UTF-8 decoding, `JSON.parse`, the CSV parser and `@graph`) is left out. A record is a column-to-text map, and a column the record lacks is `undefined`.
- Logging, HTTP status codes and messages, the 500 replies, and the `parseInt`/`split` of query parameters are left out. The filters arrive already parsed.
- The PostgreSQL table definitions of the schema are not used by the in-memory store. Only their shapes, defaults and uniqueness declarations are modelled.
- Text.LowerStr: folds ASCII letters only. `toLowerCase` also lowers non-ASCII letters, which only matters for search terms and names with accented capitals.
- Collate.Less: compares characters as Dafny code points. `sort()` compares UTF-16 code units, which differ only for characters outside the Basic Multilingual Plane.
- Enrichment.Summary: renders an absent column as "undefined". A column stored as null would render as "null"; the upload leaves absent columns undefined.
- Base64.Encode: the length of the encoding (four characters per started group of three bytes) is not stated.
- Schema.ParseScanRequest: JSON numbers are integers here. `z.number()` also accepts a fraction such as 1.5; no school has such an identifier, so `getSchoolById` finds nothing and the scan skips it like any unknown identifier.
- Extraction.Excerpt: counts and cuts characters (code points). `title.length` and `substring(0, 100)` count UTF-16 code units, so a title with characters outside the Basic Multilingual Plane is cut earlier in the source, possibly inside a surrogate pair.
- Schema.Merge: states no ensures of its own. `Schema.MergeLaws` and the methods that use it state its effect.
- Enrichment.EnrichedTenders: states no ensures of its own. `Enrichment.Enrich` and `Storage.MemStorage.GetTenders` state what it returns.
- Dates in the client (`formatDate`, the colour helpers, toasts, React state and queries) are left out: they only render.
