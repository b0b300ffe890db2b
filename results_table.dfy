/** The pure part of client/src/components/results-table.tsx: which tenders
    the table shows for the search box and the two drop-downs, and the CSV
    text the export button builds from them. */
module ResultsTable {
  import opened Text
  import opened Schema
  import opened Storage
  import opened Enrichment

  /** The search box: empty matches everything; otherwise the title or a
      non-empty excerpt contains the term, ignoring case. */
  predicate MatchesSearch(t: EnrichedTender, search: string)
  {
    search == [] ||
    SearchHit(t.tender.fields.title, search) ||
    (Truthy(t.tender.fields.excerpt) && SearchHit(t.tender.fields.excerpt.value, search))
  }

  /** A tender is shown when it passes the search and both drop-downs; an
      empty drop-down passes everything. */
  predicate Shown(t: EnrichedTender, search: string, kind: string, platform: string)
  {
    MatchesSearch(t, search) &&
    (kind == [] || t.tender.fields.kind == kind) &&
    (platform == [] || t.tender.fields.platform == platform)
  }

  /** `filteredTenders`. */
  function FilteredTenders(ts: seq<EnrichedTender>, search: string, kind: string, platform: string)
    : (r: seq<EnrichedTender>)
    ensures forall t :: t in r <==> t in ts && Shown(t, search, kind, platform)
    ensures |r| <= |ts|
  {
    if ts == [] then []
    else
      assert ts == [ts[0]] + ts[1..];
      (if Shown(ts[0], search, kind, platform) then [ts[0]] else []) +
      FilteredTenders(ts[1..], search, kind, platform)
  }

  /** Filtering commutes with concatenation: the shown tenders keep their order. */
  lemma {:induction false} FilteredTendersAppend(xs: seq<EnrichedTender>, ys: seq<EnrichedTender>,
                                                 search: string, kind: string, platform: string)
    ensures FilteredTenders(xs + ys, search, kind, platform) ==
            FilteredTenders(xs, search, kind, platform) + FilteredTenders(ys, search, kind, platform)
  {
    if xs == [] {
      assert xs + ys == ys;
    } else {
      assert (xs + ys)[1..] == xs[1..] + ys;
      FilteredTendersAppend(xs[1..], ys, search, kind, platform);
    }
  }

  /** With the search box and both drop-downs empty, every tender is shown. */
  lemma {:induction false} NoFiltersShowAll(ts: seq<EnrichedTender>)
    ensures FilteredTenders(ts, [], [], []) == ts
  {
    if ts != [] {
      NoFiltersShowAll(ts[1..]);
      assert ts == [ts[0]] + ts[1..];
    }
  }

  /** A non-empty term matches exactly when the lowered title or the lowered
      excerpt contains the lowered term: the truthiness test on the excerpt
      only rules out what could not match anyway. */
  lemma SearchMatchesTitleOrExcerpt(t: EnrichedTender, search: string)
    requires search != []
    ensures MatchesSearch(t, search) <==>
      Contains(LowerStr(t.tender.fields.title), LowerStr(search)) ||
      (t.tender.fields.excerpt.Some? && Contains(LowerStr(t.tender.fields.excerpt.value), LowerStr(search)))
  {
    var e := t.tender.fields.excerpt;
    if e.Some? && e.value == [] {
      LowerStrSpec(e.value);
      LowerStrSpec(search);
    }
  }

  // ---------------------------------------------------------------------------
  // exportToCSV

  /** The nine column titles of the header line. */
  const Headers: seq<string> :=
    ["Titolo", "Scadenza", "Tipo", "Scuola", "Codice Scuola", "Provincia", "Piattaforma", "Link PDF", "Fonte"]

  /** `o || ''` for an optional text. */
  function OrEmpty(o: Option<string>): string
  {
    if o.Some? then o.value else []
  }

  /** A text between double quotes, inner quotes left as they are. */
  function Quoted(s: string): string
  {
    "\"" + s + "\""
  }

  /** The nine fields of a tender's row, in header order. */
  function Fields(t: EnrichedTender): (r: seq<string>)
    ensures |r| == |Headers|
  {
    var f := t.tender.fields;
    var school := t.school;
    [Quoted(f.title),
     OrEmpty(f.deadline),
     f.kind,
     Quoted(if school.Some? then school.value.name else []),
     if school.Some? then school.value.code else [],
     if school.Some? then school.value.location else [],
     f.platform,
     OrEmpty(f.pdfUrl),
     OrEmpty(f.sourceUrl)]
  }

  function Row(t: EnrichedTender): string
  {
    Join(Fields(t), ",")
  }

  function Rows(ts: seq<EnrichedTender>): (r: seq<string>)
    ensures |r| == |ts|
    ensures forall k :: 0 <= k < |ts| ==> r[k] == Row(ts[k])
  {
    seq(|ts|, k requires 0 <= k < |ts| => Row(ts[k]))
  }

  /** `exportToCSV`: nothing when no tender is shown; otherwise the header
      line and one row per shown tender, joined by line feeds. */
  function ExportCsv(ts: seq<EnrichedTender>, search: string, kind: string, platform: string)
    : (r: Option<string>)
    ensures r.None? <==> forall t :: t in ts ==> !Shown(t, search, kind, platform)
  {
    var shown := FilteredTenders(ts, search, kind, platform);
    assert shown != [] ==> shown[0] in shown;
    if shown == [] then None
    else Some(Join([Join(Headers, ",")] + Rows(shown), "\n"))
  }

  /** A tender none of whose fields holds the character `c`. */
  predicate FieldsAvoid(t: EnrichedTender, c: char)
  {
    forall k :: 0 <= k < |Fields(t)| ==> c !in Fields(t)[k]
  }

  /** Split at its commas, the header line gives back the nine column titles. */
  lemma HeaderColumns()
    ensures Split(Join(Headers, ","), ',') == Headers
  {
    SplitJoin(Headers, ',');
  }

  /** Split at its commas, a row gives back its nine fields, provided no field
      holds a comma: a comma inside the quoted title or school name would
      add a column for a reader that ignores quotes. */
  lemma RowColumns(t: EnrichedTender)
    requires FieldsAvoid(t, ',')
    ensures Split(Row(t), ',') == Fields(t)
    ensures |Split(Row(t), ',')| == |Headers|
  {
    SplitJoin(Fields(t), ',');
  }

  /** The first field is the title between quotes exactly as stored: quotes
      inside it are not doubled. */
  lemma RowStartsWithTitle(t: EnrichedTender)
    ensures Row(t)[..|t.tender.fields.title| + 2] == "\"" + t.tender.fields.title + "\""
  {
    var fs := Fields(t);
    assert Row(t) == fs[0] + "," + Join(fs[1..], ",");
  }

  /** The header line is one line. */
  lemma HeaderLineSingle()
    ensures '\n' !in Join(Headers, ",")
  {
    JoinAvoids(Headers, ",", '\n');
  }

  /** A row of a tender whose fields hold no line feed is one line. */
  lemma RowSingle(t: EnrichedTender)
    requires FieldsAvoid(t, '\n')
    ensures '\n' !in Row(t)
  {
    JoinAvoids(Fields(t), ",", '\n');
  }

  /** When no field holds a line feed, the text splits into exactly the
      header line and one row per shown tender, in the table's order. */
  lemma CsvLines(ts: seq<EnrichedTender>, search: string, kind: string, platform: string)
    requires forall t :: t in ts ==> FieldsAvoid(t, '\n')
    requires ExportCsv(ts, search, kind, platform).Some?
    ensures var shown := FilteredTenders(ts, search, kind, platform);
      Split(ExportCsv(ts, search, kind, platform).value, '\n') == [Join(Headers, ",")] + Rows(shown) &&
      |Split(ExportCsv(ts, search, kind, platform).value, '\n')| == |shown| + 1
  {
    var shown := FilteredTenders(ts, search, kind, platform);
    var header := Join(Headers, ",");
    var lines := [header] + Rows(shown);
    HeaderLineSingle();
    forall k | 0 <= k < |lines|
      ensures '\n' !in lines[k]
    {
      if k > 0 {
        var t := shown[k - 1];
        assert lines[k] == Row(t);
        assert t in shown;
        RowSingle(t);
      }
    }
    SplitJoin(lines, '\n');
  }
}
