/** The pure handlers of client/src/components/school-selection.tsx: the
    search over the listed schools, the three ways of changing the selection
    of school identifiers, and the guard in front of `startScan`. */
module SchoolSelection {
  import opened Text
  import opened Schema
  import opened Storage
  import Lists

  /** The search box: empty keeps every school; otherwise the name, the code
      or a non-empty `comune` contains the term, ignoring case. */
  predicate SchoolShown(s: School, search: string)
  {
    search == [] ||
    SearchHit(s.fields.denominazioneScuola, search) ||
    SearchHit(s.fields.codiceMeccanografico, search) ||
    (Truthy(s.fields.comune) && SearchHit(s.fields.comune.value, search))
  }

  /** `filteredSchools`. */
  function FilteredSchools(xs: seq<School>, search: string): (r: seq<School>)
    ensures forall s :: s in r <==> s in xs && SchoolShown(s, search)
    ensures |r| <= |xs|
  {
    if xs == [] then []
    else
      assert xs == [xs[0]] + xs[1..];
      (if SchoolShown(xs[0], search) then [xs[0]] else []) + FilteredSchools(xs[1..], search)
  }

  /** Filtering commutes with concatenation: the listed schools keep their order. */
  lemma {:induction false} FilteredSchoolsAppend(xs: seq<School>, ys: seq<School>, search: string)
    ensures FilteredSchools(xs + ys, search) == FilteredSchools(xs, search) + FilteredSchools(ys, search)
  {
    if xs == [] {
      assert xs + ys == ys;
    } else {
      assert (xs + ys)[1..] == xs[1..] + ys;
      FilteredSchoolsAppend(xs[1..], ys, search);
    }
  }

  /** An empty search term lists every school. */
  lemma {:induction false} EmptySearchKeepsAll(xs: seq<School>)
    ensures FilteredSchools(xs, []) == xs
  {
    if xs != [] {
      EmptySearchKeepsAll(xs[1..]);
      assert xs == [xs[0]] + xs[1..];
    }
  }

  /** When no school passes the search, the list is empty. */
  lemma {:induction false} NoneListed(xs: seq<School>, search: string)
    requires forall s :: s in xs ==> !SchoolShown(s, search)
    ensures FilteredSchools(xs, search) == []
  {
    if xs != [] {
      assert xs[0] in xs;
      NoneListed(xs[1..], search);
    }
  }

  /** `handleSelectAll`: the identifiers of the listed schools, in the order
      they are listed. */
  function SelectAll(xs: seq<School>, search: string): (r: seq<int>)
    ensures |r| == |FilteredSchools(xs, search)|
    ensures forall k :: 0 <= k < |r| ==> r[k] == FilteredSchools(xs, search)[k].id
    ensures forall id :: id in r <==> exists s :: s in xs && SchoolShown(s, search) && s.id == id
  {
    var shown := FilteredSchools(xs, search);
    var r := seq(|shown|, k requires 0 <= k < |shown| => shown[k].id as int);
    assert forall s :: s in shown ==> s.id in r by {
      forall s | s in shown
        ensures s.id in r
      {
        var k :| 0 <= k < |shown| && shown[k] == s;
        assert r[k] == s.id;
      }
    }
    r
  }

  /** `handleDeselectAll`: the selection becomes empty. */
  function DeselectAll(): (r: seq<int>)
    ensures r == []
  {
    []
  }

  /** `handleSchoolToggle`: ticking appends the identifier, even when it is
      already selected; unticking removes every copy and keeps the others in
      their order. */
  function Toggle(selection: seq<int>, id: int, checked: bool): (r: seq<int>)
    ensures checked ==> |r| == |selection| + 1 && r[..|selection|] == selection && r[|selection|] == id
    ensures !checked ==> id !in r && forall y :: y != id ==> multiset(r)[y] == multiset(selection)[y]
  {
    if checked then selection + [id] else Lists.Without(selection, id)
  }

  /** Unticking undoes a tick of an identifier that was not selected. */
  lemma ToggleOnOff(selection: seq<int>, id: int)
    requires id !in selection
    ensures Toggle(Toggle(selection, id, true), id, false) == selection
  {
    Lists.AppendThenWithout(selection, id);
    Lists.WithoutAbsent(selection, id);
  }

  /** No identifier is selected twice. */
  ghost predicate NoDuplicates(selection: seq<int>)
  {
    forall x :: multiset(selection)[x] <= 1
  }

  /** The checkbox of a school is ticked exactly when its identifier is in the
      selection (`checked={selectedSchools.includes(school.id)}`), so the
      component ticks only an unselected school and unticks only a selected
      one: toggling through it never selects an identifier twice. */
  lemma ComponentToggleKeepsNoDup(selection: seq<int>, id: int, checked: bool)
    requires NoDuplicates(selection)
    requires checked <==> id !in selection
    ensures NoDuplicates(Toggle(selection, id, checked))
  {
    if checked {
      assert multiset(selection + [id]) == multiset(selection) + multiset{id};
    } else {
      var r := Toggle(selection, id, checked);
      forall x
        ensures multiset(r)[x] <= 1
      {
        if x == id {
          assert x !in r;
        }
      }
    }
  }

  /** The handler on its own: unticking after a tick of an identifier already
      selected leaves no copy of it, not the one copy that was there before the
      tick. The component never makes such a tick (`ComponentToggleKeepsNoDup`). */
  lemma ToggleOnOffDropsEarlierCopies(selection: seq<int>, id: int)
    requires id in selection
    ensures Toggle(Toggle(selection, id, true), id, false) != selection
  {
    Lists.AppendThenWithout(selection, id);
  }

  /** `handleStartScan`: with an empty selection `startScan` is not called;
      otherwise it is called with the selection as it is. */
  function StartScanCall(selection: seq<int>): (r: Option<seq<int>>)
    ensures r.None? <==> selection == []
    ensures r.Some? ==> r.value == selection
  {
    if |selection| == 0 then None else Some(selection)
  }

  /** After "deselect all", or "select all" when no school is listed, starting
      a scan calls nothing. */
  lemma NothingSelectedNoScan(xs: seq<School>, search: string)
    requires forall s :: s in xs ==> !SchoolShown(s, search)
    ensures StartScanCall(DeselectAll()).None?
    ensures StartScanCall(SelectAll(xs, search)).None?
  {
    NoneListed(xs, search);
  }
}
