/** The order `Array.prototype.sort()` uses when no comparator is given:
    strings compared character by character, a proper prefix first. */
module Collate {

  /** `a` sorts strictly before `b`. */
  predicate Less(a: string, b: string)
    decreases |a|
  {
    if a == [] then b != []
    else if b == [] then false
    else if a[0] != b[0] then a[0] < b[0]
    else Less(a[1..], b[1..])
  }

  lemma {:induction false} LessIrreflexive(a: string)
    ensures !Less(a, a)
    decreases |a|
  {
    if a != [] {
      LessIrreflexive(a[1..]);
    }
  }

  /** Of two distinct strings, one sorts before the other, and not both ways. */
  lemma {:induction false} LessTotal(a: string, b: string)
    ensures a != b <==> (Less(a, b) || Less(b, a))
    ensures !(Less(a, b) && Less(b, a))
    decreases |a|
  {
    if a == b {
      LessIrreflexive(a);
    } else if a != [] && b != [] && a[0] == b[0] {
      LessTotal(a[1..], b[1..]);
      assert a == [a[0]] + a[1..] && b == [b[0]] + b[1..];
    }
  }

  lemma {:induction false} LessTransitive(a: string, b: string, c: string)
    requires Less(a, b) && Less(b, c)
    ensures Less(a, c)
    decreases |a|
  {
    if a != [] && b != [] && c != [] && a[0] == b[0] && b[0] == c[0] {
      LessTransitive(a[1..], b[1..], c[1..]);
    }
  }

  /** Every element sorts before every later one (so there are no duplicates). */
  predicate StrictlySorted(s: seq<string>)
  {
    forall i, j :: 0 <= i < j < |s| ==> Less(s[i], s[j])
  }

  /** No element occurs twice. */
  predicate Distinct(s: seq<string>)
  {
    forall i, j :: 0 <= i < j < |s| ==> s[i] != s[j]
  }

  /** One step of an insertion sort: `x` goes before the first element that
      does not sort before it. */
  function Insert(x: string, s: seq<string>): (r: seq<string>)
    ensures multiset(r) == multiset(s) + multiset{x}
  {
    if s == [] then [x]
    else if Less(s[0], x) then
      assert s == [s[0]] + s[1..];
      [s[0]] + Insert(x, s[1..])
    else [x] + s
  }

  lemma {:induction false} InsertSorted(x: string, s: seq<string>)
    requires StrictlySorted(s) && x !in s
    ensures StrictlySorted(Insert(x, s))
  {
    if s != [] {
      if Less(s[0], x) {
        InsertSorted(x, s[1..]);
        var r := Insert(x, s[1..]);
        forall k | 0 <= k < |r|
          ensures Less(s[0], r[k])
        {
          assert r[k] in multiset(r);
          if r[k] != x {
            assert r[k] in s[1..];
          }
        }
      } else {
        LessTotal(s[0], x);
        forall k | 0 <= k < |s|
          ensures Less(x, s[k])
        {
          if k > 0 {
            LessTransitive(x, s[0], s[k]);
          }
        }
      }
    }
  }

  /** The insertion sort of a list, inserting its elements in order. */
  function Sort(s: seq<string>): (r: seq<string>)
    ensures multiset(r) == multiset(s)
  {
    if s == [] then []
    else
      assert s == s[..|s| - 1] + [s[|s| - 1]];
      Insert(s[|s| - 1], Sort(s[..|s| - 1]))
  }

  /** Sorting a list without duplicates gives a strictly increasing list of
      the same elements. */
  lemma {:induction false} SortSorted(s: seq<string>)
    requires Distinct(s)
    ensures StrictlySorted(Sort(s))
  {
    if s != [] {
      var init, x := s[..|s| - 1], s[|s| - 1];
      SortSorted(init);
      assert x !in multiset(init);
      assert x !in Sort(init);
      InsertSorted(x, Sort(init));
    }
  }

  /** A strictly sorted list is fixed by its elements: two with the same
      elements are equal. */
  lemma {:induction false} SortedUnique(r: seq<string>, t: seq<string>)
    requires StrictlySorted(r) && StrictlySorted(t)
    requires forall x :: x in r <==> x in t
    ensures r == t
  {
    assert r != [] ==> r[0] in t;
    assert t != [] ==> t[0] in r;
    if r != [] && t != [] {
      if r[0] != t[0] {
        assert r[0] in t && t[0] in r;
        var i :| 0 <= i < |t| && t[i] == r[0];
        var j :| 0 <= j < |r| && r[j] == t[0];
        assert i > 0 && j > 0;
        assert Less(t[0], t[i]) && Less(r[0], r[j]);
        LessTotal(r[0], t[0]);
      }
      assert r[0] == t[0];
      assert r == [r[0]] + r[1..] && t == [t[0]] + t[1..];
      forall x
        ensures x in r[1..] <==> x in t[1..]
      {
        LessIrreflexive(x);
        if x in r[1..] {
          var k :| 1 <= k < |r| && r[k] == x;
          assert Less(r[0], r[k]);
          assert x in r && x in t;
          var m :| 0 <= m < |t| && t[m] == x;
          assert t[1..][m - 1] == x;
        }
        if x in t[1..] {
          var k :| 1 <= k < |t| && t[k] == x;
          assert Less(t[0], t[k]);
          assert x in t && x in r;
          var m :| 0 <= m < |r| && r[m] == x;
          assert r[1..][m - 1] == x;
        }
      }
      SortedUnique(r[1..], t[1..]);
      assert r == [r[0]] + r[1..] && t == [t[0]] + t[1..];
    }
  }
}
