/** Generic list operations: `xs.filter(y => y !== x)`, the removal both
    client checkbox handlers use when a box is unticked, and
    `xs.filter(keep).map(f)`, the shape of the upload's record selection. */
module Lists {

  /** Every element of `xs` except those equal to `x`, in their order. */
  function Without<T(==,!new)>(xs: seq<T>, x: T): (r: seq<T>)
    ensures x !in r
    ensures forall y :: y != x ==> multiset(r)[y] == multiset(xs)[y]
    ensures |r| <= |xs|
  {
    if xs == [] then []
    else
      assert xs == [xs[0]] + xs[1..];
      (if xs[0] == x then [] else [xs[0]]) + Without(xs[1..], x)
  }

  /** Removal commutes with concatenation, so it keeps the order of the rest. */
  lemma {:induction false} WithoutAppend<T(!new)>(xs: seq<T>, ys: seq<T>, x: T)
    ensures Without(xs + ys, x) == Without(xs, x) + Without(ys, x)
  {
    if xs == [] {
      assert xs + ys == ys;
    } else {
      assert (xs + ys)[1..] == xs[1..] + ys;
      WithoutAppend(xs[1..], ys, x);
    }
  }

  /** Removing an absent element changes nothing. */
  lemma {:induction false} WithoutAbsent<T(!new)>(xs: seq<T>, x: T)
    requires x !in xs
    ensures Without(xs, x) == xs
  {
    if xs != [] {
      WithoutAbsent(xs[1..], x);
      assert xs == [xs[0]] + xs[1..];
    }
  }

  /** Ticking then unticking: the unticked element is gone, including any
      earlier copies, and the others are as before the tick. */
  lemma AppendThenWithout<T(!new)>(xs: seq<T>, x: T)
    ensures Without(xs + [x], x) == Without(xs, x)
  {
    WithoutAppend(xs, [x], x);
    assert Without([x], x) == [];
    assert Without(xs, x) + [] == Without(xs, x);
  }

  /** `xs.filter(keep).map(f)`. */
  function FilterMap<X, Y>(xs: seq<X>, keep: X -> bool, f: X -> Y): seq<Y>
  {
    if xs == [] then []
    else (if keep(xs[0]) then [f(xs[0])] else []) + FilterMap(xs[1..], keep, f)
  }

  /** Filtering and mapping commute with concatenation: the order is kept. */
  lemma {:induction false} FilterMapAppend<X, Y>(xs: seq<X>, ys: seq<X>, keep: X -> bool, f: X -> Y)
    ensures FilterMap(xs + ys, keep, f) == FilterMap(xs, keep, f) + FilterMap(ys, keep, f)
  {
    if xs == [] {
      assert xs + ys == ys;
    } else {
      var head := if keep(xs[0]) then [f(xs[0])] else [];
      assert (xs + ys)[0] == xs[0] && (xs + ys)[1..] == xs[1..] + ys;
      assert FilterMap(xs + ys, keep, f) == head + FilterMap(xs[1..] + ys, keep, f);
      FilterMapAppend(xs[1..], ys, keep, f);
    }
  }

  /** The result holds the images of the kept elements and nothing else, and
      is no longer than the input. */
  lemma {:induction false} FilterMapMembers<X, Y>(xs: seq<X>, keep: X -> bool, f: X -> Y)
    ensures |FilterMap(xs, keep, f)| <= |xs|
    ensures forall y :: y in FilterMap(xs, keep, f) <==> exists x :: x in xs && keep(x) && y == f(x)
  {
    if xs != [] {
      FilterMapMembers(xs[1..], keep, f);
      assert xs == [xs[0]] + xs[1..];
    }
  }
}
