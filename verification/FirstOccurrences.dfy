/**
 * First occurrences in order: the keys of a JavaScript `Map` filled from a sequence, which
 * iterates in the order keys were first inserted.
 */
module FirstOccurrences {

  ghost function Distinct<T(!new)>(xs: seq<T>): (ds: seq<T>)
    ensures forall x :: x in ds <==> x in xs
    ensures |ds| <= |xs|
  {
    if xs == [] then []
    else
      var rest, x := Distinct(xs[..|xs| - 1]), xs[|xs| - 1];
      if x in rest then rest else rest + [x]
  }

  /** The position of `x`. */
  ghost function IndexOf<T(!new)>(xs: seq<T>, x: T): (i: nat)
    requires x in xs
    ensures i < |xs| && xs[i] == x && x !in xs[..i]
  {
    if xs[0] == x then 0 else 1 + IndexOf(xs[1..], x)
  }

  ghost predicate NoDuplicates<T>(xs: seq<T>) {
    forall i, j :: 0 <= i < j < |xs| ==> xs[i] != xs[j]
  }

  lemma {:induction false} DistinctHasNoDuplicates<T(!new)>(xs: seq<T>)
    ensures NoDuplicates(Distinct(xs))
  {
    if xs == [] {
    } else {
      DistinctHasNoDuplicates(xs[..|xs| - 1]);
    }
  }

  /** What one more element does. */
  lemma DistinctSnoc<T(!new)>(xs: seq<T>, x: T)
    ensures Distinct(xs + [x]) == if x in xs then Distinct(xs) else Distinct(xs) + [x]
  {
    assert (xs + [x])[..|xs|] == xs;
  }

  /** Nothing equal stands before it. */
  lemma {:induction false} IndexOfIsFirst<T(!new)>(xs: seq<T>, i: nat)
    requires i < |xs|
    ensures IndexOf(xs, xs[i]) <= i
  {
    if xs[0] != xs[i] {
      assert xs[1..][i - 1] == xs[i];
      IndexOfIsFirst(xs[1..], i - 1);
    }
  }

  /** Adding at the end moves nothing. */
  lemma {:induction false} IndexOfExtends<T(!new)>(xs: seq<T>, x: T, ys: seq<T>)
    requires x in xs
    ensures IndexOf(xs + ys, x) == IndexOf(xs, x)
  {
    if xs[0] != x {
      assert (xs + ys)[1..] == xs[1..] + ys;
      IndexOfExtends(xs[1..], x, ys);
    }
  }

  lemma IndexOfNew<T(!new)>(xs: seq<T>, x: T)
    requires x !in xs
    ensures IndexOf(xs + [x], x) == |xs|
  {
    assert forall k :: 0 <= k < |xs| ==> (xs + [x])[k] == xs[k];
  }

  /** First occurrences keep their order. */
  lemma {:induction false} DistinctKeepsOrder<T(!new)>(xs: seq<T>, x: T, y: T)
    requires x in xs && y in xs
    ensures IndexOf(Distinct(xs), x) < IndexOf(Distinct(xs), y) <==> IndexOf(xs, x) < IndexOf(xs, y)
  {
    var n := |xs| - 1;
    var rest, last := xs[..n], xs[n];
    assert xs == rest + [last];
    if x in rest && y in rest {
      DistinctKeepsOrder(rest, x, y);
      KeepsIndex(rest, last, x);
      KeepsIndex(rest, last, y);
    } else if x in rest {
      KeepsIndex(rest, last, x);
      IndexOfNew(rest, last);
      IndexOfNew(Distinct(rest), last);
    } else if y in rest {
      KeepsIndex(rest, last, y);
      IndexOfNew(rest, last);
      IndexOfNew(Distinct(rest), last);
    }
  }

  lemma KeepsIndex<T(!new)>(rest: seq<T>, last: T, x: T)
    requires x in rest
    ensures IndexOf(rest + [last], x) == IndexOf(rest, x)
    ensures IndexOf(Distinct(rest + [last]), x) == IndexOf(Distinct(rest), x)
  {
    DistinctSnoc(rest, last);
    IndexOfExtends(rest, x, [last]);
    IndexOfExtends(Distinct(rest), x, [last]);
  }
}
