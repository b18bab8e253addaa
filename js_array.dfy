/** The two `Array.prototype` methods the board uses: `find` and `filter`. */
module JsArray {
  import opened Wrappers

  /** True when `x` occurs in `xs` at index `i` and no earlier element satisfies `p`. */
  ghost predicate FirstMatchAt<T>(xs: seq<T>, p: T -> bool, i: int)
  {
    0 <= i < |xs| && p(xs[i]) && forall j :: 0 <= j < i ==> !p(xs[j])
  }

  /** `xs.find(p)`: the first element satisfying `p`, or `undefined` (`None`). */
  function Find<T>(xs: seq<T>, p: T -> bool): (r: Option<T>)
    ensures r.None? <==> forall i :: 0 <= i < |xs| ==> !p(xs[i])
    ensures r.Some? ==> exists i :: FirstMatchAt(xs, p, i) && xs[i] == r.value
  {
    if xs == [] then None
    else if p(xs[0]) then
      assert FirstMatchAt(xs, p, 0);
      Some(xs[0])
    else
      var r := Find(xs[1..], p);
      if r.Some? then
        assert exists i :: FirstMatchAt(xs, p, i) && xs[i] == r.value by {
          var i :| FirstMatchAt(xs[1..], p, i) && xs[1..][i] == r.value;
          assert FirstMatchAt(xs, p, i + 1);
        }
        r
      else
        assert forall i :: 1 <= i < |xs| ==> xs[i] == xs[1..][i - 1];
        r
  }

  /** `xs.filter(p)`: the elements satisfying `p`, in their original order. */
  function Filter<T(!new)>(xs: seq<T>, p: T -> bool): (r: seq<T>)
    ensures |r| <= |xs|
    ensures forall x :: x in r <==> x in xs && p(x)
  {
    if xs == [] then []
    else if p(xs[0]) then [xs[0]] + Filter(xs[1..], p)
    else Filter(xs[1..], p)
  }

  /** Filtering a concatenation filters each part and keeps them in order:
      `filter` never reorders elements. */
  lemma {:induction false} FilterAppend<T(!new)>(xs: seq<T>, ys: seq<T>, p: T -> bool)
    ensures Filter(xs + ys, p) == Filter(xs, p) + Filter(ys, p)
  {
    if xs == [] {
      assert xs + ys == ys;
    } else {
      assert (xs + ys)[1..] == xs[1..] + ys;
      FilterAppend(xs[1..], ys, p);
    }
  }

  /** Each element occurs in the filtered list exactly as often as in the input
      if it satisfies `p`, and not at all otherwise. */
  lemma {:induction false} FilterCount<T(!new)>(xs: seq<T>, p: T -> bool, x: T)
    ensures multiset(Filter(xs, p))[x] == if p(x) then multiset(xs)[x] else 0
  {
    if xs != [] {
      assert xs == [xs[0]] + xs[1..];
      FilterCount(xs[1..], p, x);
    }
  }
}
