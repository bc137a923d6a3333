/** The array operations used on id lists and post lists: `filter`, and the
    tag-selection toggle built from `includes`, `filter` and spread. */
module Lists {

  /** `xs.filter(keep)`: the elements satisfying `keep`, in their original order. */
  function Filter<T>(xs: seq<T>, keep: T -> bool): (r: seq<T>)
    ensures |r| <= |xs|
    ensures forall i :: 0 <= i < |r| ==> r[i] in xs && keep(r[i])
    ensures forall i :: 0 <= i < |xs| && keep(xs[i]) ==> xs[i] in r
  {
    if xs == [] then []
    else (if keep(xs[0]) then [xs[0]] else []) + Filter(xs[1..], keep)
  }

  /** Filtering works element by element: it distributes over concatenation,
      so the kept elements stay in their relative order. */
  lemma {:induction false} FilterAppend<T>(a: seq<T>, b: seq<T>, keep: T -> bool)
    ensures Filter(a + b, keep) == Filter(a, keep) + Filter(b, keep)
  {
    if a != [] {
      assert (a + b)[1..] == a[1..] + b;
      FilterAppend(a[1..], b, keep);
    } else {
      assert a + b == b;
    }
  }

  /** A filter that rejects nothing in `xs` returns `xs` itself. */
  lemma {:induction false} FilterKeepsAll<T>(xs: seq<T>, keep: T -> bool)
    requires forall x :: x in xs ==> keep(x)
    ensures Filter(xs, keep) == xs
  {
    if xs != [] {
      FilterKeepsAll(xs[1..], keep);
      assert [xs[0]] + xs[1..] == xs;
    }
  }

  /** The predicate `x => x !== v`. */
  function Differs<T(==)>(v: T): T -> bool {
    x => x != v
  }

  /** `xs.includes(v) ? xs.filter(x => x !== v) : [...xs, v]`: a present value
      is removed (every occurrence), an absent one is appended at the end. */
  function Toggle<T(==)>(xs: seq<T>, v: T): (r: seq<T>)
    ensures v in r <==> v !in xs
    ensures forall i :: 0 <= i < |r| && r[i] != v ==> r[i] in xs
    ensures forall i :: 0 <= i < |xs| && xs[i] != v ==> xs[i] in r
    ensures v !in xs ==> r == xs + [v]
  {
    if v in xs then Filter(xs, Differs(v)) else xs + [v]
  }

  /** Toggling a value that was absent, and then toggling it again, gives back
      the original list. */
  lemma ToggleTwiceRestores<T>(xs: seq<T>, v: T)
    requires v !in xs
    ensures Toggle(Toggle(xs, v), v) == xs
  {
    FilterAppend(xs, [v], Differs(v));
    FilterKeepsAll(xs, Differs(v));
    assert Filter([v], Differs(v)) == [];
  }

  /** Toggling a value that was present, and then toggling it again, moves all
      its occurrences to a single one at the end; the other elements keep
      their order. */
  lemma ToggleTwiceMovesToEnd<T>(xs: seq<T>, v: T)
    requires v in xs
    ensures Toggle(Toggle(xs, v), v) == Filter(xs, Differs(v)) + [v]
  {
  }
}
