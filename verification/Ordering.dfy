/** ORDER BY: the rows of a table, which is a set, listed in a strict order. */
module Ordering {

  ghost predicate StrictOrderOn<T(!new)>(s: set<T>, lt: (T, T) -> bool) {
    && (forall a | a in s :: !lt(a, a))
    && (forall a, b | a in s && b in s && a != b :: lt(a, b) || lt(b, a))
    && (forall a, b, c | a in s && b in s && c in s && lt(a, b) && lt(b, c) :: lt(a, c))
  }

  ghost predicate Ascending<T>(xs: seq<T>, lt: (T, T) -> bool) {
    forall i, j | 0 <= i < j < |xs| :: lt(xs[i], xs[j])
  }

  lemma {:induction false} LeastExists<T(!new)>(s: set<T>, lt: (T, T) -> bool)
    requires s != {} && StrictOrderOn(s, lt)
    ensures exists m :: m in s && forall x | x in s && x != m :: lt(m, x)
  {
    var y :| y in s;
    if s == {y} {
    } else {
      LeastExists(s - {y}, lt);
      var m :| m in s - {y} && forall x | x in s - {y} && x != m :: lt(m, x);
      var least := if lt(m, y) then m else y;
      assert forall x | x in s && x != least :: lt(least, x);
    }
  }

  /** What comes before all others of the set may stand in front of their listing. */
  lemma PutFirst<T(!new)>(s: set<T>, lt: (T, T) -> bool, m: T, rest: seq<T>)
    requires m in s && (forall x | x in s && x != m :: lt(m, x)) && Ascending(rest, lt) && |rest| == |s - {m}|
    requires forall x :: x in rest <==> x in s - {m}
    ensures (forall x :: x in [m] + rest <==> x in s) && Ascending([m] + rest, lt) && |[m] + rest| == |s|
  {
    var xs := [m] + rest;
    forall i, j | 0 <= i < j < |xs| ensures lt(xs[i], xs[j]) {
      assert xs[j] == rest[j - 1] && rest[j - 1] in rest;
      if i > 0 {
        assert xs[i] == rest[i - 1];
      }
    }
  }

  function Listed<T(!new)>(s: set<T>, lt: (T, T) -> bool): (xs: seq<T>)
    requires StrictOrderOn(s, lt)
    ensures forall x :: x in xs <==> x in s
    ensures Ascending(xs, lt) && |xs| == |s|
    decreases |s|
  {
    if s == {} then []
    else
      LeastExists(s, lt);
      var m :| m in s && forall x | x in s && x != m :: lt(m, x);
      var rest := Listed(s - {m}, lt);
      PutFirst(s, lt, m, rest);
      [m] + rest
  }

  /** There is only one such listing, so ORDER BY leaves nothing open. */
  lemma {:induction false} ListingIsUnique<T(!new)>(s: set<T>, lt: (T, T) -> bool, xs: seq<T>, ys: seq<T>)
    requires StrictOrderOn(s, lt) && Ascending(xs, lt) && Ascending(ys, lt)
    requires (forall x :: x in xs <==> x in s) && (forall x :: x in ys <==> x in s)
    ensures xs == ys
    decreases s
  {
    assert |xs| > 0 ==> xs[0] in s;
    assert |ys| > 0 ==> ys[0] in s;
    if |xs| > 0 && |ys| > 0 {
      var m := xs[0];
      assert m in ys && ys[0] in xs;
      assert m == ys[0];
      forall x ensures x in xs[1..] <==> x in s - {m} { if x in xs[1..] { assert x in xs; } }
      forall x ensures x in ys[1..] <==> x in s - {m} { if x in ys[1..] { assert x in ys; } }
      ListingIsUnique(s - {m}, lt, xs[1..], ys[1..]);
    }
  }

  /** `kept` are the members of `all` that are not dropped, in their order. */
  predicate Thinned<T(==)>(kept: seq<T>, all: seq<T>, drop: T -> bool) {
    if all == [] then kept == []
    else if drop(all[0]) then Thinned(kept, all[1..], drop)
    else kept != [] && kept[0] == all[0] && Thinned(kept[1..], all[1..], drop)
  }
}
