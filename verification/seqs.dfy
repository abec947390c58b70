/** Generic sequence operations behind the array idioms of the client:
    `map`, `filter`, `[...new Set(xs)]`, "first element per key", and
    concatenation of chunks. */
module Seqs {

  /** `xs.map(f)`. */
  function Map<T, U>(xs: seq<T>, f: T -> U): (ys: seq<U>)
    ensures |ys| == |xs|
    ensures forall i :: 0 <= i < |xs| ==> ys[i] == f(xs[i])
  {
    seq(|xs|, i requires 0 <= i < |xs| => f(xs[i]))
  }

  lemma MapAppend<T, U>(xs: seq<T>, zs: seq<T>, f: T -> U)
    ensures Map(xs + zs, f) == Map(xs, f) + Map(zs, f)
  {
  }

  /** `xs.filter(p)`: keeps exactly the elements satisfying `p`, in order. */
  function Filter<T(==,!new)>(xs: seq<T>, p: T -> bool): (ys: seq<T>)
    ensures |ys| <= |xs|
    ensures forall y :: y in ys <==> y in xs && p(y)
    decreases |xs|
  {
    if |xs| == 0 then []
    else
      var init := xs[..|xs| - 1];
      var x := xs[|xs| - 1];
      assert xs == init + [x];
      var r := Filter(init, p);
      if p(x) then r + [x] else r
  }

  /** Filtering distributes over concatenation, so it keeps the relative order of what it keeps. */
  lemma {:induction false} FilterAppend<T(!new)>(xs: seq<T>, zs: seq<T>, p: T -> bool)
    ensures Filter(xs + zs, p) == Filter(xs, p) + Filter(zs, p)
    decreases |zs|
  {
    if |zs| == 0 {
      assert xs + zs == xs;
    } else {
      var init := zs[..|zs| - 1];
      assert (xs + zs)[..|xs + zs| - 1] == xs + init;
      assert (xs + zs)[|xs + zs| - 1] == zs[|zs| - 1];
      FilterAppend(xs, init, p);
    }
  }

  lemma FilterOne<T(!new)>(x: T, p: T -> bool)
    ensures Filter([x], p) == if p(x) then [x] else []
  {
    assert [x][..0] == [];
  }

  /** Filters that agree on every element keep the same elements. */
  lemma {:induction false} FilterSame<T(!new)>(xs: seq<T>, p: T -> bool, q: T -> bool)
    requires forall i :: 0 <= i < |xs| ==> p(xs[i]) == q(xs[i])
    ensures Filter(xs, p) == Filter(xs, q)
    decreases |xs|
  {
    if |xs| > 0 {
      FilterSame(xs[..|xs| - 1], p, q);
    }
  }

  /** Filtering twice keeps what passes both filters. */
  lemma {:induction false} FilterTwice<T(!new)>(xs: seq<T>, p: T -> bool, q: T -> bool, both: T -> bool)
    requires forall i :: 0 <= i < |xs| ==> both(xs[i]) == (p(xs[i]) && q(xs[i]))
    ensures Filter(Filter(xs, p), q) == Filter(xs, both)
    decreases |xs|
  {
    if |xs| > 0 {
      var init := xs[..|xs| - 1];
      var x := xs[|xs| - 1];
      FilterTwice(init, p, q, both);
      if p(x) {
        FilterAppend(Filter(init, p), [x], q);
        FilterOne(x, q);
      }
    }
  }

  /** A filter that no element passes returns nothing. */
  lemma {:induction false} FilterNone<T(!new)>(xs: seq<T>, p: T -> bool)
    requires forall i :: 0 <= i < |xs| ==> !p(xs[i])
    ensures Filter(xs, p) == []
    decreases |xs|
  {
    if |xs| > 0 {
      FilterNone(xs[..|xs| - 1], p);
    }
  }

  /** A filter that every element passes returns its input. */
  lemma {:induction false} FilterAll<T(!new)>(xs: seq<T>, p: T -> bool)
    requires forall i :: 0 <= i < |xs| ==> p(xs[i])
    ensures Filter(xs, p) == xs
    decreases |xs|
  {
    if |xs| > 0 {
      FilterAll(xs[..|xs| - 1], p);
      assert xs == xs[..|xs| - 1] + [xs[|xs| - 1]];
    }
  }

  ghost predicate NoDuplicates<T>(xs: seq<T>) {
    forall i, j :: 0 <= i < j < |xs| ==> xs[i] != xs[j]
  }

  /** `[...new Set(xs)]`: each element once, in order of first appearance. */
  function Distinct<T(==,!new)>(xs: seq<T>): (ys: seq<T>)
    ensures NoDuplicates(ys)
    ensures forall y :: y in ys <==> y in xs
    ensures |ys| <= |xs|
    decreases |xs|
  {
    if |xs| == 0 then []
    else
      var init := Distinct(xs[..|xs| - 1]);
      var x := xs[|xs| - 1];
      assert xs == xs[..|xs| - 1] + [x];
      if x in init then init else init + [x]
  }

  /** The position of the first occurrence of `x` in `xs`. */
  function First<T(==)>(xs: seq<T>, x: T): (i: nat)
    requires x in xs
    ensures i < |xs| && xs[i] == x && x !in xs[..i]
  {
    if xs[0] == x then 0
    else
      assert xs == [xs[0]] + xs[1..];
      var k := First(xs[1..], x);
      assert xs[..k + 1] == [xs[0]] + xs[1..][..k];
      k + 1
  }

  lemma FirstAppend<T>(xs: seq<T>, zs: seq<T>, x: T)
    requires x in xs
    ensures First(xs + zs, x) == First(xs, x)
  {
    var i, j := First(xs + zs, x), First(xs, x);
    assert (xs + zs)[j] == x;
    assert (xs + zs)[..j] == xs[..j];
  }

  /** `Distinct` lists elements in the order of their first appearance. */
  lemma {:induction false} DistinctOrder<T(!new)>(xs: seq<T>)
    ensures forall i, j :: 0 <= i < j < |Distinct(xs)| ==>
      First(xs, Distinct(xs)[i]) < First(xs, Distinct(xs)[j])
    decreases |xs|
  {
    if |xs| > 0 {
      var init := xs[..|xs| - 1];
      var x := xs[|xs| - 1];
      assert xs == init + [x];
      DistinctOrder(init);
      var d := Distinct(init);
      var ys := Distinct(xs);
      assert ys == d || (x !in d && ys == d + [x]);
      forall i, j | 0 <= i < j < |ys|
        ensures First(xs, ys[i]) < First(xs, ys[j])
      {
        assert ys[i] == d[i] && d[i] in init;
        FirstAppend(init, [x], d[i]);
        if j < |d| {
          assert ys[j] == d[j] && d[j] in init;
          FirstAppend(init, [x], d[j]);
        } else {
          assert ys[j] == x && x !in init;
          assert First(xs, x) == |init|;
        }
      }
    }
  }

  /** Keeps the first element of each key, in order of first appearance. */
  function FirstPerKey<T(==), K(==,!new)>(xs: seq<T>, key: T -> K): (ys: seq<T>)
    ensures Map(ys, key) == Distinct(Map(xs, key))
    ensures forall y :: y in ys ==> y in xs
    decreases |xs|
  {
    if |xs| == 0 then []
    else
      var init := xs[..|xs| - 1];
      var x := xs[|xs| - 1];
      assert xs == init + [x];
      MapAppend(init, [x], key);
      var r := FirstPerKey(init, key);
      if key(x) in Map(r, key) then r
      else
        MapAppend(r, [x], key);
        r + [x]
  }

  /** One more element is kept exactly when its key is new. */
  lemma FirstPerKeySnoc<T, K(!new)>(xs: seq<T>, x: T, key: T -> K)
    ensures FirstPerKey(xs + [x], key) ==
      if key(x) in Map(FirstPerKey(xs, key), key) then FirstPerKey(xs, key) else FirstPerKey(xs, key) + [x]
  {
    assert (xs + [x])[..|xs|] == xs;
  }

  /** Every element `FirstPerKey` keeps is the earliest element with its key. */
  lemma {:induction false} FirstPerKeyKeepsFirst<T, K(!new)>(xs: seq<T>, key: T -> K)
    ensures forall i :: 0 <= i < |FirstPerKey(xs, key)| ==>
      var y := FirstPerKey(xs, key)[i];
      key(y) in Map(xs, key) && y == xs[First(Map(xs, key), key(y))]
    decreases |xs|
  {
    var ys := FirstPerKey(xs, key);
    if |xs| > 0 {
      var init := xs[..|xs| - 1];
      var x := xs[|xs| - 1];
      assert xs == init + [x];
      MapAppend(init, [x], key);
      FirstPerKeyKeepsFirst(init, key);
      var r := FirstPerKey(init, key);
      forall i | 0 <= i < |ys|
        ensures key(ys[i]) in Map(xs, key) && ys[i] == xs[First(Map(xs, key), key(ys[i]))]
      {
        assert ys[i] in xs;
        assert key(ys[i]) in Map(xs, key) by {
          assert key(ys[i]) == Map(ys, key)[i];
        }
        if i < |r| {
          assert ys[i] == r[i];
          assert Map(xs, key) == Map(init, key) + [key(x)];
          assert key(r[i]) in Map(init, key) && r[i] == init[First(Map(init, key), key(r[i]))];
          FirstAppend(Map(init, key), [key(x)], key(r[i]));
          var f := First(Map(init, key), key(r[i]));
          assert First(Map(xs, key), key(ys[i])) == f;
          assert xs[f] == init[f];
        } else {
          assert ys[i] == x && key(x) !in Map(init, key);
          assert First(Map(xs, key), key(x)) == |init|;
        }
      }
    }
  }

  /** The text of a sequence of chunks, read one after another. */
  function Concat<T>(xss: seq<seq<T>>): seq<T>
    decreases |xss|
  {
    if |xss| == 0 then [] else xss[0] + Concat(xss[1..])
  }

  lemma {:induction false} ConcatAppend<T>(xss: seq<seq<T>>, yss: seq<seq<T>>)
    ensures Concat(xss + yss) == Concat(xss) + Concat(yss)
    decreases |xss|
  {
    if |xss| == 0 {
      assert xss + yss == yss;
    } else {
      assert (xss + yss)[1..] == xss[1..] + yss;
      ConcatAppend(xss[1..], yss);
    }
  }
}
