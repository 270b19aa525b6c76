/**
 * The two sequence transformations every adapter is made of: keep the
 * elements a predicate accepts, and convert each element.  Both are defined
 * from the back, the way a loop that appends with push_back builds them.
 */
module Seqs {

  /** The elements of s that keep accepts, in the order they appear in s. */
  function Filter<T>(s: seq<T>, keep: T -> bool): (r: seq<T>)
    ensures |r| <= |s|
    ensures forall x :: x in r ==> x in s && keep(x)
  {
    if |s| == 0 then []
    else
      var init := Filter(s[..|s| - 1], keep);
      assert forall x :: x in s[..|s| - 1] ==> x in s;
      if keep(s[|s| - 1]) then init + [s[|s| - 1]] else init
  }

  /** Applying f to each element of s, in order. */
  function Map<T, U>(s: seq<T>, f: T -> U): (r: seq<U>)
    ensures |r| == |s|
    ensures forall k :: 0 <= k < |s| ==> r[k] == f(s[k])
  {
    if |s| == 0 then [] else Map(s[..|s| - 1], f) + [f(s[|s| - 1])]
  }

  /** Appending one element extends the filtered sequence by it exactly when it is kept. */
  lemma FilterSnoc<T>(s: seq<T>, x: T, keep: T -> bool)
    ensures Filter(s + [x], keep) == Filter(s, keep) + (if keep(x) then [x] else [])
  {
    assert (s + [x])[..|s + [x]| - 1] == s;
  }

  /** Filter keeps what is in s and accepted, and nothing else. */
  lemma {:induction false} FilterMembership<T>(s: seq<T>, keep: T -> bool, x: T)
    ensures x in Filter(s, keep) <==> x in s && keep(x)
  {
    if s != [] {
      var init := s[..|s| - 1];
      assert s == init + [s[|s| - 1]];
      FilterMembership(init, keep, x);
      FilterSnoc(init, s[|s| - 1], keep);
    }
  }

  /** Filter works piecewise: kept elements stay in input order across any split. */
  lemma {:induction false} FilterConcat<T>(a: seq<T>, b: seq<T>, keep: T -> bool)
    ensures Filter(a + b, keep) == Filter(a, keep) + Filter(b, keep)
    decreases |b|
  {
    if b == [] {
      assert a + b == a;
    } else {
      var init, last := b[..|b| - 1], b[|b| - 1];
      var tail := if keep(last) then [last] else [];
      assert b == init + [last];
      assert a + b == (a + init) + [last];
      FilterConcat(a, init, keep);
      FilterSnoc(a + init, last, keep);
      FilterSnoc(init, last, keep);
      calc {
        Filter(a + b, keep);
        Filter(a + init, keep) + tail;
        (Filter(a, keep) + Filter(init, keep)) + tail;
        { assert (Filter(a, keep) + Filter(init, keep)) + tail == Filter(a, keep) + (Filter(init, keep) + tail); }
        Filter(a, keep) + Filter(b, keep);
      }
    }
  }

  /** Converting one more element appends its image. */
  lemma MapSnoc<T, U>(s: seq<T>, x: T, f: T -> U)
    ensures Map(s + [x], f) == Map(s, f) + [f(x)]
  {
    assert (s + [x])[..|s + [x]| - 1] == s;
  }

  /** Converting works piecewise. */
  lemma MapConcat<T, U>(a: seq<T>, b: seq<T>, f: T -> U)
    ensures Map(a + b, f) == Map(a, f) + Map(b, f)
  {
    var l, r := Map(a + b, f), Map(a, f) + Map(b, f);
    assert |l| == |r|;
    forall k | 0 <= k < |l| ensures l[k] == r[k] {
      if k < |a| { assert (a + b)[k] == a[k]; } else { assert (a + b)[k] == b[k - |a|]; }
    }
  }

  /** Every converted element is the image of some element of s, and conversely. */
  lemma MapMembership<T, U>(s: seq<T>, f: T -> U, y: U)
    ensures y in Map(s, f) <==> exists x :: x in s && f(x) == y
  {
    if y in Map(s, f) {
      var k :| 0 <= k < |s| && Map(s, f)[k] == y;
      assert s[k] in s;
    }
    if exists x :: x in s && f(x) == y {
      var x :| x in s && f(x) == y;
      var k :| 0 <= k < |s| && s[k] == x;
      assert Map(s, f)[k] == y;
    }
  }
}
