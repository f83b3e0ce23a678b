/** `itertools.permutations(s, len(s))`: every ordering of the positions of `s`,
    in positional-lexicographic order (first the orderings that start with s[0],
    then those that start with s[1], and so on, each group ordered the same way). */
module Permutations {

  function Factorial(n: nat): (r: nat)
    ensures r >= 1
  {
    if n == 0 then 1 else n * Factorial(n - 1)
  }

  /** `s` with the element at position `i` taken out. */
  function Without<T>(s: seq<T>, i: nat): (r: seq<T>)
    requires i < |s|
    ensures |r| == |s| - 1
  {
    s[..i] + s[i + 1..]
  }

  /** Every sequence of `ps` with `x` put in front. */
  function PrependAll<T>(x: T, ps: seq<seq<T>>): (r: seq<seq<T>>)
    ensures |r| == |ps|
    ensures forall k :: 0 <= k < |r| ==> r[k] == [x] + ps[k]
  {
    seq(|ps|, k requires 0 <= k < |ps| => [x] + ps[k])
  }

  /** All orderings of `s`, in the order itertools produces them. */
  function Orderings<T>(s: seq<T>): seq<seq<T>>
    decreases |s|, 1, 0
  {
    if |s| == 0 then [[]] else OrderingsFrom(s, 0)
  }

  /** The orderings of `s` whose first element is taken from position i or later. */
  function OrderingsFrom<T>(s: seq<T>, i: nat): seq<seq<T>>
    requires 0 < |s| && i <= |s|
    decreases |s|, 0, |s| - i
  {
    if i == |s| then []
    else PrependAll(s[i], Orderings(Without(s, i))) + OrderingsFrom(s, i + 1)
  }

  /** There are |s|! orderings. */
  lemma {:induction false} OrderingsCount<T>(s: seq<T>)
    ensures |Orderings(s)| == Factorial(|s|)
    decreases |s|, 1, 0
  {
    if |s| > 0 {
      OrderingsFromCount(s, 0);
    }
  }

  lemma {:induction false} OrderingsFromCount<T>(s: seq<T>, i: nat)
    requires 0 < |s| && i <= |s|
    ensures |OrderingsFrom(s, i)| == (|s| - i) * Factorial(|s| - 1)
    decreases |s|, 0, |s| - i
  {
    if i < |s| {
      var f := Factorial(|s| - 1);
      OrderingsCount(Without(s, i));
      OrderingsFromCount(s, i + 1);
      assert |PrependAll(s[i], Orderings(Without(s, i)))| == f;
      assert |OrderingsFrom(s, i + 1)| == (|s| - (i + 1)) * f;
      OneMore(|s| - (i + 1), f);
    }
  }

  lemma OneMore(m: nat, f: nat)
    ensures (m + 1) * f == f + m * f
  {
  }

  /** Taking one element out and putting it back keeps the multiset. */
  lemma MultisetWithout<T>(s: seq<T>, i: nat)
    requires i < |s|
    ensures multiset(s) == multiset{s[i]} + multiset(Without(s, i))
  {
    assert s == s[..i] + [s[i]] + s[i + 1..];
  }

  /** Every ordering holds exactly the elements of `s`, each as often as `s` does. */
  lemma {:induction false} OrderingsSound<T>(s: seq<T>, p: seq<T>)
    requires p in Orderings(s)
    ensures multiset(p) == multiset(s)
    decreases |s|, 1, 0
  {
    if |s| > 0 {
      OrderingsFromSound(s, 0, p);
    }
  }

  lemma {:induction false} OrderingsFromSound<T>(s: seq<T>, i: nat, p: seq<T>)
    requires 0 < |s| && i <= |s|
    requires p in OrderingsFrom(s, i)
    ensures multiset(p) == multiset(s)
    decreases |s|, 0, |s| - i
  {
    if i < |s| {
      var head := PrependAll(s[i], Orderings(Without(s, i)));
      if p in head {
        var k :| 0 <= k < |head| && head[k] == p;
        var q := Orderings(Without(s, i))[k];
        assert p == [s[i]] + q;
        OrderingsSound(Without(s, i), q);
        MultisetWithout(s, i);
      } else {
        OrderingsFromSound(s, i + 1, p);
      }
    }
  }

  /** Every rearrangement of `s` is among its orderings. */
  lemma {:induction false} OrderingsComplete<T>(s: seq<T>, p: seq<T>)
    requires multiset(p) == multiset(s)
    ensures p in Orderings(s)
    decreases |s|
  {
    if |s| > 0 {
      assert |p| == |s| by {
        assert |multiset(p)| == |p| && |multiset(s)| == |s|;
      }
      assert p[0] in multiset(s) by {
        assert p[0] in multiset(p);
      }
      var j :| 0 <= j < |s| && s[j] == p[0];
      MultisetRestAfterFirst(s, j, p);
      OrderingsComplete(Without(s, j), p[1..]);
      var rest := Orderings(Without(s, j));
      var k :| 0 <= k < |rest| && rest[k] == p[1..];
      assert PrependAll(s[j], rest)[k] == p;
      OrderingsFromContains(s, 0, j, p);
    }
  }

  /** Matching the first element of `p` with s[j] leaves the rests as rearrangements. */
  lemma MultisetRestAfterFirst<T>(s: seq<T>, j: nat, p: seq<T>)
    requires j < |s| && |p| > 0 && s[j] == p[0]
    requires multiset(p) == multiset(s)
    ensures multiset(p[1..]) == multiset(Without(s, j))
  {
    MultisetWithout(s, j);
    assert p == [p[0]] + p[1..];
    assert multiset(p) == multiset{p[0]} + multiset(p[1..]);
    assert multiset(p[1..]) == multiset(p) - multiset{p[0]};
    assert multiset(Without(s, j)) == multiset(s) - multiset{s[j]};
  }

  /** A group that starts at position j >= i is part of OrderingsFrom(s, i). */
  lemma {:induction false} OrderingsFromContains<T>(s: seq<T>, i: nat, j: nat, p: seq<T>)
    requires i <= j < |s|
    requires p in PrependAll(s[j], Orderings(Without(s, j)))
    ensures p in OrderingsFrom(s, i)
    decreases j - i
  {
    if i < j {
      OrderingsFromContains(s, i + 1, j, p);
    }
  }

  /** The first ordering is `s` itself. */
  lemma {:induction false} FirstOrderingIsIdentity<T>(s: seq<T>)
    ensures |Orderings(s)| >= 1 && Orderings(s)[0] == s
    decreases |s|
  {
    if |s| > 0 {
      FirstOrderingIsIdentity(Without(s, 0));
      assert Without(s, 0) == s[1..];
      assert s == [s[0]] + s[1..];
    }
  }
}
