/** The two shapes of list building in the order tool: a loop that pushes a
    value for every element (`Map`) and a loop that pushes a value only for the
    elements that parse (`FilterMap`). */
module Sequences {

  import opened Wrappers

  /** `f` applied to every element, in order. */
  function Map<X, Y>(s: seq<X>, f: X -> Y): (r: seq<Y>)
    ensures |r| == |s|
  {
    if s == [] then [] else [f(s[0])] + Map(s[1..], f)
  }

  /** The values `f` yields, in the order of the elements that yield them;
      elements for which `f` yields nothing are dropped. */
  function FilterMap<X, Y>(s: seq<X>, f: X -> Option<Y>): (r: seq<Y>)
    ensures |r| <= |s|
  {
    if s == [] then []
    else if f(s[0]).Some? then [f(s[0]).value] + FilterMap(s[1..], f)
    else FilterMap(s[1..], f)
  }

  /** Every kept value is the result of `f` on some element. */
  lemma {:induction false} FilterMapOrigin<X, Y>(s: seq<X>, f: X -> Option<Y>, i: nat)
    requires i < |FilterMap(s, f)|
    ensures exists j :: 0 <= j < |s| && f(s[j]) == Some(FilterMap(s, f)[i])
  {
    if f(s[0]).Some? && i == 0 {
      assert f(s[0]) == Some(FilterMap(s, f)[0]);
    } else {
      var i' := if f(s[0]).Some? then i - 1 else i;
      FilterMapOrigin(s[1..], f, i');
      var j :| 0 <= j < |s[1..]| && f(s[1..][j]) == Some(FilterMap(s[1..], f)[i']);
      assert s[1..][j] == s[j + 1];
    }
  }

  lemma {:induction false} MapConcat<X, Y>(a: seq<X>, b: seq<X>, f: X -> Y)
    ensures Map(a + b, f) == Map(a, f) + Map(b, f)
  {
    if a == [] {
      assert a + b == b;
    } else {
      assert (a + b)[0] == a[0];
      assert (a + b)[1..] == a[1..] + b;
      MapConcat(a[1..], b, f);
    }
  }

  lemma {:induction false} FilterMapConcat<X, Y>(a: seq<X>, b: seq<X>, f: X -> Option<Y>)
    ensures FilterMap(a + b, f) == FilterMap(a, f) + FilterMap(b, f)
  {
    if a != [] {
      assert (a + b)[0] == a[0];
      assert (a + b)[1..] == a[1..] + b;
      FilterMapConcat(a[1..], b, f);
    } else {
      assert a + b == b;
    }
  }

  /** A position of `x` in `s`. */
  ghost function IndexOf<X>(s: seq<X>, x: X): (k: nat)
    requires x in multiset(s)
    ensures k < |s| && s[k] == x
  {
    assert x in s;
    var k :| 0 <= k < |s| && s[k] == x; k
  }

  /** Mapping a sequence with `x` inserted somewhere adds the image of `x`. */
  lemma MapAround<X, Y>(pre: seq<X>, x: X, post: seq<X>, f: X -> Y)
    ensures multiset(Map(pre + [x] + post, f)) == multiset(Map(pre + post, f)) + multiset(Map([x], f))
  {
    MapConcat(pre + [x], post, f);
    MapConcat(pre, [x], f);
    MapConcat(pre, post, f);
  }

  lemma FilterMapAround<X, Y>(pre: seq<X>, x: X, post: seq<X>, f: X -> Option<Y>)
    ensures multiset(FilterMap(pre + [x] + post, f)) == multiset(FilterMap(pre + post, f)) + multiset(FilterMap([x], f))
  {
    FilterMapConcat(pre + [x], post, f);
    FilterMapConcat(pre, [x], f);
    FilterMapConcat(pre, post, f);
  }

  /** Where `a` starts with `x`, `b` is `x` inserted into a permutation of the
      rest of `a`. */
  lemma PermutationAround<X>(a: seq<X>, b: seq<X>) returns (pre: seq<X>, post: seq<X>)
    requires a != [] && multiset(a) == multiset(b)
    ensures b == pre + [a[0]] + post
    ensures multiset(a[1..]) == multiset(pre + post)
  {
    var k := IndexOf(b, a[0]);
    pre, post := b[..k], b[k + 1..];
    assert b == pre + [b[k]] + post;
    assert a == [a[0]] + a[1..];
    assert multiset(a[1..]) == multiset(a) - multiset{a[0]};
  }

  /** Reordering the input reorders the mapped values the same way. */
  lemma {:induction false} MapPermutation<X, Y>(a: seq<X>, b: seq<X>, f: X -> Y)
    requires multiset(a) == multiset(b)
    ensures multiset(Map(a, f)) == multiset(Map(b, f))
    decreases |a|
  {
    if a == [] {
      assert |multiset(b)| == 0;
    } else {
      var pre, post := PermutationAround(a, b);
      MapPermutation(a[1..], pre + post, f);
      MapAround(pre, a[0], post, f);
      assert a == [a[0]] + a[1..];
      MapConcat([a[0]], a[1..], f);
    }
  }

  /** Reordering the input reorders the kept values the same way. */
  lemma {:induction false} FilterMapPermutation<X, Y>(a: seq<X>, b: seq<X>, f: X -> Option<Y>)
    requires multiset(a) == multiset(b)
    ensures multiset(FilterMap(a, f)) == multiset(FilterMap(b, f))
    decreases |a|
  {
    if a == [] {
      assert |multiset(b)| == 0;
    } else {
      var pre, post := PermutationAround(a, b);
      FilterMapPermutation(a[1..], pre + post, f);
      FilterMapAround(pre, a[0], post, f);
      assert a == [a[0]] + a[1..];
      FilterMapConcat([a[0]], a[1..], f);
    }
  }

  /** When `f` yields a value for every element, those values are the result. */
  lemma {:induction false} FilterMapAllKept<X, Y>(s: seq<X>, f: X -> Option<Y>, r: seq<Y>)
    requires |r| == |s|
    requires forall k :: 0 <= k < |s| ==> f(s[k]) == Some(r[k])
    ensures FilterMap(s, f) == r
  {
    if s != [] {
      FilterMapAllKept(s[1..], f, r[1..]);
    }
  }

  /** `Map` characterised element by element. */
  lemma {:induction false} MapElements<X, Y>(s: seq<X>, f: X -> Y, r: seq<Y>)
    requires |r| == |s|
    requires forall k :: 0 <= k < |s| ==> f(s[k]) == r[k]
    ensures Map(s, f) == r
  {
    if s != [] {
      MapElements(s[1..], f, r[1..]);
    }
  }
}
