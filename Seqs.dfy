/**
 * The array combinators the field editor is written with (`filter`, `map`,
 * `every`, `some`, `find`), as recursive functions over sequences, each
 * specified by what it returns rather than how.
 */
module Seqs {
  import opened Wrappers

  /** `s.filter(p)`: the elements of `s` that satisfy `p`, in their original order. */
  function Filter<T>(s: seq<T>, p: T -> bool): (r: seq<T>)
    ensures |r| <= |s|
    ensures forall i :: 0 <= i < |r| ==> r[i] in s && p(r[i])
    ensures forall i :: 0 <= i < |s| && p(s[i]) ==> s[i] in r
  {
    if s == [] then [] else (if p(s[0]) then [s[0]] else []) + Filter(s[1..], p)
  }

  /** `s.map(f)`: one image per element, position for position. */
  function Map<T, U>(s: seq<T>, f: T -> U): (r: seq<U>)
    ensures |r| == |s|
    ensures forall i :: 0 <= i < |s| ==> r[i] == f(s[i])
  {
    if s == [] then [] else [f(s[0])] + Map(s[1..], f)
  }

  /** `s.every(p)`. */
  function All<T>(s: seq<T>, p: T -> bool): (b: bool)
    ensures b <==> forall i :: 0 <= i < |s| ==> p(s[i])
  {
    s == [] || (p(s[0]) && All(s[1..], p))
  }

  /** `s.some(p)`. */
  function Any<T>(s: seq<T>, p: T -> bool): (b: bool)
    ensures b <==> exists i :: 0 <= i < |s| && p(s[i])
  {
    s != [] && (p(s[0]) || Any(s[1..], p))
  }

  /** `s.find(p)`: the first element that satisfies `p`, if there is one. */
  function Find<T>(s: seq<T>, p: T -> bool): (r: Option<T>)
    ensures r.None? <==> forall i :: 0 <= i < |s| ==> !p(s[i])
    ensures r.Some? ==> exists k :: 0 <= k < |s| && s[k] == r.value && p(s[k])
  {
    if s == [] then None else if p(s[0]) then Some(s[0]) else Find(s[1..], p)
  }

  /** Filtering distributes over concatenation: the order of the kept elements is the input order. */
  lemma {:induction false} FilterConcat<T>(a: seq<T>, b: seq<T>, p: T -> bool)
    ensures Filter(a + b, p) == Filter(a, p) + Filter(b, p)
  {
    if a == [] {
      assert a + b == b;
    } else {
      assert (a + b)[0] == a[0];
      assert (a + b)[1..] == a[1..] + b;
      FilterConcat(a[1..], b, p);
    }
  }

  /** Mapping distributes over concatenation. */
  lemma {:induction false} MapConcat<T, U>(a: seq<T>, b: seq<T>, f: T -> U)
    ensures Map(a + b, f) == Map(a, f) + Map(b, f)
  {
    if a == [] {
      assert a + b == b;
    } else {
      assert (a + b)[1..] == a[1..] + b;
      MapConcat(a[1..], b, f);
    }
  }

  /** Two filters in a row keep exactly what one filter on the conjunction `pq` keeps, in the same order. */
  lemma {:induction false} FilterFilter<T>(s: seq<T>, p: T -> bool, q: T -> bool, pq: T -> bool)
    requires forall x :: pq(x) == (p(x) && q(x))
    ensures Filter(Filter(s, p), q) == Filter(s, pq)
  {
    if s != [] {
      FilterFilter(s[1..], p, q, pq);
      if p(s[0]) {
        assert Filter(s, p) == [s[0]] + Filter(s[1..], p);
        assert Filter(s, p)[0] == s[0];
        assert Filter(s, p)[1..] == Filter(s[1..], p);
      } else {
        assert Filter(s, p) == Filter(s[1..], p);
      }
    }
  }

  /** The head of a filtered sequence is the first element of the input that passes. */
  lemma {:induction false} FilterFirst<T>(s: seq<T>, p: T -> bool, k: nat)
    requires k < |s| && p(s[k])
    requires forall j :: 0 <= j < k ==> !p(s[j])
    ensures Filter(s, p) != [] && Filter(s, p)[0] == s[k]
  {
    if k > 0 {
      FilterFirst(s[1..], p, k - 1);
    }
  }

  /** `find` returns the first element that passes. */
  lemma {:induction false} FindFirst<T>(s: seq<T>, p: T -> bool, k: nat)
    requires k < |s| && p(s[k])
    requires forall j :: 0 <= j < k ==> !p(s[j])
    ensures Find(s, p) == Some(s[k])
  {
    if k > 0 {
      FindFirst(s[1..], p, k - 1);
    }
  }

  /** Searching a filtered sequence finds the first input element that passes both tests. */
  lemma {:induction false} FindInFilter<T>(s: seq<T>, p: T -> bool, q: T -> bool, k: nat)
    requires k < |s| && p(s[k]) && q(s[k])
    requires forall j :: 0 <= j < k ==> !(p(s[j]) && q(s[j]))
    ensures Find(Filter(s, p), q) == Some(s[k])
  {
    if k == 0 {
      assert Filter(s, p) == [s[0]] + Filter(s[1..], p);
    } else {
      FindInFilter(s[1..], p, q, k - 1);
      if p(s[0]) {
        assert Filter(s, p) == [s[0]] + Filter(s[1..], p);
        assert Filter(s, p)[1..] == Filter(s[1..], p);
      } else {
        assert Filter(s, p) == Filter(s[1..], p);
      }
    }
  }
}
