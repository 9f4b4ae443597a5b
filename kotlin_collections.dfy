/** The parts of Kotlin's `List` API the sync code relies on, with Kotlin's semantics. */
module KotlinCollections {
  import opened Wrappers

  /** `s.filter(p)`: the elements that satisfy `p`, in their original order. */
  function Filter<T(==, !new)>(s: seq<T>, p: T -> bool): (r: seq<T>)
    ensures |r| <= |s|
    ensures forall x :: x in r <==> x in s && p(x)
  {
    if s == [] then []
    else (if p(s[0]) then [s[0]] else []) + Filter(s[1..], p)
  }

  /** Filtering a concatenation filters each part: relative order is kept. */
  lemma {:induction false} FilterAppend<T(!new)>(a: seq<T>, b: seq<T>, p: T -> bool)
    ensures Filter(a + b, p) == Filter(a, p) + Filter(b, p)
  {
    if a == [] {
      assert a + b == b;
    } else {
      assert (a + b)[0] == a[0];
      assert (a + b)[1..] == a[1..] + b;
      FilterAppend(a[1..], b, p);
    }
  }

  /** Two predicates that agree on every element select the same sub-list. */
  lemma {:induction false} FilterCongruent<T(!new)>(s: seq<T>, p: T -> bool, q: T -> bool)
    requires forall x :: x in s ==> p(x) == q(x)
    ensures Filter(s, p) == Filter(s, q)
  {
    if s != [] {
      assert s[0] in s;
      forall x | x in s[1..]
        ensures p(x) == q(x)
      {
        assert x in s;
      }
      FilterCongruent(s[1..], p, q);
    }
  }

  /** `s.any(p)`; Kotlin's `s.none(p)` is its negation. */
  predicate Any<T>(s: seq<T>, p: T -> bool)
  {
    exists i :: 0 <= i < |s| && p(s[i])
  }

  /** The index of the first element that satisfies `p`. */
  function FirstIndex<T>(s: seq<T>, p: T -> bool): (r: nat)
    requires Any(s, p)
    ensures r < |s| && p(s[r])
    ensures forall j :: 0 <= j < r ==> !p(s[j])
  {
    if p(s[0]) then 0
    else
      assert Any(s[1..], p) by {
        var i :| 0 <= i < |s| && p(s[i]);
        assert s[1..][i - 1] == s[i];
      }
      1 + FirstIndex(s[1..], p)
  }

  /** `s.first(p)`: the first element that satisfies `p`; only defined when one does. */
  function First<T>(s: seq<T>, p: T -> bool): (r: T)
    requires Any(s, p)
    ensures r in s && p(r)
  {
    s[FirstIndex(s, p)]
  }

  /** `s.find(p)`: the first element that satisfies `p`, or null. */
  function Find<T>(s: seq<T>, p: T -> bool): (r: Option<T>)
    ensures r.Some? <==> exists i :: 0 <= i < |s| && p(s[i])
    ensures r.Some? ==> exists i :: 0 <= i < |s| && p(s[i]) && r.value == s[i] && forall j :: 0 <= j < i ==> !p(s[j])
  {
    if Any(s, p) then
      var i := FirstIndex(s, p);
      assert p(s[i]) && forall j :: 0 <= j < i ==> !p(s[j]);
      Some(s[i])
    else None
  }

  /** When exactly one element satisfies `p`, `first` returns it. */
  lemma FirstOfUnique<T>(s: seq<T>, p: T -> bool, i: nat)
    requires i < |s| && p(s[i])
    requires forall j :: 0 <= j < |s| && p(s[j]) ==> j == i
    ensures Any(s, p) && First(s, p) == s[i]
  {
  }
}
