/** The parts of Kotlin's `String` API the sync code relies on, with Kotlin's semantics. */
module KotlinStrings {

  /** `s.startsWith(prefix)` */
  predicate StartsWith(s: string, prefix: string)
  {
    |prefix| <= |s| && s[..|prefix|] == prefix
  }

  /** `s.endsWith(suffix)` */
  predicate EndsWith(s: string, suffix: string)
  {
    |suffix| <= |s| && s[|s| - |suffix|..] == suffix
  }

  /** `s.removePrefix(prefix)`: drops `prefix` once, and only when `s` starts with it. */
  function RemovePrefix(s: string, prefix: string): (r: string)
    ensures StartsWith(s, prefix) ==> prefix + r == s
    ensures |r| <= |s|
  {
    if StartsWith(s, prefix) then s[|prefix|..] else s
  }

  /** `s.removeSuffix(suffix)`: drops `suffix` once, and only when `s` ends with it. */
  function RemoveSuffix(s: string, suffix: string): (r: string)
    ensures EndsWith(s, suffix) ==> r + suffix == s
    ensures |r| <= |s|
  {
    if EndsWith(s, suffix) then s[..|s| - |suffix|] else s
  }

  /** `d` occurs in `s` starting at index `i`. */
  predicate OccursAt(s: string, d: string, i: nat)
  {
    i + |d| <= |s| && s[i..i + |d|] == d
  }

  /** `s.indexOf(d, from)`: the first index at or after `from` where `d` occurs, or -1. */
  function IndexOf(s: string, d: string, from: nat): (r: int)
    ensures r == -1 || (from <= r && OccursAt(s, d, r))
    ensures forall j: nat :: from <= j && (r == -1 || j < r) ==> !OccursAt(s, d, j)
    decreases |s| - from
  {
    if |s| < from + |d| then -1
    else if OccursAt(s, d, from) then from
    else IndexOf(s, d, from + 1)
  }

  /**
    `s.substringAfter(d)`: what follows the first occurrence of `d`, or the
    whole of `s` when `d` does not occur (Kotlin's default for a missing delimiter).
   */
  function SubstringAfter(s: string, d: string): (r: string)
    ensures EndsWith(s, r)
    ensures (forall j: nat :: !OccursAt(s, d, j)) ==> r == s
  {
    var i := IndexOf(s, d, 0);
    if i == -1 then s else s[i + |d|..]
  }

  /** A path that starts with the folder loses exactly the folder. */
  lemma SubstringAfterLeading(d: string, rest: string)
    ensures SubstringAfter(d + rest, d) == rest
  {
    assert OccursAt(d + rest, d, 0) by {
      assert (d + rest)[0..|d|] == d;
    }
    assert (d + rest)[|d|..] == rest;
  }

  lemma StartsWithConcat(p: string, s: string)
    ensures StartsWith(p + s, p)
  {
    assert (p + s)[..|p|] == p;
  }

  lemma EndsWithConcat(s: string, x: string)
    ensures EndsWith(s + x, x)
  {
    assert (s + x)[|s + x| - |x|..] == x;
  }
}
