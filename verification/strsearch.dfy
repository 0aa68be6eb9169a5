/** Substring search with the meaning of Python's `str.index(sub, start)` and
    of the `sub in s` test. */
module StrSearch {
  import opened Common

  /** `sub` occurs in `s` starting at position `k`. */
  predicate OccursAt(s: string, sub: string, k: nat)
  {
    k + |sub| <= |s| && s[k..k + |sub|] == sub
  }

  /** `k` is the first occurrence of `sub` in `s` at or after `from`. */
  ghost predicate FirstAt(s: string, sub: string, from: nat, k: nat)
  {
    from <= k && OccursAt(s, sub, k) && forall m: nat :: from <= m < k ==> !OccursAt(s, sub, m)
  }

  /** `s.index(sub, from)`: the lowest position at or after `from` where `sub`
      occurs, or `None` where Python raises `ValueError`. A start past the end
      of `s` finds nothing, not even the empty string. */
  function IndexOf(s: string, sub: string, from: nat): (r: Option<nat>)
    ensures r.Some? ==> FirstAt(s, sub, from, r.value)
    ensures r.None? ==> forall k: nat :: from <= k ==> !OccursAt(s, sub, k)
    decreases |s| + 1 - from
  {
    if from + |sub| > |s| then None
    else if OccursAt(s, sub, from) then Some(from)
    else IndexOf(s, sub, from + 1)
  }

  /** The first occurrence at or after `from` is unique, and it is exactly what
      `IndexOf` finds. */
  lemma IndexOfIsFirst(s: string, sub: string, from: nat, k: nat)
    ensures FirstAt(s, sub, from, k) <==> IndexOf(s, sub, from) == Some(k)
  {
  }

  /** Python's `sub in s`. */
  predicate Contains(s: string, sub: string)
    ensures sub == [] ==> Contains(s, sub)
    ensures Contains(s, sub) ==> |sub| <= |s|
  {
    IndexOf(s, sub, 0).Some?
  }

  /** `sub in s` holds exactly when `sub` occurs somewhere in `s`. */
  lemma ContainsSpec(s: string, sub: string)
    ensures Contains(s, sub) <==> exists k: nat :: OccursAt(s, sub, k)
  {
  }

  /** Witness form of `ContainsSpec`. */
  lemma ContainsAt(s: string, sub: string, k: nat)
    requires OccursAt(s, sub, k)
    ensures Contains(s, sub)
  {
  }
}
