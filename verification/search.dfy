/** First-match lookup over a collection whose keys are handed out by an
    increasing counter, so key order is insertion order. */
module Search {
  import opened Common

  /** The smallest key below `n` whose value satisfies `p`, or None when no key
      below `n` does. */
  function FirstBelow<V>(m: map<nat, V>, p: V -> bool, n: nat): (r: Option<nat>)
    ensures r.Some? ==> r.value < n && r.value in m && p(m[r.value])
    ensures r.Some? ==> forall k :: k < r.value && k in m ==> !p(m[k])
    ensures r.None? ==> forall k :: k < n && k in m ==> !p(m[k])
    decreases n
  {
    if n == 0 then None
    else
      var earlier := FirstBelow(m, p, n - 1);
      if earlier.Some? then earlier
      else if n - 1 in m && p(m[n - 1]) then Some(n - 1)
      else None
  }
}
