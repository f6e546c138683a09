/**
 * The fallback chain both crawlers use to download a page: each strategy's
 * outcome is `None` when it returned `null` or threw an exception that the
 * chain swallows, and the next strategy is only tried while the content so
 * far is `null` or empty.
 */
module FetchChain {
  import opened Wrappers

  predicate IsContent(r: Option<string>)
  {
    r.Some? && r.value != []
  }

  /**
   * The content the chain ends with: the first non-empty outcome, or the
   * outcome of the last strategy when none is non-empty.
   */
  function Chain(results: seq<Option<string>>): Option<string>
  {
    if results == [] then None
    else if |results| == 1 || IsContent(results[0]) then results[0]
    else Chain(results[1..])
  }

  /**
   * The chain stops at the first strategy that yields content and yields
   * exactly that; when no strategy does, it yields no content at all.
   */
  lemma {:induction false} ChainFirstContent(results: seq<Option<string>>)
    ensures IsContent(Chain(results)) <==> exists i :: 0 <= i < |results| && IsContent(results[i])
    ensures forall i :: (0 <= i < |results| && IsContent(results[i]) &&
                         (forall j :: 0 <= j < i ==> !IsContent(results[j]))) ==> Chain(results) == results[i]
    ensures (results != [] && forall j :: 0 <= j < |results| ==> !IsContent(results[j])) ==>
              Chain(results) == results[|results| - 1]
  {
    if |results| > 1 && !IsContent(results[0]) {
      ChainFirstContent(results[1..]);
      assert forall i :: 1 <= i < |results| ==> results[i] == results[1..][i - 1];
      assert results[1..][|results| - 2] == results[|results| - 1];
      forall i | 0 <= i < |results| && IsContent(results[i]) && (forall j :: 0 <= j < i ==> !IsContent(results[j]))
        ensures Chain(results) == results[i]
      {
        assert i >= 1;
        assert forall j :: 0 <= j < i - 1 ==> results[1..][j] == results[j + 1];
      }
    }
  }
}
