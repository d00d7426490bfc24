/** The outcomes of the coming SQL statements (RmsQueryResult.success), in order. Once
    a script is used up, statements succeed. */
module Scripts {

  /** Does the n-th coming statement succeed? */
  predicate Passes(script: seq<bool>, n: nat) { n >= |script| || script[n] }

  /** The script after n statements. */
  function Drop(script: seq<bool>, n: nat): seq<bool> {
    if n >= |script| then [] else script[n..]
  }

  lemma DropNext(script: seq<bool>, n: nat)
    ensures Drop(Drop(script, 1), n) == Drop(script, n + 1)
    ensures Passes(Drop(script, 1), n) == Passes(script, n + 1)
  {
  }
}
