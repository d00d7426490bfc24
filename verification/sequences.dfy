/** Facts about sequences that several components share. */
module Sequences {

  /** s without an element that equals the one just before it. */
  function Collapse<T(==)>(s: seq<T>): (r: seq<T>)
    ensures |s| > 0 ==> |r| > 0 && r[|r| - 1] == s[|s| - 1]
    ensures |s| == 0 ==> r == []
  {
    if |s| == 0 then []
    else
      var front := Collapse(s[..|s| - 1]);
      if |s| > 1 && s[|s| - 2] == s[|s| - 1] then front else front + [s[|s| - 1]]
  }

  lemma CollapseAppend<T>(s: seq<T>, x: T)
    ensures Collapse(s + [x]) ==
            if |s| > 0 && s[|s| - 1] == x then Collapse(s) else Collapse(s) + [x]
  {
    assert (s + [x])[..|s|] == s;
  }

  lemma {:induction false} CollapseSubset<T>(s: seq<T>, x: T)
    requires x in Collapse(s)
    ensures x in s
  {
    if s[|s| - 1] != x {
      CollapseSubset(s[..|s| - 1], x);
    }
  }

  lemma {:induction false} CollapseHas<T>(s: seq<T>, x: T)
    requires x in s
    ensures x in Collapse(s)
  {
    if s[|s| - 1] != x {
      CollapseHas(s[..|s| - 1], x);
    }
  }

  /** a can be obtained from b by deleting elements. */
  ghost predicate Subsequence<T>(a: seq<T>, b: seq<T>) {
    if |a| == 0 then true
    else if |b| == 0 then false
    else if a[|a| - 1] == b[|b| - 1] && Subsequence(a[..|a| - 1], b[..|b| - 1]) then true
    else Subsequence(a, b[..|b| - 1])
  }

  predicate Distinct<T(==)>(s: seq<T>) {
    forall i, j :: 0 <= i < j < |s| ==> s[i] != s[j]
  }
}
