/** Facts about sequences. */
module Sequences {

  lemma Assoc<T>(a: seq<T>, b: seq<T>, c: seq<T>)
    ensures a + (b + c) == a + b + c
  {
  }

  lemma FirstOfConcat<T>(xs: seq<T>, ys: seq<T>)
    requires xs != []
    ensures xs + ys != [] && (xs + ys)[0] == xs[0] && (xs + ys)[1..] == xs[1..] + ys
  {
  }

  lemma SameTail<T>(a: seq<T>, b: seq<T>, c: seq<T>)
    requires |a| == |b|
    ensures a + c == b + c <==> a == b
  {
    assert (a + c)[..|a|] == a && (b + c)[..|b|] == b;
  }

  ghost predicate Distinct<T>(s: seq<T>) {
    forall i, j :: 0 <= i < j < |s| ==> s[i] != s[j]
  }
}
