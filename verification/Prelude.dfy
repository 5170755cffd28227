/** Shared vocabulary: optional values, and two facts about sequences without repetition. */
module Prelude {

  datatype Option<+T> = None | Some(value: T)

  predicate NoDuplicates<T(==)>(s: seq<T>) {
    forall i, j :: 0 <= i < j < |s| ==> s[i] != s[j]
  }

  function Elements<T>(s: seq<T>): set<T> {
    set x | x in s
  }

  lemma {:induction false} ElementsOfDistinct<T>(s: seq<T>)
    requires NoDuplicates(s)
    ensures |Elements(s)| == |s|
  {
    if s != [] {
      var front, last := s[..|s| - 1], s[|s| - 1];
      ElementsOfDistinct(front);
      assert Elements(s) == Elements(front) + {last};
    }
  }

  lemma LastIsNew<T>(s: seq<T>)
    requires NoDuplicates(s) && s != []
    ensures NoDuplicates(s[..|s| - 1]) && s[|s| - 1] !in s[..|s| - 1]
  {}

  lemma {:induction false} SubsetCardinality<T>(a: set<T>, b: set<T>)
    requires a <= b
    ensures |a| <= |b|
  {
    assert b == a + (b - a);
  }
}
