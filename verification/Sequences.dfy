/** Sequences as sets, and sequences without repetition. */
module Sequences {

  function Members<T(==)>(s: seq<T>): set<T> {
    set m | m in s
  }

  predicate NoRepeats<T(==)>(s: seq<T>) {
    forall i, j | 0 <= i < j < |s| :: s[i] != s[j]
  }

  lemma {:induction false} MembersCount<T>(s: seq<T>)
    requires NoRepeats(s)
    ensures |Members(s)| == |s|
  {
    if s != [] {
      MembersCount(s[1..]);
      assert Members(s) == {s[0]} + Members(s[1..]);
    }
  }
}
