/** Integer-like object keys, which JavaScript enumerates in ascending order. */
module NumericKeys {
  import opened Sequences

  predicate IsLeast(s: set<nat>, m: nat) {
    m in s && forall n | n in s :: m <= n
  }

  lemma {:induction false} LeastExists(s: set<nat>)
    requires s != {}
    ensures exists m :: IsLeast(s, m)
  {
    var m :| m in s;
    if s - {m} != {} {
      LeastExists(s - {m});
      var l :| IsLeast(s - {m}, l);
      assert forall n | n in s :: n == m || n in s - {m};
      assert IsLeast(s, if m < l then m else l);
    } else {
      assert s == {m};
      assert IsLeast(s, m);
    }
  }

  function Least(s: set<nat>): (m: nat)
    requires s != {}
    ensures IsLeast(s, m)
  {
    LeastExists(s);
    var m :| m in s && IsLeast(s, m);
    m
  }

  /** The keys in the order of enumeration. */
  function Ascending(s: set<nat>): (r: seq<nat>) {
    if s == {} then [] else [Least(s)] + Ascending(s - {Least(s)})
  }

  lemma {:induction false} AscendingAscends(s: set<nat>)
    ensures forall i, j | 0 <= i < j < |Ascending(s)| :: Ascending(s)[i] < Ascending(s)[j]
  {
    if s != {} {
      var rest := s - {Least(s)};
      AscendingAscends(rest);
      AscendingLists(rest);
      assert forall i | 0 <= i < |Ascending(rest)| :: Ascending(rest)[i] in Ascending(rest);
    }
  }

  lemma {:induction false} AscendingLists(s: set<nat>)
    ensures NoRepeats(Ascending(s)) && forall n :: n in Ascending(s) <==> n in s
  {
    if s != {} {
      AscendingLists(s - {Least(s)});
      assert forall n :: n in s <==> n == Least(s) || n in s - {Least(s)};
    }
  }
}
