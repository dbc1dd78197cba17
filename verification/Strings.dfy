/** Character-by-character order of strings, as Redis orders tied members and the indexer orders event ids. */
module Strings {

  predicate LexLt(a: string, b: string) {
    b != [] && (a == [] || a[0] < b[0] || (a[0] == b[0] && LexLt(a[1..], b[1..])))
  }

  predicate LexLe(a: string, b: string) {
    a == b || LexLt(a, b)
  }

  lemma {:induction false} LexIrreflexive(a: string)
    ensures !LexLt(a, a)
  {
    if a != [] {
      LexIrreflexive(a[1..]);
    }
  }

  lemma {:induction false} LexTransitive(a: string, b: string, c: string)
    requires LexLt(a, b) && LexLt(b, c)
    ensures LexLt(a, c)
  {
    if a != [] && a[0] == b[0] && b[0] == c[0] {
      LexTransitive(a[1..], b[1..], c[1..]);
    }
  }

  lemma LexAsymmetric(a: string, b: string)
    requires LexLt(a, b)
    ensures !LexLt(b, a) && a != b
  {
    LexIrreflexive(a);
    if LexLt(b, a) {
      LexTransitive(a, b, a);
    }
  }

  lemma {:induction false} LexTotal(a: string, b: string)
    ensures LexLt(a, b) || a == b || LexLt(b, a)
  {
    if a != [] && b != [] && a[0] == b[0] {
      LexTotal(a[1..], b[1..]);
      assert a == [a[0]] + a[1..] && b == [b[0]] + b[1..];
    }
  }

  /** Two strings with heads of one width compare by the heads first and then by the rests. */
  lemma {:induction false} LexConcat(a: string, b: string, c: string, d: string)
    requires |a| == |b|
    ensures LexLt(a + c, b + d) <==> LexLt(a, b) || (a == b && LexLt(c, d))
  {
    if a == [] {
      assert a + c == c && b + d == d;
    } else {
      assert (a + c)[1..] == a[1..] + c && (b + d)[1..] == b[1..] + d;
      LexConcat(a[1..], b[1..], c, d);
      assert a == [a[0]] + a[1..] && b == [b[0]] + b[1..];
    }
  }
}
