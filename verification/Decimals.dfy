/** Decimal text of numbers, and how its character order relates to the order of the numbers. */
module Decimals {
  import opened Strings

  function Digit(n: nat): char
    requires n < 10
  {
    '0' + n as char
  }

  /** toString() of a non-negative integer. */
  function Decimal(n: nat): (s: string)
    ensures s != ""
  {
    if n < 10 then [Digit(n)] else Decimal(n / 10) + [Digit(n % 10)]
  }

  predicate AllDigits(s: string) {
    forall i | 0 <= i < |s| :: '0' <= s[i] <= '9'
  }

  function Value(s: string): nat
    requires AllDigits(s)
  {
    if s == "" then 0 else Value(s[..|s| - 1]) * 10 + (s[|s| - 1] - '0') as nat
  }

  lemma {:induction false} DecimalValue(n: nat)
    ensures AllDigits(Decimal(n)) && Value(Decimal(n)) == n && Decimal(n) != ""
  {
    if n >= 10 {
      DecimalValue(n / 10);
      var s := Decimal(n);
      assert s[..|s| - 1] == Decimal(n / 10);
    }
  }

  // ---- Digits of a fixed width ----

  function Pow10(w: nat): (p: nat)
    ensures p > 0
  {
    if w == 0 then 1 else 10 * Pow10(w - 1)
  }

  /** The last `w` decimal digits of `n`. */
  function Fixed(n: nat, w: nat): (s: string)
    ensures |s| == w
    decreases w
  {
    if w == 0 then "" else Fixed(n / 10, w - 1) + [Digit(n % 10)]
  }

  lemma {:induction false} PowGrows(v: nat, w: nat)
    requires v <= w
    ensures Pow10(v) <= Pow10(w)
  {
    if v < w {
      PowGrows(v, w - 1);
    }
  }

  lemma {:induction false} FixedZeros(w: nat)
    ensures "0" + Fixed(0, w) == Fixed(0, w + 1)
  {
    if w > 0 {
      FixedZeros(w - 1);
    } else {
      assert Fixed(0, 1) == Fixed(0, 0) + "0";
    }
  }

  lemma {:induction false} FixedLeadingZero(n: nat, w: nat)
    requires n < Pow10(w)
    ensures "0" + Fixed(n, w) == Fixed(n, w + 1)
  {
    if w == 0 {
      FixedZeros(0);
    } else {
      FixedLeadingZero(n / 10, w - 1);
      assert "0" + Fixed(n, w) == ("0" + Fixed(n / 10, w - 1)) + [Digit(n % 10)];
    }
  }

  lemma {:induction false} DecimalIsFixed(n: nat)
    ensures n < Pow10(|Decimal(n)|) && Decimal(n) == Fixed(n, |Decimal(n)|)
  {
    if n >= 10 {
      DecimalIsFixed(n / 10);
    } else {
      assert Fixed(n, 1) == Fixed(n / 10, 0) + [Digit(n)];
      assert Pow10(1) == 10 * Pow10(0);
    }
  }

  lemma {:induction false} DecimalFits(n: nat, w: nat)
    requires n < Pow10(w) && w > 0
    ensures |Decimal(n)| <= w
  {
    if n >= 10 {
      DecimalFits(n / 10, w - 1);
    }
  }

  lemma DigitOrder(m: nat, n: nat)
    requires m < 10 && n < 10
    ensures LexLt([Digit(m)], [Digit(n)]) <==> m < n
    ensures Digit(m) == Digit(n) <==> m == n
  {
    assert !LexLt("", "");
  }

  /** Texts of one width, digit by digit, order as the numbers they spell. */
  lemma {:induction false} FixedOrder(m: nat, n: nat, w: nat)
    requires m < Pow10(w) && n < Pow10(w)
    ensures LexLt(Fixed(m, w), Fixed(n, w)) <==> m < n
    ensures Fixed(m, w) == Fixed(n, w) <==> m == n
  {
    if w > 0 {
      var a, b := Fixed(m / 10, w - 1), Fixed(n / 10, w - 1);
      FixedOrder(m / 10, n / 10, w - 1);
      DigitOrder(m % 10, n % 10);
      LexConcat(a, b, [Digit(m % 10)], [Digit(n % 10)]);
      if Fixed(m, w) == Fixed(n, w) {
        assert Fixed(m, w)[..w - 1] == a && Fixed(n, w)[..w - 1] == b;
        assert Fixed(m, w)[w - 1] == Digit(m % 10) && Fixed(n, w)[w - 1] == Digit(n % 10);
      }
    }
  }

  // ---- Texts of different widths ----

  lemma DecimalOrder(m: nat, n: nat)
    requires |Decimal(m)| == |Decimal(n)|
    ensures LexLt(Decimal(m), Decimal(n)) <==> m < n
    ensures Decimal(m) == Decimal(n) <==> m == n
  {
    DecimalIsFixed(m);
    DecimalIsFixed(n);
    FixedOrder(m, n, |Decimal(m)|);
  }

  /** The number without its last digits. */
  function Leading(n: nat, dropped: nat): nat {
    if dropped == 0 then n else Leading(n / 10, dropped - 1)
  }

  lemma {:induction false} LeadingIsHead(n: nat, dropped: nat)
    requires dropped < |Decimal(n)|
    ensures Decimal(n)[..|Decimal(n)| - dropped] == Decimal(Leading(n, dropped))
  {
    if dropped > 0 {
      LeadingIsHead(n / 10, dropped - 1);
      assert Decimal(n)[..|Decimal(n)| - dropped] == Decimal(n / 10)[..|Decimal(n)| - dropped];
    } else {
      assert Decimal(n)[..|Decimal(n)|] == Decimal(n);
    }
  }

  /** A shorter text comes first exactly when its number is at most the leading digits of the longer one. */
  lemma ShorterFirst(m: nat, n: nat)
    requires |Decimal(m)| < |Decimal(n)|
    ensures m < n && Decimal(m) != Decimal(n)
    ensures LexLt(Decimal(m), Decimal(n)) <==> m <= Leading(n, |Decimal(n)| - |Decimal(m)|)
  {
    var width, head := |Decimal(m)|, Leading(n, |Decimal(n)| - |Decimal(m)|);
    LeadingIsHead(n, |Decimal(n)| - width);
    assert |Decimal(head)| == width;
    DecimalOrder(m, head);
    PrefixedOrder(Decimal(m), Decimal(n), Decimal(head));
    ShorterIsSmaller(m, n);
  }

  lemma ShorterIsSmaller(m: nat, n: nat)
    requires |Decimal(m)| < |Decimal(n)|
    ensures m < n
  {
    DecimalIsFixed(m);
    if n <= m {
      DecimalFits(n, |Decimal(m)|);
    }
  }

  /** A text against a longer one: only the head of the longer one counts, and an equal head comes first. */
  lemma PrefixedOrder(s: string, t: string, head: string)
    requires |s| == |head| < |t| && t[..|head|] == head
    ensures LexLt(s, t) <==> LexLt(s, head) || s == head
  {
    assert s == s + "" && t == head + t[|head|..];
    LexConcat(s, head, "", t[|head|..]);
  }
}
