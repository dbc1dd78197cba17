/** Event ids and cursors: zero-padded block and index, compared as text by the indexer. */
module BlockIds {
  import opened Decimals
  import opened Strings

  datatype BlockId = BlockId(blockNumber: nat, index: nat)

  function PadStart(s: string, width: nat): (padded: string)
    ensures |padded| >= |s|
    decreases width - |s|
  {
    if |s| >= width then s else PadStart("0" + s, width)
  }

  function EventId(block: nat, index: nat, suffix: string): string {
    PadStart(Decimal(block), 10) + ("-" + (PadStart(Decimal(index), 6) + ("-" + suffix)))
  }

  function GenerateId(block: nat, index: nat): string {
    EventId(block, index, "00000")
  }

  function Split(s: string): (r: seq<string>)
    ensures |r| >= 1
  {
    if s == "" then [""]
    else if s[0] == '-' then [""] + Split(s[1..])
    else [[s[0]] + Split(s[1..])[0]] + Split(s[1..])[1..]
  }

  /** `Number(s) || 0` for decimal text: what is not a number counts as 0. */
  function NumberOrZero(s: string): nat {
    if AllDigits(s) then Value(s) else 0
  }

  function ParseBlockId(fromBlockId: string): BlockId {
    if fromBlockId == "" then BlockId(0, 0)
    else
      var blockInfo := Split(fromBlockId);
      BlockId(NumberOrZero(blockInfo[0]), if |blockInfo| > 1 then NumberOrZero(blockInfo[1]) else 0)
  }

  // ---- Reading back ----

  lemma {:induction false} LeadingZero(s: string)
    requires AllDigits(s)
    ensures AllDigits("0" + s) && Value("0" + s) == Value(s)
  {
    if s != "" {
      LeadingZero(s[..|s| - 1]);
      assert ("0" + s)[..|s|] == "0" + s[..|s| - 1];
    } else {
      assert Value("0") == 0;
    }
  }

  lemma {:induction false} PadStartValue(s: string, width: nat)
    requires AllDigits(s)
    ensures AllDigits(PadStart(s, width)) && Value(PadStart(s, width)) == Value(s)
    decreases width - |s|
  {
    if |s| < width {
      LeadingZero(s);
      PadStartValue("0" + s, width);
    }
  }

  lemma {:induction false} SplitAtDash(field: string, rest: string)
    requires '-' !in field
    ensures Split(field + ("-" + rest)) == [field] + Split(rest)
  {
    var s := field + ("-" + rest);
    if field == "" {
      assert s[1..] == rest;
    } else {
      assert s[1..] == field[1..] + ("-" + rest);
      SplitAtDash(field[1..], rest);
      assert [field[0]] + field[1..] == field;
    }
  }

  /** A saved cursor is read back as the position it was made from. */
  lemma ParseGenerated(block: nat, index: nat)
    ensures ParseBlockId(GenerateId(block, index)) == BlockId(block, index)
  {
    var b, i := PadStart(Decimal(block), 10), PadStart(Decimal(index), 6);
    DecimalValue(block);
    DecimalValue(index);
    PadStartValue(Decimal(block), 10);
    PadStartValue(Decimal(index), 6);
    SplitAtDash(b, i + ("-" + "00000"));
    SplitAtDash(i, "00000");
  }

  // ---- Order ----

  lemma {:induction false} PadIsFixed(n: nat, s: string, width: nat)
    requires |s| <= width && n < Pow10(|s|) && s == Fixed(n, |s|)
    ensures PadStart(s, width) == Fixed(n, width)
    decreases width - |s|
  {
    if |s| < width {
      FixedLeadingZero(n, |s|);
      assert Pow10(|s| + 1) == 10 * Pow10(|s|);
      PadIsFixed(n, "0" + s, width);
    }
  }

  lemma PaddedIsFixed(n: nat, width: nat)
    requires n < Pow10(width) && width > 0
    ensures PadStart(Decimal(n), width) == Fixed(n, width)
  {
    DecimalIsFixed(n);
    DecimalFits(n, width);
    PadIsFixed(n, Decimal(n), width);
  }

  lemma Widths()
    ensures Pow10(6) == 1000000 && Pow10(10) == 10000000000
  {
    assert Pow10(2) == 100 && Pow10(4) == 10000;
    assert Pow10(8) == 100000000;
  }

  /** The positions whose ids the padding keeps in order. */
  predicate Padded(p: BlockId) {
    p.blockNumber < 10000000000 && p.index < 1000000
  }

  predicate PosLt(p: BlockId, q: BlockId) {
    p.blockNumber < q.blockNumber || (p.blockNumber == q.blockNumber && p.index < q.index)
  }

  predicate PosLe(p: BlockId, q: BlockId) {
    p == q || PosLt(p, q)
  }

  lemma EqualParts(a: string, c: string, b: string, d: string)
    requires |a| == |b|
    ensures a + c == b + d <==> a == b && c == d
  {
    if a + c == b + d {
      assert (a + c)[..|a|] == a && (b + d)[..|a|] == b;
      assert (a + c)[|a|..] == c && (b + d)[|a|..] == d;
    }
  }

  lemma EventOrder(p: BlockId, s: string, q: BlockId, t: string)
    requires Padded(p) && Padded(q)
    ensures LexLt(EventId(p.blockNumber, p.index, s), EventId(q.blockNumber, q.index, t)) <==>
            PosLt(p, q) || (p == q && LexLt(s, t))
    ensures EventId(p.blockNumber, p.index, s) == EventId(q.blockNumber, q.index, t) ==> p == q && s == t
  {
    Widths();
    var b, c := Fixed(p.blockNumber, 10), Fixed(q.blockNumber, 10);
    var i, j := Fixed(p.index, 6), Fixed(q.index, 6);
    PaddedIsFixed(p.blockNumber, 10);
    PaddedIsFixed(q.blockNumber, 10);
    PaddedIsFixed(p.index, 6);
    PaddedIsFixed(q.index, 6);
    FixedOrder(p.blockNumber, q.blockNumber, 10);
    FixedOrder(p.index, q.index, 6);
    LexConcat(b, c, "-" + (i + ("-" + s)), "-" + (j + ("-" + t)));
    LexConcat("-", "-", i + ("-" + s), j + ("-" + t));
    LexConcat(i, j, "-" + s, "-" + t);
    LexConcat("-", "-", s, t);
    LexIrreflexive("-");
    EqualParts(b, "-" + (i + ("-" + s)), c, "-" + (j + ("-" + t)));
    EqualParts("-", i + ("-" + s), "-", j + ("-" + t));
    EqualParts(i, "-" + s, j, "-" + t);
    EqualParts("-", s, "-", t);
  }

  /** Within the padding, the text order of cursors is the order of positions. */
  lemma CursorOrder(p: BlockId, q: BlockId)
    requires Padded(p) && Padded(q)
    ensures LexLe(GenerateId(p.blockNumber, p.index), GenerateId(q.blockNumber, q.index)) <==> PosLe(p, q)
  {
    EventOrder(p, "00000", q, "00000");
    LexIrreflexive("00000");
  }

  /** An event passes the `id_gte` filter of a cursor exactly when its position is at or after the cursor's. */
  lemma FilterByPosition(cursor: BlockId, event: BlockId, suffix: string)
    requires Padded(cursor) && Padded(event) && LexLe("00000", suffix)
    ensures LexLe(GenerateId(cursor.blockNumber, cursor.index), EventId(event.blockNumber, event.index, suffix)) <==>
            PosLe(cursor, event)
  {
    EventOrder(cursor, "00000", event, suffix);
  }

  // ---- Past the padding ----

  /** A number that gains a digit goes from a leading 9 to a leading 1. */
  lemma {:induction false} CarryFlipsHead(n: nat)
    requires |Decimal(n)| != |Decimal(n + 1)|
    ensures |Decimal(n + 1)| == |Decimal(n)| + 1 && Decimal(n)[0] == '9' && Decimal(n + 1)[0] == '1'
  {
    if n >= 10 && n % 10 == 9 {
      assert (n + 1) / 10 == n / 10 + 1;
      CarryFlipsHead(n / 10);
    } else if n == 9 {
      assert Decimal(10) == Decimal(1) + [Digit(0)];
    }
  }

  /** The padded texts of an index and the next one are in order unless the next one gains a digit past the sixth. */
  lemma NextIndexOrder(index: nat)
    ensures var i, j := PadStart(Decimal(index), 6), PadStart(Decimal(index + 1), 6);
            if |Decimal(index + 1)| <= 6 || |Decimal(index + 1)| == |Decimal(index)|
            then |i| == |j| && LexLt(i, j)
            else i[0] == '9' && j[0] == '1'
  {
    if |Decimal(index + 1)| <= 6 {
      DecimalIsFixed(index + 1);
      PowGrows(|Decimal(index + 1)|, 6);
      PaddedIsFixed(index, 6);
      PaddedIsFixed(index + 1, 6);
      FixedOrder(index, index + 1, 6);
    } else if |Decimal(index + 1)| == |Decimal(index)| {
      DecimalOrder(index, index + 1);
    } else {
      CarryFlipsHead(index);
    }
  }

  /** The cursor stepped over an event sorts after it if and only if the next index has at most six digits or as many as
      the event's; otherwise it sorts before the event, which would be fetched again and again. */
  lemma StepKeepsOrder(block: nat, index: nat, suffix: string)
    ensures LexLt(EventId(block, index, suffix), GenerateId(block, index + 1)) <==>
            |Decimal(index + 1)| <= 6 || |Decimal(index + 1)| == |Decimal(index)|
    ensures LexLt(GenerateId(block, index + 1), EventId(block, index, suffix)) <==>
            |Decimal(index + 1)| > 6 && |Decimal(index + 1)| != |Decimal(index)|
  {
    var b := PadStart(Decimal(block), 10);
    var i, j := PadStart(Decimal(index), 6), PadStart(Decimal(index + 1), 6);
    var event, next := i + ("-" + suffix), j + ("-" + "00000");
    NextIndexOrder(index);
    SameHead(b, "-" + event, "-" + next);
    SameHead(b, "-" + next, "-" + event);
    SameHead("-", event, next);
    SameHead("-", next, event);
    if |Decimal(index + 1)| <= 6 || |Decimal(index + 1)| == |Decimal(index)| {
      LexConcat(i, j, "-" + suffix, "-" + "00000");
      LexAsymmetric(event, next);
    } else {
      assert event[0] == i[0] && next[0] == j[0];
    }
  }

  lemma SameHead(head: string, s: string, t: string)
    ensures LexLt(head + s, head + t) <==> LexLt(s, t)
  {
    LexIrreflexive(head);
    LexConcat(head, head, s, t);
  }

  /** The index after 999999 loses the order, the one after 1000000 has it again. */
  lemma OverflowExample(block: nat, suffix: string)
    ensures LexLt(GenerateId(block, 999999 + 1), EventId(block, 999999, suffix))
    ensures LexLt(EventId(block, 1000000, suffix), GenerateId(block, 1000000 + 1))
  {
    assert |Decimal(99)| == 2 && |Decimal(9999)| == 4 && |Decimal(999999)| == 6;
    assert |Decimal(100)| == 3 && |Decimal(10000)| == 5 && |Decimal(1000000)| == 7 && |Decimal(1000001)| == 7;
    StepKeepsOrder(block, 999999, suffix);
    StepKeepsOrder(block, 1000000, suffix);
  }
}
