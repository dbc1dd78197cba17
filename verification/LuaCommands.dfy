/** The two Lua commands of the gateway: they rewrite a flat reply array and hand it to ZADD. */
module LuaCommands {
  import opened Options
  import opened Sequences
  import opened SortedSets

  /** One entry of a Redis reply or of an argument list. */
  datatype Cell = Member(name: string) | Score(value: int)

  /** ZRANGE ... WITHSCORES replies with each member followed by its score. */
  function WithScores(z: ZSet, order: seq<string>): seq<Cell>
    requires Members(order) <= z.Keys
  {
    if order == [] then [] else
      assert order[0] in Members(order) && Members(order[1..]) <= Members(order);
      [Member(order[0]), Score(z[order[0]])] + WithScores(z, order[1..])
  }

  function AsMembers(order: seq<string>): seq<Cell> {
    seq(|order|, i requires 0 <= i < |order| => Member(order[i]))
  }

  /** ZADD reads score-member pairs; anything else is an error that adds nothing. */
  function ZAdd(z: ZSet, args: seq<Cell>): Option<ZSet>
    decreases |args|
  {
    if args == [] then Some(z)
    else if |args| >= 2 && args[0].Score? && args[1].Member? then ZAdd(z[args[1].name := args[0].value], args[2..])
    else None
  }

  function Restrict(z: ZSet, order: seq<string>): ZSet {
    map m | m in z && m in order :: z[m]
  }

  function Leases(order: seq<string>, expiry: int): ZSet {
    map m | m in order :: expiry
  }

  /** What the swap loop must leave: the cells of each pair exchanged, nothing else touched. */
  ghost predicate PairsSwapped(a: seq<Cell>, b: seq<Cell>) {
    |a| == |b| && forall k | 0 <= k < |a| / 2 :: b[2 * k] == a[2 * k + 1] && b[2 * k + 1] == a[2 * k]
  }

  /** What the insert loop must leave: `score` before each of the given cells, in order. */
  ghost predicate Interleaved(a: seq<Cell>, score: Cell, b: seq<Cell>) {
    |b| == 2 * |a| && forall k | 0 <= k < |a| :: b[2 * k] == score && b[2 * k + 1] == a[k]
  }

  /** The swapped reply, given to ZADD, merges exactly the selected members with their own scores. */
  lemma {:induction false} SwappedReplyMerges(z: ZSet, order: seq<string>, to: ZSet, b: seq<Cell>)
    requires Members(order) <= z.Keys
    requires PairsSwapped(WithScores(z, order), b)
    ensures |b| == 2 * |order| && ZAdd(to, b) == Some(to + Restrict(z, order))
  {
    var a := WithScores(z, order);
    if order == [] {
      assert to + Restrict(z, order) == to;
    } else {
      var m, rest := order[0], order[1..];
      assert m in Members(order) && Members(rest) <= Members(order);
      assert a[2..] == WithScores(z, rest);
      assert b[2 * 0] == a[1] && b[2 * 0 + 1] == a[0];
      forall k | 0 <= k < |a[2..]| / 2
        ensures b[2..][2 * k] == a[2..][2 * k + 1] && b[2..][2 * k + 1] == a[2..][2 * k]
      {
        assert b[2 * (k + 1)] == a[2 * (k + 1) + 1] && b[2 * (k + 1) + 1] == a[2 * (k + 1)];
      }
      SwappedReplyMerges(z, rest, to[m := z[m]], b[2..]);
      assert to[m := z[m]] + Restrict(z, rest) == to + Restrict(z, order);
    }
  }

  /** The interleaved member list, given to ZADD, merges one lease per member. */
  lemma {:induction false} InterleavedLeasesMerge(order: seq<string>, expiry: int, to: ZSet, b: seq<Cell>)
    requires Interleaved(AsMembers(order), Score(expiry), b)
    ensures ZAdd(to, b) == Some(to + Leases(order, expiry))
  {
    if order == [] {
      assert to + Leases(order, expiry) == to;
    } else {
      var m, rest := order[0], order[1..];
      assert b[2 * 0] == Score(expiry) && b[2 * 0 + 1] == Member(m);
      forall k | 0 <= k < |AsMembers(rest)|
        ensures b[2..][2 * k] == Score(expiry) && b[2..][2 * k + 1] == AsMembers(rest)[k]
      {
        assert b[2 * (k + 1)] == Score(expiry) && b[2 * (k + 1) + 1] == AsMembers(order)[k + 1];
      }
      InterleavedLeasesMerge(rest, expiry, to[m := expiry], b[2..]);
      assert to[m := expiry] + Leases(rest, expiry) == to + Leases(order, expiry);
    }
  }

  /** `for i=1,n/2`: exchange positions 2i-1 and 2i of the table (1-based). */
  method SwapPairs(subset: array<Cell>)
    requires subset.Length % 2 == 0
    modifies subset
    ensures PairsSwapped(old(subset[..]), subset[..])
  {
    for i := 1 to subset.Length / 2 + 1
      invariant forall k | 0 <= k < i - 1 ::
                  subset[2 * k] == old(subset[2 * k + 1]) && subset[2 * k + 1] == old(subset[2 * k])
      invariant forall p | 2 * (i - 1) <= p < subset.Length :: subset[p] == old(subset[p])
    {
      var pos1 := 2 * i;
      var pos2 := pos1 - 1;
      var swap := subset[pos1 - 1];
      subset[pos1 - 1] := subset[pos2 - 1];
      subset[pos2 - 1] := swap;
    }
  }

  function Interleave(a: seq<Cell>, score: Cell): seq<Cell> {
    if a == [] then [] else Interleave(a[..|a| - 1], score) + [score, a[|a| - 1]]
  }

  lemma {:induction false} InterleaveSpec(a: seq<Cell>, score: Cell)
    ensures Interleaved(a, score, Interleave(a, score))
  {
    if a != [] {
      InterleaveSpec(a[..|a| - 1], score);
    }
  }

  lemma InsertStep(members: seq<Cell>, i: nat, score: Cell, subset: seq<Cell>)
    requires 1 <= i <= |members|
    requires subset == Interleave(members[..i - 1], score) + members[i - 1..]
    ensures |subset| >= 2 * i - 1
    ensures subset[..2 * i - 2] + [score] + subset[2 * i - 2..] == Interleave(members[..i], score) + members[i..]
  {
    var done := Interleave(members[..i - 1], score);
    InterleaveSpec(members[..i - 1], score);
    assert members[..i][..i - 1] == members[..i - 1];
    assert Interleave(members[..i], score) == done + [score, members[i - 1]];
    assert subset[..2 * i - 2] == done && subset[2 * i - 2..] == members[i - 1..];
    assert members[i - 1..] == [members[i - 1]] + members[i..];
  }

  /** `for i=1,n do table.insert(subset, 2i-1, score)`: each insert shifts the rest of the table up. */
  method InsertScores(members: seq<Cell>, score: Cell) returns (subset: seq<Cell>)
    ensures Interleaved(members, score, subset)
  {
    subset := members;
    for i := 1 to |members| + 1
      invariant |subset| >= 2 * (i - 1)
      invariant subset == Interleave(members[..i - 1], score) + members[i - 1..]
    {
      var pos := 2 * i - 1;
      InsertStep(members, i, score, subset);
      subset := subset[..pos - 1] + [score] + subset[pos - 1..];
    }
    assert members[..|members|] == members && subset == Interleave(members, score);
    InterleaveSpec(members, score);
  }

  lemma {:induction false} WithScoresLength(z: ZSet, order: seq<string>)
    requires Members(order) <= z.Keys
    ensures |WithScores(z, order)| == 2 * |order|
  {
    if order != [] {
      assert Members(order[1..]) <= Members(order);
      WithScoresLength(z, order[1..]);
    }
  }

  lemma WholeReplyMerges(range: ZSet, to: ZSet)
    ensures Members(Order(range)) <= range.Keys
    ensures |WithScores(range, Order(range))| == 2 * |range|
    ensures forall b | PairsSwapped(WithScores(range, Order(range)), b) :: ZAdd(to, b) == Some(to + range)
  {
    OrderIsOrder(range);
    WithScoresLength(range, Order(range));
    forall m | m in range ensures m in Order(range) {
      assert m in Members(Order(range));
    }
    assert Restrict(range, Order(range)) == range;
    forall b | PairsSwapped(WithScores(range, Order(range)), b) ensures ZAdd(to, b) == Some(to + range) {
      SwappedReplyMerges(range, Order(range), to, b);
    }
  }

  /** The 'addzrangebyscore' command: copies the members of `from` scored up to `max`, scores included, into `to`. */
  method AddZRangeByScore(from: ZSet, to: ZSet, max: int) returns (result: ZSet, count: nat)
    ensures result == to + UpTo(from, max)
    ensures count == |UpTo(from, max)|
  {
    var range := UpTo(from, max);
    WholeReplyMerges(range, to);
    var reply := WithScores(range, Order(range));
    if |reply| == 0 {
      return to, 0;
    }
    var subset := new Cell[|reply|](i requires 0 <= i < |reply| => reply[i]);
    assert subset[..] == reply;
    SwapPairs(subset);
    result := ZAdd(to, subset[..]).value;
    count := |reply| / 2;
  }

  /** The 'nextzsubset' command: the first `limit` members of `from`, entered into `to` under one expiry. */
  method NextZSubset(from: ZSet, to: ZSet, limit: nat, expiry: int) returns (result: ZSet, picked: seq<string>)
    ensures picked == Take(Order(from), limit)
    ensures result == to + Leases(picked, expiry)
  {
    picked := Take(Order(from), limit);
    if |picked| == 0 {
      return to, [];
    }
    var subset := InsertScores(AsMembers(picked), Score(expiry));
    InterleavedLeasesMerge(picked, expiry, to, subset);
    result := ZAdd(to, subset).value;
  }
}
