/** Redis sorted sets: a score for each member, members ordered by score and then by name. */
module SortedSets {
  import opened Sequences
  import opened Strings

  type ZSet = map<string, int>

  predicate Before(s: int, m: string, t: int, n: string) {
    s < t || (s == t && LexLt(m, n))
  }

  predicate Precedes(z: ZSet, m: string, n: string)
    requires m in z && n in z
  {
    Before(z[m], m, z[n], n)
  }

  lemma BeforeIsStrictOrder(s: int, m: string, t: int, n: string, u: int, o: string)
    ensures !Before(s, m, s, m)
    ensures Before(s, m, t, n) ==> !Before(t, n, s, m)
    ensures m != n ==> Before(s, m, t, n) || Before(t, n, s, m)
    ensures Before(s, m, t, n) && Before(t, n, u, o) ==> Before(s, m, u, o)
  {
    LexIrreflexive(m);
    LexTotal(m, n);
    if LexLt(m, n) && LexLt(n, m) {
      LexTransitive(m, n, m);
    }
    if LexLt(m, n) && LexLt(n, o) {
      LexTransitive(m, n, o);
    }
  }

  predicate IsFirst(z: ZSet, m: string) {
    m in z && forall n | n in z && n != m :: Precedes(z, m, n)
  }

  lemma {:induction false} FirstExists(z: ZSet)
    requires z != map[]
    ensures exists m :: IsFirst(z, m)
    decreases |z|
  {
    var m :| m in z;
    var rest := z - {m};
    if rest == map[] {
      assert z.Keys == rest.Keys + {m};
      assert IsFirst(z, m);
    } else {
      FirstExists(rest);
      var f :| IsFirst(rest, f);
      forall n | n in z && n != m && n != f
        ensures n in rest && Precedes(z, f, n)
        ensures Precedes(z, m, f) ==> Precedes(z, m, n)
      {
        assert n in rest && Precedes(rest, f, n);
        BeforeIsStrictOrder(z[m], m, z[f], f, z[n], n);
      }
      BeforeIsStrictOrder(z[m], m, z[f], f, z[f], f);
      assert IsFirst(z, if Precedes(z, m, f) then m else f);
    }
  }

  lemma FirstIsUnique(z: ZSet, m: string, n: string)
    requires IsFirst(z, m) && IsFirst(z, n)
    ensures m == n
  {
    if m != n {
      BeforeIsStrictOrder(z[m], m, z[n], n, z[n], n);
    }
  }

  function First(z: ZSet): (m: string)
    requires z != map[]
    ensures IsFirst(z, m)
  {
    FirstExists(z);
    assert forall m, n | IsFirst(z, m) && IsFirst(z, n) :: m == n by {
      forall m, n | IsFirst(z, m) && IsFirst(z, n) ensures m == n { FirstIsUnique(z, m, n); }
    }
    var m :| m in z && IsFirst(z, m);
    m
  }

  predicate InOrder(z: ZSet, s: seq<string>) {
    && Members(s) <= z.Keys
    && forall i, j | 0 <= i < j < |s| :: s[i] in z && s[j] in z && Precedes(z, s[i], s[j])
  }

  /** ZRANGE z 0 -1: every member, lowest score first. */
  function Order(z: ZSet): (r: seq<string>)
    decreases |z|
  {
    if z == map[] then [] else
      var m := First(z);
      assert |z - {m}| < |z| by { assert (z - {m}).Keys == z.Keys - {m}; }
      [m] + Order(z - {m})
  }

  lemma FirstThenRest(z: ZSet, m: string, rest: seq<string>)
    requires IsFirst(z, m) && InOrder(z - {m}, rest)
    ensures InOrder(z, [m] + rest) && Members([m] + rest) == {m} + Members(rest)
  {
    var s := [m] + rest;
    assert forall i | 0 <= i < |rest| :: rest[i] in Members(rest);
    forall i, j | 0 <= i < j < |s| ensures s[i] in z && s[j] in z && Precedes(z, s[i], s[j]) {
      assert s[j] == rest[j - 1] && s[j] in z - {m};
      if i > 0 {
        assert s[i] == rest[i - 1] && Precedes(z - {m}, s[i], s[j]);
      }
    }
  }

  lemma {:induction false} OrderIsOrder(z: ZSet)
    ensures Members(Order(z)) == z.Keys && |Order(z)| == |z| && InOrder(z, Order(z))
    decreases |z|
  {
    if z != map[] {
      var m := First(z);
      assert (z - {m}).Keys == z.Keys - {m};
      OrderIsOrder(z - {m});
      FirstThenRest(z, m, Order(z - {m}));
    }
  }

  /** Members with a score up to `max`, the BYSCORE range from -inf. */
  function UpTo(z: ZSet, max: int): ZSet {
    map m | m in z && z[m] <= max :: z[m]
  }

  function Take(s: seq<string>, n: nat): (r: seq<string>)
    ensures r <= s && |r| == if n < |s| then n else |s|
  {
    if n < |s| then s[..n] else s
  }

  lemma OrderedIsDistinct(z: ZSet, s: seq<string>)
    requires InOrder(z, s)
    ensures NoRepeats(s)
  {
    forall i, j | 0 <= i < j < |s| ensures s[i] != s[j] {
      BeforeIsStrictOrder(z[s[i]], s[i], z[s[i]], s[i], z[s[i]], s[i]);
    }
  }

  lemma PrefixInOrder(z: ZSet, s: seq<string>, n: nat)
    requires InOrder(z, s) && n <= |s|
    ensures InOrder(z, s[..n])
  {
    assert Members(s[..n]) <= Members(s);
    forall i, j | 0 <= i < j < n ensures s[i] in z && s[j] in z && Precedes(z, s[i], s[j]) {}
  }

  /** The first `n` members: distinct, in order, and as many as there are up to `n`. */
  lemma TakenAreDistinct(z: ZSet, n: nat)
    ensures InOrder(z, Take(Order(z), n))
    ensures |Members(Take(Order(z), n))| == |Take(Order(z), n)| == if n < |z| then n else |z|
  {
    OrderIsOrder(z);
    PrefixInOrder(z, Order(z), |Take(Order(z), n)|);
    OrderedIsDistinct(z, Take(Order(z), n));
    MembersCount(Take(Order(z), n));
  }

  /** A member that is not among the first `n` follows each of them. */
  lemma LeftOutFollows(z: ZSet, n: nat, m: string, x: string)
    requires m in Take(Order(z), n) && x in z && x !in Take(Order(z), n)
    ensures m in z && Precedes(z, m, x) && |Take(Order(z), n)| == n
  {
    var order, taken := Order(z), Take(Order(z), n);
    OrderIsOrder(z);
    assert x in Members(order);
    var i :| 0 <= i < |taken| && taken[i] == m;
    var j :| 0 <= j < |order| && order[j] == x;
    assert forall k | 0 <= k < |taken| :: taken[k] == order[k];
  }
}
