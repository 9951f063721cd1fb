/** The candidate cycles: ordered selections of distinct currencies in the order
    itertools.permutations yields them, each closed by repeating its first currency. */
module Enumeration {

  /** No element occurs twice. */
  predicate Distinct<T(==)>(s: seq<T>)
  {
    forall i, j :: 0 <= i < j < |s| ==> s[i] != s[j]
  }

  /** The sequence without its element at index i, the others keeping their order. */
  function RemoveAt<T>(s: seq<T>, i: nat): (r: seq<T>)
    requires i < |s|
    ensures |r| == |s| - 1
  {
    s[..i] + s[i + 1..]
  }

  /** Each sequence of ps with x in front. */
  function PrependAll<T>(x: T, ps: seq<seq<T>>): seq<seq<T>>
  {
    seq(|ps|, j requires 0 <= j < |ps| => [x] + ps[j])
  }

  /** The k-permutations of the pool u in the order of itertools.permutations(u, k): by the
      index of the first element in the pool, then recursively among the remaining elements,
      which keeps the order of the pool's indices lexicographic. There are none when k
      exceeds the pool. */
  function Permutations<T>(u: seq<T>, k: nat): seq<seq<T>>
    decreases k, |u| + 1
  {
    if k == 0 then [[]] else PermutationsFrom(u, k, 0)
  }

  /** The k-permutations of u whose first element is taken from index i onwards. */
  function PermutationsFrom<T>(u: seq<T>, k: nat, i: nat): seq<seq<T>>
    requires 0 < k && i <= |u|
    decreases k, |u| - i
  {
    if i == |u| then []
    else PrependAll(u[i], Permutations(RemoveAt(u, i), k - 1)) + PermutationsFrom(u, k, i + 1)
  }

  /** A selection closed into a cycle by appending its first element. */
  function Close<T>(p: seq<T>): (c: seq<T>)
    requires |p| > 0
    ensures |c| == |p| + 1 && c[..|p|] == p && c[|p|] == c[0]
  {
    p + [p[0]]
  }

  /** Every selection of ps closed into a cycle. */
  function CloseAll<T>(ps: seq<seq<T>>): seq<seq<T>>
    requires forall j :: 0 <= j < |ps| ==> |ps[j]| > 0
  {
    seq(|ps|, j requires 0 <= j < |ps| => Close(ps[j]))
  }

  /** The smallest and one past the largest number of currencies in a cycle. */
  const MinLength := 3
  const MaxLength := 6

  /** The cycles of the lengths from MinLength up to but excluding n, shorter ones first. */
  function CyclesBelow<T>(u: seq<T>, n: nat): seq<seq<T>>
    decreases n
  {
    if n <= MinLength then []
    else
      PermutationLengths(u, n - 1);
      CyclesBelow(u, n - 1) + CloseAll(Permutations(u, n - 1))
  }

  /** Every cycle the engine evaluates, in the order it evaluates them. */
  function Cycles<T>(u: seq<T>): seq<seq<T>>
  {
    CyclesBelow(u, MaxLength)
  }

  /** A cycle of the engine: 3 to 5 currencies from u, pairwise distinct, followed by the
      first of them again. */
  predicate IsCycle<T(==)>(u: seq<T>, c: seq<T>)
  {
    MinLength <= |c| - 1 < MaxLength && c[|c| - 1] == c[0] && Distinct(c[..|c| - 1]) &&
    forall x :: x in c ==> x in u
  }

  /** Every element of p occurs in u. */
  predicate DrawnFrom<T(==)>(u: seq<T>, p: seq<T>)
  {
    forall x :: x in p ==> x in u
  }

  /** What every k-permutation of u is: k elements drawn from u, without repeats when u has
      none. */
  predicate Selection<T(==)>(u: seq<T>, k: nat, p: seq<T>)
  {
    |p| == k && DrawnFrom(u, p) && (Distinct(u) ==> Distinct(p))
  }

  /** Every k-permutation has length k. */
  lemma PermutationLengths<T>(u: seq<T>, k: nat)
    ensures forall j :: 0 <= j < |Permutations(u, k)| ==> |Permutations(u, k)[j]| == k
  {
    var ps := Permutations(u, k);
    PermutationShape(u, k);
    assert forall j :: 0 <= j < |ps| ==> ps[j] in ps;
  }

  /** Removing one element keeps the others, and keeps a distinct sequence distinct and
      without the removed element. */
  lemma RemoveAtMembers<T>(s: seq<T>, i: nat)
    requires i < |s|
    ensures forall x :: x in RemoveAt(s, i) ==> x in s
    ensures forall j :: 0 <= j < |s| && j != i ==> s[j] in RemoveAt(s, i)
    ensures Distinct(s) ==> Distinct(RemoveAt(s, i)) && s[i] !in RemoveAt(s, i)
  {
    var r := RemoveAt(s, i);
    assert forall j :: 0 <= j < |r| ==> r[j] == if j < i then s[j] else s[j + 1];
    forall j | 0 <= j < |s| && j != i
      ensures s[j] in r
    {
      if j < i { assert r[j] == s[j]; } else { assert r[j - 1] == s[j]; }
    }
  }

  /** Every k-permutation of u has length k and takes its elements from u; when u has no
      repeated element, neither has the permutation. */
  lemma {:induction false} PermutationShape<T>(u: seq<T>, k: nat)
    ensures forall p :: p in Permutations(u, k) ==> Selection(u, k, p)
    decreases k, |u| + 1
  {
    if k > 0 {
      PermutationFromShape(u, k, 0);
    }
  }

  lemma {:induction false} PermutationFromShape<T>(u: seq<T>, k: nat, i: nat)
    requires 0 < k && i <= |u|
    ensures forall p :: p in PermutationsFrom(u, k, i) ==> Selection(u, k, p) && p[0] in u[i..]
    decreases k, |u| - i
  {
    if i < |u| {
      var rest := RemoveAt(u, i);
      var tails := Permutations(rest, k - 1);
      PermutationShape(rest, k - 1);
      PermutationFromShape(u, k, i + 1);
      forall p | p in PermutationsFrom(u, k, i)
        ensures Selection(u, k, p) && p[0] in u[i..]
      {
        if p in PrependAll(u[i], tails) {
          PrependAllMember(u[i], tails, p);
          var q :| q in tails && p == [u[i]] + q;
          ConsShape(u, i, q);
        } else {
          assert p in PermutationsFrom(u, k, i + 1);
          SuffixMember(u, i, p[0]);
        }
      }
    }
  }

  /** Every sequence of PrependAll(x, ps) is x in front of a sequence of ps. */
  lemma PrependAllMember<T>(x: T, ps: seq<seq<T>>, p: seq<T>)
    requires p in PrependAll(x, ps)
    ensures exists q :: q in ps && p == [x] + q
  {
    var j :| 0 <= j < |ps| && PrependAll(x, ps)[j] == p;
    assert ps[j] in ps;
  }

  /** An element of u[i + 1..] is an element of u[i..]. */
  lemma SuffixMember<T>(u: seq<T>, i: nat, y: T)
    requires i < |u| && y in u[i + 1..]
    ensures y in u[i..]
  {
    var m :| 0 <= m < |u[i + 1..]| && u[i + 1..][m] == y;
    assert u[i..][m + 1] == y;
  }

  /** Putting u[i] in front of a selection from the rest of u gives a selection from u. */
  lemma ConsShape<T>(u: seq<T>, i: nat, q: seq<T>)
    requires i < |u| && Selection(RemoveAt(u, i), |q|, q)
    ensures ([u[i]] + q)[0] in u[i..]
    ensures Selection(u, |q| + 1, [u[i]] + q)
  {
    var p := [u[i]] + q;
    RemoveAtMembers(u, i);
    assert u[i..][0] == u[i];
    assert forall x :: x in p ==> x == u[i] || x in q;
    if Distinct(u) {
      forall a, b | 0 <= a < b < |p|
        ensures p[a] != p[b]
      {
        assert p[b] == q[b - 1];
        if a > 0 { assert p[a] == q[a - 1]; }
        else { assert q[b - 1] in q; }
      }
    }
  }

  /** Every selection of k distinct elements drawn from u is a k-permutation of u; u itself
      may have repeats. */
  lemma {:induction false} PermutationComplete<T>(u: seq<T>, k: nat, p: seq<T>)
    requires |p| == k && Distinct(p) && DrawnFrom(u, p)
    ensures p in Permutations(u, k)
    decreases k
  {
    if k == 0 {
      assert p == [];
    } else {
      assert p[0] in p;
      var i :| 0 <= i < |u| && u[i] == p[0];
      var q := p[1..];
      var rest := RemoveAt(u, i);
      RemoveAtMembers(u, i);
      forall x | x in q
        ensures x in rest
      {
        var a :| 0 <= a < |q| && q[a] == x;
        assert p[a + 1] == x && p[a + 1] != p[0];
        assert x in p;
        var j :| 0 <= j < |u| && u[j] == x;
        assert j != i;
      }
      assert Distinct(q) by {
        forall a, b | 0 <= a < b < |q|
          ensures q[a] != q[b]
        {
          assert q[a] == p[a + 1] && q[b] == p[b + 1];
        }
      }
      PermutationComplete(rest, k - 1, q);
      FromContains(u, k, 0, i, q);
      assert p == [u[i]] + q;
    }
  }

  /** A permutation of the rest of u after removing u[i], with u[i] in front, is among the
      permutations whose first element comes from index i0 <= i onwards. */
  lemma {:induction false} FromContains<T>(u: seq<T>, k: nat, i0: nat, i: nat, q: seq<T>)
    requires 0 < k && i0 <= i < |u|
    requires q in Permutations(RemoveAt(u, i), k - 1)
    ensures [u[i]] + q in PermutationsFrom(u, k, i0)
    decreases i - i0
  {
    var tails := Permutations(RemoveAt(u, i0), k - 1);
    var head := PrependAll(u[i0], tails);
    var rest := PermutationsFrom(u, k, i0 + 1);
    assert PermutationsFrom(u, k, i0) == head + rest;
    if i0 == i {
      var j :| 0 <= j < |tails| && tails[j] == q;
      assert head[j] == [u[i]] + q;
      assert (head + rest)[j] == head[j];
    } else {
      FromContains(u, k, i0 + 1, i, q);
      var j :| 0 <= j < |rest| && rest[j] == [u[i]] + q;
      assert (head + rest)[|head| + j] == rest[j];
    }
  }

  /** Two sequences without repeats and without a common element concatenate to one. */
  lemma DistinctConcat<T>(a: seq<T>, b: seq<T>)
    requires Distinct(a) && Distinct(b)
    requires forall x :: x in a ==> x !in b
    ensures Distinct(a + b)
  {
    var c := a + b;
    forall i, j | 0 <= i < j < |c|
      ensures c[i] != c[j]
    {
      if j >= |a| && i < |a| {
        assert c[i] == a[i] && c[j] == b[j - |a|];
        assert a[i] in a && b[j - |a|] in b;
      } else if i >= |a| {
        assert c[i] == b[i - |a|] && c[j] == b[j - |a|];
      } else {
        assert c[i] == a[i] && c[j] == a[j];
      }
    }
  }

  /** Putting the same element in front keeps distinct sequences distinct. */
  lemma PrependAllDistinct<T>(x: T, ps: seq<seq<T>>)
    requires Distinct(ps)
    ensures Distinct(PrependAll(x, ps))
  {
    var r := PrependAll(x, ps);
    forall i, j | 0 <= i < j < |r|
      ensures r[i] != r[j]
    {
      assert r[i][1..] == ps[i] && r[j][1..] == ps[j];
    }
  }

  /** Over a pool without repeats, no k-permutation is listed twice. */
  lemma {:induction false} PermutationsDistinct<T>(u: seq<T>, k: nat)
    requires Distinct(u)
    ensures Distinct(Permutations(u, k))
    decreases k, |u| + 1
  {
    if k > 0 {
      PermutationsFromDistinct(u, k, 0);
    }
  }

  lemma {:induction false} PermutationsFromDistinct<T>(u: seq<T>, k: nat, i: nat)
    requires Distinct(u) && 0 < k && i <= |u|
    ensures Distinct(PermutationsFrom(u, k, i))
    decreases k, |u| - i
  {
    if i < |u| {
      var tails := Permutations(RemoveAt(u, i), k - 1);
      var head := PrependAll(u[i], tails);
      var rest := PermutationsFrom(u, k, i + 1);
      RemoveAtMembers(u, i);
      PermutationsDistinct(RemoveAt(u, i), k - 1);
      PrependAllDistinct(u[i], tails);
      PermutationsFromDistinct(u, k, i + 1);
      PermutationFromShape(u, k, i + 1);
      assert forall p :: p in head ==> |p| > 0 && p[0] == u[i];
      forall p | p in rest
        ensures p !in head
      {
        HeadAfter(u, i, p[0]);
      }
      DistinctConcat(head, rest);
    }
  }

  /** In a pool without repeats, u[i] does not occur after index i. */
  lemma HeadAfter<T>(u: seq<T>, i: nat, y: T)
    requires Distinct(u) && i < |u| && y in u[i + 1..]
    ensures y != u[i]
  {
    var m :| 0 <= m < |u[i + 1..]| && u[i + 1..][m] == y;
    assert u[i + 1 + m] == y;
  }

  /** A cycle built by Close: its last element repeats its first, and what precedes it is a
      selection from u. */
  predicate ClosedSelection<T(==)>(u: seq<T>, c: seq<T>)
  {
    |c| > 0 && c[|c| - 1] == c[0] && Selection(u, |c| - 1, c[..|c| - 1])
  }

  /** Every cycle below n closes a selection of MinLength up to n - 1 elements. */
  lemma {:induction false} CyclesBelowShape<T>(u: seq<T>, n: nat)
    ensures forall c :: c in CyclesBelow(u, n) ==> MinLength < |c| <= n && ClosedSelection(u, c)
    decreases n
  {
    if n > MinLength {
      CyclesBelowShape(u, n - 1);
      var ps := Permutations(u, n - 1);
      PermutationShape(u, n - 1);
      assert forall j :: 0 <= j < |ps| ==> ps[j] in ps;
      var closed := CloseAll(ps);
      assert CyclesBelow(u, n) == CyclesBelow(u, n - 1) + closed;
      forall c | c in closed
        ensures |c| == n && ClosedSelection(u, c)
      {
        var j :| 0 <= j < |closed| && closed[j] == c;
        assert c == Close(ps[j]);
      }
    }
  }

  /** The cycles below n + 1 extend those below n by the closed n-permutations. */
  lemma CyclesBelowNext<T>(u: seq<T>, n: nat)
    requires MinLength <= n
    ensures forall j :: 0 <= j < |Permutations(u, n)| ==> |Permutations(u, n)[j]| > 0
    ensures CyclesBelow(u, n + 1) == CyclesBelow(u, n) + CloseAll(Permutations(u, n))
  {
    var ps := Permutations(u, n);
    PermutationShape(u, n);
    assert forall j :: 0 <= j < |ps| ==> ps[j] in ps;
  }

  /** The cycles below m come first among the cycles below any n >= m. */
  lemma {:induction false} CyclesBelowPrefix<T>(u: seq<T>, m: nat, n: nat)
    requires m <= n
    ensures CyclesBelow(u, m) <= CyclesBelow(u, n)
    decreases n - m
  {
    if m < n {
      CyclesBelowPrefix(u, m, n - 1);
      if n > MinLength {
        assert CyclesBelow(u, n - 1) <= CyclesBelow(u, n);
      }
    }
  }

  /** A closed selection from u contains only elements of u. */
  lemma ClosedDrawnFrom<T>(u: seq<T>, c: seq<T>)
    requires ClosedSelection(u, c) && |c| > 1
    ensures DrawnFrom(u, c)
  {
    var p := c[..|c| - 1];
    forall x | x in c
      ensures x in u
    {
      var j :| 0 <= j < |c| && c[j] == x;
      if j < |c| - 1 { assert p[j] == x; } else { assert p[0] == x; }
    }
  }

  /** Over a pool without repeats, every enumerated cycle has 3 to 5 distinct elements of the
      pool and ends where it starts. */
  lemma CyclesSound<T>(u: seq<T>)
    requires Distinct(u)
    ensures forall c :: c in Cycles(u) ==> IsCycle(u, c)
  {
    CyclesBelowShape(u, MaxLength);
    forall c | c in Cycles(u)
      ensures IsCycle(u, c)
    {
      ClosedDrawnFrom(u, c);
    }
  }

  /** Every cycle of 3 to 5 distinct elements of the pool is enumerated. */
  lemma CyclesComplete<T>(u: seq<T>, c: seq<T>)
    requires IsCycle(u, c)
    ensures c in Cycles(u)
  {
    var k := |c| - 1;
    OpenCycle(u, c);
    PermutationComplete(u, k, c[..k]);
    CloseMember(u, k, c[..k]);
    CyclesBelowPrefix(u, k + 1, MaxLength);
    PrefixMember(CyclesBelow(u, k + 1), Cycles(u), c);
  }

  /** A cycle is the closing of its selection: the elements before its last one, which are
      distinct and drawn from the pool. */
  lemma OpenCycle<T>(u: seq<T>, c: seq<T>)
    requires IsCycle(u, c)
    ensures |c[..|c| - 1]| == |c| - 1 && Distinct(c[..|c| - 1]) && DrawnFrom(u, c[..|c| - 1])
    ensures Close(c[..|c| - 1]) == c
  {
    var p := c[..|c| - 1];
    assert forall x :: x in p ==> x in c;
    assert p + [p[0]] == c;
  }

  /** A closed k-permutation is among the cycles below k + 1. */
  lemma CloseMember<T>(u: seq<T>, k: nat, p: seq<T>)
    requires MinLength <= k && p in Permutations(u, k)
    ensures |p| > 0 && Close(p) in CyclesBelow(u, k + 1)
  {
    var ps := Permutations(u, k);
    PermutationShape(u, k);
    assert forall j :: 0 <= j < |ps| ==> ps[j] in ps;
    var j :| 0 <= j < |ps| && ps[j] == p;
    var before := CyclesBelow(u, k);
    var closed := CloseAll(ps);
    assert CyclesBelow(u, k + 1) == before + closed;
    assert (before + closed)[|before| + j] == closed[j] == Close(p);
  }

  lemma PrefixMember<T>(a: seq<T>, b: seq<T>, x: T)
    requires a <= b && x in a
    ensures x in b
  {
    var j :| 0 <= j < |a| && a[j] == x;
    assert b[j] == x;
  }

  /** Closing is injective, so distinct selections give distinct cycles. */
  lemma CloseAllDistinct<T>(ps: seq<seq<T>>)
    requires forall j :: 0 <= j < |ps| ==> |ps[j]| > 0
    requires Distinct(ps)
    ensures Distinct(CloseAll(ps))
  {
    var r := CloseAll(ps);
    forall i, j | 0 <= i < j < |r|
      ensures r[i] != r[j]
    {
      assert r[i][..|ps[i]|] == ps[i] && r[j][..|ps[j]|] == ps[j];
    }
  }

  /** Over a pool without repeats, no cycle is enumerated twice. */
  lemma {:induction false} CyclesBelowDistinct<T>(u: seq<T>, n: nat)
    requires Distinct(u)
    ensures Distinct(CyclesBelow(u, n))
    decreases n
  {
    if n > MinLength {
      CyclesBelowDistinct(u, n - 1);
      PermutationLengths(u, n - 1);
      PermutationsDistinct(u, n - 1);
      CloseAllDistinct(Permutations(u, n - 1));
      ShorterFirst(u, n - 1);
      DistinctConcat(CyclesBelow(u, n - 1), CloseAll(Permutations(u, n - 1)));
    }
  }

  /** The cycles below k are all shorter than the closed k-permutations, so none is one of them. */
  lemma ShorterFirst<T>(u: seq<T>, k: nat)
    requires MinLength <= k
    ensures forall j :: 0 <= j < |Permutations(u, k)| ==> |Permutations(u, k)[j]| == k
    ensures forall c :: c in CyclesBelow(u, k) ==> c !in CloseAll(Permutations(u, k))
  {
    PermutationLengths(u, k);
    CyclesBelowLengths(u, k);
    ClosedLengths(u, k);
  }

  /** Every cycle below n has more than MinLength and at most n elements. */
  lemma {:induction false} CyclesBelowLengths<T>(u: seq<T>, n: nat)
    ensures forall c :: c in CyclesBelow(u, n) ==> MinLength < |c| <= n
    decreases n
  {
    if n > MinLength {
      CyclesBelowLengths(u, n - 1);
      ClosedLengths(u, n - 1);
    }
  }

  /** Every closed k-permutation has k + 1 elements. */
  lemma ClosedLengths<T>(u: seq<T>, k: nat)
    requires 0 < k
    ensures forall j :: 0 <= j < |Permutations(u, k)| ==> |Permutations(u, k)[j]| == k
    ensures forall c :: c in CloseAll(Permutations(u, k)) ==> |c| == k + 1
  {
    PermutationLengths(u, k);
    var closed := CloseAll(Permutations(u, k));
    forall c | c in closed
      ensures |c| == k + 1
    {
      var j :| 0 <= j < |closed| && closed[j] == c;
    }
  }

  /** Each cycle of the enumeration appears in it exactly once. */
  lemma CyclesDistinct<T>(u: seq<T>)
    requires Distinct(u)
    ensures Distinct(Cycles(u))
  {
    CyclesBelowDistinct(u, MaxLength);
  }

  /** Shorter cycles come before longer ones. */
  lemma {:induction false} CyclesBelowOrdered<T>(u: seq<T>, n: nat)
    ensures forall i, j :: 0 <= i < j < |CyclesBelow(u, n)| ==> |CyclesBelow(u, n)[i]| <= |CyclesBelow(u, n)[j]|
    decreases n
  {
    if n > MinLength {
      CyclesBelowOrdered(u, n - 1);
      CyclesBelowIndexedLengths(u, n - 1);
      PermutationLengths(u, n - 1);
      OrderedConcat(CyclesBelow(u, n - 1), CloseAll(Permutations(u, n - 1)), n);
    }
  }

  /** The cycles below n, by index, have at most n elements each. */
  lemma CyclesBelowIndexedLengths<T>(u: seq<T>, n: nat)
    ensures forall j :: 0 <= j < |CyclesBelow(u, n)| ==> |CyclesBelow(u, n)[j]| <= n
  {
    var cycles := CyclesBelow(u, n);
    CyclesBelowLengths(u, n);
    assert forall j :: 0 <= j < |cycles| ==> cycles[j] in cycles;
  }

  /** A sequence ordered by length, followed by one whose elements all have the largest
      length n, stays ordered by length. */
  lemma OrderedConcat<T>(a: seq<seq<T>>, b: seq<seq<T>>, n: nat)
    requires forall i, j :: 0 <= i < j < |a| ==> |a[i]| <= |a[j]|
    requires forall i :: 0 <= i < |a| ==> |a[i]| <= n
    requires forall j :: 0 <= j < |b| ==> |b[j]| == n
    ensures forall i, j :: 0 <= i < j < |a + b| ==> |(a + b)[i]| <= |(a + b)[j]|
  {
    var c := a + b;
    forall i, j | 0 <= i < j < |c|
      ensures |c[i]| <= |c[j]|
    {
      if j >= |a| {
        assert c[j] == b[j - |a|];
        if i < |a| { assert c[i] == a[i]; } else { assert c[i] == b[i - |a|]; }
      } else {
        assert c[i] == a[i] && c[j] == a[j];
      }
    }
  }

  /** The enumeration runs through the lengths in increasing order. */
  lemma CyclesOrdered<T>(u: seq<T>)
    ensures forall i, j :: 0 <= i < j < |Cycles(u)| ==> |Cycles(u)[i]| <= |Cycles(u)[j]|
  {
    CyclesBelowOrdered(u, MaxLength);
  }
  /** The order of itertools.permutations on a small pool: by the pool index of the first
      element, then of the second. */
  lemma PermutationsExample()
    ensures Permutations([1, 2, 3], 2) == [[1, 2], [1, 3], [2, 1], [2, 3], [3, 1], [3, 2]]
  {
    var u := [1, 2, 3];
    assert RemoveAt(u, 0) == [2, 3];
    assert RemoveAt(u, 1) == [1, 3];
    assert RemoveAt(u, 2) == [1, 2];
    SingletonsOfPair(2, 3);
    SingletonsOfPair(1, 3);
    SingletonsOfPair(1, 2);
    PrependPair(1, 2, 3);
    PrependPair(2, 1, 3);
    PrependPair(3, 1, 2);
    assert PermutationsFrom(u, 2, 3) == [];
    assert PermutationsFrom(u, 2, 2) == [[3, 1], [3, 2]];
    assert PermutationsFrom(u, 2, 1) == [[2, 1], [2, 3], [3, 1], [3, 2]];
  }

  lemma SingletonsOfPair<T>(a: T, b: T)
    ensures Permutations([a, b], 1) == [[a], [b]]
  {
    var u := [a, b];
    assert RemoveAt(u, 0) == [b] && RemoveAt(u, 1) == [a];
    Singleton(a, [b]);
    Singleton(b, [a]);
    assert PermutationsFrom(u, 1, 2) == [];
    assert PermutationsFrom(u, 1, 1) == [[b]];
    assert PermutationsFrom(u, 1, 0) == [[a]] + [[b]];
  }

  lemma PrependPair<T>(x: T, a: T, b: T)
    ensures PrependAll(x, [[a], [b]]) == [[x, a], [x, b]]
  {
    var r := PrependAll(x, [[a], [b]]);
    assert |r| == 2;
    assert r[0] == [x] + [a] == [x, a];
    assert r[1] == [x] + [b] == [x, b];
  }

  lemma Singleton<T>(x: T, rest: seq<T>)
    ensures PrependAll(x, Permutations(rest, 0)) == [[x]]
  {
    var r := PrependAll(x, Permutations(rest, 0));
    assert Permutations(rest, 0) == [[]];
    assert |r| == 1 && r[0] == [x] + [] == [x];
  }
}
