/** The opportunity triples and their ranking: a stable sort by profit, largest first, as
    sorted(..., key=profit, reverse=True) performs it. */
module Ranking {

  import opened Rates

  /** One reported opportunity: the closed path, its profit fraction, and that fraction of
      the initial amount. */
  datatype Opportunity = Opportunity(path: seq<Currency>, profit: real, amount: real)

  /** Profits never increase along the sequence. */
  predicate SortedByProfit(s: seq<Opportunity>)
  {
    forall i, j :: 0 <= i < j < |s| ==> s[i].profit >= s[j].profit
  }

  /** The opportunities of s whose profit is v, in their order in s. */
  function WithProfit(s: seq<Opportunity>, v: real): seq<Opportunity>
  {
    if s == [] then []
    else (if s[0].profit == v then [s[0]] else []) + WithProfit(s[1..], v)
  }

  /** Path lengths never decrease along the sequence: shorter cycles come first. */
  predicate LengthOrdered(s: seq<Opportunity>)
  {
    forall i, j :: 0 <= i < j < |s| ==> |s[i].path| <= |s[j].path|
  }

  /** o placed after every leading opportunity whose profit is at least its own. */
  function InsertByProfit(o: Opportunity, s: seq<Opportunity>): seq<Opportunity>
  {
    if s == [] then [o]
    else if s[0].profit >= o.profit then [s[0]] + InsertByProfit(o, s[1..])
    else [o] + s
  }

  /** The stable descending sort: each opportunity, in order, is inserted after all earlier
      ones whose profit is at least its own. */
  function SortByProfit(s: seq<Opportunity>): seq<Opportunity>
  {
    if s == [] then []
    else InsertByProfit(s[|s| - 1], SortByProfit(s[..|s| - 1]))
  }

  /** Inserting adds exactly o. */
  lemma {:induction false} InsertByProfitMultiset(o: Opportunity, s: seq<Opportunity>)
    ensures multiset(InsertByProfit(o, s)) == multiset(s) + multiset{o}
  {
    if s != [] && s[0].profit >= o.profit {
      InsertByProfitMultiset(o, s[1..]);
      assert s == [s[0]] + s[1..];
    }
  }

  /** Inserting keeps a sorted sequence sorted. */
  lemma {:induction false} InsertByProfitSorted(o: Opportunity, s: seq<Opportunity>)
    requires SortedByProfit(s)
    ensures SortedByProfit(InsertByProfit(o, s))
  {
    if s != [] && s[0].profit >= o.profit {
      var t := InsertByProfit(o, s[1..]);
      InsertByProfitSorted(o, s[1..]);
      InsertByProfitMultiset(o, s[1..]);
      forall j | 0 <= j < |t|
        ensures s[0].profit >= t[j].profit
      {
        assert t[j] in multiset(t);
        assert t[j] in s[1..] || t[j] == o;
      }
      SortedCons(s[0], t);
    } else if s != [] {
      SortedCons(o, s);
    }
  }

  /** An opportunity in front of a sorted sequence of smaller or equal profits keeps it sorted. */
  lemma SortedCons(x: Opportunity, t: seq<Opportunity>)
    requires SortedByProfit(t)
    requires forall j :: 0 <= j < |t| ==> x.profit >= t[j].profit
    ensures SortedByProfit([x] + t)
  {
    var r := [x] + t;
    forall i, j | 0 <= i < j < |r|
      ensures r[i].profit >= r[j].profit
    {
      assert r[j] == t[j - 1];
      if i > 0 { assert r[i] == t[i - 1]; }
    }
  }

  /** The result is sorted by profit, largest first. */
  lemma {:induction false} SortByProfitSorted(s: seq<Opportunity>)
    ensures SortedByProfit(SortByProfit(s))
  {
    if s != [] {
      SortByProfitSorted(s[..|s| - 1]);
      InsertByProfitSorted(s[|s| - 1], SortByProfit(s[..|s| - 1]));
    }
  }

  /** The result is a rearrangement of the input: every opportunity is kept, as often as it
      occurs, and none is added. */
  lemma {:induction false} SortByProfitPermutes(s: seq<Opportunity>)
    ensures multiset(SortByProfit(s)) == multiset(s)
  {
    if s != [] {
      var n := |s| - 1;
      SortByProfitPermutes(s[..n]);
      InsertByProfitMultiset(s[n], SortByProfit(s[..n]));
      LastSplit(s);
    }
  }

  /** A nonempty sequence holds its last element and the elements before it. */
  lemma LastSplit(s: seq<Opportunity>)
    requires s != []
    ensures multiset(s) == multiset(s[..|s| - 1]) + multiset{s[|s| - 1]}
  {
    assert s == s[..|s| - 1] + [s[|s| - 1]];
  }

  lemma {:induction false} WithProfitConcat(a: seq<Opportunity>, b: seq<Opportunity>, v: real)
    ensures WithProfit(a + b, v) == WithProfit(a, v) + WithProfit(b, v)
  {
    if a != [] {
      assert (a + b)[1..] == a[1..] + b;
      WithProfitConcat(a[1..], b, v);
    } else {
      assert a + b == b;
    }
  }

  /** Opportunities whose profits all fall below v contribute nothing of profit v. */
  lemma {:induction false} WithProfitNone(s: seq<Opportunity>, v: real)
    requires forall j :: 0 <= j < |s| ==> s[j].profit < v
    ensures WithProfit(s, v) == []
  {
    if s != [] {
      WithProfitNone(s[1..], v);
    }
  }

  /** Inserting o into a sorted sequence puts it after every opportunity of equal profit. */
  lemma {:induction false} InsertByProfitStable(o: Opportunity, s: seq<Opportunity>, v: real)
    requires SortedByProfit(s)
    ensures WithProfit(InsertByProfit(o, s), v) == WithProfit(s, v) + WithProfit([o], v)
  {
    if s == [] {
      assert WithProfit([], v) == [];
    } else if s[0].profit >= o.profit {
      InsertByProfitStable(o, s[1..], v);
      WithProfitConcat([s[0]], InsertByProfit(o, s[1..]), v);
      assert WithProfit([s[0]], v) == if s[0].profit == v then [s[0]] else [];
    } else {
      WithProfitConcat([o], s, v);
      if o.profit == v {
        WithProfitNone(s, v);
        assert WithProfit([o], v) == [o];
      } else {
        assert WithProfit([o], v) == [];
      }
    }
  }

  /** Stability: among opportunities of equal profit the sort keeps the input order. */
  lemma {:induction false} SortByProfitStable(s: seq<Opportunity>, v: real)
    ensures WithProfit(SortByProfit(s), v) == WithProfit(s, v)
  {
    if s != [] {
      var n := |s| - 1;
      SortByProfitStable(s[..n], v);
      SortByProfitSorted(s[..n]);
      InsertByProfitStable(s[n], SortByProfit(s[..n]), v);
      assert s == s[..n] + [s[n]];
      WithProfitConcat(s[..n], [s[n]], v);
    }
  }

  /** The opportunities of one profit are taken from s in order, so they keep the order of
      path lengths s has. */
  lemma {:induction false} WithProfitLengthOrdered(s: seq<Opportunity>, v: real)
    requires LengthOrdered(s)
    ensures forall o :: o in WithProfit(s, v) ==> o in s
    ensures LengthOrdered(WithProfit(s, v))
  {
    if s != [] {
      var t := WithProfit(s[1..], v);
      WithProfitLengthOrdered(s[1..], v);
      if s[0].profit == v {
        var w := [s[0]] + t;
        assert WithProfit(s, v) == w;
        forall i, j | 0 <= i < j < |w|
          ensures |w[i].path| <= |w[j].path|
        {
          if i == 0 {
            assert w[j] in s[1..];
          } else {
            assert w[i] == t[i - 1] && w[j] == t[j - 1];
          }
        }
      } else {
        assert WithProfit(s, v) == t;
      }
    }
  }
}
