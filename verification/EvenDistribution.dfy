/** The largest number of idle nodes a partition can offer when every cluster that takes
    part contributes equally many: `maxNodesEvenDistributed` in scripts/max_nodes_partition.py. */
module EvenDistribution {
  predicate Descending(s: seq<int>) {
    forall i, j :: 0 <= i <= j < |s| ==> s[j] <= s[i]
  }

  function Insert(x: int, s: seq<int>): (r: seq<int>)
    ensures multiset(r) == multiset(s) + multiset{x}
  {
    if s == [] || s[0] <= x then [x] + s
    else
      assert s == [s[0]] + s[1..];
      [s[0]] + Insert(x, s[1..])
  }

  /** Whatever insertion leaves in the list was in it or is the new element. */
  lemma InsertedOrThere(x: int, s: seq<int>, y: int)
    requires y in Insert(x, s)
    ensures y == x || y in s
  {
    assert y in multiset(Insert(x, s));
  }

  lemma PrependKeepsOrder(x: int, s: seq<int>)
    requires Descending(s) && forall y :: y in s ==> y <= x
    ensures Descending([x] + s)
  {
    var t := [x] + s;
    forall i, j | 0 <= i <= j < |t|
      ensures t[j] <= t[i]
    {
      if i == 0 && j > 0 {
        assert t[j] in s;
      }
    }
  }

  lemma {:induction false} InsertKeepsOrder(x: int, s: seq<int>)
    requires Descending(s)
    ensures Descending(Insert(x, s))
  {
    if s == [] || s[0] <= x {
      PrependKeepsOrder(x, s);
    } else {
      assert s == [s[0]] + s[1..];
      InsertKeepsOrder(x, s[1..]);
      forall y | y in Insert(x, s[1..])
        ensures y <= s[0]
      {
        InsertedOrThere(x, s[1..], y);
      }
      PrependKeepsOrder(s[0], Insert(x, s[1..]));
    }
  }

  /** What `list.sort(reverse=True)` leaves in the list. */
  function SortDescending(s: seq<int>): (r: seq<int>)
    ensures multiset(r) == multiset(s)
  {
    if s == [] then []
    else
      assert s == [s[0]] + s[1..];
      Insert(s[0], SortDescending(s[1..]))
  }

  lemma {:induction false} SortOrders(s: seq<int>)
    ensures Descending(SortDescending(s))
  {
    if s != [] {
      SortOrders(s[1..]);
      InsertKeepsOrder(s[0], SortDescending(s[1..]));
    }
  }

  lemma SortedLength(s: seq<int>)
    ensures |SortDescending(s)| == |s|
  {
    assert |multiset(SortDescending(s))| == |multiset(s)|;
  }

  /** A selection of clusters: a non-empty sub-multiset of the sizes; `share` nodes come from each. */
  ghost predicate Feasible(sizes: seq<int>, chosen: multiset<int>, share: int) {
    && chosen <= multiset(sizes)
    && |chosen| > 0
    && share in chosen
    && forall x :: x in chosen ==> share <= x
  }

  lemma SubsetSize<T>(a: multiset<T>, b: multiset<T>)
    requires a <= b
    ensures |a| <= |b|
  {
    assert b == a + (b - a);
  }

  /** The k-th largest size bounds the smallest member of every choice of k clusters. */
  lemma ShareBound(sorted: seq<int>, chosen: multiset<int>, share: int)
    requires Descending(sorted) && Feasible(sorted, chosen, share)
    ensures |chosen| <= |sorted|
    ensures share <= sorted[|chosen| - 1]
  {
    SubsetSize(chosen, multiset(sorted));
    var k := |chosen|;
    if share > sorted[k - 1] {
      var head, tail := sorted[..k - 1], sorted[k - 1..];
      assert sorted == head + tail;
      forall x | x in chosen
        ensures chosen[x] <= multiset(head)[x]
      {
        assert x !in tail;
        assert multiset(sorted)[x] == multiset(head)[x] + multiset(tail)[x];
      }
      SubsetSize(chosen, multiset(head));
      assert false;
    }
  }

  lemma ProductMonotone(k: nat, x: int, y: int)
    requires x <= y
    ensures k * x <= k * y
  {}

  /** The first k sizes, in descending order, are a choice that attains k times the k-th size. */
  lemma PrefixFeasible(sorted: seq<int>, k: nat)
    requires Descending(sorted) && 0 < k <= |sorted|
    ensures Feasible(sorted, multiset(sorted[..k]), sorted[k - 1])
    ensures |multiset(sorted[..k])| == k
  {
    assert sorted == sorted[..k] + sorted[k..];
    assert sorted[..k][k - 1] == sorted[k - 1];
  }

  /** No choice of clusters beats `best`, and some choice reaches it; 0 for a partition without clusters. */
  ghost predicate IsOptimum(sizes: seq<int>, best: int) {
    if sizes == [] then best == 0
    else
      && (forall chosen: multiset<int>, share: int :: Feasible(sizes, chosen, share) ==> |chosen| * share <= best)
      && (exists chosen: multiset<int>, share: int :: Feasible(sizes, chosen, share) && |chosen| * share == best)
  }

  /** A choice of k clusters gives at most the k-th product. */
  lemma ChoiceIsBelow(sizes: seq<int>, sorted: seq<int>, chosen: multiset<int>, share: int)
    requires Descending(sorted) && multiset(sorted) == multiset(sizes) && Feasible(sizes, chosen, share)
    ensures 0 < |chosen| <= |sorted| && |chosen| * share <= |chosen| * sorted[|chosen| - 1]
  {
    ShareBound(sorted, chosen, share);
    ProductMonotone(|chosen|, share, sorted[|chosen| - 1]);
  }

  /** Scanning the sorted sizes for the largest (i + 1) * sorted[i] finds the optimum. */
  lemma ScanIsOptimal(sizes: seq<int>, sorted: seq<int>, products: seq<int>, at: nat)
    requires Descending(sorted) && multiset(sorted) == multiset(sizes)
    requires |products| == |sorted| && at < |sorted|
    requires forall i :: 0 <= i < |sorted| ==> products[i] == (i + 1) * sorted[i]
    requires forall j :: 0 <= j < |sorted| ==> products[j] <= products[at]
    ensures IsOptimum(sizes, products[at])
  {
    assert sizes != [] by {
      assert sorted[at] in multiset(sorted);
    }
    forall chosen: multiset<int>, share: int | Feasible(sizes, chosen, share)
      ensures |chosen| * share <= products[at]
    {
      ChoiceIsBelow(sizes, sorted, chosen, share);
      assert products[|chosen| - 1] <= products[at];
    }
    PrefixFeasible(sorted, at + 1);
    assert Feasible(sizes, multiset(sorted[..at + 1]), sorted[at]);
  }

  class Partition {
    var nodeList: seq<int>

    constructor (sizes: seq<int>)
      ensures nodeList == sizes
    {
      nodeList := sizes;
    }

    method MaxNodesEvenDistributed() returns (best: int)
      modifies this
      ensures nodeList == SortDescending(old(nodeList))
      ensures IsOptimum(old(nodeList), best)
    {
      ghost var sizes := nodeList;
      SortedLength(sizes);
      SortOrders(sizes);
      nodeList := SortDescending(nodeList);
      if |nodeList| == 0 {
        return 0;
      }
      var products := Products(nodeList);
      var at := MaxIndex(products);
      best := products[at];
      ScanIsOptimal(sizes, nodeList, products, at);
    }
  }

  /** The list the index loop appends to: entry i is what the i + 1 largest clusters give together. */
  method Products(sorted: seq<int>) returns (maxNodeList: seq<int>)
    ensures |maxNodeList| == |sorted|
    ensures forall i :: 0 <= i < |sorted| ==> maxNodeList[i] == (i + 1) * sorted[i]
  {
    maxNodeList := [];
    for i := 0 to |sorted|
      invariant |maxNodeList| == i
      invariant forall j :: 0 <= j < i ==> maxNodeList[j] == (j + 1) * sorted[j]
    {
      maxNodeList := maxNodeList + [sorted[i] * (i + 1)];
    }
  }

  /** `max(...)` over a non-empty list. */
  method MaxIndex(s: seq<int>) returns (at: nat)
    requires s != []
    ensures at < |s|
    ensures forall j :: 0 <= j < |s| ==> s[j] <= s[at]
  {
    at := 0;
    for i := 1 to |s|
      invariant at < |s|
      invariant forall j :: 0 <= j < i ==> s[j] <= s[at]
    {
      if s[at] < s[i] {
        at := i;
      }
    }
  }
}
