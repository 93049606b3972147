/** The specification of z-ordering: a linear scan over everything inserted so far,
    and what the resulting orders mean. */
module ZOrder {
  import opened Geometry

  /** The largest order among the bounds that the query intersects, 0 if there is none. */
  ghost function MaxIntersecting(bs: seq<Bounds>, orders: seq<nat>, query: Bounds): nat
    requires |bs| == |orders|
  {
    if bs == [] then 0
    else
      var n := |bs| - 1;
      var rest := MaxIntersecting(bs[..n], orders[..n], query);
      if query.Intersects(bs[n]) && rest < orders[n] then orders[n] else rest
  }

  lemma {:induction false} MaxIntersectingIsMax(bs: seq<Bounds>, orders: seq<nat>, query: Bounds)
    requires |bs| == |orders|
    ensures var m := MaxIntersecting(bs, orders, query);
            && (forall k :: 0 <= k < |bs| && query.Intersects(bs[k]) ==> orders[k] <= m)
            && (m == 0 || exists k :: 0 <= k < |bs| && query.Intersects(bs[k]) && orders[k] == m)
  {
    if bs != [] {
      var n := |bs| - 1;
      MaxIntersectingIsMax(bs[..n], orders[..n], query);
      var rest := MaxIntersecting(bs[..n], orders[..n], query);
      if rest != 0 {
        var k :| 0 <= k < n && query.Intersects(bs[..n][k]) && orders[..n][k] == rest;
        assert query.Intersects(bs[k]) && orders[k] == rest;
      }
      forall k | 0 <= k < n && query.Intersects(bs[k])
        ensures orders[k] <= rest
      {
        assert bs[..n][k] == bs[k] && orders[..n][k] == orders[k];
      }
    }
  }

  /** MaxIntersecting is the only number with these two properties. */
  lemma MaxIntersectingUnique(bs: seq<Bounds>, orders: seq<nat>, query: Bounds, m: nat)
    requires |bs| == |orders|
    requires forall k :: 0 <= k < |bs| && query.Intersects(bs[k]) ==> orders[k] <= m
    requires m == 0 || exists k :: 0 <= k < |bs| && query.Intersects(bs[k]) && orders[k] == m
    ensures m == MaxIntersecting(bs, orders, query)
  {
    MaxIntersectingIsMax(bs, orders, query);
  }

  /** The orders a list scan assigns when the bounds are inserted one after the other. */
  ghost function Orders(bs: seq<Bounds>): (orders: seq<nat>)
    ensures |orders| == |bs|
  {
    if bs == [] then []
    else
      var n := |bs| - 1;
      var before := Orders(bs[..n]);
      before + [1 + MaxIntersecting(bs[..n], before, bs[n])]
  }

  lemma OrdersStep(bs: seq<Bounds>, before: seq<Bounds>, last: Bounds)
    requires bs != [] && bs[..|bs| - 1] == before && bs[|bs| - 1] == last
    ensures Orders(bs) == Orders(before) + [1 + MaxIntersecting(before, Orders(before), last)]
  {
  }

  lemma OrdersGrow(log: seq<Bounds>, bounds: Bounds)
    ensures Orders(log + [bounds]) == Orders(log) + [1 + MaxIntersecting(log, Orders(log), bounds)]
  {
    OrdersStep(log + [bounds], log, bounds);
  }

  /** Later insertions never change an order already given. */
  lemma {:induction false} OrdersPrefix(bs: seq<Bounds>, n: nat)
    requires n <= |bs|
    ensures Orders(bs)[..n] == Orders(bs[..n])
    decreases |bs|
  {
    if n == |bs| {
      assert bs[..n] == bs;
    } else {
      var m := |bs| - 1;
      OrdersPrefix(bs[..m], n);
      assert bs[..m][..n] == bs[..n];
      assert Orders(bs)[..n] == Orders(bs[..m])[..n];
    }
  }

  lemma {:induction false} OrderAt(bs: seq<Bounds>, i: nat)
    requires i < |bs|
    ensures Orders(bs)[i] == 1 + MaxIntersecting(bs[..i], Orders(bs)[..i], bs[i])
  {
    OrdersPrefix(bs, i);
    OrdersPrefix(bs, i + 1);
    assert bs[..i + 1][..i] == bs[..i];
    assert Orders(bs)[i] == Orders(bs)[..i + 1][i];
  }

  /** No order exceeds the number of insertions made, so an unsigned 32-bit order cannot wrap
      before 2^32 bounds have been inserted. */
  lemma {:induction false} OrderAtMostCount(bs: seq<Bounds>, i: nat)
    requires i < |bs|
    ensures 1 <= Orders(bs)[i] <= i + 1
  {
    OrderAt(bs, i);
    var m := MaxIntersecting(bs[..i], Orders(bs)[..i], bs[i]);
    MaxIntersectingIsMax(bs[..i], Orders(bs)[..i], bs[i]);
    if m != 0 {
      var k :| 0 <= k < i && bs[i].Intersects(bs[..i][k]) && Orders(bs)[..i][k] == m;
      OrderAtMostCount(bs, k);
    }
  }

  /** Of two intersecting bounds the one inserted later is strictly above. */
  lemma LaterIsAbove(bs: seq<Bounds>, i: nat, j: nat)
    requires i < j < |bs| && bs[i].Intersects(bs[j])
    ensures Orders(bs)[i] < Orders(bs)[j]
  {
    OrderAt(bs, j);
    MaxIntersectingIsMax(bs[..j], Orders(bs)[..j], bs[j]);
    IntersectsSymmetric(bs[i], bs[j]);
    assert bs[j].Intersects(bs[..j][i]);
    assert Orders(bs)[..j][i] == Orders(bs)[i];
  }

  /** Indices of successively inserted bounds, each intersecting the next. */
  ghost predicate IsChain(bs: seq<Bounds>, chain: seq<nat>) {
    && (forall k :: 0 <= k < |chain| ==> chain[k] < |bs|)
    && (forall k :: 0 < k < |chain| ==> chain[k - 1] < chain[k] && bs[chain[k - 1]].Intersects(bs[chain[k]]))
  }

  lemma {:induction false} ChainNoLongerThanOrder(bs: seq<Bounds>, chain: seq<nat>)
    requires IsChain(bs, chain) && chain != []
    ensures |chain| <= Orders(bs)[chain[|chain| - 1]]
  {
    var n := |chain| - 1;
    OrderAtMostCount(bs, chain[n]);
    if n > 0 {
      var before := chain[..n];
      assert IsChain(bs, before);
      ChainNoLongerThanOrder(bs, before);
      LaterIsAbove(bs, chain[n - 1], chain[n]);
    }
  }

  lemma {:induction false} ChainAsLongAsOrder(bs: seq<Bounds>, i: nat) returns (chain: seq<nat>)
    requires i < |bs|
    ensures IsChain(bs, chain) && chain != [] && chain[|chain| - 1] == i
    ensures |chain| == Orders(bs)[i]
  {
    OrderAt(bs, i);
    var m := MaxIntersecting(bs[..i], Orders(bs)[..i], bs[i]);
    MaxIntersectingIsMax(bs[..i], Orders(bs)[..i], bs[i]);
    if m == 0 {
      chain := [i];
    } else {
      var k :| 0 <= k < i && bs[i].Intersects(bs[..i][k]) && Orders(bs)[..i][k] == m;
      var before := ChainAsLongAsOrder(bs, k);
      assert Orders(bs)[k] == m;
      IntersectsSymmetric(bs[i], bs[k]);
      ExtendChain(bs, before, i);
      chain := before + [i];
    }
  }

  lemma ExtendChain(bs: seq<Bounds>, chain: seq<nat>, i: nat)
    requires IsChain(bs, chain) && chain != [] && i < |bs|
    requires chain[|chain| - 1] < i && bs[chain[|chain| - 1]].Intersects(bs[i])
    ensures IsChain(bs, chain + [i])
  {
  }

  /** The order of a bounds is the length of the longest chain that ends at it. */
  lemma OrderIsLongestChain(bs: seq<Bounds>, i: nat)
    requires i < |bs|
    ensures exists chain :: IsChain(bs, chain) && chain != [] && chain[|chain| - 1] == i && |chain| == Orders(bs)[i]
    ensures forall chain :: IsChain(bs, chain) && chain != [] && chain[|chain| - 1] == i ==> |chain| <= Orders(bs)[i]
  {
    var longest := ChainAsLongAsOrder(bs, i);
    forall chain | IsChain(bs, chain) && chain != [] && chain[|chain| - 1] == i
      ensures |chain| <= Orders(bs)[i]
    {
      ChainNoLongerThanOrder(bs, chain);
    }
  }

  /** Any positive labelling that puts the later of two intersecting bounds strictly above the
      earlier one is at least as large everywhere: the assigned orders are the least possible. */
  lemma OrdersAreLeast(bs: seq<Bounds>, labels: seq<nat>, i: nat)
    requires |labels| == |bs| && i < |bs|
    requires forall k :: 0 <= k < |bs| ==> 1 <= labels[k]
    requires forall j, k :: 0 <= j < k < |bs| && bs[j].Intersects(bs[k]) ==> labels[j] < labels[k]
    ensures Orders(bs)[i] <= labels[i]
  {
    var chain := ChainAsLongAsOrder(bs, i);
    LabelsGrowAlongChain(bs, labels, chain);
  }

  lemma {:induction false} LabelsGrowAlongChain(bs: seq<Bounds>, labels: seq<nat>, chain: seq<nat>)
    requires |labels| == |bs| && IsChain(bs, chain) && chain != []
    requires forall k :: 0 <= k < |bs| ==> 1 <= labels[k]
    requires forall j, k :: 0 <= j < k < |bs| && bs[j].Intersects(bs[k]) ==> labels[j] < labels[k]
    ensures |chain| <= labels[chain[|chain| - 1]]
  {
    var n := |chain| - 1;
    if n > 0 {
      assert IsChain(bs, chain[..n]);
      LabelsGrowAlongChain(bs, labels, chain[..n]);
      assert chain[n - 1] < chain[n];
    }
  }

  /** Bounds with an area are drawn on the first level exactly when they have no inner point in common with any inserted
      before. */
  lemma FirstLevelIff(bs: seq<Bounds>, i: nat)
    requires i < |bs| && forall b <- bs :: HasArea(b)
    ensures Orders(bs)[i] == 1 <==> forall j :: 0 <= j < i ==> !SharePoint(bs[j], bs[i])
  {
    OrderAt(bs, i);
    OrdersPrefix(bs, i);
    var before := bs[..i];
    MaxIntersectingIsMax(before, Orders(before), bs[i]);
    forall j | 0 <= j < i ensures bs[i].Intersects(before[j]) <==> SharePoint(bs[j], bs[i]) {
      IntersectsSymmetric(bs[i], bs[j]);
      IntersectIffSharePoint(bs[j], bs[i]);
    }
    forall j | 0 <= j < i ensures Orders(before)[j] >= 1 {
      OrderAt(before, j);
    }
  }

  /** Of two bounds with an inner point in common the later one is strictly above. */
  lemma LaterOverlapIsAbove(bs: seq<Bounds>, i: nat, j: nat)
    requires i < j < |bs| && HasArea(bs[i]) && HasArea(bs[j]) && SharePoint(bs[i], bs[j])
    ensures Orders(bs)[i] < Orders(bs)[j]
  {
    IntersectIffSharePoint(bs[i], bs[j]);
    LaterIsAbove(bs, i, j);
  }
}
