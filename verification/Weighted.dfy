/** The weighted draw of the node selectors (go-node/x/selector/weighted.go, go-node/x/selector/strategy.go).
    The random number is a parameter. */
module Weighted {
  import opened Text

  function Total(ws: seq<int>): int {
    if ws == [] then 0 else Total(ws[..|ws| - 1]) + ws[|ws| - 1]
  }

  /** The first item with which the weights add up to the draw or more; None when the whole list does not. */
  function Select(ws: seq<int>, draw: int): (i: Option<nat>)
    ensures i.Some? ==> i.value < |ws|
  {
    if ws == [] then None
    else
      var before := Select(ws[..|ws| - 1], draw);
      if before.Some? then before
      else if draw <= Total(ws) then Some(|ws| - 1) else None
  }

  ghost predicate NonNegative(ws: seq<int>) { forall i :: 0 <= i < |ws| ==> ws[i] >= 0 }

  predicate Between(lo: int, d: int, hi: int) { lo < d <= hi }

  function Draws(lo: int, hi: int): set<int> { set d | lo < d <= hi && Between(lo, d, hi) }

  lemma {:induction false} DrawsCount(lo: int, hi: int)
    requires lo <= hi
    ensures |Draws(lo, hi)| == hi - lo
    decreases hi - lo
  {
    if lo == hi {
      assert Draws(lo, hi) == {};
    } else {
      DrawsCount(lo, hi - 1);
      assert Draws(lo, hi) == Draws(lo, hi - 1) + {hi};
    }
  }

  lemma {:induction false} TotalGrows(ws: seq<int>, i: nat, j: nat)
    requires NonNegative(ws) && i <= j <= |ws|
    ensures Total(ws[..i]) <= Total(ws[..j])
    decreases j
  {
    if i < j {
      assert ws[..j][..j - 1] == ws[..j - 1];
      TotalGrows(ws, i, j - 1);
    }
  }

  /** With weights of zero or more, a draw selects item i if and only if it lies in the i-th interval. */
  lemma {:induction false} SelectsInterval(ws: seq<int>, draw: int, i: nat)
    requires NonNegative(ws) && i < |ws| && draw >= 1
    ensures Select(ws, draw) == Some(i) <==> Total(ws[..i]) < draw <= Total(ws[..i + 1])
    ensures Select(ws, draw) == None <==> draw > Total(ws)
  {
    var n := |ws| - 1;
    assert ws[..n + 1] == ws;
    if n > 0 {
      SelectsInterval(ws[..n], draw, if i < n then i else 0);
    }
    if i < n {
      assert ws[..n][..i] == ws[..i] && ws[..n][..i + 1] == ws[..i + 1];
      TotalGrows(ws, i + 1, n);
    }
  }

  function Choosing(ws: seq<int>, i: nat): set<int> { set d | d in Draws(0, Total(ws)) && Select(ws, d) == Some(i) }

  /** The draws 1..sum that select an item number exactly its weight, for every item, if and only if no weight
      is negative. */
  lemma DrawsAreProportional(ws: seq<int>)
    ensures (forall i: nat :: i < |ws| ==> |Choosing(ws, i)| == ws[i]) <==> NonNegative(ws)
  {
    hide Total, Select, Draws;
    if NonNegative(ws) {
      forall i: nat | i < |ws| ensures |Choosing(ws, i)| == ws[i] {
        IntervalOf(ws, i);
      }
    } else {
      var i :| 0 <= i < |ws| && ws[i] < 0;
      assert |Choosing(ws, i)| >= 0;
    }
  }

  lemma IntervalOf(ws: seq<int>, i: nat)
    requires NonNegative(ws) && i < |ws|
    ensures |Choosing(ws, i)| == ws[i]
  {
    hide Select;
    var lo, hi := Total(ws[..i]), Total(ws[..i + 1]);
    assert ws[..i + 1][..i] == ws[..i] && ws[..0] == [] && ws[..|ws|] == ws;
    TotalGrows(ws, 0, i);
    TotalGrows(ws, i + 1, |ws|);
    forall d ensures d in Choosing(ws, i) <==> d in Draws(lo, hi) {
      if d >= 1 {
        SelectsInterval(ws, d, i);
      }
    }
    assert Choosing(ws, i) == Draws(lo, hi);
    DrawsCount(lo, hi);
  }

  // ---------------------------------------------------------------- in place

  datatype Item<T> = Item(item: T, weight: int)

  function Weights<T>(items: seq<Item<T>>): (ws: seq<int>)
    ensures |ws| == |items|
    ensures forall i :: 0 <= i < |items| ==> ws[i] == items[i].weight
  {
    seq(|items|, i requires 0 <= i < |items| => items[i].weight)
  }

  class RandomWeighted<T> {
    var items: seq<Item<T>>
    var sum: int

    ghost predicate Valid() reads this { sum == Total(Weights(items)) }

    constructor ()
      ensures Valid() && items == []
    {
      items, sum := [], 0;
    }

    method Add(item: T, weight: int)
      requires Valid()
      modifies this
      ensures Valid() && items == old(items) + [Item(item, weight)] && sum == old(sum) + weight
    {
      items := items + [Item(item, weight)];
      sum := sum + weight;
      assert Weights(items)[..|old(items)|] == Weights(old(items));
    }

    method Reset()
      modifies this
      ensures Valid() && items == [] && sum == 0
    {
      items, sum := [], 0;
    }

    /** draw is the number the source draws, from 1 to sum. Its fallback after the loop is dead code. */
    method Next(draw: int) returns (v: Option<T>)
      requires Valid() && (sum > 0 ==> 1 <= draw <= sum)
      ensures v == None <==> items == [] || sum <= 0
      ensures v.Some? ==>
                var i := Select(Weights(items), draw); i.Some? && v.value == items[i.value].item
    {
      if |items| == 0 { return None; }
      if sum <= 0 { return None; }
      var weight := draw;
      ghost var ws := Weights(items);
      assert ws[..|items|] == ws;
      for i := 0 to |items|
        invariant weight == draw - Total(ws[..i]) && (i > 0 ==> weight > 0)
        invariant Select(ws[..i], draw) == None
      {
        assert ws[..i + 1][..i] == ws[..i];
        weight := weight - items[i].weight;
        if weight <= 0 {
          SelectExtends(ws, draw, i + 1);
          return Some(items[i].item);
        }
      }
      assert false;
    }
  }

  lemma {:induction false} SelectExtends(ws: seq<int>, draw: int, n: nat)
    requires n <= |ws| && Select(ws[..n], draw).Some?
    ensures Select(ws, draw) == Select(ws[..n], draw)
    decreases |ws|
  {
    if n < |ws| {
      assert ws[..|ws| - 1][..n] == ws[..n];
      SelectExtends(ws[..|ws| - 1], draw, n);
    } else {
      assert ws[..n] == ws;
    }
  }

  function Normal(weight: int): int { if weight <= 0 then 1 else weight }

  function Labels(labels: seq<int>): (ws: seq<int>)
    ensures |ws| == |labels| && forall i :: 0 <= i < |labels| ==> ws[i] == Normal(labels[i])
  {
    seq(|labels|, i requires 0 <= i < |labels| => Normal(labels[i]))
  }

  /** So among the draws of labelled values each value with a positive label has as many as its label says, and every
      other one has one. */
  lemma LabelsAreProportional(labels: seq<int>, i: nat)
    requires i < |labels|
    ensures |Choosing(Labels(labels), i)| == if labels[i] >= 1 then labels[i] else 1
  {
    DrawsAreProportional(Labels(labels));
  }

  /** The random strategy: labels without a positive weight count one, so a draw picks value i if and only if it
      lies in the i-th interval, and the draws number the sum of the weights. */
  method Apply<T(==)>(rw: RandomWeighted<T>, vs: seq<T>, labels: seq<int>, draw: int) returns (v: Option<T>)
    requires |labels| == |vs|
    requires vs != [] ==> 1 <= draw <= Total(Labels(labels))
    modifies rw
    ensures v == None <==> vs == []
    ensures v.Some? ==> exists i ::
              0 <= i < |vs| && v.value == vs[i] && Total(Labels(labels)[..i]) < draw <= Total(Labels(labels)[..i + 1])
    ensures vs != [] ==> rw.Valid() && rw.sum == Total(Labels(labels))
  {
    if |vs| == 0 { return None; }
    hide Total;
    rw.Reset();
    ghost var ws := Labels(labels);
    for i := 0 to |vs|
      invariant rw.Valid() && |rw.items| == i
      invariant forall j :: 0 <= j < i ==> rw.items[j] == Item(vs[j], ws[j])
    {
      var weight := labels[i];
      if weight <= 0 {
        weight := 1;
      }
      rw.Add(vs[i], weight);
    }
    assert Weights(rw.items) == ws;
    v := rw.Next(draw);
    var k := Select(ws, draw).value;
    SelectsInterval(ws, draw, k);
  }
}
