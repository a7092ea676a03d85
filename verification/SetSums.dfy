/** Sums over finite sets, which is what a loop over a map in any order accumulates. */
module SetSums {
  import opened Text

  ghost function Sum(s: set<int>, f: int -> int): int {
    if s == {} then 0
    else
      SomeMember(s);
      var x :| x in s;
      f(x) + Sum(s - {x}, f)
  }

  /** The order in which the elements are taken does not matter. */
  lemma {:induction false} SumTake(s: set<int>, x: int, f: int -> int)
    requires x in s
    ensures Sum(s, f) == f(x) + Sum(s - {x}, f)
    decreases |s|
  {
    SomeMember(s);
    var y :| y in s && Sum(s, f) == f(y) + Sum(s - {y}, f);
    if x != y {
      SumTake(s - {y}, x, f);
      SumTake(s - {x}, y, f);
      assert s - {y} - {x} == s - {x} - {y};
    }
  }

  lemma SumAdd(s: set<int>, x: int, f: int -> int)
    requires x !in s
    ensures Sum(s + {x}, f) == Sum(s, f) + f(x)
  {
    SumTake(s + {x}, x, f);
    assert s + {x} - {x} == s;
  }

  lemma {:induction false} SumSame(s: set<int>, f: int -> int, g: int -> int)
    requires forall x :: x in s ==> f(x) == g(x)
    ensures Sum(s, f) == Sum(s, g)
  {
    if s != {} {
      SomeMember(s);
      var x :| x in s;
      SumTake(s, x, f);
      SumTake(s, x, g);
      SumSame(s - {x}, f, g);
    }
  }

  lemma {:induction false} SumUnion(s: set<int>, t: set<int>, f: int -> int)
    requires s !! t
    ensures Sum(s + t, f) == Sum(s, f) + Sum(t, f)
  {
    if s == {} {
      assert s + t == t;
    } else {
      SomeMember(s);
      var x :| x in s;
      SumTake(s, x, f);
      SumTake(s + t, x, f);
      assert s + t - {x} == s - {x} + t;
      SumUnion(s - {x}, t, f);
    }
  }

  lemma {:induction false} SumNothing(s: set<int>, f: int -> int)
    requires forall x :: x in s ==> f(x) == 0
    ensures Sum(s, f) == 0
  {
    if s != {} {
      SomeMember(s);
      var x :| x in s;
      SumTake(s, x, f);
      SumNothing(s - {x}, f);
    }
  }

  lemma SumCommon(s: set<int>, t: set<int>, f: int -> int)
    requires forall x :: x in s && x !in t ==> f(x) == 0
    ensures Sum(s, f) == Sum(s * t, f)
  {
    hide Sum;
    assert s == s * t + (s - t);
    SumUnion(s * t, s - t, f);
    SumNothing(s - t, f);
  }

  /** Only where f is not zero does it matter whether an element is summed. */
  lemma SumSupport(s: set<int>, t: set<int>, f: int -> int)
    requires forall x :: x in s && x !in t ==> f(x) == 0
    requires forall x :: x in t && x !in s ==> f(x) == 0
    ensures Sum(s, f) == Sum(t, f)
  {
    SumCommon(s, t, f);
    SumCommon(t, s, f);
    assert s * t == t * s;
  }

  lemma {:induction false} SumPlus(s: set<int>, f: int -> int, g: int -> int, h: int -> int)
    requires forall x :: x in s ==> h(x) == f(x) + g(x)
    ensures Sum(s, h) == Sum(s, f) + Sum(s, g)
  {
    if s != {} {
      SomeMember(s);
      var x :| x in s;
      SumTake(s, x, f);
      SumTake(s, x, g);
      SumTake(s, x, h);
      SumPlus(s - {x}, f, g, h);
    }
  }

  /** Summing the rows of a table gives what summing its columns gives. */
  lemma {:induction false} SumSwap(s: set<int>, t: set<int>, f: (int, int) -> int, row: int -> int, column: int -> int)
    requires forall x :: row(x) == Sum(t, y => f(x, y))
    requires forall y :: column(y) == Sum(s, x => f(x, y))
    ensures Sum(s, row) == Sum(t, column)
  {
    if s == {} {
      SumNothing(t, column);
    } else {
      SomeMember(s);
      var x :| x in s;
      var rest := y => Sum(s - {x}, x' => f(x', y));
      SumSwap(s - {x}, t, f, row, rest);
      SumTake(s, x, row);
      forall y | y in t ensures column(y) == f(x, y) + rest(y) {
        SumTake(s, x, x' => f(x', y));
      }
      SumPlus(t, y => f(x, y), rest, column);
    }
  }
}
