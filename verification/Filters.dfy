/** What it means that a loop keeps some elements of a list: those, all of those, in their order. */
module Filters {

  /** kept[k] is all[at[k]]; the places go up, and they are those of the elements to keep. */
  ghost predicate KeptAt<T>(all: seq<T>, kept: seq<T>, keep: T -> bool, at: seq<nat>) {
    && |at| == |kept|
    && (forall k :: 0 <= k < |at| ==> at[k] < |all| && kept[k] == all[at[k]] && keep(kept[k]))
    && (forall j, k :: 0 <= j < k < |at| ==> at[j] < at[k])
    && (forall i :: 0 <= i < |all| && keep(all[i]) ==> i in at)
  }

  ghost predicate Filtered<T>(all: seq<T>, kept: seq<T>, keep: T -> bool) {
    exists at: seq<nat> :: KeptAt(all, kept, keep, at)
  }

  lemma NothingFiltered<T>(keep: T -> bool)
    ensures Filtered([], [], keep)
  {
    assert KeptAt([], [], keep, []);
  }

  lemma OneMoreFiltered<T>(all: seq<T>, kept: seq<T>, keep: T -> bool, x: T)
    requires Filtered(all, kept, keep)
    ensures Filtered(all + [x], if keep(x) then kept + [x] else kept, keep)
  {
    var at: seq<nat> :| KeptAt(all, kept, keep, at);
    if keep(x) {
      OneMoreKept(all, kept, keep, at, x);
    } else {
      assert KeptAt(all + [x], kept, keep, at);
    }
  }

  lemma OneMoreKept<T>(all: seq<T>, kept: seq<T>, keep: T -> bool, at: seq<nat>, x: T)
    requires KeptAt(all, kept, keep, at) && keep(x)
    ensures KeptAt(all + [x], kept + [x], keep, at + [|all|])
  {
    var more := at + [|all|];
    forall i | 0 <= i < |all + [x]| && keep((all + [x])[i]) ensures i in more {
      if i < |all| {
        assert i in at;
      } else {
        assert more[|at|] == i;
      }
    }
    forall k | 0 <= k < |more|
      ensures more[k] < |all + [x]| && (kept + [x])[k] == (all + [x])[more[k]] && keep((kept + [x])[k]) {
      if k < |at| {
        assert more[k] == at[k] && kept[k] == all[at[k]];
      }
    }
  }

  /** Nothing is left open: two lists kept by the same rule are the same. */
  lemma {:induction false} FilteredOnce<T>(all: seq<T>, a: seq<T>, b: seq<T>, keep: T -> bool)
    requires Filtered(all, a, keep) && Filtered(all, b, keep)
    ensures a == b
  {
    var at: seq<nat> :| KeptAt(all, a, keep, at);
    var bt: seq<nat> :| KeptAt(all, b, keep, bt);
    SamePlaces(all, a, b, keep, at, bt, 0);
  }

  lemma SamePlaces<T>(all: seq<T>, a: seq<T>, b: seq<T>, keep: T -> bool, at: seq<nat>, bt: seq<nat>, k: nat)
    requires KeptAt(all, a, keep, at) && KeptAt(all, b, keep, bt) && k <= |at| && k <= |bt| && at[..k] == bt[..k]
    ensures at == bt
    decreases |at| - k
  {
    if k < |at| || k < |bt| {
      NextPlace(all, a, b, keep, at, bt, k);
      assert at[..k + 1] == at[..k] + [at[k]];
      assert bt[..k + 1] == bt[..k] + [bt[k]];
      SamePlaces(all, a, b, keep, at, bt, k + 1);
    } else {
      assert at == at[..k] && bt == bt[..k];
    }
  }

  lemma NextPlace<T>(all: seq<T>, a: seq<T>, b: seq<T>, keep: T -> bool, at: seq<nat>, bt: seq<nat>, k: nat)
    requires KeptAt(all, a, keep, at) && KeptAt(all, b, keep, bt) && k <= |at| && k <= |bt| && at[..k] == bt[..k]
    requires k < |at| || k < |bt|
    ensures k < |at| && k < |bt| && at[k] == bt[k]
  {
    if k < |at| {
      NotEarlier(all, a, b, keep, at, bt, k);
    }
    if k < |bt| {
      NotEarlier(all, b, a, keep, bt, at, k);
    }
  }

  lemma NotEarlier<T>(all: seq<T>, a: seq<T>, b: seq<T>, keep: T -> bool, at: seq<nat>, bt: seq<nat>, k: nat)
    requires KeptAt(all, a, keep, at) && KeptAt(all, b, keep, bt) && k < |at| && k <= |bt| && at[..k] == bt[..k]
    ensures k < |bt| && bt[k] <= at[k]
  {
    var place := at[k];
    assert keep(all[place]) && place in bt;
    var j :| 0 <= j < |bt| && bt[j] == place;
    assert forall m :: 0 <= m < k ==> bt[..k][m] == bt[m] && at[..k][m] == at[m];
  }
}
