/** The nested routes that a chain builds over multiplexed transports, and their flattening
    (go-node/x/chain/chain.go, go-node/x/chain/router.go). Transports are shared objects: each has an
    identity and a route stored in it, because copying one answers the original (go-node/x/chain/transport.go). */
module Routes {
  import opened Text

  datatype Node = Node(name: string, addr: string, transport: int)

  /** The route stored in each transport that has one. */
  type Stored = map<int, seq<Node>>

  datatype Built = Built(stored: Stored, route: seq<Node>)

  /** The nodes the hops select, up to the first hop that selects none. */
  function Picked(selected: seq<Option<Node>>): (p: seq<Node>)
    ensures |p| <= |selected|
    ensures forall i :: 0 <= i < |p| ==> selected[i] == Some(p[i])
    ensures |p| < |selected| ==> selected[|p|] == None
  {
    if selected == [] || selected[0] == None then [] else [selected[0].value] + Picked(selected[1..])
  }

  /** Chain.Route: a multiplexed node takes the route so far into its transport and opens a new one. */
  function Build(muxes: set<int>, stored: Stored, picked: seq<Node>): Built {
    if picked == [] then Built(stored, [])
    else
      var b := Build(muxes, stored, picked[..|picked| - 1]);
      var node := picked[|picked| - 1];
      if node.transport in muxes then Built(b.stored[node.transport := b.route], [node])
      else Built(b.stored, b.route + [node])
  }

  /** routePath, with a bound on the depth of its recursion; None when the bound does not suffice. */
  function Path(stored: Stored, route: seq<Node>, depth: nat): Option<seq<Node>>
    decreases depth, |route|
  {
    if route == [] then Some([])
    else if depth == 0 then None
    else
      var node := route[|route| - 1];
      var before := Path(stored, route[..|route| - 1], depth);
      var inner := if node.transport in stored then Path(stored, stored[node.transport], depth - 1) else Some([]);
      if before == None || inner == None then None
      else Some(before.value + inner.value + [node])
  }

  /** Transports that do not multiplex have no route of their own. */
  ghost predicate Plain(muxes: set<int>, stored: Stored) { stored.Keys <= muxes }

  ghost predicate SharedAt(muxes: set<int>, picked: seq<Node>, p: nat, q: nat) {
    p < q < |picked| && picked[p].transport in muxes && picked[p].transport == picked[q].transport
  }

  ghost predicate UsedAgain(muxes: set<int>, picked: seq<Node>, p: nat) {
    exists q: nat :: SharedAt(muxes, picked, p, q)
  }

  ghost predicate Shares(muxes: set<int>, picked: seq<Node>) {
    exists p: nat, q: nat :: SharedAt(muxes, picked, p, q)
  }

  lemma {:induction false} BuildKeepsPlain(muxes: set<int>, stored: Stored, picked: seq<Node>)
    requires Plain(muxes, stored)
    ensures Plain(muxes, Build(muxes, stored, picked).stored)
  {
    if picked != [] {
      BuildKeepsPlain(muxes, stored, picked[..|picked| - 1]);
    }
  }

  // ---------------------------------------------------------------- distinct transports

  function Transports(nodes: seq<Node>): set<int> { set n | n in nodes :: n.transport }

  /** From the transports of ts, routes lead only to transports of ts. */
  ghost predicate Closed(stored: Stored, ts: set<int>) {
    forall t :: t in ts && t in stored ==> Transports(stored[t]) <= ts
  }

  lemma {:induction false} BuildClosed(muxes: set<int>, stored: Stored, picked: seq<Node>)
    requires Plain(muxes, stored)
    ensures Closed(Build(muxes, stored, picked).stored, Transports(picked))
    ensures Transports(Build(muxes, stored, picked).route) <= Transports(picked)
  {
    if picked != [] {
      var rest, node := picked[..|picked| - 1], picked[|picked| - 1];
      assert picked == rest + [node];
      BuildClosed(muxes, stored, rest);
      BuildKeepsPlain(muxes, stored, rest);
      assert Transports(picked) == Transports(rest) + {node.transport};
      var b := Build(muxes, stored, rest);
      assert Transports(b.route + [node]) == Transports(b.route) + {node.transport};
    }
  }

  /** Writing a transport that a route does not reach does not change the route's path. */
  lemma {:induction false} PathFrame(stored: Stored, t: int, r: seq<Node>, route: seq<Node>, ts: set<int>, depth: nat)
    requires Closed(stored, ts) && Transports(route) <= ts && t !in ts
    ensures Path(stored[t := r], route, depth) == Path(stored, route, depth)
    decreases depth, |route|
  {
    if route != [] && depth > 0 {
      var node := route[|route| - 1];
      assert node in route;
      assert Transports(route[..|route| - 1]) <= Transports(route);
      PathFrame(stored, t, r, route[..|route| - 1], ts, depth);
      if node.transport in stored {
        PathFrame(stored, t, r, stored[node.transport], ts, depth - 1);
      }
    }
  }

  lemma EmptyPath(stored: Stored, depth: nat)
    ensures Path(stored, [], depth) == Some([])
  {
  }

  /** One more node adds the path of its own route and itself. */
  lemma PathAppend(stored: Stored, route: seq<Node>, node: Node, before: seq<Node>, inner: seq<Node>, depth: nat)
    requires depth > 0 && Path(stored, route, depth) == Some(before)
    requires if node.transport in stored then Path(stored, stored[node.transport], depth - 1) == Some(inner)
               else inner == []
    ensures Path(stored, route + [node], depth) == Some(before + inner + [node])
  {
    assert (route + [node])[..|route|] == route;
  }

  lemma {:induction false} DistinctPath(muxes: set<int>, stored: Stored, picked: seq<Node>, depth: nat)
    requires Plain(muxes, stored) && !Shares(muxes, picked) && depth >= |picked|
    ensures Path(Build(muxes, stored, picked).stored, Build(muxes, stored, picked).route, depth) == Some(picked)
  {
    hide Shares, Path;
    EmptyPath(stored, depth);
    if picked != [] {
      var rest, node := picked[..|picked| - 1], picked[|picked| - 1];
      assert picked == rest + [node];
      assert !Shares(muxes, rest) && (node.transport in muxes ==> node.transport !in Transports(rest)) by {
        PrefixShares(muxes, rest, node);
      }
      var b := Build(muxes, stored, rest);
      BuildKeepsPlain(muxes, stored, rest);
      if node.transport in muxes {
        DistinctPath(muxes, stored, rest, depth - 1);
        BuildClosed(muxes, stored, rest);
        PathFrame(b.stored, node.transport, b.route, b.route, Transports(rest), depth - 1);
        EmptyPath(b.stored[node.transport := b.route], depth);
        PathAppend(b.stored[node.transport := b.route], [], node, [], rest, depth);
        assert [] + [node] == [node] && [] + rest + [node] == picked;
      } else {
        DistinctPath(muxes, stored, rest, depth);
        PathAppend(b.stored, b.route, node, rest, [], depth);
        assert rest + [] + [node] == picked;
      }
    }
  }

  lemma PrefixShares(muxes: set<int>, rest: seq<Node>, node: Node)
    requires !Shares(muxes, rest + [node])
    ensures !Shares(muxes, rest)
    ensures node.transport in muxes ==> node.transport !in Transports(rest)
  {
    var picked := rest + [node];
    forall p: nat, q: nat | SharedAt(muxes, rest, p, q) ensures false {
      assert SharedAt(muxes, picked, p, q);
    }
    if node.transport in muxes && node.transport in Transports(rest) {
      var n :| n in rest && n.transport == node.transport;
      var p :| 0 <= p < |rest| && rest[p] == n;
      assert SharedAt(muxes, picked, p, |rest|);
    }
  }

  // ---------------------------------------------------------------- a shared transport

  /** A node whose own route has no path within the bound leaves its route without one. */
  lemma {:induction false} NoPathThrough(stored: Stored, route: seq<Node>, depth: nat, i: nat)
    requires i < |route|
    requires depth > 0 ==> route[i].transport in stored && Path(stored, stored[route[i].transport], depth - 1) == None
    ensures Path(stored, route, depth) == None
    decreases |route|
  {
    if depth > 0 && i < |route| - 1 {
      NoPathThrough(stored, route[..|route| - 1], depth, i);
    }
  }

  /** The route in a multiplexed transport is the one built before its last use. */
  lemma {:induction false} LastUse(muxes: set<int>, stored: Stored, picked: seq<Node>, p: nat) returns (l: nat)
    requires p < |picked| && picked[p].transport in muxes
    ensures p <= l < |picked| && picked[l].transport == picked[p].transport
    ensures picked[p].transport in Build(muxes, stored, picked).stored
    ensures Build(muxes, stored, picked).stored[picked[p].transport] == Build(muxes, stored, picked[..l]).route
    ensures l == p || SharedAt(muxes, picked, p, l)
    ensures forall q :: l < q < |picked| ==> picked[q].transport != picked[p].transport
  {
    var n := |picked| - 1;
    if picked[n].transport == picked[p].transport {
      l := n;
    } else {
      assert picked[..n][p] == picked[p];
      l := LastUse(muxes, stored, picked[..n], p);
      assert picked[..n][..l] == picked[..l];
      forall q | l < q < |picked| ensures picked[q].transport != picked[p].transport {
        assert q < n ==> picked[..n][q] == picked[q];
      }
    }
  }

  /** A route that starts after a multiplexed node starts with the last multiplexed node before it ends. */
  lemma {:induction false} RouteHead(muxes: set<int>, stored: Stored, picked: seq<Node>, a: nat) returns (m: nat)
    requires a < |picked| && picked[a].transport in muxes
    ensures a <= m < |picked| && picked[m].transport in muxes
    ensures |Build(muxes, stored, picked).route| > 0 && Build(muxes, stored, picked).route[0] == picked[m]
  {
    var n := |picked| - 1;
    if picked[n].transport in muxes {
      m := n;
    } else {
      assert picked[..n][a] == picked[a];
      m := RouteHead(muxes, stored, picked[..n], a);
    }
  }

  /** The last multiplexed node whose transport is used again. */
  lemma {:induction false} LastShared(muxes: set<int>, picked: seq<Node>, n: nat) returns (a: nat, q: nat)
    requires n <= |picked|
    requires exists p: nat, r: nat :: p < n && SharedAt(muxes, picked, p, r)
    ensures SharedAt(muxes, picked, a, q)
    ensures forall p: nat, r: nat :: a < p < n ==> !SharedAt(muxes, picked, p, r)
  {
    var p: nat, r: nat :| p < n && SharedAt(muxes, picked, p, r);
    if UsedAgain(muxes, picked, n - 1) {
      q :| SharedAt(muxes, picked, n - 1, q);
      a := n - 1;
    } else {
      assert p < n - 1;
      a, q := LastShared(muxes, picked, n - 1);
    }
  }

  /** Past the last shared node every route leads back into itself. */
  lemma {:induction false} SharedHasNoPath(muxes: set<int>, stored: Stored, picked: seq<Node>, a: nat, q: nat, k: nat,
      depth: nat)
    requires SharedAt(muxes, picked, a, q)
    requires forall p: nat, r: nat :: a < p < |picked| ==> !SharedAt(muxes, picked, p, r)
    requires a < k <= |picked|
    ensures Path(Build(muxes, stored, picked).stored, Build(muxes, stored, picked[..k]).route, depth) == None
    decreases depth
  {
    hide Build;
    var route := Build(muxes, stored, picked[..k]).route;
    var m := RouteHead(muxes, stored, picked[..k], a);
    var l := LastUse(muxes, stored, picked, m);
    assert a < l;
    if depth > 0 {
      SharedHasNoPath(muxes, stored, picked, a, q, l, depth - 1);
    }
    NoPathThrough(Build(muxes, stored, picked).stored, route, depth, 0);
  }

  /** Flattening the nested route gives the nodes the hops selected, in hop order, exactly when no two of the
      multiplexed ones share a transport; otherwise the route is cyclic and no depth of recursion ends it. */
  lemma FlatteningGivesPath(muxes: set<int>, stored: Stored, selected: seq<Option<Node>>, depth: nat)
    requires Plain(muxes, stored) && depth >= |selected|
    ensures var picked := Picked(selected);
            var b := Build(muxes, stored, picked);
            && Plain(muxes, b.stored)
            && Path(b.stored, b.route, depth) == if Shares(muxes, picked) then None else Some(picked)
  {
    hide Build, Path;
    var picked := Picked(selected);
    BuildKeepsPlain(muxes, stored, picked);
    if Shares(muxes, picked) {
      var p: nat, r: nat :| SharedAt(muxes, picked, p, r);
      assert p < |picked|;
      var a, q := LastShared(muxes, picked, |picked|);
      SharedHasNoPath(muxes, stored, picked, a, q, |picked|, depth);
      assert picked[..|picked|] == picked;
    } else {
      DistinctPath(muxes, stored, picked, depth);
    }
  }

  // ---------------------------------------------------------------- in place

  class Chain {
    const muxes: set<int>
    var routes: map<int, seq<Node>>

    constructor (muxes: set<int>)
      ensures this.muxes == muxes && routes == map[]
    {
      this.muxes := muxes;
      routes := map[];
    }

    /** selected holds what each hop answers; the result is None for a chain without hops. */
    method Route(selected: seq<Option<Node>>) returns (rt: Option<seq<Node>>)
      modifies this`routes
      ensures rt == None <==> selected == []
      ensures rt.Some? ==> Built(routes, rt.value) == Build(muxes, old(routes), Picked(selected))
      ensures rt == None ==> routes == old(routes)
    {
      if |selected| == 0 { return None; }
      ghost var picked := Picked(selected);
      var nodes: seq<Node> := [];
      for i := 0 to |selected|
        invariant i <= |picked|
        invariant Built(routes, nodes) == Build(muxes, old(routes), picked[..i])
      {
        assert picked[..|picked|] == picked;
        if selected[i] == None { return Some(nodes); }
        var node := selected[i].value;
        assert picked[..i + 1][..i] == picked[..i];
        if node.transport in muxes {
          routes := routes[node.transport := nodes];
          nodes := [];
        }
        nodes := nodes + [node];
      }
      assert picked[..|picked|] == picked;
      rt := Some(nodes);
    }

    method RoutePath(route: Option<seq<Node>>, depth: nat) returns (path: Option<seq<Node>>)
      ensures path == if route == None then Some([]) else Path(routes, route.value, depth)
      decreases depth
    {
      if route == None { return Some([]); }
      if |route.value| > 0 && depth == 0 { return None; }
      var nodes: seq<Node> := [];
      for i := 0 to |route.value|
        invariant Path(routes, route.value[..i], depth) == Some(nodes)
      {
        var node := route.value[i];
        assert route.value[..i + 1][..i] == route.value[..i];
        if node.transport in routes {
          var inner := RoutePath(Some(routes[node.transport]), depth - 1);
          if inner == None {
            NoPathThrough(routes, route.value, depth, i);
            return None;
          }
          nodes := nodes + inner.value + [node];
        } else {
          nodes := nodes + [] + [node];
        }
      }
      assert route.value[..|route.value|] == route.value;
      path := Some(nodes);
    }
  }
}
