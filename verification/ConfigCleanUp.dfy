/** What the commands of a configuration clean-up (go-backend/service/config_check.go) leave on the node that carries
    them out (go-node/x/socket/service.go): each deletes all the services it names, or nothing. */
module ConfigCleanUp {
  import opened Text
  import opened Rows
  import opened Names
  import opened NodeServices
  import opened ConfigCheck

  /** The node after the deletions, in order. */
  function Carry(s: NodeState, ds: seq<Deletion>): NodeState {
    if ds == [] then s else Delete(Carry(s, ds[..|ds| - 1]), DeletedNames(ds[|ds| - 1])).0
  }

  /** TrimSpace keeps the names. */
  ghost predicate Tidy(names: seq<string>) { forall n | n in names :: n != "" && Trim(n) == n }

  predicate AllThere(s: NodeState, d: Deletion) { forall n | n in DeletedNames(d) :: n in s.registry }

  lemma RelayInjective(a: string, b: string)
    requires RelayName(a) == RelayName(b)
    ensures a == b
  {
    assert RelayName(a)[..|a|] == a && RelayName(b)[..|b|] == b;
  }

  /** Two deletions that share a name are the same. */
  lemma DeletionsApart(d: Deletion, e: Deletion, n: string)
    requires n in DeletedNames(d) && n in DeletedNames(e)
    ensures d == e
  {
    hide TcpName, UdpName, RelayName;
    SuffixesDiffer(d.base, e.base);
    SuffixesDiffer(e.base, d.base);
    if d.DeleteRelay? && e.DeleteRelay? {
      RelayInjective(d.base, e.base);
    }
  }

  /** A tidy reported name has a tidy deletion. */
  lemma DeletionTidy(name: string)
    requires Tidy([name]) && DeletionFor(name).Some?
    ensures Tidy(DeletedNames(DeletionFor(name).value))
  {
    hide Trim, IsSpace;
    assert name in [name];
    var d := DeletionFor(name).value;
    TrimOfTight(name);
    forall n | n in DeletedNames(d) ensures n != "" && Trim(n) == n {
      SameStart(d, name, n);
      TrimOfTight(n);
    }
  }

  /** The names of one deletion start alike, and end in no blank. */
  lemma SameStart(d: Deletion, a: string, b: string)
    requires a in DeletedNames(d) && b in DeletedNames(d)
    ensures a != "" && b != "" && a[0] == b[0] && !IsSpace(b[|b| - 1])
  {
    assert TcpName(d.base)[|d.base| + 3] == 'p' && UdpName(d.base)[|d.base| + 3] == 'p'
        && RelayName(d.base)[|d.base| + 3] == 's';
    assert TcpName(d.base)[0] == UdpName(d.base)[0];
  }

  lemma DeleteTidy(s: NodeState, d: Deletion)
    requires Tidy(DeletedNames(d))
    ensures AllThere(s, d) ==>
              Delete(s, DeletedNames(d))
                  == (NodeState(s.registry - ToSet(DeletedNames(d)), Without(s.services, ToSet(DeletedNames(d)))), Ok)
    ensures !AllThere(s, d) ==> Delete(s, DeletedNames(d)).0 == s
  {
    hide Trim, TcpName, UdpName, RelayName;
    var names := DeletedNames(d);
    assert names != [];
    assert forall i :: 0 <= i < |names| ==> names[i] in names;
    assert TrimAll(names) == names;
    if !AllThere(s, d) {
      var n :| n in names && n !in s.registry;
      var i :| 0 <= i < |names| && names[i] == n;
      assert CheckPresent(s.registry, names, 0) != Ok;
    }
  }

  /** A service is gone after the deletions if and only if one of them names it and found all it names. */
  lemma {:induction false} CarryEffect(s: NodeState, ds: seq<Deletion>, n: string)
    requires forall d | d in ds :: Tidy(DeletedNames(d))
    ensures n in Carry(s, ds).registry <==> n in s.registry && !Named(s, ds, n)
    ensures n in NamesOf(Carry(s, ds).services) <==> n in NamesOf(s.services) && !Named(s, ds, n)
  {
    hide DeletedNames, Tidy, Delete, Without;
    if ds != [] {
      var d, rest := ds[|ds| - 1], ds[..|ds| - 1];
      var mid := Carry(s, rest);
      assert ds == rest + [d];
      CarryEffect(s, rest, n);
      DeleteTidy(mid, d);
      WithoutNames(mid.services, ToSet(DeletedNames(d)));
      forall m | m in DeletedNames(d) ensures m in mid.registry <==> m in s.registry && !(d in rest && AllThere(s, d)) {
        CarryEffect(s, rest, m);
        NamedByOwn(s, rest, d, m);
      }
      assert AllThere(mid, d) ==> AllThere(s, d);
      if n in DeletedNames(d) {
        NamedByOwn(s, rest, d, n);
        NamedByOwn(s, ds, d, n);
      } else {
        assert Named(s, ds, n) <==> Named(s, rest, n);
      }
    }
  }

  ghost predicate Named(s: NodeState, ds: seq<Deletion>, n: string) {
    exists d :: d in ds && n in DeletedNames(d) && AllThere(s, d)
  }

  lemma NamedByOwn(s: NodeState, ds: seq<Deletion>, d: Deletion, n: string)
    requires n in DeletedNames(d)
    ensures Named(s, ds, n) <==> d in ds && AllThere(s, d)
  {
    hide DeletedNames, AllThere;
    forall e | e in ds && n in DeletedNames(e) ensures e == d {
      DeletionsApart(d, e, n);
    }
  }

  /** An unwanted panel-shaped service that is reported leaves the node if and only if all the services its deletion
      names are registered when the commands arrive: its twin for a listener, itself alone for a relay. */
  lemma OrphanLeaves(db: Db, node: int, s: NodeState, reported: seq<string>, n: string)
    requires Tidy(reported) && n in reported && n in s.registry
    requires n !in ValidServices(db, node) && DeletionFor(n).Some?
    ensures var after := Carry(s, Deletions(ValidServices(db, node), reported));
            && (n !in after.registry <==> AllThere(s, DeletionFor(n).value))
            && (n !in after.registry ==> n !in NamesOf(after.services))
  {
    hide ValidServices, DeletionFor, AllThere, DeletedNames, Carry, Tidy;
    var ds, d := Deletions(ValidServices(db, node), reported), DeletionFor(n).value;
    ReportTidy(db, node, reported);
    CarryEffect(s, ds, n);
    assert d in ds;
    NamedByOwn(s, ds, d, n);
  }

  lemma ReportTidy(db: Db, node: int, reported: seq<string>)
    requires Tidy(reported)
    ensures forall d | d in Deletions(ValidServices(db, node), reported) :: Tidy(DeletedNames(d))
  {
    hide ValidServices, DeletionFor, DeletedNames, Trim;
    forall d | d in Deletions(ValidServices(db, node), reported) ensures Tidy(DeletedNames(d)) {
      var n :| n in reported && n !in ValidServices(db, node) && DeletionFor(n) == Some(d);
      DeletionTidy(n);
    }
  }

  /** Which services that is. */
  lemma DeletedTogether(s: NodeState, base: string)
    ensures DeletionFor(RelayName(base)) == Some(DeleteRelay(base))
    ensures DeletionFor(TcpName(base)) == Some(DeletePair(base)) && DeletionFor(UdpName(base)) == Some(DeletePair(base))
    ensures AllThere(s, DeleteRelay(base)) <==> RelayName(base) in s.registry
    ensures AllThere(s, DeletePair(base)) <==> TcpName(base) in s.registry && UdpName(base) in s.registry
  {
    assert RelayName(base)[|base|..] == "_tls" && RelayName(base)[..|base|] == base;
    assert TcpName(base)[|base|..] == "_tcp" && TcpName(base)[..|base|] == base;
    assert UdpName(base)[|base|..] == "_udp" && UdpName(base)[..|base|] == base;
    DeletedOf(s, base);
  }

  lemma DeletedOf(s: NodeState, base: string)
    ensures AllThere(s, DeleteRelay(base)) <==> RelayName(base) in s.registry
    ensures AllThere(s, DeletePair(base)) <==> TcpName(base) in s.registry && UdpName(base) in s.registry
  {
    hide TcpName, UdpName, RelayName;
    assert DeletedNames(DeletePair(base))[0] == TcpName(base) && DeletedNames(DeletePair(base))[1] == UdpName(base);
    assert DeletedNames(DeleteRelay(base))[0] == RelayName(base);
  }

  /** A service that some forward keeps stays. */
  lemma KeptStays(db: Db, node: int, s: NodeState, reported: seq<string>, n: string)
    requires Tidy(reported) && n in ValidServices(db, node)
    ensures var after := Carry(s, Deletions(ValidServices(db, node), reported));
            && (n in after.registry <==> n in s.registry)
            && (n in NamesOf(after.services) <==> n in NamesOf(s.services))
  {
    hide ValidServices, DeletionFor, AllThere, DeletedNames, Carry, Tidy;
    var valid := ValidServices(db, node);
    var ds := Deletions(valid, reported);
    ReportTidy(db, node, reported);
    CarryEffect(s, ds, n);
    forall d | d in ds && n in DeletedNames(d) ensures false {
      var m :| m in reported && m !in valid && DeletionFor(m) == Some(d);
      DeletionSparesValid(db, node, m);
    }
  }

  /** A lone listener of a deleted forward, as an update that stopped at its second service leaves it, is reported and
      stays, however often the clean-up comes. */
  lemma LoneOrphanStays(node: int, f: Forward, i: Instance, c: ServiceConfig)
    requires IsId(f.id)
    ensures var lone := TcpName(BaseName([], f));
            var s := NodeState(map[lone := i], [c]);
            lone !in ValidServices(Db([], [], []), node)
                && Carry(s, Deletions(ValidServices(Db([], [], []), node), [lone])) == s
  {
    hide TcpName, UdpName, BaseName, Deletions, DeletionFor, Trim, NameOf;
    var base := BaseName([], f);
    var lone, valid := TcpName(base), ValidServices(Db([], [], []), node);
    var s := NodeState(map[lone := i], [c]);
    assert Tidy([lone]) by { LoneTidy(f); }
    DeletedTogether(s, base);
    SuffixesDiffer(base, base);
    OneReported(valid, lone);
    var ds := Deletions(valid, [lone]);
    DeletionTidy(lone);
    DeleteTidy(s, DeletePair(base));
    assert ds[..0] == [];
    assert Carry(s, []) == s;
  }

  lemma OneReported(valid: set<string>, n: string)
    requires n !in valid && DeletionFor(n).Some?
    ensures Deletions(valid, [n]) == [DeletionFor(n).value]
  {
    hide DeletionFor;
    assert [n][..0] == [];
  }

  lemma LoneTidy(f: Forward)
    requires IsId(f.id)
    ensures Tidy([TcpName(BaseName([], f))])
  {
    hide TcpName, UdpName, BaseName, Trim;
    assert TcpName(BaseName([], f)) in GroupNames(BaseName([], f), 1);
    NameOfForward([], f, TcpName(BaseName([], f)));
  }
}
