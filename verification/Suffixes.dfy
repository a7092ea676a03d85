/** Host tables that are searched by ever shorter suffixes (go-node/x/hosts/hosts.go, go-node/x/ingress/ingress.go). */
module Suffixes {
  import opened Text
  import opened Filters

  /** Position i starts a suffix that the search tries: it is a dot, and no label before it is empty. */
  predicate Candidate(host: string, i: int) {
    && 0 < i < |host| && host[i] == '.' && host[0] != '.'
    && forall j :: 0 < j <= i && host[j] == '.' ==> host[j - 1] != '.'
  }

  /** k is the key under which a host is found: the host, else "." before it, else its longest suffix in the table. */
  ghost predicate MostSpecific(keys: set<string>, host: string, k: Option<string>) {
    if host in keys then k == Some(host)
    else if "." + host in keys then k == Some("." + host)
    else
      match k
      case None => forall i :: Candidate(host, i) ==> host[i..] !in keys
      case Some(key) =>
        && key in keys
        && exists i :: Candidate(host, i) && key == host[i..] && forall j :: Candidate(host, j) && j < i ==>
              host[j..] !in keys
  }

  /** The table and the host decide the key. */
  lemma MostSpecificIsUnique(keys: set<string>, host: string, k: Option<string>, k': Option<string>)
    requires MostSpecific(keys, host, k) && MostSpecific(keys, host, k')
    ensures k == k'
  {
  }

  /** No key that a host could be found under is longer than the one it is found under, unless it is the host itself. */
  lemma MostSpecificIsLongest(keys: set<string>, host: string, k: Option<string>, i: int)
    requires MostSpecific(keys, host, k) && Candidate(host, i) && host[i..] in keys
    ensures k.Some? && |k.value| >= |host[i..]|
  {
  }

  /** The search stops at an empty label: beyond p there is nothing to try. */
  lemma EmptyLabelStops(host: string, p: nat, i: int)
    requires p <= |host| && (p > 0 ==> host[p - 1] == '.') && IndexOf(host[p..], '.') <= 0
    ensures p <= i ==> !Candidate(host, i)
  {
    if p <= i < |host| && host[i] == '.' {
      assert host[p..][i - p] == '.';
      assert host[p] == host[p..][0];
    }
  }

  /** Otherwise the next dot is the next candidate. */
  lemma NextLabel(host: string, p: nat, i: int)
    requires p <= |host| && (p > 0 ==> Candidate(host, p - 1)) && IndexOf(host[p..], '.') > 0
    ensures Candidate(host, p + IndexOf(host[p..], '.'))
    ensures p <= i < p + IndexOf(host[p..], '.') ==> !Candidate(host, i)
  {
    var s, n := host[p..], IndexOf(host[p..], '.');
    forall j | p <= j < p + n ensures host[j] != '.' {
      assert s[..n][j - p] == host[j];
    }
    assert host[p + n] == s[n];
  }

  // ---------------------------------------------------------------- the hosts table

  datatype Ip = Ip(addr: int, v4: bool)

  datatype Mapping = Mapping(hostname: string, ip: Ip)

  /** The addresses of a hostname, each once, in the order of their first mention. */
  function Addresses(ms: seq<Mapping>, host: string): seq<Ip> {
    if ms == [] then []
    else
      var ips, m := Addresses(ms[..|ms| - 1], host), ms[|ms| - 1];
      if m.hostname == host && m.ip !in ips then ips + [m.ip] else ips
  }

  /** The table has the addresses of every hostname that has any. */
  ghost predicate Addressed(ms: seq<Mapping>, table: map<string, seq<Ip>>) {
    && (forall h :: h in table <==> Addresses(ms, h) != [])
    && (forall h :: h in table ==> table[h] == Addresses(ms, h))
  }

  lemma NoAddresses()
    ensures Addressed([], map[])
  {
  }

  lemma AddressedMeans(ms: seq<Mapping>, table: map<string, seq<Ip>>)
    requires Addressed(ms, table)
    ensures forall h :: h in table <==> Addresses(ms, h) != []
    ensures forall h :: h in table ==> table[h] == Addresses(ms, h)
  {
  }

  lemma OneMoreAddress(ms: seq<Mapping>, m: Mapping, host: string)
    ensures var ips := Addresses(ms, host);
            Addresses(ms + [m], host) == if m.hostname == host && m.ip !in ips then ips + [m.ip] else ips
  {
    assert (ms + [m])[..|ms|] == ms;
  }

  lemma OneMoreMapping(ms: seq<Mapping>, m: Mapping, table: map<string, seq<Ip>>)
    requires Addressed(ms, table)
    ensures var ips := if m.hostname in table then table[m.hostname] else [];
            Addressed(ms + [m], table[m.hostname := if m.ip in ips then ips else ips + [m.ip]])
  {
    hide Addresses;
    forall h ensures var ips := Addresses(ms, h);
                     Addresses(ms + [m], h) == if m.hostname == h && m.ip !in ips then ips + [m.ip] else ips {
      OneMoreAddress(ms, m, h);
    }
  }

  lemma {:induction false} AddressesAreThose(ms: seq<Mapping>, host: string)
    ensures forall ip :: ip in Addresses(ms, host) <==> Mapping(host, ip) in ms
    ensures forall i, j :: 0 <= i < j < |Addresses(ms, host)| ==> Addresses(ms, host)[i] != Addresses(ms, host)[j]
  {
    if ms != [] {
      AddressesAreThose(ms[..|ms| - 1], host);
      assert ms == ms[..|ms| - 1] + [ms[|ms| - 1]];
    }
  }

  predicate Wanted(network: string, ip: Ip) {
    if network == "ip4" then ip.v4 else if network == "ip6" then !ip.v4 else true
  }

  function OfNetwork(network: string, ips: seq<Ip>): seq<Ip> {
    if ips == [] then []
    else OfNetwork(network, ips[..|ips| - 1]) + if Wanted(network, ips[|ips| - 1]) then [ips[|ips| - 1]] else []
  }

  /** The addresses that a network asks for: of version 4 for "ip4", of version 6 for "ip6", any for another one. */
  function AskedBy(network: string): Ip -> bool {
    (ip: Ip) => !(network == "ip4" && !ip.v4) && !(network == "ip6" && ip.v4)
  }

  /** A lookup keeps exactly those, in their order. */
  lemma {:induction false} OfNetworkMeans(network: string, ips: seq<Ip>)
    ensures Filtered(ips, OfNetwork(network, ips), AskedBy(network))
  {
    hide Filtered;
    if ips == [] {
      NothingFiltered(AskedBy(network));
    } else {
      var rest, ip := ips[..|ips| - 1], ips[|ips| - 1];
      OfNetworkMeans(network, rest);
      OneMoreFiltered(rest, OfNetwork(network, rest), AskedBy(network), ip);
      assert ips == rest + [ip];
      assert OfNetwork(network, rest) + [] == OfNetwork(network, rest);
    }
  }

  class HostMapper {
    var mappings: map<string, seq<Ip>>

    constructor ()
      ensures mappings == map[]
    {
      mappings := map[];
    }

    method Reload(ms: seq<Mapping>)
      modifies this
      ensures forall h :: h in mappings <==> Addresses(ms, h) != []
      ensures forall h :: h in mappings ==> mappings[h] == Addresses(ms, h)
    {
      var table: map<string, seq<Ip>> := map[];
      NoAddresses();
      hide Addressed;
      for k := 0 to |ms|
        invariant Addressed(ms[..k], table)
      {
        var m := ms[k];
        OneMoreMapping(ms[..k], m, table);
        assert ms[..k + 1] == ms[..k] + [m];
        var ips := if m.hostname in table then table[m.hostname] else [];
        var found := false;
        for i := 0 to |ips|
          invariant found <==> m.ip in ips[..i]
        {
          if m.ip == ips[i] {
            found := true;
          }
        }
        assert ips[..|ips|] == ips;
        if !found {
          ips := ips + [m.ip];
        }
        table := table[m.hostname := ips];
      }
      assert ms[..|ms|] == ms;
      AddressedMeans(ms, table);
      mappings := table;
    }

    method Find(host: string) returns (k: Option<string>)
      ensures MostSpecific(mappings.Keys, host, k)
    {
      hide IndexOf;
      if host in mappings { return Some(host); }
      if "." + host in mappings { return Some("." + host); }
      var s, p := host, 0;
      while true
        invariant p <= |host| && s == host[p..]
        invariant p > 0 ==> Candidate(host, p - 1)
        invariant p > 0 ==> host[p - 1] == '.'
        invariant forall i :: 0 < i < p && Candidate(host, i) ==> host[i..] !in mappings
        decreases |host| - p
      {
        var index := IndexOf(s, '.');
        if index <= 0 { break; }
        ghost var n := p + index;
        forall i { NextLabel(host, p, i); }
        assert host[n..] == s[index..];
        if s[index..] in mappings { return Some(s[index..]); }
        s, p := s[index + 1..], p + index + 1;
        assert host[p - 1] == '.';
      }
      forall i { EmptyLabelStops(host, p, i); }
      k := None;
    }

    /** ok is never set by the source's named result, so it is false whatever is found. */
    method Lookup(network: string, host: string) returns (ips: seq<Ip>, ok: bool)
      ensures !ok
      ensures exists k :: MostSpecific(mappings.Keys, host, k)
                && ips == if k == None then [] else OfNetwork(network, mappings[k.value])
    {
      var k := Find(host);
      ok := false;
      if k == None { return [], ok; }
      KeyIsThere(mappings.Keys, host, k);
      var all := mappings[k.value];
      ips := [];
      for i := 0 to |all|
        invariant ips == OfNetwork(network, all[..i])
      {
        assert all[..i + 1][..i] == all[..i];
        if Wanted(network, all[i]) {
          ips := ips + [all[i]];
        } else {
          assert OfNetwork(network, all[..i + 1]) == ips + [];
        }
      }
      assert all[..|all|] == all;
    }
  }

  lemma KeyIsThere(keys: set<string>, host: string, k: Option<string>)
    requires MostSpecific(keys, host, k) && k.Some?
    ensures k.value in keys
  {
  }

  // ---------------------------------------------------------------- the ingress rules

  datatype Rule = Rule(hostname: string, endpoint: string)

  predicate Usable(r: Rule) { r.hostname != "" && r.endpoint != "" }

  /** The table key of a rule: a leading "*" is dropped. */
  function KeyOf(r: Rule): string
    requires r.hostname != ""
  {
    if r.hostname[0] == '*' then r.hostname[1..] else r.hostname
  }

  ghost predicate LastFor(rs: seq<Rule>, key: string, k: int) {
    && 0 <= k < |rs| && Usable(rs[k]) && KeyOf(rs[k]) == key
    && forall j :: k < j < |rs| && Usable(rs[j]) ==> KeyOf(rs[j]) != key
  }

  /** It has a hostname, which is the key but for a leading star, and an endpoint; no later rule of that key has
      both. */
  lemma LastMeans(rs: seq<Rule>, key: string, k: int)
    ensures LastFor(rs, key, k) <==>
              && 0 <= k < |rs| && rs[k].endpoint != "" && ForKey(rs[k].hostname, key)
              && forall j | k < j < |rs| && rs[j].endpoint != "" :: !ForKey(rs[j].hostname, key)
  {
    assert forall j :: 0 <= j < |rs| ==>
        (Usable(rs[j]) && KeyOf(rs[j]) == key <==> rs[j].endpoint != "" && ForKey(rs[j].hostname, key));
  }

  predicate ForKey(hostname: string, key: string) {
    hostname == "*" + key || (hostname == key && key != "" && key[0] != '*')
  }

  /** r is the rule of the key that the host is found under. */
  ghost predicate Answers(rules: map<string, Rule>, host: string, r: Option<Rule>) {
    exists k :: MostSpecific(rules.Keys, host, k) && AtKey(rules, k, r)
  }

  predicate AtKey(rules: map<string, Rule>, k: Option<string>, r: Option<Rule>) {
    if k == None then r == None else k.value in rules && r == Some(rules[k.value])
  }

  /** The table holds the last rule of each key. */
  ghost predicate Tabled(rs: seq<Rule>, table: map<string, Rule>) {
    && (forall key :: key in table ==> exists k :: LastFor(rs, key, k) && table[key] == rs[k])
    && (forall key, k :: LastFor(rs, key, k) ==> key in table && table[key] == rs[k])
  }

  lemma NoRules()
    ensures Tabled([], map[])
  {
  }

  lemma TabledMeans(rs: seq<Rule>, table: map<string, Rule>)
    requires Tabled(rs, table)
    ensures forall key :: key in table <==> exists k :: LastFor(rs, key, k)
    ensures forall key, k :: LastFor(rs, key, k) ==> key in table && table[key] == rs[k]
  {
  }

  /** One more rule is the last of its own key, if it is usable, and of no other. */
  lemma LastOfMore(rs: seq<Rule>, r: Rule, key: string, k: int)
    ensures LastFor(rs + [r], key, k) <==>
              if Usable(r) && KeyOf(r) == key then k == |rs| else LastFor(rs, key, k)
  {
    var all := rs + [r];
    assert all[|rs|] == r && forall j :: 0 <= j < |rs| ==> all[j] == rs[j];
    if k == |rs| && Usable(r) && KeyOf(r) == key {
      assert LastFor(all, key, k);
    } else if LastFor(all, key, k) {
      assert k < |rs|;
    }
  }

  lemma OneMoreRule(rs: seq<Rule>, r: Rule, table: map<string, Rule>)
    requires Tabled(rs, table)
    ensures Tabled(rs + [r], if Usable(r) then table[KeyOf(r) := r] else table)
  {
    hide LastFor;
    var more := if Usable(r) then table[KeyOf(r) := r] else table;
    forall key, k ensures LastFor(rs + [r], key, k) <==>
                            if Usable(r) && KeyOf(r) == key then k == |rs| else LastFor(rs, key, k) {
      LastOfMore(rs, r, key, k);
    }
    forall key, k | LastFor(rs, key, k) ensures 0 <= k < |rs| && (rs + [r])[k] == rs[k] {
      LastInRange(rs, key, k);
    }
    forall key | key in more ensures exists k :: LastFor(rs + [r], key, k) && more[key] == (rs + [r])[k] {
      if Usable(r) && key == KeyOf(r) {
        assert LastFor(rs + [r], key, |rs|) && (rs + [r])[|rs|] == r;
      } else {
        var k :| LastFor(rs, key, k) && table[key] == rs[k];
        assert LastFor(rs + [r], key, k);
      }
    }
  }

  lemma LastInRange(rs: seq<Rule>, key: string, k: int)
    requires LastFor(rs, key, k)
    ensures 0 <= k < |rs|
  {
  }

  class Ingress {
    var rules: map<string, Rule>

    constructor ()
      ensures rules == map[]
    {
      rules := map[];
    }

    /** The last usable rule of a key wins. */
    method Reload(rs: seq<Rule>)
      modifies this
      ensures forall key :: key in rules <==> exists k :: LastFor(rs, key, k)
      ensures forall key, k :: LastFor(rs, key, k) ==> key in rules && rules[key] == rs[k]
    {
      var table: map<string, Rule> := map[];
      NoRules();
      hide Tabled;
      for i := 0 to |rs|
        invariant Tabled(rs[..i], table)
      {
        OneMoreRule(rs[..i], rs[i], table);
        assert rs[..i + 1] == rs[..i] + [rs[i]];
        if Usable(rs[i]) {
          table := table[KeyOf(rs[i]) := rs[i]];
        }
      }
      assert rs[..|rs|] == rs;
      rules := table;
      TabledMeans(rs, table);
    }

    /** stripped is the host part that splitting off a port gives, "" when there is no port. */
    method GetRule(host: string, stripped: string) returns (r: Option<Rule>)
      ensures host == "" ==> r == None
      ensures host != "" ==> Answers(rules, if stripped != "" then stripped else host, r)
    {
      hide IndexOf;
      if host == "" { return None; }
      var h := if stripped != "" then stripped else host;
      if h in rules {
        assert MostSpecific(rules.Keys, h, Some(h)) && AtKey(rules, Some(h), Some(rules[h]));
        return Some(rules[h]);
      }
      if "." + h in rules {
        assert MostSpecific(rules.Keys, h, Some("." + h)) && AtKey(rules, Some("." + h), Some(rules["." + h]));
        return Some(rules["." + h]);
      }
      var s, p := h, 0;
      while true
        invariant p <= |h| && s == h[p..]
        invariant p > 0 ==> Candidate(h, p - 1)
        invariant p > 0 ==> h[p - 1] == '.'
        invariant forall i :: 0 < i < p && Candidate(h, i) ==> h[i..] !in rules
        decreases |h| - p
      {
        var index := IndexOf(s, '.');
        if index <= 0 { break; }
        ghost var n := p + index;
        forall i { NextLabel(h, p, i); }
        assert h[n..] == s[index..];
        if s[index..] in rules {
          assert MostSpecific(rules.Keys, h, Some(s[index..]))
              && AtKey(rules, Some(s[index..]), Some(rules[s[index..]]));
          return Some(rules[s[index..]]);
        }
        s, p := s[index + 1..], p + index + 1;
        assert h[p - 1] == '.';
      }
      forall i { EmptyLabelStops(h, p, i); }
      assert MostSpecific(rules.Keys, h, None) && AtKey(rules, None, None);
      r := None;
    }
  }

  /** A wildcard rule "*.base" covers every subdomain written without empty labels. */
  lemma WildcardCovers(keys: set<string>, rule: Rule, base: string, sub: string, k: Option<string>)
    requires rule.hostname == "*." + base && KeyOf(rule) in keys
    requires Candidate(sub + "." + base, |sub|) && MostSpecific(keys, sub + "." + base, k)
    ensures k.Some? && |k.value| >= |base| + 1
  {
    var host := sub + "." + base;
    assert host[|sub|..] == "." + base;
    assert KeyOf(rule) == "." + base;
    MostSpecificIsLongest(keys, host, k, |sub|);
  }
}
