/** Printing and parsing of host:port addresses (go-backend/service/forward.go), and the monitor's second
    parser (go-backend/task/monitor.go). */
module Address {
  import opened Text

  function Plain(h: string, p: string): (r: string)
    ensures |r| == |h| + 1 + |p| && r[..|h|] == h && r[|h|] == ':' && r[|h| + 1..] == p
  {
    h + ":" + p
  }

  function Bracketed(h: string, p: string): (r: string)
    ensures |r| == |h| + 3 + |p| && r[0] == '[' && r[1..|h| + 1] == h && r[|h| + 1] == ']' && r[|h| + 2] == ':'
              && r[|h| + 3..] == p
  {
    var open := "[" + h + "]";
    assert open[0] == '[' && open[1..|h| + 1] == h && open[|h| + 1] == ']';
    var r := open + ":" + p;
    assert r[..|h| + 2] == open && r[|h| + 2] == ':' && r[|h| + 3..] == p;
    assert r[1..|h| + 1] == open[1..|h| + 1];
    r
  }

  function FormatRemoteAddr(ip: string, port: int): string {
    if ':' in ip then Bracketed(ip, Itoa(port)) else Plain(ip, Itoa(port))
  }

  /** The position of the bracket that closes an address beginning with one; 0 for any other address. */
  function CloseBracket(a: string): (i: int)
    ensures i < |a| || i == 0
  {
    if a != "" && a[0] == '[' && IndexOf(a, ']') > 1 then IndexOf(a, ']') else 0
  }

  function ExtractIp(address: string): string {
    var a := Trim(address);
    if a == "" then ""
    else if CloseBracket(a) > 0 then a[1..CloseBracket(a)]
    else if LastIndexOf(a, ':') > 0 then a[..LastIndexOf(a, ':')]
    else a
  }

  /** The text that both parsers read the port from. */
  function PortText(address: string): Option<string> {
    var a := Trim(address);
    var cb, colon := CloseBracket(a), LastIndexOf(a, ':');
    if cb > 0 && cb + 1 < |a| && a[cb + 1] == ':' then Some(a[cb + 2..])
    else if colon > 0 && colon + 1 < |a| then Some(a[colon + 1..])
    else None
  }

  /** The panel reads digits only. */
  function ExtractPort(address: string): int {
    var t := PortText(address);
    if t.Some? && AllDigits(t.value) then Value(t.value) else -1
  }

  /** The monitor uses Atoi. */
  function MonitorPort(address: string): int {
    var t := PortText(address);
    if t.Some? && ParseInt(t.value).Some? then ParseInt(t.value).value else -1
  }

  /** The loop that accumulates the digits. */
  method ExtractPortFromAddress(address: string) returns (port: int)
    ensures port == ExtractPort(address)
  {
    hide Trim;
    var t := PortText(address);
    if t == None { return -1; }
    var portStr := t.value;
    port := 0;
    for i := 0 to |portStr|
      invariant AllDigits(portStr[..i]) && port == Value(portStr[..i])
    {
      if portStr[i] < '0' || portStr[i] > '9' {
        assert portStr[i] in portStr && !IsDigit(portStr[i]);
        return -1;
      }
      assert portStr[..i + 1][..i] == portStr[..i];
      port := port * 10 + (portStr[i] as int - '0' as int);
    }
    assert portStr[..|portStr|] == portStr;
  }

  // ---------------------------------------------------------------- what printing yields

  /** What the proofs need of a printed port. */
  predicate PortLike(p: string) {
    p != "" && !IsSpace(p[|p| - 1]) && ':' !in p && ']' !in p
  }

  lemma PrintedPort(port: int)
    ensures PortLike(Itoa(port))
    ensures port >= 0 ==> AllDigits(Itoa(port)) && Value(Itoa(port)) == port
    ensures port < 0 ==> !AllDigits(Itoa(port))
  {
    var s := Itoa(port);
    assert s[|s| - 1] in s;
    if port >= 0 {
      ValueOfNatStr(port);
    } else {
      assert s[0] == '-' && s[0] in s;
    }
  }

  lemma {:induction false} SkipJoin(host: string, rest: string, i: nat)
    requires rest != "" && !IsSpace(rest[0]) && i <= |host|
    ensures SkipBlanks(host + rest, i) == SkipBlanks(host, i)
    decreases |host| - i
  {
    if i < |host| {
      SkipJoin(host, rest, i + 1);
    }
  }

  lemma TrimLeftJoin(host: string, rest: string)
    requires rest != "" && !IsSpace(rest[0])
    ensures TrimLeft(host + rest) == TrimLeft(host) + rest
  {
    hide SkipBlanks, IsSpace;
    SkipJoin(host, rest, 0);
    var k := SkipBlanks(host, 0);
    assert (host + rest)[k..] == host[k..] + rest;
  }

  lemma LastIndexIs(s: string, c: char, i: nat)
    requires i < |s| && s[i] == c && c !in s[i + 1..]
    ensures LastIndexOf(s, c) == i
  {
    var k := LastIndexOf(s, c);
    assert k >= 0;
  }

  lemma IndexIs(s: string, c: char, i: nat)
    requires i < |s| && s[i] == c && c !in s[..i]
    ensures IndexOf(s, c) == i
  {
    var k := IndexOf(s, c);
    assert k >= 0;
  }

  lemma NothingToTrim(a: string)
    requires a != ""
    ensures !IsSpace(a[0]) ==> TrimLeft(a) == a
    ensures !IsSpace(a[|a| - 1]) ==> TrimRight(a) == a
  {
  }

  /** A printed address without brackets, as trimmed: what is left of the host, a colon and the port. */
  lemma TrimPlain(host: string, p: string)
    requires PortLike(p)
    ensures Trim(Plain(host, p)) == Plain(TrimLeft(host), p)
    ensures LastIndexOf(Plain(TrimLeft(host), p), ':') == |TrimLeft(host)|
  {
    hide TrimLeft, TrimRight, IsSpace, LastIndexOf, Plain;
    SpaceFree();
    TrimLeftPlain(host, p);
    var a := Plain(TrimLeft(host), p);
    assert a[|a| - 1] == p[|p| - 1] by { assert a[|TrimLeft(host)| + 1..][|p| - 1] == p[|p| - 1]; }
    NothingToTrim(a);
    LastIndexIs(a, ':', |TrimLeft(host)|);
  }

  lemma SpaceFree()
    ensures !IsSpace(':') && !IsSpace('[')
  {
  }

  lemma PlainIs(h: string, p: string, rest: string)
    requires rest == ":" + p
    ensures Plain(h, p) == h + rest
  {
  }

  lemma TrimLeftPlain(host: string, p: string)
    ensures TrimLeft(Plain(host, p)) == Plain(TrimLeft(host), p)
  {
    hide TrimLeft, IsSpace, Plain;
    SpaceFree();
    var rest := ":" + p;
    assert rest[0] == ':';
    TrimLeftJoin(host, rest);
    PlainIs(host, p, rest);
    PlainIs(TrimLeft(host), p, rest);
  }

  lemma TrimBracketed(host: string, p: string)
    requires PortLike(p)
    ensures Trim(Bracketed(host, p)) == Bracketed(host, p)
    ensures LastIndexOf(Bracketed(host, p), ':') == |host| + 2
  {
    hide TrimLeft, TrimRight, IsSpace, LastIndexOf, Bracketed;
    SpaceFree();
    var a := Bracketed(host, p);
    assert a[|a| - 1] == p[|p| - 1] by { assert a[|host| + 3..][|p| - 1] == p[|p| - 1]; }
    NothingToTrim(a);
    LastIndexIs(a, ':', |host| + 2);
  }

  /** The hosts that survive: with a colon, those without a closing bracket; without one, those that do not begin
      with a blank and do not look like a bracketed address themselves. */
  predicate Printable(host: string) {
    if ':' in host then ']' !in host
    else host != "" && !IsSpace(host[0]) && CloseBracket(host) == 0
  }

  lemma BracketInPlain(h: string, p: string)
    requires ']' !in p
    ensures CloseBracket(Plain(h, p)) == CloseBracket(h)
  {
    hide Plain, IndexOf;
    var a := Plain(h, p);
    if h != "" {
      assert a[0] == h[0] by { assert a[..|h|][0] == h[0]; }
      if ']' in h {
        var i := IndexOf(h, ']');
        assert a[i] == a[..|h|][i] && a[..i] == a[..|h|][..i];
        IndexIs(a, ']', i);
      } else {
        forall k | 0 <= k < |a| ensures a[k] != ']' {
          assert k < |h| ==> a[k] == a[..|h|][k];
          assert k > |h| ==> a[k] == a[|h| + 1..][k - |h| - 1];
        }
      }
    } else {
      assert a[0] == ':';
    }
  }

  lemma BracketedAt(h: string, p: string)
    ensures forall k :: 0 <= k < |h| ==> Bracketed(h, p)[k + 1] == h[k]
  {
    hide Bracketed;
    var a := Bracketed(h, p);
    forall k | 0 <= k < |h| ensures a[k + 1] == h[k] {
      assert a[k + 1] == a[1..|h| + 1][k];
    }
  }

  lemma BracketInBracketed(h: string, p: string)
    ensures CloseBracket(Bracketed(h, p)) ==
            if ']' !in h then (if h == "" then 0 else |h| + 1)
            else if IndexOf(h, ']') == 0 then 0
            else IndexOf(h, ']') + 1
  {
    hide Bracketed, IndexOf;
    var a := Bracketed(h, p);
    var i := if ']' in h then IndexOf(h, ']') else |h|;
    BracketedAt(h, p);
    assert a[i + 1] == ']';
    forall k | 0 <= k < i + 1 ensures a[k] != ']' {
      assert k > 0 ==> a[k] == h[k - 1] && h[k - 1] == h[..i][k - 1] && h[k - 1] in h[..i];
    }
    assert ']' !in a[..i + 1];
    IndexIs(a, ']', i + 1);
  }

  lemma BlankFree(host: string)
    ensures host != "" && !IsSpace(host[0]) ==> TrimLeft(host) == host
    ensures host != "" && IsSpace(host[0]) ==> |TrimLeft(host)| < |host|
    ensures TrimLeft(host) == "" || !IsSpace(TrimLeft(host)[0])
  {
  }

  lemma BracketRange(h: string)
    ensures 0 <= CloseBracket(h) && (h == "" ==> CloseBracket(h) == 0) && (h != "" ==> CloseBracket(h) < |h|)
  {
  }

  lemma PlainIp(host: string, p: string)
    requires ':' !in host && PortLike(p)
    ensures ExtractIp(Plain(host, p)) == host <==> Printable(host)
  {
    hide Trim, IsSpace, LastIndexOf, CloseBracket, Plain, TrimLeft;
    var h := TrimLeft(host);
    var a := Plain(h, p);
    TrimPlain(host, p);
    BracketInPlain(h, p);
    BlankFree(host);
    BracketRange(h);
    if h == "" {
      assert ':' in a && ':' !in host;
    } else if CloseBracket(h) > 0 {
      assert |a[1..CloseBracket(a)]| < |h| <= |host|;
    } else {
      assert a[..|h|] == h;
    }
  }

  lemma BracketedIp(host: string, p: string)
    requires ':' in host && PortLike(p)
    ensures ExtractIp(Bracketed(host, p)) == host <==> Printable(host)
  {
    hide Trim, LastIndexOf, CloseBracket, Bracketed, IndexOf;
    var a := Bracketed(host, p);
    TrimBracketed(host, p);
    BracketInBracketed(host, p);
    if ']' !in host {
      assert a[1..|host| + 1] == host;
    } else if CloseBracket(a) > 0 {
      assert |a[1..CloseBracket(a)]| < |host|;
    } else {
      assert |a[..|host| + 2]| == |host| + 2;
    }
  }

  /** On a printed address the port text is the printed port, or something with a colon in it. */
  lemma PlainPortText(host: string, p: string)
    requires ':' !in host && PortLike(p)
    ensures var t := PortText(Plain(host, p)); t.Some? ==> t.value == p
    ensures Printable(host) ==> PortText(Plain(host, p)) == Some(p)
  {
    hide Trim, IsSpace, LastIndexOf, CloseBracket, Plain, TrimLeft, IndexOf;
    var h := TrimLeft(host);
    TrimPlain(host, p);
    BracketInPlain(h, p);
    BlankFree(host);
    BracketRange(h);
    NoColonLeft(host);
    NoColonBefore(h, p);
  }

  lemma NoColonBefore(h: string, p: string)
    requires ':' !in h
    ensures forall k :: 0 <= k < |h| ==> Plain(h, p)[k] != ':'
  {
    hide Plain;
    var a := Plain(h, p);
    forall k | 0 <= k < |h| ensures a[k] != ':' {
      assert a[k] == a[..|h|][k] && h[k] in h;
    }
  }

  lemma NoColonLeft(host: string)
    requires ':' !in host
    ensures ':' !in TrimLeft(host)
  {
  }

  lemma BracketedPortText(host: string, p: string)
    requires ':' in host && PortLike(p)
    ensures var t := PortText(Bracketed(host, p)); t.Some? ==> t.value == p || ':' in t.value
    ensures Printable(host) ==> PortText(Bracketed(host, p)) == Some(p)
  {
    hide Trim, LastIndexOf, CloseBracket, Bracketed, IndexOf;
    var a := Bracketed(host, p);
    TrimBracketed(host, p);
    BracketInBracketed(host, p);
    var cb := CloseBracket(a);
    if 0 < cb <= |host| {
      assert a[cb + 2..][|host| - cb] == ':';
    }
  }

  /** Printing an address and parsing it gives back the host exactly for the printable hosts, and for those the
      port, when it is zero or more. */
  lemma RoundTrip(host: string, port: int)
    requires port >= 0
    ensures ExtractIp(FormatRemoteAddr(host, port)) == host <==> Printable(host)
    ensures Printable(host) ==> ExtractPort(FormatRemoteAddr(host, port)) == port
  {
    hide Itoa, ExtractIp, PortText, PortLike, Printable;
    PrintedPort(port);
    if ':' in host {
      BracketedIp(host, Itoa(port));
      BracketedPortText(host, Itoa(port));
    } else {
      PlainIp(host, Itoa(port));
      PlainPortText(host, Itoa(port));
    }
  }

  /** The monitor's parser agrees on every printed address whose port is -1 or more, whatever the host; below -1 it
      differs on every printable host, where it reads the number and the panel reads none. */
  lemma MonitorAgrees(host: string, port: int)
    requires -MAX_INT64 - 1 <= port <= MAX_INT64
    ensures port >= -1 ==> MonitorPort(FormatRemoteAddr(host, port)) == ExtractPort(FormatRemoteAddr(host, port))
    ensures Printable(host) && port < -1 ==>
              MonitorPort(FormatRemoteAddr(host, port)) != ExtractPort(FormatRemoteAddr(host, port))
  {
    hide Itoa, PortText, PortLike, Printable, ParseInt, Value;
    PrintedPort(port);
    ParseIntOfItoa(port);
    if ':' in host {
      BracketedPortText(host, Itoa(port));
    } else {
      PlainPortText(host, Itoa(port));
    }
    var t := PortText(FormatRemoteAddr(host, port));
    if t.Some? && ':' in t.value {
      ColonIsNoNumber(t.value);
    }
  }

  lemma ColonIsNoNumber(s: string)
    requires ':' in s
    ensures !AllDigits(s) && ParseInt(s) == None
  {
    var i :| 0 <= i < |s| && s[i] == ':';
    var body := if s[0] == '+' || s[0] == '-' then s[1..] else s;
    assert ':' in body by { assert i > 0 ==> s[1..][i - 1] == ':'; }
  }

  // ---------------------------------------------------------------- any other address

  /** The text after the last colon, if there is a text before it and after it. */
  predicate AfterLastColon(a: string, t: Option<string>) {
    if ':' !in a then t == None
    else var i := LastIndexOf(a, ':'); t == if i > 0 && i < |a| - 1 then Some(a[i + 1..]) else None
  }

  /** An address that begins with a host in brackets: that is the host, and the port is what follows a colon right
      after the brackets, else what follows the last colon. */
  lemma ParseBracketed(address: string, host: string, rest: string)
    requires Trim(address) == "[" + host + "]" + rest && host != "" && ']' !in host
    ensures ExtractIp(address) == host
    ensures rest != "" && rest[0] == ':' ==> PortText(address) == Some(rest[1..])
    ensures rest == "" || rest[0] != ':' ==> AfterLastColon(Trim(address), PortText(address))
  {
    hide Trim, LastIndexOf, IndexOf;
    var a := Trim(address);
    var open := "[" + host + "]";
    assert a == open + rest && a[0] == '[' && a[1..|host| + 1] == host && a[|host| + 1] == ']';
    assert a[|host| + 2..] == rest;
    forall k | 0 <= k < |host| + 1 ensures a[k] != ']' {
      assert k > 0 ==> a[k] == a[1..|host| + 1][k - 1] && host[k - 1] in host;
    }
    IndexIs(a, ']', |host| + 1);
    if rest != "" {
      assert a[|host| + 2] == rest[0];
      assert a[|host| + 3..] == rest[1..];
    }
  }

  /** Any other address: what is before the last colon and after it, or no port when one of them is empty. */
  lemma ParseOpen(address: string)
    requires forall host, rest | Trim(address) == "[" + host + "]" + rest && ']' !in host :: host == ""
    ensures AfterLastColon(Trim(address), PortText(address))
    ensures var a, i := Trim(address), LastIndexOf(Trim(address), ':');
            ExtractIp(address) == if i > 0 then a[..i] else a
  {
    hide Trim, LastIndexOf, CloseBracket;
    BracketsFound(Trim(address));
  }

  lemma BracketsFound(a: string)
    ensures CloseBracket(a) > 0 ==>
              exists host, rest :: a == "[" + host + "]" + rest && ']' !in host && host != ""
  {
    hide IndexOf;
    var cb := CloseBracket(a);
    if cb > 0 {
      var host, rest := a[1..cb], a[cb + 1..];
      assert a == "[" + host + "]" + rest;
      forall k | 0 <= k < |host| ensures host[k] != ']' {
        assert host[k] == a[..cb][k + 1] && a[..cb][k + 1] in a[..cb];
      }
      assert ']' !in host && host != "";
    }
  }
}
