/** The string helpers the panel and the node share: decimal printing and parsing,
    splitting, searching and trimming, as the Go standard library defines them. */
module Text {

  datatype Option<+T> = None | Some(value: T)

  // ---------------------------------------------------------------- decimal

  predicate IsDigit(c: char) { '0' <= c <= '9' }

  predicate AllDigits(s: string) { forall c | c in s :: IsDigit(c) }

  function Digit(d: int): (c: char)
    requires 0 <= d < 10
    ensures IsDigit(c)
  {
    '0' + d as char
  }

  function NatStr(n: nat): (s: string)
    ensures |s| >= 1 && AllDigits(s)
  {
    if n < 10 then [Digit(n)] else NatStr(n / 10) + [Digit(n % 10)]
  }

  /** fmt's %d and strconv.FormatInt. */
  function Itoa(n: int): (s: string)
    ensures |s| >= 1 && (IsDigit(s[0]) || s[0] == '-')
    ensures forall c | c in s :: IsDigit(c) || c == '-'
  {
    if n < 0 then "-" + NatStr(-n) else NatStr(n)
  }

  /** The number a run of digits denotes, most significant digit first. */
  function Value(s: string): (v: nat)
    requires AllDigits(s)
  {
    if s == "" then 0 else
      assert IsDigit(s[|s| - 1]);
      10 * Value(s[..|s| - 1]) + (s[|s| - 1] as int - '0' as int)
  }

  lemma {:induction false} ValueOfNatStr(n: nat)
    ensures Value(NatStr(n)) == n
  {
    if n >= 10 {
      ValueOfNatStr(n / 10);
      var s := NatStr(n);
      assert s[..|s| - 1] == NatStr(n / 10);
    } else {
      assert NatStr(n)[..0] == "";
    }
  }

  const MAX_INT64: int := 0x7fff_ffff_ffff_ffff

  /** strconv.ParseInt(s, 10, 64), which is also strconv.Atoi on a 64-bit machine. */
  function ParseInt(s: string): Option<int> {
    var body := if s != "" && (s[0] == '+' || s[0] == '-') then s[1..] else s;
    if body == "" || !AllDigits(body) then None
    else
      var v: int := if s[0] == '-' then -(Value(body) as int) else Value(body);
      if -MAX_INT64 - 1 <= v <= MAX_INT64 then Some(v) else None
  }

  lemma ParseIntOfItoa(n: int)
    requires -MAX_INT64 - 1 <= n <= MAX_INT64
    ensures ParseInt(Itoa(n)) == Some(n)
  {
    hide NatStr, Value;
    if n < 0 {
      ValueOfNatStr(-n);
      assert Itoa(n)[1..] == NatStr(-n);
    } else {
      ValueOfNatStr(n);
      assert IsDigit(NatStr(n)[0]);
    }
  }

  lemma ItoaInjective(m: int, n: int)
    requires Itoa(m) == Itoa(n)
    ensures m == n
  {
    hide NatStr, Value;
    assert IsDigit(Itoa(m)[0]) <==> m >= 0;
    assert IsDigit(Itoa(n)[0]) <==> n >= 0;
    if m >= 0 && n >= 0 {
      ValueOfNatStr(m); ValueOfNatStr(n);
    } else if m < 0 && n < 0 {
      assert Itoa(m)[1..] == NatStr(-m) && Itoa(n)[1..] == NatStr(-n);
      ValueOfNatStr(-m); ValueOfNatStr(-n);
    }
  }

  // ---------------------------------------------------------------- searching

  /** The first position from i on that holds c, -1 when there is none. */
  function IndexFrom(s: string, c: char, i: nat): (k: int)
    requires i <= |s|
    ensures k == -1 || i <= k < |s|
    ensures k >= 0 ==> s[k] == c
    ensures forall j :: i <= j < (if k < 0 then |s| else k) ==> s[j] != c
    decreases |s| - i
  {
    if i == |s| then -1 else if s[i] == c then i else IndexFrom(s, c, i + 1)
  }

  /** The last position before k that holds c, -1 when there is none. */
  function LastIndexBefore(s: string, c: char, k: nat): (i: int)
    requires k <= |s|
    ensures -1 <= i < k
    ensures i >= 0 ==> s[i] == c
    ensures forall j :: i < j < k ==> s[j] != c
  {
    if k == 0 then -1 else if s[k - 1] == c then k - 1 else LastIndexBefore(s, c, k - 1)
  }

  /** strings.IndexByte and strings.Index of a one-character string. */
  function IndexOf(s: string, c: char): (i: int)
    ensures -1 <= i < |s|
    ensures i >= 0 ==> s[i] == c && c !in s[..i]
    ensures i == -1 <==> c !in s
  {
    IndexFrom(s, c, 0)
  }

  /** strings.LastIndex of a one-character string. */
  function LastIndexOf(s: string, c: char): (i: int)
    ensures -1 <= i < |s|
    ensures i >= 0 ==> s[i] == c && c !in s[i + 1..]
    ensures i == -1 <==> c !in s
  {
    LastIndexBefore(s, c, |s|)
  }

  lemma LastIndexOfJoin(a: string, c: char, b: string)
    requires c !in b
    ensures LastIndexOf(a + [c] + b, c) == |a|
  {
    var s := a + [c] + b;
    assert s[|a|] == c && s[|a| + 1..] == b;
  }

  lemma IndexOfJoin(a: string, c: char, b: string)
    requires c !in a
    ensures IndexOf(a + [c] + b, c) == |a|
  {
    var s := a + [c] + b;
    assert s[|a|] == c && s[..|a|] == a;
  }

  // ---------------------------------------------------------------- splitting

  /** strings.Split on a one-character separator. */
  function Split(s: string, c: char): (parts: seq<string>)
    ensures |parts| >= 1
    decreases |s|
  {
    var i := IndexOf(s, c);
    if i < 0 then [s] else [s[..i]] + Split(s[i + 1..], c)
  }

  lemma SplitJoin(a: string, c: char, b: string)
    requires c !in a
    ensures Split(a + [c] + b, c) == [a] + Split(b, c)
  {
    IndexOfJoin(a, c, b);
    var s := a + [c] + b;
    assert s[..|a|] == a && s[|a| + 1..] == b;
  }

  // ---------------------------------------------------------------- trimming

  /** unicode.IsSpace. */
  predicate IsSpace(c: char) {
    c in {' ', '\t', '\n', '\U{0B}', '\U{0C}', '\r', '\U{85}', '\U{A0}', '\U{1680}', '\U{2028}',
          '\U{2029}', '\U{202F}', '\U{205F}', '\U{3000}'} || '\U{2000}' <= c <= '\U{200A}'
  }

  /** The first position from i on that holds no blank, |s| when there is none. */
  function SkipBlanks(s: string, i: nat): (k: nat)
    requires i <= |s|
    ensures i <= k <= |s| && (k < |s| ==> !IsSpace(s[k]))
    decreases |s| - i
  {
    if i < |s| && IsSpace(s[i]) then SkipBlanks(s, i + 1) else i
  }

  /** The end of what precedes the blanks that end at k. */
  function DropBlanks(s: string, k: nat): (e: nat)
    requires k <= |s|
    ensures e <= k && (e > 0 ==> !IsSpace(s[e - 1]))
  {
    if k > 0 && IsSpace(s[k - 1]) then DropBlanks(s, k - 1) else k
  }

  function TrimLeft(s: string): (r: string)
    ensures |r| <= |s| && (r == "" || !IsSpace(r[0]))
  {
    s[SkipBlanks(s, 0)..]
  }

  function TrimRight(s: string): (r: string)
    ensures |r| <= |s| && (r == "" || (r[0] == s[0] && !IsSpace(r[|r| - 1])))
  {
    s[..DropBlanks(s, |s|)]
  }

  /** strings.TrimSpace. */
  function Trim(s: string): (r: string)
    ensures Tight(r)
  {
    TrimRight(TrimLeft(s))
  }

  /** No blank at either end. */
  predicate Tight(s: string) {
    s == "" || (!IsSpace(s[0]) && !IsSpace(s[|s| - 1]))
  }

  lemma TrimOfTight(s: string)
    ensures Trim(s) == s <==> Tight(s)
  {
  }

  function ToSet<T>(s: seq<T>): set<T> { set x | x in s }

  /** What choosing an element of a set in a loop needs. */
  lemma SomeMember(s: set<int>)
    requires s != {}
    ensures exists x :: x in s
  {
    if forall x :: x !in s {
      assert false;
    }
  }
}
