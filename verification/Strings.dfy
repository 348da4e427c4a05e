/** Go's strings and numbers: strings.Index, strings.Split, strconv.Itoa. */
module Strings {

  // ── Splitting ──────────────────────────────────────────────────

  /** Where sep first is in s, or its length. */
  function Index(s: string, sep: char): (i: nat)
    ensures i <= |s| && sep !in s[..i] && (i < |s| ==> s[i] == sep)
  {
    if s == "" || s[0] == sep then 0
    else
      var j := Index(s[1..], sep);
      assert s[..j + 1] == [s[0]] + s[1..][..j];
      j + 1
  }

  /** strings.Split. */
  function Split(s: string, sep: char): (r: seq<string>)
    ensures r != []
    decreases |s|
  {
    var i := Index(s, sep);
    if i == |s| then [s] else [s[..i]] + Split(s[i + 1..], sep)
  }

  lemma {:induction false} IndexIs(a: string, sep: char, b: string)
    requires sep !in a
    ensures Index(a + [sep] + b, sep) == |a| && Index(a, sep) == |a|
  {
    if a != "" {
      assert a[0] in a;
      assert (a + [sep] + b)[1..] == a[1..] + [sep] + b;
      IndexIs(a[1..], sep, b);
    }
  }

  lemma SplitFirst(a: string, sep: char, b: string)
    requires sep !in a
    ensures Split(a + [sep] + b, sep) == [a] + Split(b, sep)
  {
    var s := a + [sep] + b;
    IndexIs(a, sep, b);
    assert s[..|a|] == a && s[|a| + 1..] == b;
  }

  lemma SplitNone(a: string, sep: char)
    requires sep !in a
    ensures Split(a, sep) == [a]
  {
    IndexIs(a, sep, "");
  }

  // ── Numbers ────────────────────────────────────────────────────────────────

  function Digit(d: nat): char
    requires d < 10
  {
    ('0' as int + d) as char
  }

  /** strconv.Itoa. */
  function Itoa(n: int): string
    decreases if n < 0 then 1 - n else n
  {
    if n < 0 then "-" + Itoa(-n)
    else if n < 10 then [Digit(n)]
    else Itoa(n / 10) + [Digit(n % 10)]
  }

  predicate IsNumber(s: string) {
    s != "" && forall i :: 0 <= i < |s| ==> '0' <= s[i] <= '9'
  }

  function Number(s: string): nat
    requires forall i :: 0 <= i < |s| ==> '0' <= s[i] <= '9'
  {
    if s == "" then 0 else Number(s[..|s| - 1]) * 10 + (s[|s| - 1] as int - '0' as int)
  }

  /** strconv.Atoi, its error ignored. */
  function Atoi(s: string): int {
    var digits := if s != "" && (s[0] == '-' || s[0] == '+') then s[1..] else s;
    if !IsNumber(digits) then 0 else if s[0] == '-' then -(Number(digits) as int) else Number(digits)
  }

  lemma {:induction false} ItoaIsNumber(n: nat)
    ensures IsNumber(Itoa(n)) && Number(Itoa(n)) == n
  {
    if n < 10 {
      assert Itoa(n)[..0] == "";
    } else {
      ItoaIsNumber(n / 10);
      var s := Itoa(n);
      assert s[..|s| - 1] == Itoa(n / 10);
    }
  }

  lemma AtoiOfItoa(n: nat)
    ensures Atoi(Itoa(n)) == n
  {
    ItoaIsNumber(n);
  }
}
