/** The string operations of the source language that several components use. */
module JsStrings {

  // White space as String.prototype.trim and the `\s` class see it.
  predicate IsSpace(c: char) {
    IsJsonSpace(c) || c == '\U{000B}' || c == '\U{000C}' || c == '\U{00A0}' || c == '\U{1680}' || '\U{2000}' <= c <= '\U{200A}'
    || c == '\U{2028}' || c == '\U{2029}' || c == '\U{202F}' || c == '\U{205F}' || c == '\U{3000}' || c == '\U{FEFF}'
  }

  // Insignificant white space of section 2 of RFC 8259.
  predicate IsJsonSpace(c: char) {
    c == ' ' || c == '\t' || c == '\n' || c == '\r'
  }

  function TrimStart(s: string): string {
    if s != "" && IsSpace(s[0]) then TrimStart(s[1..]) else s
  }

  function TrimEnd(s: string): string {
    if s != "" && IsSpace(s[|s| - 1]) then TrimEnd(s[..|s| - 1]) else s
  }

  function Trim(s: string): string {
    TrimEnd(TrimStart(s))
  }

  lemma {:induction false} TrimStartBefore(a: string, b: string)
    requires b != "" && !IsSpace(b[0])
    ensures TrimStart(a + b) == TrimStart(a) + b
    ensures exists k :: 0 <= k <= |a| && TrimStart(a) == a[k..]
  {
    if a == "" || !IsSpace(a[0]) {
      assert a == "" ==> a + b == b;
      assert TrimStart(a) == a[0..];
    } else {
      TrimStartBefore(a[1..], b);
      assert (a + b)[1..] == a[1..] + b;
      var k :| 0 <= k <= |a[1..]| && TrimStart(a[1..]) == a[1..][k..];
      assert TrimStart(a) == a[k + 1..];
    }
  }

  lemma {:induction false} TrimEndAfter(a: string, b: string)
    requires a != "" && !IsSpace(a[|a| - 1])
    ensures TrimEnd(a + b) == a + TrimEnd(b)
    ensures exists k :: 0 <= k <= |b| && TrimEnd(b) == b[..k]
  {
    if b == "" || !IsSpace(b[|b| - 1]) {
      assert b == "" ==> a + b == a;
      assert TrimEnd(b) == b[..|b|];
    } else {
      TrimEndAfter(a, b[..|b| - 1]);
      assert (a + b)[..|a + b| - 1] == a + b[..|b| - 1];
      var k :| 0 <= k <= |b[..|b| - 1]| && TrimEnd(b[..|b| - 1]) == b[..|b| - 1][..k];
      assert TrimEnd(b) == b[..k];
    }
  }

  ghost predicate AllSpace(s: string) {
    forall c <- s :: IsSpace(c)
  }

  lemma {:induction false} TrimStartIs(s: string) returns (k: nat)
    ensures k <= |s| && TrimStart(s) == s[k..] && AllSpace(s[..k])
    ensures TrimStart(s) != "" ==> !IsSpace(TrimStart(s)[0])
  {
    k := 0;
    if s != "" && IsSpace(s[0]) {
      var rest := TrimStartIs(s[1..]);
      k := rest + 1;
      assert s[..k] == [s[0]] + s[1..][..rest];
    }
  }

  lemma {:induction false} TrimEndIs(s: string) returns (k: nat)
    ensures k <= |s| && TrimEnd(s) == s[..k] && AllSpace(s[k..])
    ensures TrimEnd(s) != "" ==> !IsSpace(TrimEnd(s)[|TrimEnd(s)| - 1])
  {
    k := |s|;
    if s != "" && IsSpace(s[|s| - 1]) {
      k := TrimEndIs(s[..|s| - 1]);
      assert s[k..] == s[..|s| - 1][k..] + [s[|s| - 1]];
    }
  }

  /** What trimming takes away is white space, and what it leaves neither begins nor ends with any. */
  lemma TrimIs(s: string) returns (lo: nat, hi: nat)
    ensures lo <= hi <= |s| && Trim(s) == s[lo..hi] && AllSpace(s[..lo]) && AllSpace(s[hi..])
    ensures Trim(s) != "" ==> !IsSpace(s[lo]) && !IsSpace(s[hi - 1])
  {
    lo := TrimStartIs(s);
    var k := TrimEndIs(s[lo..]);
    hi := lo + k;
    assert s[lo..][..k] == s[lo..hi] && s[lo..][k..] == s[hi..];
  }
}
