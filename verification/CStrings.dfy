/** NUL-terminated strings as the C runtime sees them, in the default locale. */
module CStrings {

  datatype Option<+T> = None | Some(value: T)

  predicate NulFree(s: string) {
    forall i :: 0 <= i < |s| ==> s[i] != '\0'
  }

  /** The characters before the terminator. */
  type CStr = s: string | NulFree(s) witness ""

  /** Reading a C string at an index up to and including its terminator. */
  function At(s: string, i: nat): char {
    if i < |s| then s[i] else '\0'
  }

  function Lower(c: char): char {
    if 'A' <= c <= 'Z' then (c as int + 32) as char else c
  }

  /** _strnicmp(a, b, n) == 0, read character by character as the runtime does. */
  predicate StrniEq(a: string, b: string, n: nat)
    decreases n
  {
    if n == 0 then true
    else if Lower(At(a, 0)) != Lower(At(b, 0)) then false
    else if At(a, 0) == '\0' then true
    else StrniEq(a[1..], if b == "" then "" else b[1..], n - 1)
  }

  /** Equality ignoring ASCII case. */
  predicate EqFold(a: string, b: string) {
    |a| == |b| && forall i :: 0 <= i < |a| ==> Lower(a[i]) == Lower(b[i])
  }

  lemma EqFoldCons(a: string, b: string)
    requires a != "" && b != ""
    ensures EqFold(a, b) <==> Lower(a[0]) == Lower(b[0]) && EqFold(a[1..], b[1..])
  {}

  /** A bounded comparison of at most |a| characters is a prefix comparison. */
  lemma {:induction false} StrniEqPrefix(a: string, b: string, n: nat)
    requires NulFree(a) && n <= |a|
    ensures StrniEq(a, b, n) <==> n <= |b| && EqFold(a[..n], b[..n])
    decreases n
  {
    if n > 0 && b != "" {
      StrniEqPrefix(a[1..], b[1..], n - 1);
      if n <= |b| {
        EqFoldCons(a[..n], b[..n]);
        assert a[..n][1..] == a[1..][..n - 1] && b[..n][1..] == b[1..][..n - 1];
      }
    }
  }

  /** A string shorter than the bound never equals a NUL-free longer one. */
  lemma {:induction false} StrniEqShort(a: string, b: string, n: nat)
    requires NulFree(a) && NulFree(b) && |a| < n <= |b|
    ensures !StrniEq(a, b, n)
    decreases n
  {
    if a != "" {
      StrniEqShort(a[1..], b[1..], n - 1);
    }
  }

  /** The characters of a buffer before its first NUL. */
  function CText(s: string): (r: CStr)
    ensures |r| <= |s| && r == s[..|r|]
    ensures |r| < |s| ==> s[|r|] == '\0'
  {
    if s == "" || s[0] == '\0' then "" else [s[0]] + CText(s[1..])
  }

  lemma {:induction false} CTextPrefix(s: string, n: nat)
    requires n <= |s| && NulFree(s[..n]) && (n == |s| || s[n] == '\0')
    ensures CText(s) == s[..n]
  {}

  /** strstr and wcsstr: the first place where the needle stands, at or after i. */
  function Search(h: string, needle: string, i: nat): (r: Option<nat>)
    ensures r.Some? ==> i <= r.value && r.value + |needle| <= |h| && h[r.value..r.value + |needle|] == needle
    decreases |h| - i
  {
    if i + |needle| > |h| then None
    else if h[i..i + |needle|] == needle then Some(i)
    else Search(h, needle, i + 1)
  }

  predicate Occurs(h: string, needle: string, at: nat) {
    at + |needle| <= |h| && h[at..at + |needle|] == needle
  }

  /** The place found is the first occurrence from i on, and nothing is found exactly when there is none. */
  lemma {:induction false} SearchFirst(h: string, needle: string, i: nat)
    ensures Search(h, needle, i).None? <==> forall j: nat :: i <= j ==> !Occurs(h, needle, j)
    ensures Search(h, needle, i).Some? ==>
      var n := Search(h, needle, i).value; Occurs(h, needle, n) && forall j: nat :: i <= j < n ==> !Occurs(h, needle, j)
    decreases |h| - i
  {
    assert i + |needle| <= |h| ==> (h[i..i + |needle|] == needle <==> Occurs(h, needle, i));
    if i + |needle| <= |h| && !Occurs(h, needle, i) { SearchFirst(h, needle, i + 1); }
  }

  lemma {:induction false} SearchAt(h: string, needle: string, i: nat, n: nat)
    requires needle != "" && i <= n && n + |needle| <= |h| && h[n..n + |needle|] == needle
    requires forall j :: i <= j < n ==> h[j] != needle[0]
    ensures Search(h, needle, i) == Some(n)
    decreases n - i
  {
    if i < n {
      assert h[i..i + |needle|][0] == h[i];
      SearchAt(h, needle, i + 1, n);
    }
  }
}
