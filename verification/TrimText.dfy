/** Trimming a string in place: blanks off both ends, a question mark for what cannot be printed. */
module TrimText {
  import opened CStrings

  predicate Blank(c: char) {
    c == ' ' || c == '\t'
  }

  predicate Printable(c: char) {
    ' ' <= c <= '~'
  }

  function DropTail(s: string): (r: string)
    ensures r <= s && (r == "" || !Blank(r[|r| - 1]))
    ensures forall i :: |r| <= i < |s| ==> Blank(s[i])
  {
    if s != "" && Blank(s[|s| - 1]) then DropTail(s[..|s| - 1]) else s
  }

  function DropLead(s: string): (r: string)
    ensures |r| <= |s| && r == s[|s| - |r|..] && (r == "" || !Blank(r[0]))
    ensures forall i :: 0 <= i < |s| - |r| ==> Blank(s[i])
  {
    if s != "" && Blank(s[0]) then DropLead(s[1..]) else s
  }

  function Shown(s: string): (r: string)
    ensures |r| == |s| && forall i :: 0 <= i < |s| ==> r[i] == if Printable(s[i]) then s[i] else '?'
  {
    seq(|s|, i requires 0 <= i < |s| => if Printable(s[i]) then s[i] else '?')
  }

  function Trimmed(s: string): string {
    Shown(DropLead(DropTail(s)))
  }

  lemma DropTailAt(s: string, n: nat)
    requires n <= |s| && (n == 0 || !Blank(s[n - 1]))
    requires forall i :: n <= i < |s| ==> Blank(s[i])
    ensures DropTail(s) == s[..n]
    decreases |s|
  {}

  lemma DropLeadAt(s: string, n: nat)
    requires n <= |s| && (n == |s| || !Blank(s[n]))
    requires forall i :: 0 <= i < n ==> Blank(s[i])
    ensures DropLead(s) == s[n..]
    decreases n
  {}

  /** The result is the text between two cuts outside of which everything is blank, and neither end is blank;
      every such pair of cuts gives it. */
  lemma TrimmedBetween(s: string, a: nat, b: nat)
    requires a <= b <= |s|
    requires forall i :: 0 <= i < |s| && !(a <= i < b) ==> Blank(s[i])
    requires a < b ==> !Blank(s[a]) && !Blank(s[b - 1])
    ensures Trimmed(s) == Shown(s[a..b])
  {
    hide DropTail, DropLead, Shown;
    var e := if a < b then b else 0;
    DropTailAt(s, e);
    DropLeadAt(s[..e], if a < b then a else 0);
    assert a < b ==> s[..e][a..] == s[a..b];
    assert a == b ==> s[..e] == "" == s[a..b];
  }

  /** The result is printable and has no blank at either end, so trimming again changes nothing. */
  lemma TrimmedTwice(s: string)
    ensures Trimmed(Trimmed(s)) == Trimmed(s)
    ensures forall c :: c in Trimmed(s) ==> Printable(c)
  {
    hide DropTail, DropLead, Shown;
    var t := DropLead(DropTail(s));
    Ends(s);
    ShownTwice(t);
  }

  /** Spaces and tabs around a text go and nothing else does: what stands between the first and the last other
      character stays as it is, with a question mark for every character that is not one of 0x20 to 0x7E. */
  lemma TrimmedPadded(a: string, s: string, b: string)
    requires forall c :: c in a + b ==> c == ' ' || c == '\t'
    requires s != "" ==> s[0] !in [' ', '\t'] && s[|s| - 1] !in [' ', '\t']
    ensures var r := Trimmed(a + s + b);
      |r| == |s| && forall i :: 0 <= i < |s| ==> r[i] == if 0x20 <= s[i] as int <= 0x7E then s[i] else '?'
  {
    var all, n := a + s + b, |a|;
    forall i | 0 <= i < |all| && !(n <= i < n + |s|)
      ensures Blank(all[i])
    {
      assert all[i] == if i < n then a[i] else b[i - n - |s|];
      assert all[i] in a + b;
    }
    TrimmedBetween(all, n, n + |s|);
    assert all[n..n + |s|] == s;
  }

  /** So text of the characters 0x20 to 0x7E without a blank at its ends is left alone. */
  lemma PlainUnchanged(s: string)
    requires forall i :: 0 <= i < |s| ==> 0x20 <= s[i] as int <= 0x7E
    requires s != "" ==> s[0] != ' ' && s[|s| - 1] != ' '
    ensures Trimmed(s) == s
  {
    assert s != "" ==> s[0] !in [' ', '\t'] && s[|s| - 1] !in [' ', '\t'];
    hide Trimmed;
    assert "" + s + "" == s;
    TrimmedPadded("", s, "");
  }

  lemma ShownTwice(t: string)
    requires t != "" ==> !Blank(t[0]) && !Blank(t[|t| - 1])
    ensures Trimmed(Shown(t)) == Shown(t)
    ensures forall c :: c in Shown(t) ==> Printable(c)
  {
    ShownEnds(t);
    hide DropTail, DropLead, Shown, Trimmed;
    var r := Shown(t);
    TrimmedBetween(r, 0, |r|);
    assert r[0..|r|] == r;
  }

  lemma Ends(s: string)
    ensures var t := DropLead(DropTail(s)); t != "" ==> !Blank(t[0]) && !Blank(t[|t| - 1])
  {}

  lemma ShownEnds(t: string)
    ensures Shown(Shown(t)) == Shown(t)
    ensures forall i :: 0 <= i < |t| ==> Printable(Shown(t)[i]) && (!Blank(t[i]) ==> !Blank(Shown(t)[i]))
  {}

  /** TrimString */
  method TrimString(str: array<char>, ghost text: CStr)
    requires |text| < str.Length && str[..|text| + 1] == text + "\0"
    modifies str
    ensures |Trimmed(text)| <= |text| && str[..|Trimmed(text)| + 1] == Trimmed(text) + "\0"
    ensures str[|text| + 1..] == old(str[|text| + 1..])
  {
    hide DropTail, DropLead, Shown;
    ghost var after := str[|text| + 1..];
    var len := Strlen(str, text);
    len := CutTail(str, text, len);
    DropTailAt(text, len);
    var p1 := SkipLead(str, len, text[..len]);
    DropLeadAt(text[..len], p1);
    Squeeze(str, p1, len, text[..len]);
    assert str[|text| + 1..] == after;
  }

  /** The blanks at the end are overwritten with terminators. */
  method CutTail(str: array<char>, ghost text: CStr, from: nat) returns (len: nat)
    requires from == |text| < str.Length && str[..from] == text && str[from] == '\0'
    modifies str
    ensures len <= |text| && str[..len] == text[..len] && str[len] == '\0'
    ensures len == 0 || !Blank(text[len - 1])
    ensures forall i :: len <= i < |text| ==> Blank(text[i])
    ensures forall k :: from < k < str.Length ==> str[k] == old(str[k])
  {
    len := from;
    while len > 0
      invariant len <= |text| && str[len] == '\0'
      invariant forall k :: 0 <= k < len ==> str[k] == text[k]
      invariant forall i :: len <= i < |text| ==> Blank(text[i])
      invariant forall k :: from < k < str.Length ==> str[k] == old(str[k])
    {
      if !Blank(str[len - 1]) {
        break;
      }
      str[len - 1] := '\0';
      len := len - 1;
    }
  }

  method SkipLead(str: array<char>, ghost len: nat, ghost t: CStr) returns (p1: nat)
    requires |t| == len < str.Length && str[..len] == t && str[len] == '\0'
    ensures p1 <= len && (p1 == len || !Blank(t[p1]))
    ensures forall i :: 0 <= i < p1 ==> Blank(t[i])
  {
    p1 := 0;
    while Blank(str[p1])
      invariant p1 <= len
      invariant forall i :: 0 <= i < p1 ==> Blank(t[i])
      decreases len - p1
    {
      assert p1 < len ==> str[p1] == str[..len][p1];
      p1 := p1 + 1;
    }
    assert p1 < len ==> str[p1] == str[..len][p1];
  }

  method Strlen(str: array<char>, ghost text: CStr) returns (len: nat)
    requires |text| < str.Length && str[..|text| + 1] == text + "\0"
    ensures len == |text| && str[..len] == text && str[len] == '\0'
  {
    len := 0;
    while str[len] != '\0'
      invariant len <= |text|
      decreases |text| - len
    {
      len := len + 1;
    }
  }

  /** The copy to the front, character by character. */
  method Squeeze(str: array<char>, from: nat, ghost len: nat, ghost t: CStr)
    requires from <= |t| == len < str.Length && str[..len] == t && str[len] == '\0'
    modifies str
    ensures str[..len - from + 1] == Shown(t[from..]) + "\0"
    ensures forall k :: len < k < str.Length ==> str[k] == old(str[k])
  {
    var p1, p2 := from, 0;
    while str[p1] != '\0'
      invariant p2 <= p1 <= len && p1 == p2 + from
      invariant forall k :: 0 <= k < p2 ==> str[k] == Shown(t[from..])[k]
      invariant forall k :: p1 <= k < len ==> str[k] == t[k]
      invariant forall k :: len <= k < str.Length ==> str[k] == old(str[k])
      decreases len - p1
    {
      assert t[p1] == t[from..][p2];
      if !Printable(str[p1]) {
        str[p1] := '?';
      }
      str[p2] := str[p1];
      p1, p2 := p1 + 1, p2 + 1;
    }
    str[p2] := '\0';
  }
}
