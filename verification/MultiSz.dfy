/** Appending a string to a REG_MULTI_SZ value: strings each ended by a NUL, and one more NUL after the last. */
module MultiSz {
  import opened CStrings

  const REG_MULTI_SZ := 7

  /** What such a list may hold: an empty string would end it. */
  predicate Items(list: seq<string>) {
    forall i :: 0 <= i < |list| ==> list[i] != "" && NulFree(list[i])
  }

  /** The strings, each with its NUL. */
  function Strings(list: seq<string>): string {
    if list == [] then "" else list[0] + "\0" + Strings(list[1..])
  }

  /** Reading the whole buffer as a list; None if the list is not closed exactly at the end of the buffer. */
  function Parse(b: string): (r: Option<seq<string>>) {
    if b == "" then None
    else if b[0] == '\0' then if |b| == 1 then Some([]) else None
    else
      var n := |CText(b)|;
      if n == |b| then None
      else match Parse(b[n + 1..])
        case None => None
        case Some(more) => Some([b[..n]] + more)
  }

  lemma ParseStep(x: string, tail: string)
    requires x != "" && NulFree(x)
    ensures Parse(x + "\0" + tail) == if Parse(tail).None? then None else Some([x] + Parse(tail).value)
  {
    var b, n := x + "\0" + tail, |x|;
    assert b[..n] == x && b[n] == '\0' && b[0] == x[0] && b[n + 1..] == tail;
    CTextPrefix(b, n);
  }

  lemma StringsStep(list: seq<string>)
    ensures list == [] ==> Strings(list) + "\0" == "\0"
    ensures list != [] ==> Strings(list) + "\0" == list[0] + "\0" + (Strings(list[1..]) + "\0")
  {}

  lemma {:induction false} ParseWritten(list: seq<string>)
    requires Items(list)
    ensures Parse(Strings(list) + "\0") == Some(list)
  {
    StringsStep(list);
    if list == [] {
      assert Parse("\0") == Some([]);
    } else {
      hide Parse, Strings;
      ParseWritten(list[1..]);
      ParseStep(list[0], Strings(list[1..]) + "\0");
      assert [list[0]] + list[1..] == list;
    }
  }

  /** The first string of a buffer that reads as a nonempty list. */
  lemma FirstString(b: string) returns (n: nat)
    requires Parse(b).Some? && b[0] != '\0'
    ensures 0 < n < |b| && b[n] == '\0' && NulFree(b[..n])
    ensures Parse(b[n + 1..]).Some? && Parse(b) == Some([b[..n]] + Parse(b[n + 1..]).value)
  {
    n := |CText(b)|;
  }

  lemma ParseEnd(b: string)
    requires Parse(b).Some?
    ensures b != "" && (b[0] == '\0' ==> b == "\0" && Parse(b) == Some([]))
  {}

  lemma StringsCons(s: string, list: seq<string>)
    ensures Strings([s] + list) == s + "\0" + Strings(list) && Strings([]) == ""
  {}

  lemma {:induction false} ParsedIsWritten(b: string)
    requires Parse(b).Some?
    ensures Items(Parse(b).value) && b == Strings(Parse(b).value) + "\0"
    decreases |b|
  {
    hide Parse, Strings;
    ParseEnd(b);
    if b[0] == '\0' {
      StringsCons("", []);
    } else {
      var n := FirstString(b);
      var more := Parse(b[n + 1..]).value;
      ParsedIsWritten(b[n + 1..]);
      StringsCons(b[..n], more);
      assert b == b[..n] + "\0" + (Strings(more) + "\0");
    }
  }

  lemma {:induction false} StringsSnoc(list: seq<string>, s: string)
    ensures Strings(list + [s]) == Strings(list) + s + "\0"
  {
    if list == [] {
      assert Strings([s]) == s + "\0" + Strings([]);
    } else {
      assert (list + [s])[1..] == list[1..] + [s];
      StringsSnoc(list[1..], s);
    }
  }

  /** What is written for a value of more than two characters: its last character is replaced. */
  function Appended(oldReg: string, s: string): string
    requires |oldReg| > 2
  {
    if s == "" then oldReg + "\0" else oldReg[..|oldReg| - 1] + s + "\0\0"
  }

  /** append_reg_multi_sz: the value written back, if any. */
  method AppendRegMultiSz(oldReg: Option<string>, regType: nat, buf: CStr) returns (written: Option<string>)
    requires (if oldReg.Some? then |oldReg.value| else 0) + |buf| + 1 < 0x8000_0000
    ensures written.Some? <==> regType == 7
    ensures written.Some? && oldReg.Some? && |oldReg.value| > 2 ==> written.value == Appended(oldReg.value, buf)
    ensures written.Some? && (oldReg.None? || |oldReg.value| <= 2) ==> written.value == buf + "\0"
  {
    if regType != REG_MULTI_SZ {
      return None;
    }
    var oldSize, pos := if oldReg.Some? then |oldReg.value| else 0, 0;
    if oldReg.Some? && oldSize > 2 {
      pos := oldSize - 1;
    } else {
      oldSize := 0;
    }
    var text := Build(if oldReg.Some? then oldReg.value[..oldSize] else "", pos, buf);
    assert oldSize > 0 ==> oldReg.value[..oldSize] == oldReg.value;
    written := Some(text);
  }

  /** The buffer: the old characters, the string copied over them from pos on, zeros after it. */
  method Build(kept: string, pos: nat, buf: string) returns (text: string)
    requires pos == |kept| == 0 || (|kept| > 2 && pos + 1 == |kept|)
    ensures kept == "" ==> text == buf + "\0"
    ensures |kept| > 2 ==> text == Appended(kept, buf)
  {
    var newSize := |kept| + |buf| + 1;
    var newReg := new char[newSize](_ => '\0');
    Copy(newReg, 0, kept);
    Copy(newReg, pos, buf);
    newReg[newSize - 1] := '\0';
    text := newReg[..];
    BuiltText(kept, pos, buf, text);
  }

  lemma BuiltText(kept: string, pos: nat, buf: string, text: string)
    requires pos == |kept| == 0 || (|kept| > 2 && pos + 1 == |kept|)
    requires |text| == |kept| + |buf| + 1
    requires forall k :: 0 <= k < pos ==> text[k] == kept[k]
    requires text[pos..pos + |buf|] == buf
    requires forall k :: pos + |buf| <= k < |text| ==> text[k] == if k < |kept| then kept[k] else '\0'
    ensures kept == "" ==> text == buf + "\0"
    ensures |kept| > 2 ==> text == Appended(kept, buf)
  {}

  /** memcpy to a position of the buffer */
  method Copy(dst: array<char>, at: nat, src: string)
    requires at + |src| <= dst.Length
    modifies dst
    ensures dst[at..at + |src|] == src
    ensures forall k :: 0 <= k < dst.Length && !(at <= k < at + |src|) ==> dst[k] == old(dst[k])
  {
    forall k | 0 <= k < |src| {
      dst[at + k] := src[k];
    }
  }

  /** The new value is the list l followed by s exactly when the old value, with its last character
      read as the closing NUL, is the list l. */
  lemma AppendsToList(oldReg: string, s: string, l: seq<string>)
    requires |oldReg| > 2 && s != "" && NulFree(s)
    ensures Parse(Appended(oldReg, s)) == Some(l + [s]) <==> Parse(oldReg[..|oldReg| - 1] + "\0") == Some(l)
  {
    hide Parse;
    var stem := oldReg[..|oldReg| - 1];
    StringsSnoc(l, s);
    if Parse(stem + "\0") == Some(l) {
      ParsedIsWritten(stem + "\0");
      assert stem == Strings(l) by { CutLast(stem, Strings(l), "\0"); }
      ParseWritten(l + [s]);
      assert Appended(oldReg, s) == Strings(l + [s]) + "\0";
    }
    if Parse(Appended(oldReg, s)) == Some(l + [s]) {
      ParsedIsWritten(Appended(oldReg, s));
      assert Appended(oldReg, s) == stem + (s + "\0\0");
      assert Strings(l + [s]) + "\0" == Strings(l) + (s + "\0\0");
      CutLast(stem, Strings(l), s + "\0\0");
      assert (l + [s])[..|l|] == l;
      assert Items(l);
      ParseWritten(l);
    }
  }

  lemma CutLast(a: string, b: string, tail: string)
    requires a + tail == b + tail
    ensures a == b
  {
    assert a == (a + tail)[..|a|] && b == (b + tail)[..|b|];
  }

  /** On a well-formed list the new value is that list followed by s, exactly when the list is not empty;
      on the empty list the new value is not a list at all. */
  lemma AppendExactlyWhenNonempty(oldReg: string, s: string, l: seq<string>)
    requires Parse(oldReg) == Some(l) && s != "" && NulFree(s)
    ensures |oldReg| > 2 <==> l != []
    ensures l != [] ==> Parse(Appended(oldReg, s)) == Some(l + [s])
    ensures l == [] ==> Parse(s + "\0").None?
  {
    ParsedIsWritten(oldReg);
    if l != [] {
      assert Strings(l) == l[0] + "\0" + Strings(l[1..]);
      assert oldReg == oldReg[..|oldReg| - 1] + "\0";
      AppendsToList(oldReg, s, l);
    } else {
      assert Strings(l) == "";
      assert (s + "\0")[..|s|] == s && (s + "\0")[|s| + 1..] == "";
      CTextPrefix(s + "\0", |s|);
    }
  }

  /** A list of two strings as it stands in the registry. */
  lemma TwoStrings(a: string, b: string)
    requires Items([a, b])
    ensures Parse(a + "\0" + b + "\0\0") == Some([a, b])
  {
    ParseWritten([a, b]);
    TwoStringsText(a, b);
  }

  lemma TwoStringsText(a: string, b: string)
    ensures Strings([a, b]) + "\0" == a + "\0" + b + "\0\0"
  {
    StringsCons(a, [b]);
    StringsCons(b, []);
    hide Strings;
    assert [a] + [b] == [a, b] && [b] + [] == [b];
    var z := b + "\0";
    assert Strings([b]) == z by { assert z + "" == z; }
    assert a + "\0" + z + "\0" == a + "\0" + b + "\0\0";
  }
}
