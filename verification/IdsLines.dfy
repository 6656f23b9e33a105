/** The line cursor over an id database buffer. */
module IdsLines {
  import opened CStrings

  predicate IsEol(c: char) {
    c == '\n' || c == '\r'
  }

  predicate EolFree(s: string) {
    forall i :: 0 <= i < |s| ==> !IsEol(s[i])
  }

  predicate AllEols(s: string) {
    forall i :: 0 <= i < |s| ==> IsEol(s[i])
  }

  /** The text before the first line end. */
  function FirstLine(s: string): (r: string)
    ensures |r| <= |s|
  {
    if s == "" || IsEol(s[0]) then "" else [s[0]] + FirstLine(s[1..])
  }

  function DropEols(s: string): (r: string)
    ensures |r| <= |s|
  {
    if s == "" || !IsEol(s[0]) then s else DropEols(s[1..])
  }

  /** The text from the next line on. */
  function Rest(s: string): (r: string)
    requires s != ""
    ensures |r| < |s|
  {
    DropEols(s[|FirstLine(s)|..])
  }

  /** All the lines the cursor delivers, as C strings. */
  function LinesOf(s: string): seq<CStr>
    decreases |s|
  {
    if s == "" then [] else [CText(FirstLine(s))] + LinesOf(Rest(s))
  }

  lemma {:induction false} FirstLineAt(s: string, n: nat)
    requires n <= |s| && EolFree(s[..n]) && (n < |s| ==> IsEol(s[n]))
    ensures FirstLine(s) == s[..n]
  {
    if n > 0 {
      assert !IsEol(s[..n][0]);
      assert s[1..][..n - 1] == s[..n][1..];
      FirstLineAt(s[1..], n - 1);
    }
  }

  lemma {:induction false} DropEolsAt(s: string, n: nat)
    requires n <= |s| && AllEols(s[..n]) && (n < |s| ==> !IsEol(s[n]))
    ensures DropEols(s) == s[n..]
  {
    if n > 0 {
      assert IsEol(s[..n][0]);
      assert s[1..][..n - 1] == s[..n][1..];
      DropEolsAt(s[1..], n - 1);
    }
  }

  /** IdsGetline: the line at the offset, or NULL at the end; the offset moves past its line ends. */
  method Getline(ids: string, offset: nat) returns (line: Option<CStr>, next: nat)
    ensures offset >= |ids| ==> line == None && next == offset
    ensures offset < |ids| ==>
      && offset < next <= |ids|
      && line == Some(CText(FirstLine(ids[offset..])))
      && ids[next..] == Rest(ids[offset..])
    ensures offset <= |ids| ==>
      next <= |ids| && LinesOf(ids[offset..]) == if line.None? then [] else [line.value] + LinesOf(ids[next..])
  {
    if offset >= |ids| {
      return None, offset;
    }
    ghost var s := ids[offset..];
    var i := offset;
    while i < |ids|
      invariant offset <= i <= |ids|
      invariant EolFree(s[..i - offset])
    {
      if IsEol(ids[i]) {
        break;
      }
      i := i + 1;
    }
    var len := i - offset;
    FirstLineAt(s, len);
    line := Some(CText(ids[offset..offset + len]));
    assert ids[offset..offset + len] == s[..len];
    next := offset + len;
    while next < |ids|
      invariant offset + len <= next <= |ids|
      invariant AllEols(s[len..][..next - offset - len])
    {
      if !IsEol(ids[next]) {
        break;
      }
      next := next + 1;
    }
    DropEolsAt(s[len..], next - offset - len);
    assert ids[next..] == s[len..][next - offset - len..];
  }

  /** Lines with a run of line ends behind each. */
  function Text(lines: seq<CStr>, ends: seq<string>): string
    requires |lines| == |ends|
  {
    if lines == [] then "" else lines[0] + ends[0] + Text(lines[1..], ends[1..])
  }

  /** Lines hold no line end and only the first may be empty; each but the last is ended. */
  ghost predicate Printable(lines: seq<CStr>, ends: seq<string>) {
    && |lines| == |ends|
    && (forall i :: 0 <= i < |lines| ==> EolFree(lines[i]) && AllEols(ends[i]))
    && (forall i :: 0 < i < |lines| ==> lines[i] != "" && ends[i - 1] != "")
    && (lines != [] ==> lines[0] + ends[0] != "")
  }

  /** Reading a printed text line by line gives its lines back. */
  lemma {:induction false} LinesOfText(lines: seq<CStr>, ends: seq<string>)
    requires Printable(lines, ends)
    ensures LinesOf(Text(lines, ends)) == lines
  {
    if lines != [] {
      var s, more := Text(lines, ends), Text(lines[1..], ends[1..]);
      var l, e := |lines[0]|, |ends[0]|;
      assert s == lines[0] + (ends[0] + more);
      if |lines| > 1 {
        assert more[0] == lines[1][0];
      }
      FirstLineAt(s, l);
      assert CText(lines[0]) == lines[0] by { assert lines[0][..l] == lines[0]; CTextPrefix(lines[0], l); }
      assert s[l..] == ends[0] + more && s[l..][..e] == ends[0];
      DropEolsAt(s[l..], e);
      assert s[l..][e..] == more;
      LinesOfText(lines[1..], ends[1..]);
    }
  }

  /** So the lines of a text file are read back, with line ends of any of the three kinds. */
  lemma LinesOfFile(lines: seq<CStr>, ends: seq<string>)
    requires |lines| == |ends|
    requires forall i :: 0 <= i < |lines| ==> '\n' !in lines[i] && '\r' !in lines[i] && (i > 0 ==> lines[i] != "")
    requires forall i :: 0 <= i < |lines| ==> ends[i] in ["\n", "\r", "\r\n"]
    ensures LinesOf(Text(lines, ends)) == lines
  {
    forall i | 0 <= i < |lines|
      ensures EolFree(lines[i]) && AllEols(ends[i]) && ends[i] != ""
    {
      forall k | 0 <= k < |lines[i]| ensures !IsEol(lines[i][k]) { assert lines[i][k] in lines[i]; }
    }
    LinesOfText(lines, ends);
  }
}
