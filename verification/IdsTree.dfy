/** Three-level id databases: their text lines, and lookups by lines and by tree. */
module IdsTree {
  import opened CStrings

  /** A vendor, device or subsystem; a class, subclass or programming interface. */
  datatype Entry = Entry(id: CStr, name: CStr, kids: seq<Entry>)

  datatype Kind = Vendors | Classes

  function IdLen(kind: Kind, level: nat): nat {
    if kind == Classes then 2 else if level == 2 then 9 else 4
  }

  function Prefix(kind: Kind, level: nat): CStr {
    match level
    case 0 => if kind == Classes then "C " else ""
    case 1 => "\t"
    case _ => "\t\t"
  }

  function Line(kind: Kind, level: nat, e: Entry): CStr {
    Prefix(kind, level) + e.id + "  " + e.name
  }

  function Render(kind: Kind, level: nat, es: seq<Entry>): seq<CStr>
    decreases es
  {
    if es == [] then []
    else [Line(kind, level, es[0])] + (Render(kind, level + 1, es[0].kids) + Render(kind, level, es[1..]))
  }

  predicate HexDigit(c: char) {
    '0' <= c <= '9' || 'a' <= c <= 'f' || 'A' <= c <= 'F'
  }

  /** An id of n characters: hex digits, with a space between the two halves of a subsystem id. */
  predicate PlainId(id: CStr, n: nat) {
    |id| == n && forall i :: 0 <= i < n ==> HexDigit(id[i]) || (n == 9 && i == 4 && id[i] == ' ')
  }

  /** Plain ids, nonempty names, three levels. */
  predicate Plain(kind: Kind, level: nat, es: seq<Entry>)
    decreases es
  {
    es == [] ||
    (var e := es[0];
     && PlainId(e.id, IdLen(kind, level)) && e.name != ""
     && (level < 2 || e.kids == []) && Plain(kind, level + 1, e.kids)
     && Plain(kind, level, es[1..]))
  }

  // ----- lookup in the tree -----

  predicate KeyIs(key: CStr, id: CStr) {
    |key| >= |id| && EqFold(key[..|id|], id)
  }

  /** The first entry whose id the key starts with, ignoring case. */
  function Find(es: seq<Entry>, key: CStr): (r: Option<Entry>)
    ensures r.Some? ==> r.value in es && KeyIs(key, r.value.id)
    ensures r.None? ==> forall i :: 0 <= i < |es| ==> !KeyIs(key, es[i].id)
  {
    if es == [] then None
    else if KeyIs(key, es[0].id) then Some(es[0])
    else Find(es[1..], key)
  }

  /** The names on the path the keys select. */
  function TreeNames(es: seq<Entry>, keys: seq<CStr>): seq<CStr>
    decreases |keys|
  {
    if keys == [] then []
    else match Find(es, keys[0])
      case None => []
      case Some(e) => [e.name] + TreeNames(e.kids, keys[1..])
  }

  /** With ids of one length that are distinct ignoring case, the key of an entry finds that entry. */
  lemma FindDistinct(es: seq<Entry>, n: nat, i: nat, key: CStr)
    requires i < |es| && KeyIs(key, es[i].id)
    requires forall j :: 0 <= j < |es| ==> |es[j].id| == n
    requires forall j, k :: 0 <= j < k < |es| ==> !EqFold(es[j].id, es[k].id)
    ensures Find(es, key) == Some(es[i])
  {}

  // ----- lookup in the lines -----

  /** Where a scan found its line: the name on it and the lines behind it. */
  datatype Hit = Miss | Hit(name: CStr, rest: seq<CStr>)

  /** Empty and comment lines. */
  predicate Skipped(line: CStr) {
    At(line, 0) == '\0' || At(line, 0) == '#'
  }

  predicate TopHit(kind: Kind, line: CStr, key: CStr) {
    && !Skipped(line) && |line| >= 7
    && (kind == Vendors ==> line[0] != '\t' && StrniEq(key, line, 4))
    && (kind == Classes ==> line[0] == 'C' && line[1] == ' ' && StrniEq(key, line[2..], 2))
  }

  function TopScan(kind: Kind, lines: seq<CStr>, key: CStr): Hit {
    if lines == [] then Miss
    else if TopHit(kind, lines[0], key) then Hit(lines[0][6..], lines[1..])
    else TopScan(kind, lines[1..], key)
  }

  /** Stops at a line without a tab (and, among classes, at a short line); passes lines with two. */
  function MidScan(kind: Kind, lines: seq<CStr>, key: CStr): Hit {
    if lines == [] then Miss
    else
      var line, n := lines[0], IdLen(kind, 1);
      if Skipped(line) then MidScan(kind, lines[1..], key)
      else if line[0] != '\t' || (kind == Classes && |line| < n + 4) then Miss
      else if At(line, 1) == '\t' || |line| < n + 4 || !StrniEq(key, line[1..], n) then MidScan(kind, lines[1..], key)
      else Hit(line[n + 3..], lines[1..])
  }

  /** Stops at a line without two tabs and at a short line. */
  function LeafScan(kind: Kind, lines: seq<CStr>, key: CStr): Hit {
    if lines == [] then Miss
    else
      var line, n := lines[0], IdLen(kind, 2);
      if Skipped(line) then LeafScan(kind, lines[1..], key)
      else if line[0] != '\t' || At(line, 1) != '\t' || |line| < n + 5 then Miss
      else if !StrniEq(key, line[2..], n) then LeafScan(kind, lines[1..], key)
      else Hit(line[n + 4..], lines[1..])
  }

  /** The names a lookup with up to three keys reads off the lines. */
  function LineNames(kind: Kind, lines: seq<CStr>, keys: seq<CStr>): seq<CStr> {
    if keys == [] then []
    else match TopScan(kind, lines, keys[0])
      case Miss => []
      case Hit(name, rest) => [name] + MidNames(kind, rest, keys[1..])
  }

  function MidNames(kind: Kind, lines: seq<CStr>, keys: seq<CStr>): seq<CStr> {
    if keys == [] then []
    else match MidScan(kind, lines, keys[0])
      case Miss => []
      case Hit(name, rest) => [name] + LeafNames(kind, rest, keys[1..])
  }

  function LeafNames(kind: Kind, lines: seq<CStr>, keys: seq<CStr>): seq<CStr> {
    if keys == [] then []
    else match LeafScan(kind, lines, keys[0])
      case Miss => []
      case Hit(name, _) => [name]
  }

  // ----- comments -----

  function Strip(lines: seq<CStr>): seq<CStr> {
    if lines == [] then []
    else if Skipped(lines[0]) then Strip(lines[1..])
    else [lines[0]] + Strip(lines[1..])
  }

  function StripHit(h: Hit): Hit {
    if h.Miss? then Miss else Hit(h.name, Strip(h.rest))
  }

  lemma {:induction false} ScansIgnoreComments(kind: Kind, lines: seq<CStr>, key: CStr)
    ensures TopScan(kind, Strip(lines), key) == StripHit(TopScan(kind, lines, key))
    ensures MidScan(kind, Strip(lines), key) == StripHit(MidScan(kind, lines, key))
    ensures LeafScan(kind, Strip(lines), key) == StripHit(LeafScan(kind, lines, key))
  {
    if lines != [] {
      ScansIgnoreComments(kind, lines[1..], key);
      if !Skipped(lines[0]) {
        assert Strip(lines)[1..] == Strip(lines[1..]);
      }
    }
  }

  /** Empty and comment lines anywhere do not change a lookup. */
  lemma NamesIgnoreComments(kind: Kind, lines: seq<CStr>, keys: seq<CStr>)
    ensures LineNames(kind, Strip(lines), keys) == LineNames(kind, lines, keys)
  {
    hide TopScan, MidScan, LeafScan, Strip;
    if keys != [] {
      ScansIgnoreComments(kind, lines, keys[0]);
      var top := TopScan(kind, lines, keys[0]);
      if top.Hit? && |keys| > 1 {
        ScansIgnoreComments(kind, top.rest, keys[1]);
        var mid := MidScan(kind, top.rest, keys[1]);
        if mid.Hit? && |keys| > 2 { ScansIgnoreComments(kind, mid.rest, keys[2]); }
      }
    }
  }

  // ----- lines against tree -----

  lemma StrniKey(key: CStr, text: CStr, n: nat)
    requires n <= |text|
    ensures StrniEq(key, text, n) <==> |key| >= n && EqFold(key[..n], text[..n])
  {
    if |key| >= n { StrniEqPrefix(key, text, n); } else { StrniEqShort(key, text, n); }
  }

  /** The parts of a rendered line: prefix, id, two spaces, name. */
  lemma LineParts(kind: Kind, level: nat, e: Entry, key: CStr)
    requires |e.id| == IdLen(kind, level) && e.name != ""
    ensures var line, p, n := Line(kind, level, e), |Prefix(kind, level)|, IdLen(kind, level);
      && |line| >= p + n + 3
      && line[..p] == Prefix(kind, level)
      && line[p + n + 2..] == e.name
      && (forall i :: 0 <= i < n ==> line[p + i] == e.id[i])
      && (StrniEq(key, line[p..], n) <==> KeyIs(key, e.id))
  {
    var line, p, n := Line(kind, level, e), |Prefix(kind, level)|, IdLen(kind, level);
    assert line[p..][..n] == e.id;
    StrniKey(key, line[p..], n);
  }

  predicate Tabbed(line: CStr, tabs: nat) {
    |line| > tabs && forall i :: 0 <= i < tabs ==> line[i] == '\t'
  }

  /** Below the top level every rendered line starts with a tab, and below the second with two. */
  lemma {:induction false} RenderTabs(kind: Kind, level: nat, es: seq<Entry>)
    requires 1 <= level <= 2 && Plain(kind, level, es)
    ensures forall i :: 0 <= i < |Render(kind, level, es)| ==> Tabbed(Render(kind, level, es)[i], level)
    decreases es
  {
    if es != [] {
      if level < 2 {
        RenderTabs(kind, level + 1, es[0].kids);
      } else {
        assert Render(kind, level + 1, es[0].kids) == [];
      }
      RenderTabs(kind, level, es[1..]);
      LineParts(kind, level, es[0], "");
      assert Tabbed(Line(kind, level, es[0]), level);
    }
  }

  lemma {:induction false} TopScanSkips(kind: Kind, lines: seq<CStr>, tail: seq<CStr>, key: CStr)
    requires forall i :: 0 <= i < |lines| ==> !TopHit(kind, lines[i], key)
    ensures TopScan(kind, lines + tail, key) == TopScan(kind, tail, key)
  {
    if lines == [] {
      assert lines + tail == tail;
    } else {
      assert (lines + tail)[1..] == lines[1..] + tail;
      TopScanSkips(kind, lines[1..], tail, key);
    }
  }

  lemma {:induction false} MidScanSkips(kind: Kind, lines: seq<CStr>, tail: seq<CStr>, key: CStr)
    requires forall i :: 0 <= i < |lines| ==> Tabbed(lines[i], 2) && |lines[i]| >= 6
    ensures MidScan(kind, lines + tail, key) == MidScan(kind, tail, key)
  {
    if lines == [] {
      assert lines + tail == tail;
    } else {
      assert (lines + tail)[1..] == lines[1..] + tail;
      assert (lines + tail)[0] == lines[0];
      MidScanSkips(kind, lines[1..], tail, key);
    }
  }

  /** Lines that end a block: none, or a first one with fewer tabs. */
  predicate Ends(lines: seq<CStr>, tabs: nat) {
    lines == [] || (!Skipped(lines[0]) && (At(lines[0], 0) != '\t' || (tabs == 2 && At(lines[0], 1) != '\t')))
  }

  lemma {:induction false} LongLeaves(kind: Kind, es: seq<Entry>)
    requires Plain(kind, 2, es)
    ensures forall i :: 0 <= i < |Render(kind, 2, es)| ==> |Render(kind, 2, es)[i]| >= 6
    decreases es
  {
    if es != [] {
      assert Render(kind, 3, es[0].kids) == [];
      LongLeaves(kind, es[1..]);
    }
  }

  lemma LeafStep(kind: Kind, e: Entry, rest: seq<CStr>, key: CStr)
    requires PlainId(e.id, IdLen(kind, 2)) && e.name != ""
    ensures LeafScan(kind, [Line(kind, 2, e)] + rest, key)
         == if KeyIs(key, e.id) then Hit(e.name, rest) else LeafScan(kind, rest, key)
  {
    hide KeyIs, Line;
    LineParts(kind, 2, e, key);
    var line := Line(kind, 2, e);
    assert line[..2] == "\t\t" && line[0] == line[..2][0] && line[1] == line[..2][1];
    assert ([line] + rest)[1..] == rest;
  }

  lemma MidStep(kind: Kind, e: Entry, rest: seq<CStr>, key: CStr)
    requires PlainId(e.id, IdLen(kind, 1)) && e.name != ""
    ensures MidScan(kind, [Line(kind, 1, e)] + rest, key)
         == if KeyIs(key, e.id) then Hit(e.name, rest) else MidScan(kind, rest, key)
    ensures Ends([Line(kind, 1, e)] + rest, 2)
  {
    hide KeyIs, Line;
    LineParts(kind, 1, e, key);
    var line := Line(kind, 1, e);
    assert line[..1] == "\t" && line[0] == line[..1][0] && line[1] == e.id[0] != '\t';
    assert ([line] + rest)[1..] == rest;
  }

  lemma {:induction false} LeafScanRendered(kind: Kind, es: seq<Entry>, tail: seq<CStr>, key: CStr)
    requires Plain(kind, 2, es) && Ends(tail, 2)
    ensures var h := LeafScan(kind, Render(kind, 2, es) + tail, key);
      match Find(es, key)
      case None => h == Miss
      case Some(e) => h.Hit? && h.name == e.name
    decreases es
  {
    hide KeyIs, Line;
    var lines := Render(kind, 2, es);
    if es == [] {
      assert lines + tail == tail;
    } else {
      var more := Render(kind, 2, es[1..]);
      assert Render(kind, 3, es[0].kids) == [] && lines == [Line(kind, 2, es[0])] + more;
      assert lines + tail == [Line(kind, 2, es[0])] + (more + tail);
      LeafStep(kind, es[0], more + tail, key);
      LeafScanRendered(kind, es[1..], tail, key);
    }
  }

  /** A second-level scan over rendered entries finds the entry and stands before its kids. */
  lemma {:induction false} MidScanRendered(kind: Kind, es: seq<Entry>, tail: seq<CStr>, key: CStr)
    returns (after: seq<CStr>)
    requires Plain(kind, 1, es) && Ends(tail, 1)
    ensures var h := MidScan(kind, Render(kind, 1, es) + tail, key);
      match Find(es, key)
      case None => h == Miss
      case Some(e) => h == Hit(e.name, Render(kind, 2, e.kids) + after) && Ends(after, 2) && Plain(kind, 2, e.kids)
    decreases es
  {
    hide KeyIs, Line;
    var lines := Render(kind, 1, es);
    after := [];
    if es == [] {
      assert lines + tail == tail;
    } else {
      var e, kids, more := es[0], Render(kind, 2, es[0].kids), Render(kind, 1, es[1..]);
      assert lines + tail == [Line(kind, 1, e)] + (kids + (more + tail));
      MidStep(kind, e, kids + (more + tail), key);
      if KeyIs(key, e.id) {
        after := more + tail;
        if es[1..] != [] { EndsAtEntry(kind, es[1..], tail); } else { assert after == tail; }
      } else {
        RenderTabs(kind, 2, e.kids);
        LongLeaves(kind, e.kids);
        MidScanSkips(kind, kids, more + tail, key);
        after := MidScanRendered(kind, es[1..], tail, key);
      }
    }
  }

  lemma EndsAtEntry(kind: Kind, es: seq<Entry>, tail: seq<CStr>)
    requires es != [] && Plain(kind, 1, es)
    ensures Ends(Render(kind, 1, es) + tail, 2)
  {}

  // ----- the top level -----

  lemma TopStep(kind: Kind, e: Entry, rest: seq<CStr>, key: CStr)
    requires PlainId(e.id, IdLen(kind, 0)) && e.name != ""
    ensures TopScan(kind, [Line(kind, 0, e)] + rest, key)
         == if KeyIs(key, e.id) then Hit(e.name, rest) else TopScan(kind, rest, key)
    ensures Ends([Line(kind, 0, e)] + rest, 1)
  {
    hide KeyIs, Line;
    LineParts(kind, 0, e, key);
    var line := Line(kind, 0, e);
    if kind == Classes {
      assert line[..2] == "C " && line[0] == line[..2][0] && line[1] == line[..2][1];
    } else {
      assert line[0..] == line && line[0] == e.id[0] && HexDigit(line[0]);
    }
    assert ([line] + rest)[1..] == rest;
  }

  /** A top-level scan over rendered entries finds the entry and stands before its kids. */
  lemma {:induction false} TopScanRendered(kind: Kind, es: seq<Entry>, tail: seq<CStr>, key: CStr)
    returns (after: seq<CStr>)
    requires Plain(kind, 0, es) && Ends(tail, 1)
    ensures var h := TopScan(kind, Render(kind, 0, es) + tail, key);
      match Find(es, key)
      case None => h == TopScan(kind, tail, key)
      case Some(e) => h == Hit(e.name, Render(kind, 1, e.kids) + after) && Ends(after, 1) && Plain(kind, 1, e.kids)
    ensures Ends(Render(kind, 0, es) + tail, 1)
    decreases es
  {
    hide KeyIs, Line;
    var lines := Render(kind, 0, es);
    after := [];
    if es == [] {
      assert lines + tail == tail;
    } else {
      var e, kids, more := es[0], Render(kind, 1, es[0].kids), Render(kind, 0, es[1..]);
      assert lines + tail == [Line(kind, 0, e)] + (kids + (more + tail));
      TopStep(kind, e, kids + (more + tail), key);
      after := TopScanRendered(kind, es[1..], tail, key);
      if KeyIs(key, e.id) {
        after := more + tail;
      } else {
        RenderTabs(kind, 1, e.kids);
        TopScanSkips(kind, kids, more + tail, key);
      }
    }
  }

  lemma RenderedLeaves(kind: Kind, es: seq<Entry>, tail: seq<CStr>, keys: seq<CStr>)
    requires Plain(kind, 2, es) && Ends(tail, 2) && |keys| <= 1
    ensures LeafNames(kind, Render(kind, 2, es) + tail, keys) == TreeNames(es, keys)
  {
    hide KeyIs, LeafScan, Render, Plain;
    if keys != [] { LeafScanRendered(kind, es, tail, keys[0]); }
  }

  lemma RenderedMids(kind: Kind, es: seq<Entry>, tail: seq<CStr>, keys: seq<CStr>)
    requires Plain(kind, 1, es) && Ends(tail, 1) && |keys| <= 2
    ensures MidNames(kind, Render(kind, 1, es) + tail, keys) == TreeNames(es, keys)
  {
    hide KeyIs, MidScan, Render, Plain, LeafNames;
    if keys != [] {
      var after := MidScanRendered(kind, es, tail, keys[0]);
      var mid := Find(es, keys[0]);
      if mid.Some? { RenderedLeaves(kind, mid.value.kids, after, keys[1..]); }
    }
  }

  /** Lookup in rendered lines, before lines that hold no hit, is lookup in the tree. */
  lemma RenderedNames(kind: Kind, es: seq<Entry>, tail: seq<CStr>, keys: seq<CStr>)
    requires Plain(kind, 0, es) && Ends(tail, 1) && |keys| <= 3
    requires keys != [] ==> TopScan(kind, tail, keys[0]) == Miss
    ensures LineNames(kind, Render(kind, 0, es) + tail, keys) == TreeNames(es, keys)
  {
    hide KeyIs, TopScan, Render, Plain, MidNames;
    if keys != [] {
      var after := TopScanRendered(kind, es, tail, keys[0]);
      var top := Find(es, keys[0]);
      if top.Some? { RenderedMids(kind, top.value.kids, after, keys[1..]); }
    }
  }

  // ----- the lines of a file -----

  /** Vendor, device and subsystem lines: four digits, a tab and four, two tabs and twice four; two spaces before the
      name. */
  lemma VendorLines(v: CStr, d: CStr, a: CStr, b: CStr, vname: CStr, dname: CStr, sname: CStr)
    requires PlainId(v, 4) && PlainId(d, 4) && PlainId(a, 4) && PlainId(b, 4)
    requires vname != "" && dname != "" && sname != ""
    ensures var vs := [Entry(v, vname, [Entry(d, dname, [Entry(a + " " + b, sname, [])])])];
      && Render(Vendors, 0, vs) == [v + "  " + vname, "\t" + d + "  " + dname, "\t\t" + a + " " + b + "  " + sname]
      && Plain(Vendors, 0, vs)
  {
    var s: CStr := a + " " + b;
    SubsysId(a, b);
    var third, second := Entry(s, sname, []), Entry(d, dname, [Entry(s, sname, [])]);
    LineText(third);
    LineText(second);
    LineText(Entry(v, vname, [second]));
    hide PlainId, Render, Plain, Line;
    OneEntry(Vendors, 2, third);
    OneEntry(Vendors, 1, second);
    OneEntry(Vendors, 0, Entry(v, vname, [second]));
    NoEntries(Vendors, 3);
    assert "\t\t" + s + "  " + sname == "\t\t" + a + " " + b + "  " + sname;
  }

  lemma LineText(e: Entry)
    ensures Line(Vendors, 0, e) == e.id + "  " + e.name && Line(Classes, 0, e) == "C " + e.id + "  " + e.name
    ensures forall k: Kind :: Line(k, 1, e) == "\t" + e.id + "  " + e.name
    ensures forall k: Kind :: Line(k, 2, e) == "\t\t" + e.id + "  " + e.name
  {
    assert "" + e.id == e.id;
  }

  lemma SubsysId(a: CStr, b: CStr)
    requires PlainId(a, 4) && PlainId(b, 4)
    ensures PlainId(a + " " + b, 9)
  {
    var s := a + " " + b;
    assert forall i :: 0 <= i < 9 ==> s[i] == if i < 4 then a[i] else if i == 4 then ' ' else b[i - 5];
  }

  /** Class, subclass and programming interface lines: a C, a space and two digits; a tab and two; two tabs and two. */
  lemma ClassLines(c: CStr, s: CStr, p: CStr, cname: CStr, sname: CStr, pname: CStr)
    requires PlainId(c, 2) && PlainId(s, 2) && PlainId(p, 2) && cname != "" && sname != "" && pname != ""
    ensures var cs := [Entry(c, cname, [Entry(s, sname, [Entry(p, pname, [])])])];
      && Render(Classes, 0, cs) == ["C " + c + "  " + cname, "\t" + s + "  " + sname, "\t\t" + p + "  " + pname]
      && Plain(Classes, 0, cs)
  {
    var third, second := Entry(p, pname, []), Entry(s, sname, [Entry(p, pname, [])]);
    LineText(third);
    LineText(second);
    LineText(Entry(c, cname, [second]));
    hide PlainId, Render, Plain, Line;
    OneEntry(Classes, 2, third);
    OneEntry(Classes, 1, second);
    OneEntry(Classes, 0, Entry(c, cname, [second]));
    NoEntries(Classes, 3);
  }

  lemma OneEntry(kind: Kind, level: nat, e: Entry)
    ensures Render(kind, level, [e]) == [Line(kind, level, e)] + Render(kind, level + 1, e.kids)
    ensures Plain(kind, level, [e]) <==>
      PlainId(e.id, IdLen(kind, level)) && e.name != "" && (level < 2 || e.kids == []) && Plain(kind, level + 1, e.kids)
  {
    var none: seq<Entry> := [e][1..];
    NoEntries(kind, level);
    assert none == [];
    assert Render(kind, level + 1, e.kids) + Render(kind, level, none) == Render(kind, level + 1, e.kids);
  }

  lemma NoEntries(kind: Kind, level: nat)
    ensures Render(kind, level, []) == [] && Plain(kind, level, [])
  {}

  /** What is taken out are the empty lines and those that start with '#'. */
  lemma {:induction false} StripKeeps(lines: seq<CStr>, l: CStr)
    ensures l in Strip(lines) <==> l in lines && l != "" && l[0] != '#'
  {
    if lines != [] { StripKeeps(lines[1..], l); }
  }

  /** A line without a name is no vendor, device or class; a subclass scan ends at one, and so does a third-level
      scan. */
  lemma NamelessLines(id: CStr, rest: seq<CStr>, key: CStr)
    requires |id| in [2, 4, 9] && HexDigit(id[0])
    ensures |id| == 4 ==> TopScan(Vendors, [id + "  "] + rest, key) == TopScan(Vendors, rest, key)
    ensures |id| == 4 ==> MidScan(Vendors, ["\t" + id + "  "] + rest, key) == MidScan(Vendors, rest, key)
    ensures |id| == 9 ==> LeafScan(Vendors, ["\t\t" + id + "  "] + rest, key) == Miss
    ensures |id| == 2 ==> TopScan(Classes, ["C " + id + "  "] + rest, key) == TopScan(Classes, rest, key)
    ensures |id| == 2 ==> MidScan(Classes, ["\t" + id + "  "] + rest, key) == Miss
    ensures |id| == 2 ==> LeafScan(Classes, ["\t\t" + id + "  "] + rest, key) == Miss
  {
    hide StrniEq;
    var a: CStr, b: CStr, c: CStr, d: CStr := id + "  ", "\t" + id + "  ", "\t\t" + id + "  ", "C " + id + "  ";
    assert b[0] == '\t' && b[1] == id[0] && c[0] == '\t' && c[1] == '\t';
    assert ([a] + rest)[1..] == rest && ([b] + rest)[1..] == rest && ([d] + rest)[1..] == rest;
  }
}
