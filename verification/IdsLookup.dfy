/** Lookups in the PCI and USB id databases. */
module IdsLookup {
  import opened CStrings
  import opened IdsLines
  import opened IdsTree

  // ----- a whole database file -----

  predicate FourHex(s: string) {
    |s| >= 4 && HexDigit(s[0]) && HexDigit(s[1]) && HexDigit(s[2]) && HexDigit(s[3])
  }

  predicate ClassStart(line: CStr) {
    At(line, 0) == 'C' && At(line, 1) == ' '
  }

  predicate NoClass(lines: seq<CStr>) {
    forall i :: 0 <= i < |lines| ==> !ClassStart(lines[i])
  }

  /** The lines of other sections: they start neither like a class nor like a vendor, and do not continue the
      classes. */
  predicate Foreign(lines: seq<CStr>) {
    Ends(lines, 1) && NoClass(lines) && forall i :: 0 <= i < |lines| ==> !FourHex(lines[i])
  }

  /** The file holds, besides comments and blank lines, the vendors, behind them the classes, and behind them
      whatever other sections it has. */
  ghost predicate Database(ids: string, vs: seq<Entry>, cs: seq<Entry>, others: seq<CStr>) {
    && Plain(Vendors, 0, vs) && Plain(Classes, 0, cs) && Foreign(others)
    && Strip(LinesOf(ids)) == Render(Vendors, 0, vs) + (Render(Classes, 0, cs) + others)
  }

  /** The file holds the classes between lines that start no class. */
  ghost predicate ClassSection(ids: string, before: seq<CStr>, cs: seq<Entry>, after: seq<CStr>) {
    && Plain(Classes, 0, cs) && NoClass(before) && NoClass(after) && Ends(after, 1)
    && Strip(LinesOf(ids)) == before + (Render(Classes, 0, cs) + after)
  }

  /** A key that reads like the start of a class line. */
  predicate ClassKey(key: CStr) {
    |key| >= 4 && Lower(key[0]) == 'c' && key[1] == ' ' && HexDigit(key[2]) && HexDigit(key[3])
  }

  lemma ClassLineNoVendor(e: Entry, key: CStr)
    requires PlainId(e.id, 2) && e.name != ""
    ensures TopHit(Vendors, Line(Classes, 0, e), key) ==> ClassKey(key)
    ensures ClassKey(key) && e.id == key[2..4] ==> TopHit(Vendors, Line(Classes, 0, e), key)
  {
    var line := Line(Classes, 0, e);
    LineParts(Classes, 0, e, key);
    assert line[..2] == "C " && line[0] == line[..2][0] && line[1] == line[..2][1];
    assert line[2 + 0] == e.id[0] && line[2 + 1] == e.id[1];
    StrniKey(key, line, 4);
    hide Line, StrniEq;
    if |key| >= 4 { FoldFour(key, line); }
  }

  lemma FoldFour(key: CStr, line: CStr)
    requires |key| >= 4 && |line| >= 4
    ensures EqFold(key[..4], line[..4]) <==>
      && Lower(key[0]) == Lower(line[0]) && Lower(key[1]) == Lower(line[1])
      && Lower(key[2]) == Lower(line[2]) && Lower(key[3]) == Lower(line[3])
  {
    var a, b := key[..4], line[..4];
    assert forall i :: 0 <= i < 4 ==> a[i] == key[i] && b[i] == line[i];
    if EqFold(a, b) {
      assert Lower(a[0]) == Lower(b[0]) && Lower(a[1]) == Lower(b[1]);
      assert Lower(a[2]) == Lower(b[2]) && Lower(a[3]) == Lower(b[3]);
    }
  }

  lemma {:induction false} ClassesNoVendor(cs: seq<Entry>, tail: seq<CStr>, key: CStr)
    requires Plain(Classes, 0, cs) && !ClassKey(key)
    ensures TopScan(Vendors, Render(Classes, 0, cs) + tail, key) == TopScan(Vendors, tail, key)
    decreases cs
  {
    var lines := Render(Classes, 0, cs);
    if cs == [] {
      assert lines + tail == tail;
    } else {
      var kids, more := Render(Classes, 1, cs[0].kids), Render(Classes, 0, cs[1..]);
      ClassLineNoVendor(cs[0], key);
      RenderTabs(Classes, 1, cs[0].kids);
      assert lines + tail == [Line(Classes, 0, cs[0])] + (kids + (more + tail));
      assert (lines + tail)[1..] == kids + (more + tail);
      TopScanSkips(Vendors, kids, more + tail, key);
      ClassesNoVendor(cs[1..], tail, key);
    }
  }

  /** Four hex digits never match a line of another section. */
  lemma {:induction false} ForeignNoVendor(lines: seq<CStr>, key: CStr)
    requires FourHex(key) && forall i :: 0 <= i < |lines| ==> !FourHex(lines[i])
    ensures TopScan(Vendors, lines, key) == Miss
  {
    if lines != [] {
      var line := lines[0];
      if |line| >= 7 {
        StrniKey(key, line, 4);
        if EqFold(key[..4], line[..4]) { HexFolds(key, line); }
      }
      ForeignNoVendor(lines[1..], key);
    }
  }

  lemma HexFolds(key: CStr, line: CStr)
    requires FourHex(key) && |line| >= 4 && EqFold(key[..4], line[..4])
    ensures FourHex(line)
  {}

  lemma {:induction false} VendorsStartNoClass(vs: seq<Entry>)
    requires Plain(Vendors, 0, vs)
    ensures NoClass(Render(Vendors, 0, vs))
    decreases vs
  {
    if vs != [] {
      RenderTabs(Vendors, 1, vs[0].kids);
      VendorsStartNoClass(vs[1..]);
      LineParts(Vendors, 0, vs[0], "");
      var lines, kids, more := Render(Vendors, 0, vs), Render(Vendors, 1, vs[0].kids), Render(Vendors, 0, vs[1..]);
      assert Line(Vendors, 0, vs[0])[0 + 1] == vs[0].id[1] && HexDigit(vs[0].id[1]);
      assert lines == [Line(Vendors, 0, vs[0])] + (kids + more);
      hide Render, Plain, Line;
      assert !ClassStart(Line(Vendors, 0, vs[0]));
      forall i | 0 <= i < |kids|
        ensures !ClassStart(kids[i])
      {
        assert Tabbed(kids[i], 1) && kids[i][0] == '\t';
      }
      assert NoClass(kids) && NoClass(more);
    }
  }

  /** Lines that start no class are passed over by a class scan. */
  lemma NoClassScan(lines: seq<CStr>, tail: seq<CStr>, key: CStr)
    requires NoClass(lines)
    ensures TopScan(Classes, lines + tail, key) == TopScan(Classes, tail, key)
  {
    TopScanSkips(Classes, lines, tail, key);
  }

  lemma ClassesEnd(cs: seq<Entry>, others: seq<CStr>)
    requires Plain(Classes, 0, cs) && Ends(others, 1)
    ensures Ends(Render(Classes, 0, cs) + others, 1)
  {
    var after := TopScanRendered(Classes, cs, others, "");
  }

  /** Vendor, device and subsystem names read from lines in which no class and no other section matches the
      vendor key are those of the tree. */
  lemma VendorNamesOf(vs: seq<Entry>, cs: seq<Entry>, others: seq<CStr>, keys: seq<CStr>)
    requires Plain(Vendors, 0, vs) && Plain(Classes, 0, cs) && Ends(others, 1) && |keys| <= 3
    requires keys != [] ==> !ClassKey(keys[0]) && TopScan(Vendors, others, keys[0]) == Miss
    ensures LineNames(Vendors, Render(Vendors, 0, vs) + (Render(Classes, 0, cs) + others), keys) == TreeNames(vs, keys)
  {
    hide TopScan, LineNames, TreeNames, Ends;
    ClassesEnd(cs, others);
    if keys != [] { ClassesNoVendor(cs, others, keys[0]); }
    RenderedNames(Vendors, vs, Render(Classes, 0, cs) + others, keys);
  }

  /** Vendor, device and subsystem names read from the file are those of the tree, for a vendor key that no class and
      no other section matches. */
  lemma VendorNames(ids: string, vs: seq<Entry>, cs: seq<Entry>, others: seq<CStr>, keys: seq<CStr>)
    requires Database(ids, vs, cs, others) && |keys| <= 3
    requires keys != [] ==> !ClassKey(keys[0]) && TopScan(Vendors, others, keys[0]) == Miss
    ensures LineNames(Vendors, LinesOf(ids), keys) == TreeNames(vs, keys)
  {
    hide TopScan, LineNames, TreeNames, LinesOf;
    NamesIgnoreComments(Vendors, LinesOf(ids), keys);
    VendorNamesOf(vs, cs, others, keys);
  }

  /** Class, subclass and programming interface names read from the file are those of the tree, whatever stands
      before and behind the classes. */
  lemma ClassNames(ids: string, before: seq<CStr>, cs: seq<Entry>, after: seq<CStr>, keys: seq<CStr>)
    requires ClassSection(ids, before, cs, after) && |keys| <= 3
    ensures LineNames(Classes, LinesOf(ids), keys) == TreeNames(cs, keys)
  {
    NamesIgnoreComments(Classes, LinesOf(ids), keys);
    var lines := Render(Classes, 0, cs) + after;
    hide TreeNames, LinesOf, MidNames, Ends, Strip;
    if keys != [] {
      NoClassScan(before, lines, keys[0]);
      assert after + [] == after;
      NoClassScan(after, [], keys[0]);
    }
    RenderedNames(Classes, cs, after, keys);
  }

  /** A database is such a file. */
  lemma DatabaseHasClasses(ids: string, vs: seq<Entry>, cs: seq<Entry>, others: seq<CStr>)
    requires Database(ids, vs, cs, others)
    ensures ClassSection(ids, Render(Vendors, 0, vs), cs, others)
  {
    VendorsStartNoClass(vs);
  }

  /** Over all lists of vendors and classes, vendor lookup by this key gives what the vendor tree holds. */
  ghost predicate VendorKeyExact(key: CStr) {
    forall vs, cs :: Plain(Vendors, 0, vs) && Plain(Classes, 0, cs) ==>
      LineNames(Vendors, Render(Vendors, 0, vs) + Render(Classes, 0, cs), [key]) == TreeNames(vs, [key])
  }

  /** That fails exactly for keys that read like a class line: those can return a class name. */
  lemma VendorKeyExactIff(key: CStr)
    ensures VendorKeyExact(key) <==> !ClassKey(key)
  {
    if ClassKey(key) {
      var e := Entry(key[2..4], "x", []);
      var vs, cs := [], [e];
      assert Plain(Vendors, 0, vs) && Plain(Classes, 0, cs) by {
        assert Plain(Classes, 1, []) && Plain(Classes, 0, cs[1..]);
      }
      ClassLineNoVendor(e, key);
      var lines := Render(Vendors, 0, vs) + Render(Classes, 0, cs);
      assert lines[0] == Line(Classes, 0, e);
      assert TopScan(Vendors, lines, key).Hit?;
      assert TreeNames(vs, [key]) == [];
      assert LineNames(Vendors, lines, [key]) != [];
    } else {
      forall vs, cs | Plain(Vendors, 0, vs) && Plain(Classes, 0, cs)
        ensures LineNames(Vendors, Render(Vendors, 0, vs) + Render(Classes, 0, cs), [key]) == TreeNames(vs, [key])
      {
        VendorNamesOf(vs, cs, [], [key]);
        assert Render(Classes, 0, cs) + [] == Render(Classes, 0, cs);
      }
    }
  }

  /** The same with any other sections behind. */
  ghost predicate VendorKeyExactWithOthers(key: CStr) {
    forall vs, cs, others :: Plain(Vendors, 0, vs) && Plain(Classes, 0, cs) && Foreign(others) ==>
      LineNames(Vendors, Render(Vendors, 0, vs) + (Render(Classes, 0, cs) + others), [key]) == TreeNames(vs, [key])
  }

  /** Four hex digits match no class and no other section of a database. */
  lemma HexKeyMisses(ids: string, vs: seq<Entry>, cs: seq<Entry>, others: seq<CStr>, key: CStr)
    requires Database(ids, vs, cs, others) && FourHex(key)
    ensures !ClassKey(key) && TopScan(Vendors, others, key) == Miss
  {
    ForeignNoVendor(others, key);
  }

  /** A key no top-level line can start with: too short, or starting like a skipped or an indented line. */
  predicate NoLineKey(key: CStr) {
    |key| < 4 || key[0] == '\t' || key[0] == '#'
  }

  lemma {:induction false} NoLineScan(lines: seq<CStr>, key: CStr)
    requires NoLineKey(key)
    ensures TopScan(Vendors, lines, key) == Miss
  {
    if lines != [] {
      if |lines[0]| >= 7 { StrniKey(key, lines[0], 4); }
      if |key| >= 4 && |lines[0]| >= 7 && EqFold(key[..4], lines[0][..4]) { SameFirst(key, lines[0]); }
      NoLineScan(lines[1..], key);
    }
  }

  lemma SameFirst(key: CStr, line: CStr)
    requires |key| >= 4 && |line| >= 4 && EqFold(key[..4], line[..4])
    ensures Lower(key[0]) == Lower(line[0])
  {}

  /** A line of another section that a vendor lookup by the key takes for a vendor. */
  function Decoy(key: CStr): CStr
    requires |key| >= 4
  {
    (if key[0] == 'C' then "c" else [key[0]]) + key[1..4] + "  x"
  }

  lemma DecoyHits(key: CStr)
    requires !NoLineKey(key) && !FourHex(key)
    ensures Foreign([Decoy(key)]) && TopHit(Vendors, Decoy(key), key)
  {}

  /** Then it is exact exactly for four hex digits and for keys no line can start with. */
  lemma VendorKeyExactWithOthersIff(key: CStr)
    ensures VendorKeyExactWithOthers(key) <==> FourHex(key) || NoLineKey(key)
  {
    hide TopHit, NoLineKey, FourHex, Foreign, Decoy;
    if FourHex(key) || NoLineKey(key) {
      forall vs, cs, others | Plain(Vendors, 0, vs) && Plain(Classes, 0, cs) && Foreign(others)
        ensures LineNames(Vendors, Render(Vendors, 0, vs) + (Render(Classes, 0, cs) + others), [key])
             == TreeNames(vs, [key])
      {
        OthersMiss(others, key);
        VendorNamesOf(vs, cs, others, [key]);
      }
    } else {
      DecoyHits(key);
      assert !(|key| < 4) by { LongKey(key); }
      var others := [Decoy(key)];
      assert Plain(Vendors, 0, []) && Plain(Classes, 0, []);
      assert Render(Vendors, 0, []) + (Render(Classes, 0, []) + others) == others;
      assert TopScan(Vendors, others, key).Hit?;
      assert LineNames(Vendors, others, [key]) != [] && TreeNames([], [key]) == [];
    }
  }

  lemma LongKey(key: CStr)
    ensures !NoLineKey(key) ==> |key| >= 4
  {}

  lemma OthersMiss(others: seq<CStr>, key: CStr)
    requires Foreign(others) && (FourHex(key) || NoLineKey(key))
    ensures TopScan(Vendors, others, key) == Miss && !ClassKey(key) && Ends(others, 1)
  {
    if FourHex(key) { ForeignNoVendor(others, key); } else { NoLineScan(others, key); }
  }

  /** Text printed from the rendered lines, with comment lines anywhere, is such a file. */
  lemma TextIsDatabase(lines: seq<CStr>, ends: seq<string>, vs: seq<Entry>, cs: seq<Entry>, others: seq<CStr>)
    requires Printable(lines, ends) && Plain(Vendors, 0, vs) && Plain(Classes, 0, cs) && Foreign(others)
    requires Strip(lines) == Render(Vendors, 0, vs) + (Render(Classes, 0, cs) + others)
    ensures Database(Text(lines, ends), vs, cs, others)
  {
    LinesOfText(lines, ends);
  }

  // ----- the lookups -----

  class Node {
    var attrs: map<string, string>

    /** NWL_NodeAttrSet */
    method AttrSet(key: string, value: string)
      modifies this
      ensures attrs == old(attrs)[key := value]
    {
      attrs := attrs[key := value];
    }
  }

  /** The names set under the keys, in order, as far as there are names. */
  function SetNames(attrs: map<string, string>, keys: seq<string>, names: seq<CStr>): map<string, string>
    decreases |keys|
  {
    if keys == [] || names == [] then attrs
    else SetNames(attrs[keys[0] := names[0]], keys[1..], names[1..])
  }

  /** The line in hand and those still in the file. */
  function Ahead(line: Option<CStr>, ids: string, offset: nat): seq<CStr> {
    match line
    case None => []
    case Some(l) => [l] + if offset <= |ids| then LinesOf(ids[offset..]) else []
  }

  /** One line of a top-level scan. */
  lemma TopLine(kind: Kind, l: CStr, rest: seq<CStr>, key: CStr)
    ensures TopScan(kind, [l] + rest, key) ==
      if TopHit(kind, l, key) then Hit(l[6..], rest) else TopScan(kind, rest, key)
    ensures TopScan(kind, [], key) == Miss
  {}

  predicate Given(key: Option<CStr>) {
    key.Some? && key.value != ""
  }

  /** NWL_FindVendor */
  method FindVendor(nd: Node, ids: string, v: Option<CStr>, key: Option<string>) returns (found: bool, outOffset: nat)
    modifies nd
    ensures var h := if Given(v) then TopScan(Vendors, LinesOf(ids), v.value) else Miss;
      && found == h.Hit?
      && outOffset <= |ids|
      && (found ==> LinesOf(ids[outOffset..]) == h.rest)
      && nd.attrs == if found && key.Some? then old(nd.attrs)[key.value := h.name] else old(nd.attrs)
  {
    hide LinesOf, TopScan, StrniEq;
    if Given(v) { TopLine(Vendors, "", [], v.value); }
    outOffset := 0;
    if !Given(v) {
      return false, 0;
    }
    assert ids[0..] == ids;
    var line, offset := Getline(ids, 0);
    while line.Some?
      invariant offset <= |ids|
      invariant TopScan(Vendors, LinesOf(ids), v.value) == TopScan(Vendors, Ahead(line, ids, offset), v.value)
      invariant nd.attrs == old(nd.attrs)
      decreases |ids| - offset, line.Some?
    {
      var l := line.value;
      TopLine(Vendors, l, LinesOf(ids[offset..]), v.value);
      if At(l, 0) == '\0' || l[0] == '#' || l[0] == '\t' {
        line, offset := Getline(ids, offset);
        continue;
      }
      if |l| < 7 {
        line, offset := Getline(ids, offset);
        continue;
      }
      if StrniEq(v.value, l, 4) {
        if key.Some? {
          nd.AttrSet(key.value, l[6..]);
        }
        return true, offset;
      }
      line, offset := Getline(ids, offset);
    }
    found := false;
  }

  /** The attributes an id lookup sets. */
  function IdKeys(usb: bool): (r: seq<string>)
    ensures |r| == 3
  {
    ["Vendor", "Device", if usb then "Interface" else "Subsys"]
  }

  /** The attributes a class lookup sets. */
  function ClassKeys(usb: bool): (r: seq<string>)
    ensures |r| == 3
  {
    ["Class", "Subclass", if usb then "Protocol" else "Prog IF"]
  }

  lemma KeyNames(usb: bool)
    ensures var k := IdKeys(usb); k[0] == "Vendor" && k[1] == "Device" && k[2] == if usb then "Interface" else "Subsys"
    ensures var k := ClassKeys(usb);
      k[0] == "Class" && k[1] == "Subclass" && k[2] == if usb then "Protocol" else "Prog IF"
  {}

  /** The attributes set from the hits of up to three nested scans. */
  function TopAttrs(attrs: map<string, string>, kind: Kind, top: Hit, names: seq<string>, mid: Option<CStr>,
      leaf: Option<CStr>): map<string, string>
    requires |names| == 3
  {
    if top.Miss? then attrs
    else
      var next := if mid.Some? then MidScan(kind, top.rest, mid.value) else Miss;
      MidAttrs(attrs[names[0] := top.name], kind, next, names, leaf)
  }

  function MidAttrs(attrs: map<string, string>, kind: Kind, mid: Hit, names: seq<string>,
      leaf: Option<CStr>): map<string, string>
    requires |names| == 3
  {
    if mid.Miss? then attrs
    else
      var next := if leaf.Some? then LeafScan(kind, mid.rest, leaf.value) else Miss;
      LeafAttrs(attrs[names[1] := mid.name], next, names)
  }

  function LeafAttrs(attrs: map<string, string>, leaf: Hit, names: seq<string>): map<string, string>
    requires |names| == 3
  {
    if leaf.Miss? then attrs else attrs[names[2] := leaf.name]
  }

  /** What a lookup at the second or third level still sets, from these lines on. */
  ghost function Pending(found: bool, attrs: map<string, string>, kind: Kind, lines: seq<CStr>, names: seq<string>,
      mid: CStr, leaf: Option<CStr>): map<string, string>
    requires |names| == 3
  {
    if found then LeafAttrs(attrs, if leaf.Some? then LeafScan(kind, lines, leaf.value) else Miss, names)
    else MidAttrs(attrs, kind, MidScan(kind, lines, mid), names, leaf)
  }

  /** What one line in hand makes of that. */
  lemma PendingLine(found: bool, attrs: map<string, string>, kind: Kind, l: CStr, rest: seq<CStr>, names: seq<string>,
      mid: CStr, leaf: Option<CStr>)
    requires |names| == 3 && (found ==> leaf.Some?)
    ensures var n := IdLen(kind, if found then 2 else 1);
      var now := Pending(found, attrs, kind, [l] + rest, names, mid, leaf);
      if Skipped(l) then now == Pending(found, attrs, kind, rest, names, mid, leaf)
      else if !found then
        if l[0] != '\t' || (kind == Classes && |l| < n + 4) then now == attrs
        else if At(l, 1) == '\t' || |l| < n + 4 || !StrniEq(mid, l[1..], n)
        then now == Pending(false, attrs, kind, rest, names, mid, leaf)
        else now == Pending(true, attrs[names[1] := l[n + 3..]], kind, rest, names, mid, leaf)
      else
        if l[0] != '\t' || At(l, 1) != '\t' || |l| < n + 5 then now == attrs
        else if !StrniEq(leaf.value, l[2..], n) then now == Pending(true, attrs, kind, rest, names, mid, leaf)
        else now == attrs[names[2] := l[n + 4..]]
  {}

  /** The same for vendors, with the lengths of their lines. */
  lemma DeviceLine(found: bool, attrs: map<string, string>, l: CStr, rest: seq<CStr>, names: seq<string>, mid: CStr,
      leaf: Option<CStr>)
    requires |names| == 3 && (found ==> leaf.Some?)
    ensures var now := Pending(found, attrs, Vendors, [l] + rest, names, mid, leaf);
      if Skipped(l) then now == Pending(found, attrs, Vendors, rest, names, mid, leaf)
      else if !found then
        if l[0] != '\t' then now == attrs
        else if At(l, 1) != '\t' && |l| >= 8 && StrniEq(mid, l[1..], 4)
        then now == Pending(true, attrs[names[1] := l[7..]], Vendors, rest, names, mid, leaf)
        else now == Pending(false, attrs, Vendors, rest, names, mid, leaf)
      else
        if l[0] != '\t' || At(l, 1) != '\t' || |l| < 14 then now == attrs
        else if StrniEq(leaf.value, l[2..], 9) then now == attrs[names[2] := l[13..]]
        else now == Pending(true, attrs, Vendors, rest, names, mid, leaf)
  {}

  lemma PendingEnd(found: bool, attrs: map<string, string>, kind: Kind, names: seq<string>, mid: CStr,
      leaf: Option<CStr>)
    requires |names| == 3
    ensures Pending(found, attrs, kind, [], names, mid, leaf) == attrs
    ensures leaf.None? ==> forall lines :: Pending(true, attrs, kind, lines, names, mid, leaf) == attrs
  {}

  function LeafKeys(leaf: Option<CStr>): seq<CStr> {
    if leaf.Some? then [leaf.value] else []
  }

  function MidKeys(mid: Option<CStr>, leaf: Option<CStr>): seq<CStr> {
    if mid.Some? then [mid.value] + LeafKeys(leaf) else []
  }

  lemma LeafAttrsAreNames(attrs: map<string, string>, kind: Kind, lines: seq<CStr>, names: seq<string>,
      leaf: Option<CStr>)
    requires |names| == 3
    ensures LeafAttrs(attrs, if leaf.Some? then LeafScan(kind, lines, leaf.value) else Miss, names)
         == SetNames(attrs, names[2..], LeafNames(kind, lines, LeafKeys(leaf)))
  {}

  lemma MidAttrsAreNames(attrs: map<string, string>, kind: Kind, lines: seq<CStr>, names: seq<string>,
      mid: Option<CStr>, leaf: Option<CStr>)
    requires |names| == 3
    ensures MidAttrs(attrs, kind, if mid.Some? then MidScan(kind, lines, mid.value) else Miss, names, leaf)
         == SetNames(attrs, names[1..], MidNames(kind, lines, MidKeys(mid, leaf)))
  {
    hide MidScan, LeafScan, LeafNames, LeafAttrs;
    if mid.Some? {
      var m := MidScan(kind, lines, mid.value);
      if m.Hit? {
        LeafAttrsAreNames(attrs[names[1] := m.name], kind, m.rest, names, leaf);
        assert MidKeys(mid, leaf)[1..] == LeafKeys(leaf) && names[1..][1..] == names[2..];
        var more := LeafNames(kind, m.rest, LeafKeys(leaf));
        assert ([m.name] + more)[1..] == more;
      }
    }
  }

  /** Those attributes are the names on the path through the lines. */
  lemma AttrsAreNames(attrs: map<string, string>, kind: Kind, lines: seq<CStr>, names: seq<string>, top: CStr,
      mid: Option<CStr>, leaf: Option<CStr>)
    requires |names| == 3
    ensures TopAttrs(attrs, kind, TopScan(kind, lines, top), names, mid, leaf)
         == SetNames(attrs, names, LineNames(kind, lines, [top] + MidKeys(mid, leaf)))
  {
    hide TopScan, MidScan, MidNames, MidAttrs, MidKeys;
    var h := TopScan(kind, lines, top);
    if h.Hit? {
      MidAttrsAreNames(attrs[names[0] := h.name], kind, h.rest, names, mid, leaf);
      var keys := MidKeys(mid, leaf);
      assert ([top] + keys)[1..] == keys;
      var more := MidNames(kind, h.rest, keys);
      assert ([h.name] + more)[1..] == more;
    }
  }

  /** NWL_FindId */
  method FindId(nd: Node, ids: string, v: Option<CStr>, d: Option<CStr>, s: Option<CStr>, usb: bool)
    modifies nd
    ensures nd.attrs ==
      if Given(v) && Given(d)
      then TopAttrs(old(nd.attrs), Vendors, TopScan(Vendors, LinesOf(ids), v.value), IdKeys(usb), d, s)
      else old(nd.attrs)
  {
    hide TopScan, LinesOf;
    if !Given(v) || !Given(d) {
      return;
    }
    var ok, offset := FindVendor(nd, ids, v, Some("Vendor"));
    if !ok {
      return;
    }
    FindDevice(nd, ids, d.value, s, usb, offset);
  }

  /** The second half of NWL_FindId, from the line behind the vendor. */
  method FindDevice(nd: Node, ids: string, d: CStr, s: Option<CStr>, usb: bool, from: nat)
    requires from <= |ids|
    modifies nd
    ensures nd.attrs == MidAttrs(old(nd.attrs), Vendors, MidScan(Vendors, LinesOf(ids[from..]), d), IdKeys(usb), s)
  {
    ghost var all := MidAttrs(nd.attrs, Vendors, MidScan(Vendors, LinesOf(ids[from..]), d), IdKeys(usb), s);
    assert all == Pending(false, nd.attrs, Vendors, LinesOf(ids[from..]), IdKeys(usb), d, s);
    KeyNames(usb);
    hide LinesOf, StrniEq, Pending, IdKeys;
    ghost var names := IdKeys(usb);
    var foundDevice := false;
    var line, offset := Getline(ids, from);
    while line.Some?
      invariant offset <= |ids| && (foundDevice ==> s.Some?)
      invariant all == Pending(foundDevice, nd.attrs, Vendors, Ahead(line, ids, offset), names, d, s)
      decreases |ids| - offset, line.Some?
    {
      var l := line.value;
      DeviceLine(foundDevice, nd.attrs, l, LinesOf(ids[offset..]), names, d, s);
      if At(l, 0) != '\0' && l[0] != '#' {
        if !foundDevice {
          if l[0] != '\t' {
            return;
          }
          if At(l, 1) != '\t' && |l| >= 8 && StrniEq(d, l[1..], 4) {
            nd.AttrSet("Device", l[7..]);
            foundDevice := true;
            if s.None? {
              PendingEnd(true, nd.attrs, Vendors, names, d, s);
              return;
            }
          }
        } else {
          if l[0] != '\t' || At(l, 1) != '\t' || |l| < 14 {
            return;
          }
          if StrniEq(s.value, l[2..], 9) {
            nd.AttrSet(if usb then "Interface" else "Subsys", l[13..]);
            return;
          }
        }
      }
      line, offset := Getline(ids, offset);
    }
    PendingEnd(foundDevice, nd.attrs, Vendors, names, d, s);
  }

  function SubclassKey(cls: CStr): Option<CStr> {
    if |cls| >= 4 then Some(cls[2..]) else None
  }

  function ProgKey(cls: CStr): Option<CStr> {
    if |cls| >= 6 then Some(cls[4..]) else None
  }

  /** What the class lookup sets: class, subclass and programming interface, as far as the string goes. */
  function FoundClass(attrs: map<string, string>, ids: string, cls: Option<CStr>, usb: bool): map<string, string> {
    if Given(cls)
    then TopAttrs(attrs, Classes, TopScan(Classes, LinesOf(ids), cls.value),
                  ClassKeys(usb), SubclassKey(cls.value), ProgKey(cls.value))
    else attrs
  }

  /** NWL_FindClass */
  method FindClass(nd: Node, ids: string, cls: Option<CStr>, usb: bool)
    modifies nd
    ensures nd.attrs == FoundClass(old(nd.attrs), ids, cls, usb)
  {
    hide LinesOf, TopScan, StrniEq, MidScan, MidAttrs, ClassKeys;
    if !Given(cls) {
      return;
    }
    var v := cls.value;
    var foundClass := false;
    var d := SubclassKey(v);
    ghost var hit := TopScan(Classes, LinesOf(ids), v);
    KeyNames(usb);
    TopLine(Classes, "", [], v);
    assert ids[0..] == ids;
    var line, offset := Getline(ids, 0);
    while line.Some?
      invariant offset <= |ids| && !foundClass
      invariant nd.attrs == old(nd.attrs) && hit == TopScan(Classes, Ahead(line, ids, offset), v)
      decreases |ids| - offset, line.Some?
    {
      var l := line.value;
      TopLine(Classes, l, LinesOf(ids[offset..]), v);
      if At(l, 0) != '\0' && l[0] != '#' && |l| >= 7 && l[0] == 'C' && l[1] == ' ' && StrniEq(v, l[2..], 2) {
        nd.AttrSet("Class", l[6..]);
        foundClass := true;
        break;
      }
      line, offset := Getline(ids, offset);
    }
    MidAttrsOfMiss(nd.attrs, ClassKeys(usb), ProgKey(v));
    if foundClass && d.Some? {
      FindSubclass(nd, ids, d.value, ProgKey(v), usb, offset);
    }
  }

  lemma MidAttrsOfMiss(attrs: map<string, string>, names: seq<string>, leaf: Option<CStr>)
    requires |names| == 3
    ensures MidAttrs(attrs, Classes, Miss, names, leaf) == attrs
  {}

  /** The second half of NWL_FindClass, from the line behind the class. */
  method FindSubclass(nd: Node, ids: string, d: CStr, s: Option<CStr>, usb: bool, from: nat)
    requires from <= |ids|
    modifies nd
    ensures nd.attrs == MidAttrs(old(nd.attrs), Classes, MidScan(Classes, LinesOf(ids[from..]), d), ClassKeys(usb), s)
  {
    ghost var all := MidAttrs(nd.attrs, Classes, MidScan(Classes, LinesOf(ids[from..]), d), ClassKeys(usb), s);
    assert all == Pending(false, nd.attrs, Classes, LinesOf(ids[from..]), ClassKeys(usb), d, s);
    KeyNames(usb);
    hide LinesOf, StrniEq, Pending, ClassKeys;
    ghost var names := ClassKeys(usb);
    var foundSubclass := false;
    var line, offset := Getline(ids, from);
    while line.Some?
      invariant offset <= |ids| && (foundSubclass ==> s.Some?)
      invariant all == Pending(foundSubclass, nd.attrs, Classes, Ahead(line, ids, offset), names, d, s)
      decreases |ids| - offset, line.Some?
    {
      var l := line.value;
      PendingLine(foundSubclass, nd.attrs, Classes, l, LinesOf(ids[offset..]), names, d, s);
      if At(l, 0) != '\0' && l[0] != '#' {
        if !foundSubclass {
          if l[0] != '\t' || |l| < 6 {
            return;
          }
          if l[1] != '\t' && StrniEq(d, l[1..], 2) {
            nd.AttrSet("Subclass", l[5..]);
            foundSubclass := true;
            if s.None? {
              PendingEnd(true, nd.attrs, Classes, names, d, s);
              return;
            }
          }
        } else {
          if l[0] != '\t' || At(l, 1) != '\t' || |l| < 7 {
            return;
          }
          if StrniEq(s.value, l[2..], 2) {
            nd.AttrSet(if usb then "Protocol" else "Prog IF", l[6..]);
            return;
          }
        }
      }
      line, offset := Getline(ids, offset);
    }
    PendingEnd(foundSubclass, nd.attrs, Classes, names, d, s);
  }

  /** The class lookup sets exactly the names on the path through the class tree, whatever stands around the classes. */
  lemma ClassAttrsFromTree(attrs: map<string, string>, ids: string, before: seq<CStr>, cs: seq<Entry>, after: seq<CStr>,
                           cls: CStr, names: seq<string>)
    requires ClassSection(ids, before, cs, after) && |names| == 3
    ensures TopAttrs(attrs, Classes, TopScan(Classes, LinesOf(ids), cls), names, SubclassKey(cls), ProgKey(cls))
         == SetNames(attrs, names, TreeNames(cs, [cls] + MidKeys(SubclassKey(cls), ProgKey(cls))))
  {
    AttrsAreNames(attrs, Classes, LinesOf(ids), names, cls, SubclassKey(cls), ProgKey(cls));
    ClassNames(ids, before, cs, after, [cls] + MidKeys(SubclassKey(cls), ProgKey(cls)));
  }

  /** On a database, the id lookup by such a vendor key sets exactly the names on the path through the vendor tree. */
  lemma IdAttrsFromTree(attrs: map<string, string>, ids: string, vs: seq<Entry>, cs: seq<Entry>, others: seq<CStr>,
                        v: CStr, d: CStr, s: Option<CStr>, names: seq<string>)
    requires Database(ids, vs, cs, others) && |names| == 3
    requires !ClassKey(v) && TopScan(Vendors, others, v) == Miss
    ensures TopAttrs(attrs, Vendors, TopScan(Vendors, LinesOf(ids), v), names, Some(d), s)
         == SetNames(attrs, names, TreeNames(vs, [v] + MidKeys(Some(d), s)))
  {
    AttrsAreNames(attrs, Vendors, LinesOf(ids), names, v, Some(d), s);
    VendorNames(ids, vs, cs, others, [v] + MidKeys(Some(d), s));
  }

  // ----- class strings -----

  predicate IdsOf(es: seq<Entry>, n: nat) {
    forall i :: 0 <= i < |es| ==> |es[i].id| == n
  }

  lemma {:induction false} PlainIds(level: nat, es: seq<Entry>)
    requires Plain(Classes, level, es)
    ensures IdsOf(es, 2)
    ensures forall i :: 0 <= i < |es| ==> Plain(Classes, level + 1, es[i].kids)
    decreases es
  {
    if es != [] {
      PlainIds(level, es[1..]);
      assert forall i :: 1 <= i < |es| ==> es[i] == es[1..][i - 1];
    }
  }

  /** Only the first characters of a key count. */
  lemma {:induction false} FindByStart(es: seq<Entry>, key: CStr, n: nat)
    requires IdsOf(es, n) && |key| >= n
    ensures Find(es, key) == Find(es, key[..n])
  {
    if es != [] {
      assert key[..n][..n] == key[..n] && |es[0].id| == n;
      assert forall i :: 0 <= i < |es[1..]| ==> es[1..][i] == es[i + 1];
      FindByStart(es[1..], key, n);
    }
  }

  /** A class string is read two characters a level. */
  lemma ByTwo(cs: seq<Entry>, c: CStr, s: CStr, p: CStr, x: CStr, y: CStr)
    requires Plain(Classes, 0, cs) && |c| == 2 && |s| == 2 && |p| == 2
    requires |x| >= 2 && x[..2] == c && |y| >= 2 && y[..2] == s
    ensures TreeNames(cs, [x]) == TreeNames(cs, [c])
    ensures TreeNames(cs, [x, y]) == TreeNames(cs, [c, s])
    ensures TreeNames(cs, [x, y, p]) == TreeNames(cs, [c, s, p])
  {
    PlainIds(0, cs);
    FindByStart(cs, x, 2);
    hide TreeNames, Plain;
    if Find(cs, c).Some? {
      var kids := Find(cs, c).value.kids;
      PlainIds(1, kids);
      FindByStart(kids, y, 2);
      NamesStep(kids, y, s, [], []);
      NamesStep(kids, y, s, [p], [p]);
      assert [y] + [] == [y] && [s] + [] == [s] && [y] + [p] == [y, p] && [s] + [p] == [s, p];
    }
    NamesStep(cs, x, c, [], []);
    NamesStep(cs, x, c, [y], [s]);
    NamesStep(cs, x, c, [y, p], [s, p]);
    assert [x] + [] == [x] && [c] + [] == [c] && [x] + [y] == [x, y] && [c] + [s] == [c, s];
    assert [x] + [y, p] == [x, y, p] && [c] + [s, p] == [c, s, p];
  }

  lemma NamesStep(es: seq<Entry>, key: CStr, other: CStr, keys: seq<CStr>, others: seq<CStr>)
    requires Find(es, key) == Find(es, other)
    requires Find(es, key).Some? ==>
      TreeNames(Find(es, key).value.kids, keys) == TreeNames(Find(es, key).value.kids, others)
    ensures TreeNames(es, [key] + keys) == TreeNames(es, [other] + others)
  {
    assert ([key] + keys)[1..] == keys && ([other] + others)[1..] == others;
  }

  /** The class lookup by "cc", "ccss" and "ccsspp" sets exactly the names of class cc, subclass ss and programming
      interface pp of the class tree. */
  lemma ClassString(attrs: map<string, string>, ids: string, before: seq<CStr>, cs: seq<Entry>, after: seq<CStr>,
      c: CStr, s: CStr, p: CStr, usb: bool)
    requires ClassSection(ids, before, cs, after) && |c| == 2 && |s| == 2 && |p| == 2
    ensures var names := ["Class", "Subclass", if usb then "Protocol" else "Prog IF"];
      && FoundClass(attrs, ids, Some(c), usb) == SetNames(attrs, names, TreeNames(cs, [c]))
      && FoundClass(attrs, ids, Some(c + s), usb) == SetNames(attrs, names, TreeNames(cs, [c, s]))
      && FoundClass(attrs, ids, Some(c + s + p), usb) == SetNames(attrs, names, TreeNames(cs, [c, s, p]))
  {
    var two: CStr, three: CStr := c + s, c + s + p;
    Slices(c, s, p);
    ByTwo(cs, c, s, p, two, s);
    ByTwo(cs, c, s, p, three, s + p);
    hide TreeNames, SetNames, ClassSection, Plain, FoundClass;
    ClassBy(attrs, ids, before, cs, after, c, [c], usb);
    ClassBy(attrs, ids, before, cs, after, two, [two, s], usb);
    ClassBy(attrs, ids, before, cs, after, three, [three, s + p, p], usb);
  }

  lemma Slices(c: CStr, s: CStr, p: CStr)
    requires |c| == 2 && |s| == 2 && |p| == 2
    ensures (c + s)[..2] == c && (c + s)[2..] == s
    ensures (c + s + p)[..2] == c && (c + s + p)[2..] == s + p && (s + p)[..2] == s && (c + s + p)[4..] == p
  {}

  lemma ClassBy(attrs: map<string, string>, ids: string, before: seq<CStr>, cs: seq<Entry>, after: seq<CStr>,
      cls: CStr, keys: seq<CStr>, usb: bool)
    requires ClassSection(ids, before, cs, after) && cls != ""
    requires keys == if |cls| < 4 then [cls] else if |cls| < 6 then [cls, cls[2..]] else [cls, cls[2..], cls[4..]]
    ensures FoundClass(attrs, ids, Some(cls), usb)
         == SetNames(attrs, ["Class", "Subclass", if usb then "Protocol" else "Prog IF"], TreeNames(cs, keys))
  {
    assert keys == [cls] + MidKeys(SubclassKey(cls), ProgKey(cls));
    hide TopScan, LinesOf, TopAttrs, TreeNames, SetNames, ClassSection, MidKeys, SubclassKey, ProgKey;
    ClassAttrsFromTree(attrs, ids, before, cs, after, cls, ClassKeys(usb));
  }
}
