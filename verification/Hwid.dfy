/** Hardware id strings: picking out the ids and looking them up. */
module Hwid {
  import opened CStrings
  import opened IdsLines
  import opened IdsTree
  import opened IdsLookup

  /** The cast from a wide character to CHAR. */
  function Narrow(c: char): char {
    ((c as int) % 256) as char
  }

  function NarrowAll(s: string): (r: string)
    ensures |r| == |s|
  {
    seq(|s|, i requires 0 <= i < |s| => Narrow(s[i]))
  }

  lemma NarrowPlain(s: CStr)
    requires forall i :: 0 <= i < |s| ==> s[i] < 128 as char
    ensures NarrowAll(s) == s
  {}

  lemma NarrowSnoc(s: string, a: nat, b: nat)
    requires a <= b < |s|
    ensures NarrowAll(s[a..b + 1]) == NarrowAll(s[a..b]) + [Narrow(s[b])]
  {}

  function Min(a: nat, b: nat): nat {
    if a < b then a else b
  }

  /** The id behind the needle: past three characters and an optional '_', up to four characters. */
  function IdBehind(h: CStr, needle: string): (r: Option<(CStr, CStr)>)
    requires |needle| == 3
  {
    match Search(h, needle, 0)
    case None => None
    case Some(at) =>
      var p := at + 3 + (if At(h, at + 3) == '_' then 1 else 0);
      var n := Min(4, |h| - p);
      Some((CText(NarrowAll(h[p..p + n])), h[p + n..]))
  }

  /** NWL_ParseHwidId; gives the id and the string behind it. */
  method ParseHwidId(hwid: CStr, needle: string) returns (ok: bool, id: CStr, next: CStr)
    requires |needle| == 3
    ensures match IdBehind(hwid, needle)
      case None => !ok && next == hwid && id == ""
      case Some(r) => ok && (id, next) == r
  {
    hide CText, Search, NarrowAll, Narrow;
    assert NarrowAll([]) == [];
    var at := Search(hwid, needle, 0);
    if at.None? {
      return false, "", hwid;
    }
    var p := at.value + 3;
    if At(hwid, p) == '_' {
      p := p + 1;
    }
    var i := 0;
    var out: string := "";
    while i < 4 && At(hwid, p + i) != '\0'
      invariant i <= Min(4, |hwid| - p)
      invariant out == NarrowAll(hwid[p..p + i])
      decreases 4 - i
    {
      NarrowSnoc(hwid, p, p + i);
      out := out + [Narrow(hwid[p + i])];
      i := i + 1;
    }
    ok, id, next := true, CText(out), hwid[p + i..];
  }

  /** The subsystem id, "vendor device", and the subsystem vendor. */
  function SubsysBehind(h: CStr): Option<(CStr, CStr)> {
    match Search(h, "SUBSYS_", 0)
    case None => None
    case Some(at) =>
      if |h| < at + 15 then None
      else
        var device, vendor := NarrowAll(h[at + 7..at + 11]), NarrowAll(h[at + 11..at + 15]);
        Some((CText(vendor + " " + device), CText(vendor)))
  }

  /** NWL_ParseSubsys */
  method ParseSubsys(hwid: CStr) returns (ok: bool, subsys: CStr, subvendor: CStr)
    ensures match SubsysBehind(hwid)
      case None => !ok && subsys == "" && subvendor == ""
      case Some(r) => ok && (subsys, subvendor) == r
  {
    var at := Search(hwid, "SUBSYS_", 0);
    if at.None? {
      return false, "", "";
    }
    var p := at.value + 7;
    var i := 0;
    while i < 8 && At(hwid, p + i) != '\0'
      invariant i <= Min(8, |hwid| - p)
      decreases 8 - i
    {
      i := i + 1;
    }
    if i < 8 {
      return false, "", "";
    }
    var device, vendor := "", "";
    i := 0;
    while i < 4
      invariant i <= 4
      invariant vendor == NarrowAll(hwid[p + 4..p + 4 + i]) && device == NarrowAll(hwid[p..p + i])
      decreases 4 - i
    {
      NarrowSnoc(hwid, p, p + i);
      NarrowSnoc(hwid, p + 4, p + 4 + i);
      vendor, device := vendor + [Narrow(hwid[p + i + 4])], device + [Narrow(hwid[p + i])];
      i := i + 1;
    }
    ok, subsys, subvendor := true, CText(vendor + " " + device), CText(vendor);
  }

  /** What a hardware id sets on a node. */
  function HwidAttrs(attrs: map<string, string>, ids: string, hwid: CStr, usb: bool): Option<map<string, string>> {
    match IdBehind(hwid, if usb then "VID" else "VEN")
    case None => None
    case Some((v, p)) =>
      match IdBehind(p, if usb then "PID" else "DEV")
      case None => None
      case Some((d, q)) =>
        var a := attrs["Vendor ID" := v]["Device ID" := d];
        var names := IdKeys(usb);
        var sub := if usb then None else SubsysBehind(q);
        var b := if sub.Some? then a["Subsystem ID" := sub.value.0]["Subvendor ID" := sub.value.1] else a;
        var c := if v == "" || d == "" then b
          else TopAttrs(b, Vendors, TopScan(Vendors, LinesOf(ids), v), names, Some(d),
                        if sub.Some? then Some(sub.value.0) else None);
        Some(if sub.Some? && sub.value.1 != ""
             then SetNames(c, ["Subvendor"], LineNames(Vendors, LinesOf(ids), [sub.value.1])) else c)
  }

  /** NWL_ParseHwid */
  method ParseHwid(nd: Node, ids: string, hwid: Option<CStr>, usb: bool) returns (ok: bool)
    modifies nd
    ensures var r := if hwid.Some? then HwidAttrs(old(nd.attrs), ids, hwid.value, usb) else None;
      ok == r.Some? && nd.attrs == if r.Some? then r.value else old(nd.attrs)
  {
    hide TopScan, LinesOf, IdBehind, SubsysBehind, TopAttrs;
    if hwid.None? {
      return false;
    }
    var p, vid, did := hwid.value, "", "";
    var subsys: CStr, subvendor: CStr := "", "";
    var hasSubsys := false;
    ok, vid, p := ParseHwidId(p, if usb then "VID" else "VEN");
    if !ok {
      return;
    }
    ok, did, p := ParseHwidId(p, if usb then "PID" else "DEV");
    if !ok {
      return;
    }
    if !usb {
      hasSubsys, subsys, subvendor := ParseSubsys(p);
    }
    nd.AttrSet("Vendor ID", vid);
    nd.AttrSet("Device ID", did);
    if hasSubsys {
      nd.AttrSet("Subsystem ID", subsys);
      if !usb {
        nd.AttrSet("Subvendor ID", subvendor);
      }
      FindId(nd, ids, Some(vid), Some(did), Some(subsys), usb);
      if !usb && subvendor != "" {
        var found, outOffset := FindVendor(nd, ids, Some(subvendor), Some("Subvendor"));
      }
    } else {
      FindId(nd, ids, Some(vid), Some(did), None, usb);
    }
    ok := true;
  }

  // ----- the documented formats -----

  function PciHwid(v: CStr, d: CStr, tail: CStr): CStr {
    "PCI\\VEN_" + v + "&DEV_" + d + tail
  }

  function Subsys(device: CStr, vendor: CStr, tail: CStr): CStr {
    "&SUBSYS_" + device + vendor + tail
  }

  function UsbHwid(v: CStr, d: CStr, tail: CStr): CStr {
    "USB\\VID_" + v + "&PID_" + d + tail
  }

  lemma PlainIsNarrow(id: CStr, n: nat)
    requires PlainId(id, n)
    ensures CText(NarrowAll(id)) == id
  {}

  /** A needle at n, an underscore and a four-digit id give that id and what stands behind it. */
  lemma IdBehindAt(lead: CStr, needle: CStr, id: CStr, tail: CStr)
    requires |needle| == 3 && PlainId(id, 4)
    requires forall j :: 0 <= j < |lead| ==> lead[j] != needle[0]
    ensures IdBehind(lead + needle + "_" + id + tail, needle) == Some((id, tail))
  {
    var h: CStr := lead + needle + "_" + id + tail;
    var n := |lead|;
    assert h[n..n + 3] == needle;
    assert forall j :: 0 <= j < n ==> h[j] == lead[j];
    SearchAt(h, needle, 0, n);
    assert h[n + 3] == '_' && h[n + 4..n + 8] == id && h[n + 8..] == tail;
    PlainIsNarrow(id, 4);
  }

  lemma SubsysBehindAt(device: CStr, vendor: CStr, tail: CStr)
    requires PlainId(device, 4) && PlainId(vendor, 4)
    ensures SubsysBehind(Subsys(device, vendor, tail)) == Some((vendor + " " + device, vendor))
  {
    var h := Subsys(device, vendor, tail);
    assert h[1..1 + 7] == "SUBSYS_";
    SearchAt(h, "SUBSYS_", 0, 1);
    assert h[8..12] == device && h[12..16] == vendor;
    NarrowPlain(device);
    NarrowPlain(vendor);
    PlainIsNarrow(vendor, 4);
    var both: CStr := vendor + " " + device;
    assert both[..9] == both;
    CTextPrefix(both, 9);
  }

  lemma PlainIsHex(v: CStr)
    requires PlainId(v, 4)
    ensures FourHex(v)
  {}

  /** A PCI hardware id with a subsystem, looked up in a database, sets the ids and exactly the tree's names. */
  lemma PciWithSubsys(attrs: map<string, string>, ids: string, vs: seq<Entry>, cs: seq<Entry>, others: seq<CStr>,
                      v: CStr, d: CStr, sd: CStr, sv: CStr, tail: CStr)
    requires Database(ids, vs, cs, others)
    requires PlainId(v, 4) && PlainId(d, 4) && PlainId(sd, 4) && PlainId(sv, 4)
    ensures var ids2 := attrs["Vendor ID" := v]["Device ID" := d];
      var given := ids2["Subsystem ID" := sv + " " + sd]["Subvendor ID" := sv];
      var names := TreeNames(vs, [v, d, sv + " " + sd]);
      HwidAttrs(attrs, ids, PciHwid(v, d, Subsys(sd, sv, tail)), false) ==
      Some(SetNames(SetNames(given, ["Vendor", "Device", "Subsys"], names), ["Subvendor"], TreeNames(vs, [sv])))
  {
    hide TopScan, LinesOf, TopAttrs, TreeNames, SetNames, LineNames, IdBehind, SubsysBehind, Database;
    assert IdKeys(false) == ["Vendor", "Device", "Subsys"];
    var sub := Subsys(sd, sv, tail);
    var behind: CStr := "&" + "DEV" + "_" + d + sub;
    assert PciHwid(v, d, sub) == "PCI\\" + "VEN" + "_" + v + behind;
    IdBehindAt("PCI\\", "VEN", v, behind);
    IdBehindAt("&", "DEV", d, sub);
    SubsysBehindAt(sd, sv, tail);
    PlainIsHex(v);
    PlainIsHex(sv);
    HexKeyMisses(ids, vs, cs, others, v);
    HexKeyMisses(ids, vs, cs, others, sv);
    var s: CStr := sv + " " + sd;
    var given := attrs["Vendor ID" := v]["Device ID" := d]["Subsystem ID" := s]["Subvendor ID" := sv];
    assert [v] + MidKeys(Some(d), Some(s)) == [v, d, s];
    IdAttrsFromTree(given, ids, vs, cs, others, v, d, Some(s), IdKeys(false));
    VendorNames(ids, vs, cs, others, [sv]);
  }

  /** A PCI or USB hardware id without one sets the two ids and the vendor and device names. */
  lemma WithoutSubsys(attrs: map<string, string>, ids: string, vs: seq<Entry>, cs: seq<Entry>, others: seq<CStr>,
                      v: CStr, d: CStr, tail: CStr, usb: bool)
    requires Database(ids, vs, cs, others)
    requires PlainId(v, 4) && PlainId(d, 4)
    requires usb || Search(tail, "SUBSYS_", 0) == None
    ensures HwidAttrs(attrs, ids, if usb then UsbHwid(v, d, tail) else PciHwid(v, d, tail), usb) ==
      Some(SetNames(attrs["Vendor ID" := v]["Device ID" := d],
                    ["Vendor", "Device", if usb then "Interface" else "Subsys"], TreeNames(vs, [v, d])))
  {
    NoSubsysBehind(tail);
    hide IdBehind, HwidAttrs, SetNames, TreeNames, Database, SubsysBehind, UsbHwid, PciHwid;
    if usb {
      UsbIds(v, d, tail);
      BothIds(attrs, ids, vs, cs, others, UsbHwid(v, d, tail), v, "&PID_" + d + tail, d, tail, true);
    } else {
      PciIds(v, d, tail);
      BothIds(attrs, ids, vs, cs, others, PciHwid(v, d, tail), v, "&DEV_" + d + tail, d, tail, false);
    }
  }

  lemma UsbIds(v: CStr, d: CStr, tail: CStr)
    requires PlainId(v, 4) && PlainId(d, 4)
    ensures IdBehind(UsbHwid(v, d, tail), "VID") == Some((v, "&PID_" + d + tail))
    ensures IdBehind("&PID_" + d + tail, "PID") == Some((d, tail))
  {
    hide IdBehind;
    var behind: CStr := "&PID_" + d + tail;
    assert behind == "&" + "PID" + "_" + d + tail;
    assert UsbHwid(v, d, tail) == "USB\\" + "VID" + "_" + v + behind;
    IdBehindAt("USB\\", "VID", v, behind);
    IdBehindAt("&", "PID", d, tail);
  }

  lemma PciIds(v: CStr, d: CStr, tail: CStr)
    requires PlainId(v, 4) && PlainId(d, 4)
    ensures IdBehind(PciHwid(v, d, tail), "VEN") == Some((v, "&DEV_" + d + tail))
    ensures IdBehind("&DEV_" + d + tail, "DEV") == Some((d, tail))
  {
    hide IdBehind;
    var behind: CStr := "&DEV_" + d + tail;
    assert behind == "&" + "DEV" + "_" + d + tail;
    assert PciHwid(v, d, tail) == "PCI\\" + "VEN" + "_" + v + behind;
    IdBehindAt("PCI\\", "VEN", v, behind);
    IdBehindAt("&", "DEV", d, tail);
  }

  lemma NoSubsysBehind(tail: CStr)
    ensures Search(tail, "SUBSYS_", 0) == None ==> SubsysBehind(tail) == None
  {}

  /** A string in which both ids are found and no subsystem behind them. */
  lemma BothIds(attrs: map<string, string>, ids: string, vs: seq<Entry>, cs: seq<Entry>, others: seq<CStr>,
                h: CStr, v: CStr, p: CStr, d: CStr, q: CStr, usb: bool)
    requires Database(ids, vs, cs, others) && PlainId(v, 4) && PlainId(d, 4)
    requires IdBehind(h, if usb then "VID" else "VEN") == Some((v, p))
    requires IdBehind(p, if usb then "PID" else "DEV") == Some((d, q))
    requires usb || SubsysBehind(q) == None
    ensures HwidAttrs(attrs, ids, h, usb) ==
      Some(SetNames(attrs["Vendor ID" := v]["Device ID" := d],
                    ["Vendor", "Device", if usb then "Interface" else "Subsys"], TreeNames(vs, [v, d])))
  {
    hide TopScan, LinesOf, TopAttrs, TreeNames, SetNames, LineNames, IdBehind, Database, SubsysBehind;
    PlainIsHex(v);
    HexKeyMisses(ids, vs, cs, others, v);
    assert [v] + MidKeys(Some(d), None) == [v, d];
    IdAttrsFromTree(attrs["Vendor ID" := v]["Device ID" := d], ids, vs, cs, others, v, d, None, IdKeys(usb));
  }

  /** An id right behind the needle, of up to four digits, is found as well; fewer only at the end of the string. */
  lemma IdRightBehind(lead: CStr, needle: CStr, id: CStr, tail: CStr)
    requires |needle| == 3 && |id| <= 4 && PlainId(id, |id|) && (|id| == 4 || tail == "")
    requires forall j :: 0 <= j < |lead| ==> lead[j] != needle[0]
    ensures IdBehind(lead + needle + id + tail, needle) == Some((id, tail))
  {
    var h: CStr := lead + needle + id + tail;
    var n := |lead|;
    assert h[n..n + 3] == needle;
    assert forall j :: 0 <= j < n ==> h[j] == lead[j];
    SearchAt(h, needle, 0, n);
    assert At(h, n + 3) != '_' by { assert id != "" ==> h[n + 3] == id[0]; }
    assert h[n + 3..n + 3 + |id|] == id && h[n + 3 + |id|..] == tail;
    PlainIsNarrow(id, |id|);
  }

  function RootHubHwid(version: CStr, v: CStr, d: CStr, tail: CStr): CStr {
    "USB\\ROOT_HUB" + version + "&VID" + v + "&PID" + d + tail
  }

  /** The documented form of a root hub sets the same as any USB id. */
  lemma RootHub(attrs: map<string, string>, ids: string, vs: seq<Entry>, cs: seq<Entry>, others: seq<CStr>,
                version: CStr, v: CStr, d: CStr, tail: CStr)
    requires Database(ids, vs, cs, others) && PlainId(version, 2) && PlainId(v, 4) && PlainId(d, 4)
    ensures HwidAttrs(attrs, ids, RootHubHwid(version, v, d, tail), true) ==
      Some(SetNames(attrs["Vendor ID" := v]["Device ID" := d],
                    ["Vendor", "Device", "Interface"], TreeNames(vs, [v, d])))
  {
    hide IdBehind, HwidAttrs, SetNames, TreeNames, Database, SubsysBehind, RootHubHwid;
    RootHubIds(version, v, d, tail);
    BothIds(attrs, ids, vs, cs, others, RootHubHwid(version, v, d, tail), v, "&PID" + d + tail, d, tail, true);
  }

  lemma RootHubIds(version: CStr, v: CStr, d: CStr, tail: CStr)
    requires PlainId(version, 2) && PlainId(v, 4) && PlainId(d, 4)
    ensures IdBehind(RootHubHwid(version, v, d, tail), "VID") == Some((v, "&PID" + d + tail))
    ensures IdBehind("&PID" + d + tail, "PID") == Some((d, tail))
  {
    hide IdBehind;
    var lead: CStr, behind: CStr := "USB\\ROOT_HUB" + version + "&", "&PID" + d + tail;
    assert behind == "&" + "PID" + d + tail;
    assert RootHubHwid(version, v, d, tail) == lead + "VID" + v + behind;
    IdRightBehind(lead, "VID", v, behind);
    IdRightBehind("&", "PID", d, tail);
  }
}
