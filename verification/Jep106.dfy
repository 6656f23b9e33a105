/** The JEP106 manufacturer list: the script that writes it and the lookup that reads it. */
module Jep106 {
  import opened CStrings
  import opened IdsLines
  import opened IdsLookup
  import opened Numbers

  // ----- the list -----

  /** The one to three digits of an id in the document. */
  type Code = s: CStr | 1 <= |s| <= 3 && AllDigits(s) witness "0"

  /** A manufacturer: its id as written in the document, and its name. */
  datatype Item = Item(code: Code, name: CStr)

  function ItemLine(item: Item): CStr {
    "\t" + item.code + " " + item.name
  }

  function ItemLines(items: seq<Item>): (r: seq<CStr>)
    ensures |r| == |items|
  {
    if items == [] then [] else [ItemLine(items[0])] + ItemLines(items[1..])
  }

  /** A line with the bank number, then the lines of its items. */
  function BankLines(banks: seq<seq<Item>>, from: nat): (r: seq<CStr>)
    ensures |r| >= |banks|
  {
    if banks == [] then []
    else [Decimal(from)] + (ItemLines(banks[0]) + BankLines(banks[1..], from + 1))
  }

  /** The first item of the list with this id. */
  function FindItem(items: seq<Item>, id: nat): Option<CStr> {
    if items == [] then None
    else if Value(items[0].code) == id then Some(items[0].name)
    else FindItem(items[1..], id)
  }

  /** The name of the item of the bank with this number, counted from 0. */
  function BankItem(banks: seq<seq<Item>>, bank: nat, id: nat): Option<CStr> {
    if bank < |banks| then FindItem(banks[bank], id) else None
  }

  // ----- the lookup -----

  /** Goes through the lines behind a bank number until one that is no item line. */
  function ItemScan(lines: seq<CStr>, item: nat): Option<CStr> {
    if lines == [] then None
    else
      var line := lines[0];
      if !IsSpace(At(line, 0)) || !IsDigit(At(line, 1)) then None
      else
        var p := 1 + |DigitRun(line[1..])|;
        if item == Strtoul(line[1..]) && IsSpace(At(line, p)) then Some(line[p + 1..])
        else ItemScan(lines[1..], item)
  }

  function BankScan(lines: seq<CStr>, bank: nat, item: nat): Option<CStr> {
    if lines == [] then None
    else if IsDigit(At(lines[0], 0)) && bank == Strtoul(lines[0]) then ItemScan(lines[1..], item)
    else BankScan(lines[1..], bank, item)
  }

  /** The bank number searched for: counted from 1, in 32 bits. */
  function TargetBank(bank: Word): Word {
    if bank == ULONG_MAX then 0 else bank + 1
  }

  /** What the lookup sets: the name, or both numbers in hexadecimal. */
  function NameOr(name: Option<CStr>, bank: Word, item: Word): string {
    if name.Some? then name.value else Hex2(bank) + Hex2(item)
  }

  /** Both numbers in upper-case base 16, the bank first, each in two digits as long as that is enough. */
  ghost predicate HexPair(t: string, bank: Word, item: Word) {
    exists n: nat :: (n <= |t| && HexOf(t[..n], bank) && HexOf(t[n..], item))
  }

  predicate HexOf(s: string, n: Word) {
    |s| >= 2 && (n < 256 <==> |s| == 2) && UpperHex(s) && Digits(s, 16) && ValueIn(s, 16) == n
  }

  /** The name, or the numbers if there is none. */
  ghost predicate Answers(t: string, name: Option<CStr>, bank: Word, item: Word) {
    if name.Some? then t == name.value else HexPair(t, bank, item)
  }

  lemma NameAnswers(name: Option<CStr>, bank: Word, item: Word)
    ensures Answers(NameOr(name, bank, item), name, bank, item)
  {
    if name.None? {
      Hex2Value(bank);
      Hex2Value(item);
      var t, n := NameOr(name, bank, item), |Hex2(bank)|;
      assert t[..n] == Hex2(bank) && t[n..] == Hex2(item);
      assert HexOf(t[..n], bank) && HexOf(t[n..], item);
    }
  }

  /** Below 256 the four characters are a pair of digits each. */
  lemma FourDigits(t: string, bank: Word, item: Word)
    requires HexPair(t, bank, item) && bank < 256 && item < 256
    ensures |t| == 4 && HexOf(t[..2], bank) && HexOf(t[2..], item)
  {
    var n: nat :| n <= |t| && HexOf(t[..n], bank) && HexOf(t[n..], item);
    assert n == 2;
  }

  function SpdName(lines: seq<CStr>, bank: Word, item: Word): string {
    NameOr(BankScan(lines, TargetBank(bank), item), bank, item)
  }

  /** NWL_GetSpdManufacturer */
  method GetSpdManufacturer(nd: Node, key: string, ids: string, bank: Word, item: Word)
    modifies nd
    ensures nd.attrs == old(nd.attrs)[key := SpdName(LinesOf(ids), bank, item)]
  {
    hide LinesOf, DigitRun, Strtoul;
    var targetBank := TargetBank(bank);
    assert ids[0..] == ids;
    var bLine, offset := Getline(ids, 0);
    while bLine.Some?
      invariant offset <= |ids| && nd.attrs == old(nd.attrs)
      invariant BankScan(LinesOf(ids), targetBank, item) == BankScan(Ahead(bLine, ids, offset), targetBank, item)
      decreases |ids| - offset, bLine.Some?
    {
      assert Ahead(bLine, ids, offset)[1..] == LinesOf(ids[offset..]);
      if IsDigit(At(bLine.value, 0)) && targetBank == Strtoul(bLine.value) {
        var name := FindSpdItem(ids, offset, item);
        nd.AttrSet(key, if name.Some? then name.value else Hex2(bank) + Hex2(item));
        return;
      }
      bLine, offset := Getline(ids, offset);
    }
    nd.AttrSet(key, Hex2(bank) + Hex2(item));
  }

  /** The inner loop of NWL_GetSpdManufacturer, over the lines behind the bank number. */
  method FindSpdItem(ids: string, from: nat, item: Word) returns (name: Option<CStr>)
    requires from <= |ids|
    ensures name == ItemScan(LinesOf(ids[from..]), item)
  {
    hide LinesOf, DigitRun, Strtoul;
    var iLine, offset := Getline(ids, from);
    while iLine.Some?
      invariant offset <= |ids|
      invariant ItemScan(LinesOf(ids[from..]), item) == ItemScan(Ahead(iLine, ids, offset), item)
      decreases |ids| - offset, iLine.Some?
    {
      var l := iLine.value;
      assert Ahead(iLine, ids, offset)[1..] == LinesOf(ids[offset..]);
      if !IsSpace(At(l, 0)) || !IsDigit(At(l, 1)) {
        return None;
      }
      var p := 1 + |DigitRun(l[1..])|;
      if item == Strtoul(l[1..]) && IsSpace(At(l, p)) {
        return Some(l[p + 1..]);
      }
      iLine, offset := Getline(ids, offset);
    }
    name := None;
  }

  // ----- lookup in the written list -----

  /** The parts of a written item line as the lookup reads them. */
  lemma ItemLineParts(item: Item)
    ensures var line, n := ItemLine(item), |item.code|;
      && At(line, 0) == '\t' && IsDigit(At(line, 1))
      && DigitRun(line[1..]) == item.code && Strtoul(line[1..]) == Value(item.code)
      && At(line, 1 + n) == ' ' && line[2 + n..] == item.name
  {
    var line, n := ItemLine(item), |item.code|;
    assert line[1..] == item.code + (" " + item.name);
    DigitRunAt(item.code, " " + item.name);
    SmallValue(item.code);
    assert line[1..][0] == item.code[0] && line[1..][n] == ' ';
  }

  /** An item line may use any white space before and behind the id, and any number of digits. */
  lemma ItemForm(before: char, code: CStr, after: char, name: CStr, rest: seq<CStr>, id: Word)
    requires IsSpace(before) && IsSpace(after) && code != "" && AllDigits(code) && Value(code) <= ULONG_MAX
    ensures ItemScan([[before] + code + [after] + name] + rest, id)
         == if Value(code) == id then Some(name) else ItemScan(rest, id)
  {
    var line: CStr, tail: string := [before] + code + [after] + name, [after] + name;
    assert line[1..] == code + tail && tail[0] == after;
    DigitRunAt(code, tail);
    assert line[0] == before && line[1] == code[0] && line[1 + |code|] == after && line[2 + |code|..] == name;
    hide DigitRun, Value, ItemScan;
    ItemStep(line, rest, id);
  }

  lemma ItemStep(line: CStr, rest: seq<CStr>, id: nat)
    ensures ItemScan([line] + rest, id) ==
      if !IsSpace(At(line, 0)) || !IsDigit(At(line, 1)) then None
      else if id == Strtoul(line[1..]) && IsSpace(At(line, 1 + |DigitRun(line[1..])|))
      then Some(line[2 + |DigitRun(line[1..])|..])
      else ItemScan(rest, id)
  {
    assert ([line] + rest)[1..] == rest;
  }

  /** A line that does not start with white space and a digit ends the bank. */
  lemma OtherForm(line: CStr, rest: seq<CStr>, id: Word)
    requires |line| < 2 || !IsSpace(line[0]) || !IsDigit(line[1])
    ensures ItemScan([line] + rest, id) == None
  {
    hide DigitRun, Strtoul;
  }

  lemma {:induction false} ItemScanWritten(items: seq<Item>, tail: seq<CStr>, id: Word)
    requires tail == [] || IsDigit(At(tail[0], 0))
    ensures ItemScan(ItemLines(items) + tail, id) == FindItem(items, id)
  {
    hide DigitRun, Strtoul, Value, ItemLine;
    if items == [] {
      assert ItemLines(items) + tail == tail;
    } else {
      assert (ItemLines(items) + tail)[1..] == ItemLines(items[1..]) + tail;
      ItemLineParts(items[0]);
      ItemScanWritten(items[1..], tail, id);
    }
  }

  lemma SmallValue(s: string)
    requires AllDigits(s) && |s| <= 3
    ensures Value(s) < 1000
  {
    if s != "" {
      var t := s[..|s| - 1];
      if t != "" { assert Value(t) == 10 * Value(t[..|t| - 1]) + (t[|t| - 1] as int - '0' as int); }
      if |t| > 1 { assert |t[..|t| - 1]| == 1; }
    }
  }

  lemma {:induction false} BankScanSkips(items: seq<Item>, tail: seq<CStr>, bank: nat, id: nat)
    ensures BankScan(ItemLines(items) + tail, bank, id) == BankScan(tail, bank, id)
  {
    if items == [] {
      assert ItemLines(items) + tail == tail;
    } else {
      assert (ItemLines(items) + tail)[1..] == ItemLines(items[1..]) + tail;
      BankScanSkips(items[1..], tail, bank, id);
    }
  }

  lemma BankLineValue(n: nat)
    requires n < ULONG_MAX
    ensures IsDigit(At(Decimal(n), 0)) && Strtoul(Decimal(n)) == n
  {
    DigitRunAt(Decimal(n), "");
    assert Decimal(n) + "" == Decimal(n);
  }

  lemma BankStep(banks: seq<seq<Item>>, from: nat)
    requires banks != []
    ensures BankLines(banks, from) == [Decimal(from)] + (ItemLines(banks[0]) + BankLines(banks[1..], from + 1))
  {}

  lemma ScanStep(line: CStr, tail: seq<CStr>, bank: nat, item: nat)
    ensures BankScan([line] + tail, bank, item)
         == if IsDigit(At(line, 0)) && bank == Strtoul(line) then ItemScan(tail, item) else BankScan(tail, bank, item)
  {}

  /** Written banks begin with a line that is no item line. */
  lemma StartsWithDigit(banks: seq<seq<Item>>, from: nat)
    requires from < ULONG_MAX
    ensures var lines := BankLines(banks, from); lines == [] || IsDigit(At(lines[0], 0))
  {}

  /** The scan over one written bank. */
  lemma BankScanBank(items: seq<Item>, more: seq<CStr>, from: nat, bank: nat, id: Word)
    requires from < ULONG_MAX && (more == [] || IsDigit(At(more[0], 0)))
    ensures BankScan([Decimal(from)] + (ItemLines(items) + more), bank, id)
         == if bank == from then FindItem(items, id) else BankScan(more, bank, id)
  {
    BankLineValue(from);
    hide Strtoul, Decimal, FindItem, BankScan, ItemScan, ItemLines;
    ScanStep(Decimal(from), ItemLines(items) + more, bank, id);
    if bank == from { ItemScanWritten(items, more, id); } else { BankScanSkips(items, more, bank, id); }
  }

  lemma NoLines(bank: nat, id: nat, from: nat)
    ensures BankScan([], bank, id) == None && BankLines([], from) == []
  {}

  lemma {:induction false} BankScanWritten(banks: seq<seq<Item>>, from: nat, bank: nat, id: Word)
    requires 1 <= from && from + |banks| <= ULONG_MAX
    ensures BankScan(BankLines(banks, from), bank, id)
         == if from <= bank then BankItem(banks, bank - from, id) else None
  {
    hide Decimal, FindItem, BankLines, BankScan, ItemLines;
    NoLines(bank, id, from);
    NoLines(bank, id, from + 1);
    if banks != [] {
      BankStep(banks, from);
      if |banks| > 1 { StartsWithDigit(banks[1..], from + 1); } else { assert banks[1..] == []; }
      BankScanBank(banks[0], BankLines(banks[1..], from + 1), from, bank, id);
      BankScanWritten(banks[1..], from + 1, bank, id);
    }
  }

  /** The three header lines: a blank one, the document name and its date. */
  function Header(doc: CStr, date: CStr): seq<CStr> {
    ["", "# " + doc, "# Version: " + date]
  }

  /** Looking up (bank, id) in the written list gives the name of that item of that bank, or the fallback if there
      is none. */
  lemma LookupWritten(doc: CStr, date: CStr, banks: seq<seq<Item>>, bank: Word, id: Word)
    requires |banks| < ULONG_MAX
    ensures SpdName(Header(doc, date) + BankLines(banks, 1), bank, id)
         == NameOr(BankItem(banks, bank, id), bank, id)
    ensures Answers(SpdName(Header(doc, date) + BankLines(banks, 1), bank, id), BankItem(banks, bank, id), bank, id)
  {
    hide BankLines, BankScan, NameOr, FindItem, Decimal, TargetBank, Answers;
    NameAnswers(BankItem(banks, bank, id), bank, id);
    HeaderHasNoBank(doc, date, BankLines(banks, 1), TargetBank(bank), id);
    BankScanWritten(banks, 1, TargetBank(bank), id);
    Target(bank);
  }

  lemma Target(bank: Word)
    ensures TargetBank(bank) == if bank == ULONG_MAX then 0 else bank + 1
  {}

  lemma HeaderHasNoBank(doc: CStr, date: CStr, tail: seq<CStr>, bank: nat, id: nat)
    ensures BankScan(Header(doc, date) + tail, bank, id) == BankScan(tail, bank, id)
  {
    hide BankScan;
    NoBankLines("", "# " + doc, "# Version: " + date, tail, bank, id);
  }

  lemma NoBankLines(a: CStr, b: CStr, c: CStr, tail: seq<CStr>, bank: nat, id: nat)
    requires !IsDigit(At(a, 0)) && !IsDigit(At(b, 0)) && !IsDigit(At(c, 0))
    ensures BankScan([a, b, c] + tail, bank, id) == BankScan(tail, bank, id)
  {
    var one, two := [c] + tail, [b] + ([c] + tail);
    assert [a, b, c] + tail == [a] + two;
    assert two[1..] == one && one[1..] == tail && ([a] + two)[1..] == two;
    assert BankScan(two, bank, id) == BankScan(one, bank, id) == BankScan(tail, bank, id);
  }

  lemma {:induction false} TextLength(lines: seq<CStr>, ends: seq<string>)
    requires |lines| == |ends| && forall i :: 0 <= i < |ends| ==> ends[i] != ""
    ensures |Text(lines, ends)| >= |lines|
  {
    if lines != [] { TextLength(lines[1..], ends[1..]); }
  }

  /** The lines of a list with two banks of one item each. */
  lemma ListText(doc: CStr, date: CStr, a: Item, b: Item)
    ensures Header(doc, date) + BankLines([[a], [b]], 1)
         == ["", "# " + doc, "# Version: " + date,
             "1", "\t" + a.code + " " + a.name, "2", "\t" + b.code + " " + b.name]
  {
    var banks := [[a], [b]];
    assert banks[1..] == [[b]] && [[b]][1..] == [] && [a][1..] == [] && [b][1..] == [];
    assert Decimal(1) == "1" && Decimal(2) == "2";
    hide Decimal;
    assert ItemLines([a]) == [ItemLine(a)] && ItemLines([b]) == [ItemLine(b)];
    BankStep(banks, 1);
    BankStep([[b]], 2);
    assert BankLines([], 3) == [];
  }

  /** The same for the text of the file, read through the cursor, as long as its size fits the DWORD that holds it. */
  lemma LookupFile(doc: CStr, date: CStr, banks: seq<seq<Item>>, ends: seq<string>, bank: Word, id: Word)
    requires var lines := Header(doc, date) + BankLines(banks, 1);
      Printable(lines, ends) && (forall i :: 0 <= i < |ends| ==> ends[i] != "") && |Text(lines, ends)| <= ULONG_MAX
    ensures SpdName(LinesOf(Text(Header(doc, date) + BankLines(banks, 1), ends)), bank, id)
         == NameOr(BankItem(banks, bank, id), bank, id)
    ensures Answers(SpdName(LinesOf(Text(Header(doc, date) + BankLines(banks, 1), ends)), bank, id),
                    BankItem(banks, bank, id), bank, id)
  {
    var lines := Header(doc, date) + BankLines(banks, 1);
    LinesOfText(lines, ends);
    TextLength(lines, ends);
    LookupWritten(doc, date, banks, bank, id);
  }

  // ----- the writer -----

  /** A stripped text line of a page: empty, an id with the text behind it, or anything else. */
  datatype PdfLine = Blank | Entry(code: Code, raw: CStr) | Other(text: CStr)

  /** A page: whether it starts the annex, whether it announces the next bank, and its lines. */
  datatype Page = Page(annex: bool, nextBank: bool, lines: seq<PdfLine>)

  /** The items of a page; a line that is no item continues the name before it. */
  function PageItems(lines: seq<PdfLine>, clean: CStr -> CStr): seq<Item>
    decreases |lines|
  {
    if lines == [] then []
    else if !lines[0].Entry? then PageItems(lines[1..], clean)
    else
      var more := |lines| > 1 && lines[1].Other?;
      var raw: CStr := if more then lines[0].raw + " " + lines[1].text else lines[0].raw;
      var rest := PageItems(lines[if more then 2 else 1..], clean);
      if Search(raw, "Continuation Code", 0).Some? then rest else [Item(lines[0].code, clean(raw))] + rest
  }

  /** Items added to the last bank. */
  function Extend(banks: seq<seq<Item>>, items: seq<Item>): (r: seq<seq<Item>>)
    requires banks != []
    ensures |r| == |banks|
  {
    banks[..|banks| - 1] + [banks[|banks| - 1] + items]
  }

  /** The banks with one page added: the first page opens bank 1, an announcement opens the next. */
  function OpenBanks(banks: seq<seq<Item>>, page: Page): (r: seq<seq<Item>>)
    ensures r != []
  {
    (if banks == [] then [[]] else banks) + (if page.nextBank then [[]] else [])
  }

  /** The banks of all pages before the annex. */
  function Banks(banks: seq<seq<Item>>, pages: seq<Page>, clean: CStr -> CStr): seq<seq<Item>>
    decreases |pages|
  {
    if pages == [] || pages[0].annex then banks
    else Banks(Extend(OpenBanks(banks, pages[0]), PageItems(pages[0].lines, clean)), pages[1..], clean)
  }

  lemma {:induction false} BankLinesNew(banks: seq<seq<Item>>, from: nat)
    ensures BankLines(banks + [[]], from) == BankLines(banks, from) + [Decimal(from + |banks|)]
  {
    if banks == [] {
      assert banks + [[]] == [[]];
      OneEmptyBank(from);
    } else {
      var more := banks + [[]];
      BankStep(banks, from);
      BankStep(more, from);
      hide Decimal, BankLines, ItemLines;
      assert more[1..] == banks[1..] + [[]] && more[0] == banks[0];
      BankLinesNew(banks[1..], from + 1);
    }
  }

  lemma OneEmptyBank(from: nat)
    ensures BankLines([[]], from) == [Decimal(from)] && BankLines([], from) == []
  {}

  lemma {:induction false} ItemLinesSnoc(items: seq<Item>, item: Item)
    ensures ItemLines(items + [item]) == ItemLines(items) + [ItemLine(item)]
  {
    if items != [] {
      assert (items + [item])[1..] == items[1..] + [item];
      ItemLinesSnoc(items[1..], item);
    }
  }

  lemma {:induction false} BankLinesExtend(banks: seq<seq<Item>>, item: Item, from: nat)
    requires banks != []
    ensures BankLines(Extend(banks, [item]), from) == BankLines(banks, from) + [ItemLine(item)]
  {
    hide Decimal, ItemLine;
    var more := Extend(banks, [item]);
    if |banks| == 1 {
      ItemLinesSnoc(banks[0], item);
      assert more[1..] == [] && banks[1..] == [];
    } else {
      assert more[1..] == Extend(banks[1..], [item]) && more[0] == banks[0];
      BankLinesExtend(banks[1..], item, from + 1);
    }
  }

  lemma ExtendTwice(banks: seq<seq<Item>>, items: seq<Item>, more: seq<Item>)
    requires banks != []
    ensures Extend(Extend(banks, items), more) == Extend(banks, items + more)
    ensures Extend(banks, []) == banks
  {
    var last := banks[|banks| - 1];
    assert last + items + more == last + (items + more) && last + [] == last;
  }

  /** The list writer, on the pages whose lines have been classified. */
  method WriteList(doc: CStr, date: CStr, pages: seq<Page>, clean: CStr -> CStr) returns (lines: seq<CStr>)
    ensures lines == Header(doc, date) + BankLines(Banks([], pages, clean), 1)
  {
    hide Decimal, BankLines, PageItems, Extend;
    lines := ["", "# " + doc, "# Version: " + date];
    var header := lines;
    var currentBank := 0;
    ghost var banks: seq<seq<Item>> := [];
    assert BankLines(banks, 1) == [] by { NoBanks(); }
    var page := 0;
    while page < |pages|
      invariant page <= |pages| && currentBank == |banks| && (page > 0 ==> banks != []) && (page == 0 ==> banks == [])
      invariant lines == header + BankLines(banks, 1)
      invariant Banks(banks, pages[page..], clean) == Banks([], pages, clean)
    {
      if pages[page].annex {
        return;
      }
      ghost var start := banks;
      if page == 0 && currentBank == 0 {
        currentBank := 1;
        lines := lines + [Decimal(currentBank)];
        BankLinesNew(banks, 1);
        banks := banks + [[]];
      }
      if pages[page].nextBank {
        currentBank := currentBank + 1;
        lines := lines + [Decimal(currentBank)];
        BankLinesNew(banks, 1);
        banks := banks + [[]];
      }
      assert banks == OpenBanks(start, pages[page]);
      lines := WritePage(header, lines, banks, pages[page].lines, clean);
      banks := Extend(banks, PageItems(pages[page].lines, clean));
      assert pages[page..][1..] == pages[page + 1..];
      page := page + 1;
    }
  }

  lemma NoBanks()
    ensures BankLines([], 1) == []
  {}

  /** The inner loop of the writer, over the lines of one page. */
  method WritePage(ghost header: seq<CStr>, before: seq<CStr>, ghost banks: seq<seq<Item>>,
      lines: seq<PdfLine>, clean: CStr -> CStr)
    returns (out: seq<CStr>)
    requires banks != [] && before == header + BankLines(banks, 1)
    ensures out == header + BankLines(Extend(banks, PageItems(lines, clean)), 1)
  {
    hide Decimal, BankLines, ItemLine, Search;
    out := before;
    ghost var now := banks;
    ghost var written: seq<Item> := [];
    ExtendTwice(banks, [], []);
    var i := 0;
    while i < |lines|
      invariant i <= |lines| && now != [] && |now| == |banks|
      invariant now == Extend(banks, written) && out == header + BankLines(now, 1)
      invariant written + PageItems(lines[i..], clean) == PageItems(lines, clean)
    {
      var line := lines[i];
      ghost var ahead := lines[i..];
      i := i + 1;
      assert lines[i..] == ahead[1..];
      if line.Blank? || line.Other? {
        continue;
      }
      var raw := line.raw;
      if i < |lines| && lines[i].Other? {
        raw := raw + " " + lines[i].text;
        i := i + 1;
        assert lines[i..] == ahead[2..];
      }
      if Search(raw, "Continuation Code", 0).Some? {
        continue;
      }
      var item := Item(line.code, clean(raw));
      out := out + [ItemLine(item)];
      BankLinesExtend(now, item, 1);
      ExtendTwice(banks, written, [item]);
      now := Extend(now, [item]);
      written := written + [item];
    }
    assert lines[i..] == [] && written + [] == written;
  }
}
