/** From a page of the manufacturer document to the name the lookup gives. */
module Jep106Pages {
  import opened CStrings
  import opened Jep106
  import opened Numbers

  // ----- the lines of a page -----

  /** The name of the entry on line j as written: a text line right behind it continues it. */
  function RawName(lines: seq<PdfLine>, j: nat): CStr
    requires j < |lines| && lines[j].Entry?
  {
    if j + 1 < |lines| && lines[j + 1].Other? then lines[j].raw + " " + lines[j + 1].text else lines[j].raw
  }

  /** Line j is the entry of a manufacturer. */
  ghost predicate Kept(lines: seq<PdfLine>, j: nat) {
    && j < |lines| && lines[j].Entry?
    && forall n: nat :: !Occurs(RawName(lines, j), "Continuation Code", n)
  }

  function ItemAt(lines: seq<PdfLine>, j: nat, clean: CStr -> CStr): Item
    requires j < |lines| && lines[j].Entry?
  {
    Item(lines[j].code, clean(RawName(lines, j)))
  }

  /** items are the entries kept from line j on, at the lines `at`, in order. */
  ghost predicate Listed(items: seq<Item>, at: seq<nat>, lines: seq<PdfLine>, j: nat, clean: CStr -> CStr) {
    && |at| == |items|
    && (forall i :: 0 <= i < |at| ==> j <= at[i] && Kept(lines, at[i]) && items[i] == ItemAt(lines, at[i], clean))
    && (forall i, k :: 0 <= i < k < |at| ==> at[i] < at[k])
    && (forall p: nat :: j <= p && Kept(lines, p) ==> p in at)
  }

  /** The items of a page are its kept entries, in order, each with its id and the whole of its name. */
  lemma {:induction false} PageListed(lines: seq<PdfLine>, j: nat, clean: CStr -> CStr) returns (at: seq<nat>)
    requires j <= |lines|
    ensures Listed(PageItems(lines[j..], clean), at, lines, j, clean)
    decreases |lines| - j
  {
    if j == |lines| {
      at := [];
    } else if !lines[j].Entry? {
      assert lines[j..][1..] == lines[j + 1..];
      at := PageListed(lines, j + 1, clean);
    } else {
      var more := j + 1 < |lines| && lines[j + 1].Other?;
      var next := if more then j + 2 else j + 1;
      EntryStep(lines, j, clean);
      SearchFirst(RawName(lines, j), "Continuation Code", 0);
      at := PageListed(lines, next, clean);
      hide PageItems, Search, Occurs;
      var rest := PageItems(lines[next..], clean);
      assert more ==> !Kept(lines, j + 1);
      at := ListedMore(rest, at, lines, j, next, clean);
    }
  }

  lemma EntryStep(lines: seq<PdfLine>, j: nat, clean: CStr -> CStr)
    requires j < |lines| && lines[j].Entry?
    ensures var rest := PageItems(lines[if j + 1 < |lines| && lines[j + 1].Other? then j + 2 else j + 1..], clean);
      PageItems(lines[j..], clean) == if Search(RawName(lines, j), "Continuation Code", 0).Some? then rest
                                      else [ItemAt(lines, j, clean)] + rest
  {
    assert lines[j..][1..] == lines[j + 1..];
    assert j + 1 < |lines| ==> lines[j..][1] == lines[j + 1] && lines[j..][2..] == lines[j + 2..];
  }

  lemma ListedMore(rest: seq<Item>, before: seq<nat>, lines: seq<PdfLine>, j: nat, next: nat, clean: CStr -> CStr)
    returns (at: seq<nat>)
    requires j < next && j < |lines| && lines[j].Entry? && Listed(rest, before, lines, next, clean)
    requires forall p: nat :: j < p < next ==> !Kept(lines, p)
    ensures Listed(if Kept(lines, j) then [ItemAt(lines, j, clean)] + rest else rest, at, lines, j, clean)
  {
    hide Kept, ItemAt;
    at := if Kept(lines, j) then [j] + before else before;
  }

  // ----- the pages of a bank -----

  /** The pages before the annex. */
  function Body(pages: seq<Page>): (n: nat)
    ensures n <= |pages| && (n < |pages| ==> pages[n].annex)
    ensures forall k :: 0 <= k < n ==> !pages[k].annex
  {
    if pages == [] || pages[0].annex then 0 else 1 + Body(pages[1..])
  }

  /** The number of the bank of page k: one more than the announcements up to and on it. */
  function BankOf(pages: seq<Page>, k: nat): (b: nat)
    requires k < |pages|
    ensures b >= 1
  {
    (if k == 0 then 1 else BankOf(pages, k - 1)) + (if pages[k].nextBank then 1 else 0)
  }

  /** The items of the first n pages that are in this bank. */
  function InBank(pages: seq<Page>, n: nat, bank: nat, clean: CStr -> CStr): seq<Item>
    requires n <= |pages|
  {
    if n == 0 then [] else
      var items := if BankOf(pages, n - 1) == bank then PageItems(pages[n - 1].lines, clean) else [];
      InBank(pages, n - 1, bank, clean) + items
  }

  /** The banks hold the items of the first n pages, each page in its bank. */
  ghost predicate Filed(banks: seq<seq<Item>>, pages: seq<Page>, n: nat, clean: CStr -> CStr)
    requires n <= |pages|
  {
    && |banks| == (if n == 0 then 0 else BankOf(pages, n - 1))
    && forall b: nat :: b < |banks| ==> banks[b] == InBank(pages, n, b + 1, clean)
  }

  /** No page is in a bank before it is opened. */
  lemma {:induction false} NotYet(pages: seq<Page>, n: nat, bank: nat, clean: CStr -> CStr)
    requires n <= |pages| && (n == 0 || BankOf(pages, n - 1) < bank)
    ensures InBank(pages, n, bank, clean) == []
  {
    if n > 0 { NotYet(pages, n - 1, bank, clean); }
  }

  lemma FileOne(banks: seq<seq<Item>>, pages: seq<Page>, n: nat, clean: CStr -> CStr)
    requires n < |pages| && Filed(banks, pages, n, clean)
    ensures Filed(Extend(OpenBanks(banks, pages[n]), PageItems(pages[n].lines, clean)), pages, n + 1, clean)
  {
    hide PageItems, InBank;
    var open := OpenBanks(banks, pages[n]);
    var items := PageItems(pages[n].lines, clean);
    var more := Extend(open, items);
    assert |open| == BankOf(pages, n);
    forall b: nat | b < |more| ensures more[b] == InBank(pages, n + 1, b + 1, clean) {
      InBankStep(pages, n, b + 1, clean);
      if b >= |banks| { NotYet(pages, n, b + 1, clean); }
      assert open[b] == InBank(pages, n, b + 1, clean);
    }
  }

  lemma InBankStep(pages: seq<Page>, n: nat, bank: nat, clean: CStr -> CStr)
    requires n < |pages|
    ensures InBank(pages, n + 1, bank, clean)
         == InBank(pages, n, bank, clean) +
           (if BankOf(pages, n) == bank then PageItems(pages[n].lines, clean) else [])
    ensures InBank(pages, n, bank, clean) + [] == InBank(pages, n, bank, clean)
  {}

  lemma {:induction false} FileRest(banks: seq<seq<Item>>, pages: seq<Page>, n: nat, clean: CStr -> CStr)
    requires n <= Body(pages) && Filed(banks, pages, n, clean)
    ensures Filed(Banks(banks, pages[n..], clean), pages, Body(pages), clean)
    decreases Body(pages) - n
  {
    hide Filed, PageItems, Extend, OpenBanks;
    var rest := pages[n..];
    if n < Body(pages) {
      assert rest[0] == pages[n] && rest[1..] == pages[n + 1..];
      FileOne(banks, pages, n, clean);
      FileRest(Extend(OpenBanks(banks, pages[n]), PageItems(pages[n].lines, clean)), pages, n + 1, clean);
    } else {
      assert rest == [] || rest[0] == pages[n];
    }
  }

  /** The writer files each page before the annex in the bank announced last, and nothing else. */
  lemma PagesFiled(pages: seq<Page>, clean: CStr -> CStr)
    ensures Filed(Banks([], pages, clean), pages, Body(pages), clean)
  {
    assert pages[0..] == pages;
    FileRest([], pages, 0, clean);
  }

  // ----- the lookup -----

  lemma {:induction false} FindJoin(a: seq<Item>, b: seq<Item>, id: nat)
    ensures FindItem(a + b, id) == if FindItem(a, id).Some? then FindItem(a, id) else FindItem(b, id)
  {
    if a == [] {
      assert a + b == b;
    } else {
      assert (a + b)[1..] == a[1..] + b;
      FindJoin(a[1..], b, id);
    }
  }

  lemma {:induction false} FindNone(items: seq<Item>, id: nat)
    requires forall i :: 0 <= i < |items| ==> Value(items[i].code) != id
    ensures FindItem(items, id) == None
  {
    if items != [] { FindNone(items[1..], id); }
  }

  lemma FindFirst(items: seq<Item>, id: nat, i: nat)
    requires i < |items| && Value(items[i].code) == id
    requires forall k :: 0 <= k < i ==> Value(items[k].code) != id
    ensures FindItem(items, id) == Some(items[i].name)
  {
    hide Value;
    FindNone(items[..i], id);
    assert items == items[..i] + items[i..] && items[i..][0] == items[i];
    FindJoin(items[..i], items[i..], id);
  }

  /** Page k is in the bank, and its line j is an entry with the id. */
  ghost predicate HasId(pages: seq<Page>, k: nat, j: nat, bank: nat, id: nat) {
    && k < |pages| && BankOf(pages, k) == bank
    && Kept(pages[k].lines, j) && Value(pages[k].lines[j].code) == id
  }

  lemma PageHasNot(pages: seq<Page>, k: nat, bank: nat, id: nat, clean: CStr -> CStr)
    requires k < |pages| && BankOf(pages, k) == bank && forall j: nat :: !HasId(pages, k, j, bank, id)
    ensures FindItem(PageItems(pages[k].lines, clean), id) == None
  {
    var lines := pages[k].lines;
    var at := PageListed(lines, 0, clean);
    assert lines[0..] == lines;
    hide PageItems, Kept, Value;
    var items := PageItems(lines, clean);
    forall i | 0 <= i < |items| ensures Value(items[i].code) != id {
      assert !HasId(pages, k, at[i], bank, id) && items[i] == ItemAt(lines, at[i], clean);
    }
    FindNone(items, id);
  }

  lemma {:induction false} NoneBefore(pages: seq<Page>, n: nat, bank: nat, id: nat, clean: CStr -> CStr)
    requires n <= |pages| && forall k: nat, j: nat :: k < n ==> !HasId(pages, k, j, bank, id)
    ensures FindItem(InBank(pages, n, bank, clean), id) == None
  {
    hide PageItems, HasId;
    if n > 0 {
      NoneBefore(pages, n - 1, bank, id, clean);
      if BankOf(pages, n - 1) == bank { PageHasNot(pages, n - 1, bank, id, clean); }
      FindJoin(InBank(pages, n - 1, bank, clean),
               if BankOf(pages, n - 1) == bank then PageItems(pages[n - 1].lines, clean) else [], id);
    }
  }

  lemma FirstOnPage(pages: seq<Page>, k: nat, j: nat, bank: nat, id: nat, clean: CStr -> CStr)
    requires HasId(pages, k, j, bank, id) && forall p: nat :: p < j ==> !HasId(pages, k, p, bank, id)
    ensures FindItem(PageItems(pages[k].lines, clean), id) == Some(clean(RawName(pages[k].lines, j)))
  {
    var lines := pages[k].lines;
    var at := PageListed(lines, 0, clean);
    assert lines[0..] == lines;
    hide PageItems, Kept, Value;
    var items := PageItems(lines, clean);
    var i :| 0 <= i < |at| && at[i] == j;
    forall h | 0 <= h < i ensures Value(items[h].code) != id {
      assert !HasId(pages, k, at[h], bank, id) && items[h] == ItemAt(lines, at[h], clean);
    }
    FindFirst(items, id, i);
  }

  /** Once found, an item stays the first. */
  lemma {:induction false} StaysFound(pages: seq<Page>, k: nat, n: nat, bank: nat, id: nat, clean: CStr -> CStr)
    requires k <= n <= |pages| && FindItem(InBank(pages, k, bank, clean), id).Some?
    ensures FindItem(InBank(pages, n, bank, clean), id) == FindItem(InBank(pages, k, bank, clean), id)
  {
    hide PageItems;
    if k < n {
      StaysFound(pages, k, n - 1, bank, id, clean);
      FindJoin(InBank(pages, n - 1, bank, clean),
               if BankOf(pages, n - 1) == bank then PageItems(pages[n - 1].lines, clean) else [], id);
    }
  }

  lemma FirstInBank(pages: seq<Page>, k: nat, j: nat, n: nat, bank: nat, id: nat, clean: CStr -> CStr)
    requires k < n <= |pages| && HasId(pages, k, j, bank, id)
    requires forall h: nat, p: nat :: HasId(pages, h, p, bank, id) ==> k < h || (k == h && j <= p)
    ensures FindItem(InBank(pages, n, bank, clean), id) == Some(clean(RawName(pages[k].lines, j)))
  {
    assert BankOf(pages, k) == bank;
    hide PageItems, InBank, FindItem, HasId, RawName;
    NoneBefore(pages, k, bank, id, clean);
    FirstOnPage(pages, k, j, bank, id, clean);
    InBankStep(pages, k, bank, clean);
    FindJoin(InBank(pages, k, bank, clean), PageItems(pages[k].lines, clean), id);
    StaysFound(pages, k + 1, n, bank, id, clean);
  }

  /** The lookup in the list written from the pages looks through the pages of the bank asked for. */
  lemma PagesLookedUp(doc: CStr, date: CStr, pages: seq<Page>, clean: CStr -> CStr, bank: Word, id: Word)
    requires |pages| < 0xFFFF_FFFE
    ensures Answers(SpdName(Header(doc, date) + BankLines(Banks([], pages, clean), 1), bank, id),
                    FindItem(InBank(pages, Body(pages), bank + 1, clean), id), bank, id)
  {
    var banks, n := Banks([], pages, clean), Body(pages);
    PagesFiled(pages, clean);
    hide PageItems, InBank, BankLines, FindItem, SpdName, Answers;
    if n > 0 { FewBanks(pages, n - 1); }
    LookupWritten(doc, date, banks, bank, id);
    if bank >= |banks| {
      NotYet(pages, n, bank + 1, clean);
      NoItem(id);
    }
  }

  lemma NoItem(id: nat)
    ensures FindItem([], id) == None
  {}

  /** The first entry with the id on the pages before the annex that are in the bank, counted from 1, gives its whole
      name, cleaned. */
  lemma EntryLookedUp(doc: CStr, date: CStr, pages: seq<Page>, clean: CStr -> CStr, k: nat, j: nat,
      number: nat, bank: Word, id: Word)
    requires |pages| < 0xFFFF_FFFE && number == bank + 1 && k < Body(pages) && HasId(pages, k, j, number, id)
    requires forall h: nat, p: nat :: HasId(pages, h, p, number, id) ==> k < h || (k == h && j <= p)
    ensures SpdName(Header(doc, date) + BankLines(Banks([], pages, clean), 1), bank, id)
         == clean(RawName(pages[k].lines, j))
  {
    hide PageItems, InBank, BankLines, FindItem, SpdName, HasId, RawName, Banks;
    PagesLookedUp(doc, date, pages, clean, bank, id);
    FirstInBank(pages, k, j, Body(pages), number, id, clean);
  }

  /** Without such an entry the lookup gives the two numbers in hexadecimal. */
  lemma EntryMissing(doc: CStr, date: CStr, pages: seq<Page>, clean: CStr -> CStr, number: nat, bank: Word, id: Word)
    requires |pages| < 0xFFFF_FFFE && number == bank + 1
    requires forall k: nat, j: nat :: HasId(pages, k, j, number, id) ==> k >= Body(pages)
    ensures HexPair(SpdName(Header(doc, date) + BankLines(Banks([], pages, clean), 1), bank, id), bank, id)
  {
    hide PageItems, InBank, BankLines, FindItem, SpdName, HasId, HexPair, Banks;
    PagesLookedUp(doc, date, pages, clean, bank, id);
    NoneBefore(pages, Body(pages), number, id, clean);
  }

  lemma {:induction false} FewBanks(pages: seq<Page>, k: nat)
    requires k < |pages|
    ensures BankOf(pages, k) <= k + 2
  {
    if k > 0 { FewBanks(pages, k - 1); }
  }
}
