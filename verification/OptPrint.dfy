/** Printing options in the long form and parsing them back. */
module OptPrint {
  import opened CStrings
  import opened OptScan
  import opened Scanner

  /** A use of table entry `index`, with or without a value. */
  datatype Use = Use(index: nat, value: Option<CStr>)

  /** The first n entries are the table; their long names are '='-free and distinct ignoring case. */
  predicate PlainNames(table: seq<OptionDef>, n: nat) {
    && n < |table| && IsEnd(table[n])
    && (forall i :: 0 <= i < n ==> !IsEnd(table[i]))
    && (forall i :: 0 <= i < n && table[i].longname.Some? ==> '=' !in table[i].longname.value)
    && (forall i, j :: 0 <= i < j < n && table[i].longname.Some? && table[j].longname.Some? ==>
          !EqFold(table[i].longname.value, table[j].longname.value))
  }

  predicate Named(table: seq<OptionDef>, n: nat, u: Use) {
    u.index < n <= |table| && table[u.index].longname.Some?
  }

  /** "--name" or "--name=value" without the two dashes. */
  function Text(table: seq<OptionDef>, n: nat, u: Use): CStr
    requires Named(table, n, u)
  {
    table[u.index].longname.value + (if u.value.Some? then "=" + u.value.value else "")
  }

  function Print(table: seq<OptionDef>, n: nat, u: Use): CStr
    requires Named(table, n, u)
  {
    "--" + Text(table, n, u)
  }

  function PrintAll(table: seq<OptionDef>, n: nat, uses: seq<Use>): seq<CStr>
    requires forall i :: 0 <= i < |uses| ==> Named(table, n, uses[i])
  {
    if uses == [] then [] else [Print(table, n, uses[0])] + PrintAll(table, n, uses[1..])
  }

  function Items(uses: seq<Use>): seq<Item> {
    seq(|uses|, i requires 0 <= i < |uses| => Item(uses[i].index, uses[i].value))
  }

  /** The value fits the entry, and a bare use is not the word "--". */
  predicate Printable(table: seq<OptionDef>, n: nat, u: Use)
    requires Named(table, n, u)
  {
    if u.value.Some? then table[u.index].argtype != ArgNone
    else table[u.index].argtype != ArgRequired && table[u.index].longname.value != ""
  }

  lemma {:induction false} EqSplitsAppended(name: string, tail: string)
    requires '=' !in name && (tail == "" || tail[0] == '=')
    ensures BeforeEq(name + tail) == name
    ensures AfterEq(name + tail) == if tail == "" then None else Some(tail[1..])
  {
    if name == "" {
      assert name + tail == tail;
    } else {
      assert (name + tail)[1..] == name[1..] + tail;
      EqSplitsAppended(name[1..], tail);
    }
  }

  /** The printed text selects exactly the entry it was printed from. */
  lemma {:induction false} FindsPrinted(table: seq<OptionDef>, n: nat, u: Use, i: nat)
    requires PlainNames(table, n) && Named(table, n, u) && i <= u.index
    ensures FindLong(table, Text(table, n, u), i) == Some(u.index)
    decreases u.index - i
  {
    var name, text := table[u.index].longname.value, Text(table, n, u);
    EqSplitsAppended(name, text[|name|..]);
    assert name + text[|name|..] == text;
    MatchIsTextBeforeEq(name, text);
    if i < u.index {
      if table[i].longname.Some? { MatchIsTextBeforeEq(table[i].longname.value, text); }
      FindsPrinted(table, n, u, i + 1);
    }
  }

  /** The effect of a printed word standing before any other words. */
  lemma PrintedEffect(table: seq<OptionDef>, n: nat, u: Use, tail: seq<CStr>, f: Fields)
    requires PlainNames(table, n) && Named(table, n, u)
    ensures var args := [Print(table, n, u)] + tail;
      && !IsNonOption(args[0])
      && (Printable(table, n, u) ==>
            HeadEffect(table, args, f) == Effect(u.index, 1, Fields(u.value, u.index, "")))
      && (!Printable(table, n, u) ==>
            var e := HeadEffect(table, args, f); e.code < 0 || e.fields.optarg != u.value)
  {
    var word, name := Print(table, n, u), table[u.index].longname.value;
    if name == "" && u.value.None? {
      assert word == "--";
    } else {
      assert IsLong(word) && word[2..] == Text(table, n, u);
      FindsPrinted(table, n, u, 0);
      EqSplitsAppended(name, word[2 + |name|..]);
      assert name + word[2 + |name|..] == word[2..];
      assert u.value.Some? ==> word[2 + |name|..][1..] == u.value.value;
    }
  }

  /** The scan of a printed word and the words behind it. */
  lemma PrintedScan(table: seq<OptionDef>, n: nat, u: Use, tail: seq<CStr>, f: Fields)
    requires PlainNames(table, n) && Named(table, n, u)
    ensures var word, s := Print(table, n, u), Scan(table, [Print(table, n, u)] + tail, f);
      if Printable(table, n, u)
      then s == After([Item(u.index, u.value)], [word], Scan(table, tail, Fields(u.value, u.index, "")))
      else s.items == [] || s.items[0].arg != u.value
  {
    PrintedEffect(table, n, u, tail, f);
    hide HeadEffect, Print, Printable, PlainNames;
    var args := [Print(table, n, u)] + tail;
    assert args[..1] == [args[0]] && args[1..] == tail;
  }

  lemma PrintAllStep(table: seq<OptionDef>, n: nat, uses: seq<Use>)
    requires uses != [] && forall i :: 0 <= i < |uses| ==> Named(table, n, uses[i])
    ensures PrintAll(table, n, uses) == [Print(table, n, uses[0])] + PrintAll(table, n, uses[1..])
    ensures Items(uses) == [Item(uses[0].index, uses[0].value)] + Items(uses[1..])
  {}

  /** Parsing the printed uses gives the uses back exactly when every one of them is printable. */
  lemma {:induction false} PrintParse(table: seq<OptionDef>, n: nat, uses: seq<Use>, f: Fields)
    requires PlainNames(table, n)
    requires forall i :: 0 <= i < |uses| ==> Named(table, n, uses[i])
    ensures var s := Scan(table, PrintAll(table, n, uses), f);
      (forall i :: 0 <= i < |uses| ==> Printable(table, n, uses[i])) <==>
      s.items == Items(uses) && !s.failed && s.skipped == [] && s.rest == []
  {
    if uses != [] {
      var u, more := uses[0], uses[1..];
      var tail := PrintAll(table, n, more);
      PrintAllStep(table, n, uses);
      PrintedScan(table, n, u, tail, f);
      hide Scan, PrintAll, Print, Printable, PlainNames, Items;
      if Printable(table, n, u) {
        PrintParse(table, n, more, Fields(u.value, u.index, ""));
        SameTail(Item(u.index, u.value), Scan(table, tail, Fields(u.value, u.index, "")).items, Items(more));
        assert forall i :: 0 <= i < |more| ==> more[i] == uses[i + 1];
        assert forall i :: 1 <= i < |uses| ==> uses[i] == more[i - 1];
      }
    }
  }

  lemma SameTail(first: Item, a: seq<Item>, b: seq<Item>)
    ensures [first] + a == [first] + b <==> a == b
  {
    if [first] + a == [first] + b {
      assert a == ([first] + a)[1..] && b == ([first] + b)[1..];
    }
  }

  // ----- short options -----

  /** Short names are distinct ignoring case among the first n entries, and none is '-'. */
  predicate PlainShorts(table: seq<OptionDef>, n: nat) {
    && n < |table| && IsEnd(table[n])
    && (forall i :: 0 <= i < n ==> !IsEnd(table[i]) && table[i].shortname != '-')
    && (forall i, j :: 0 <= i < j < n && table[i].shortname != '\0' ==>
          Lower(table[i].shortname) != Lower(table[j].shortname))
  }

  lemma {:induction false} FindsShort(table: seq<OptionDef>, n: nat, k: nat, c: char, i: nat)
    requires PlainShorts(table, n) && i <= k < n && table[k].shortname != '\0' && Lower(c) == Lower(table[k].shortname)
    ensures FindShort(table, c, i) == Some(k)
    decreases k - i
  {
    if i < k { FindsShort(table, n, k, c, i + 1); }
  }

  /** A short name in either case, with its value attached, behind it or missing, selects exactly its entry
      and takes exactly that value. */
  lemma ShortWord(table: seq<OptionDef>, n: nat, k: nat, c: char, value: CStr, tail: seq<CStr>, f: Fields)
    requires PlainShorts(table, n) && k < n && table[k].shortname != '\0'
    requires c != '\0' && c != '-' && Lower(c) == Lower(table[k].shortname)
    ensures var word: CStr, t := "-" + [c] + value, table[k].argtype;
      var e := HeadEffect(table, [word] + tail, f);
      && !IsNonOption(word)
      && (value != "" && t != ArgNone ==> e == Effect(k, 1, Fields(Some(value), k, "")))
      && (value == "" && t != ArgRequired ==> e == Effect(k, 1, Fields(None, k, "")))
      && (value == "" && t == ArgRequired && tail != [] ==> e == Effect(k, 2, Fields(Some(tail[0]), k, "")))
      && ((value == "" && t == ArgRequired && tail == []) || (value != "" && t == ArgNone) ==>
            e.code == ERR && e.used == 0 && e.fields.optopt == k && e.fields.optarg == None)
  {
    var word: CStr := "-" + [c] + value;
    FindsShort(table, n, k, c, 0);
    assert word[1] == c && word[2..] == value;
    assert IsShort(word) && !IsDashDash(word);
  }
}
