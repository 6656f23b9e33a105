/** Options in every long form a user can write, "--" and "/" words and values of their own, and parsing them back. */
module OptWrite {
  import opened CStrings
  import opened OptScan
  import opened Optparse
  import opened Scanner
  import opened OptPrint

  /** The four kinds of words, by their text. */
  lemma WordKinds(word: CStr)
    ensures IsDashDash(word) <==> word == "--"
    ensures IsShort(word) <==> |word| >= 2 && word[0] == '-' && word[1] != '-'
    ensures IsLong(word) <==> (|word| >= 3 && word[..2] == "--") || (|word| >= 2 && word[..1] == "/")
    ensures IsNonOption(word) <==> word == "" || word == "-" || word == "/" || (word[0] != '-' && word[0] != '/')
  {
    assert |word| >= 2 ==> word[..2] == [word[0], word[1]];
    assert |word| >= 1 ==> word[..1] == [word[0]];
  }

  /** Letters are compared without their case, everything else as it is. */
  lemma FoldedLetters(a: char, b: char)
    ensures Lower(a) == Lower(b) <==>
      a == b || ('A' <= a <= 'Z' && b as int == a as int + 32) || ('A' <= b <= 'Z' && a as int == b as int + 32)
  {}

  /** An option as written: which entry, its name in any case, "/" or "--", the value joined by "=" or apart. */
  datatype Written = Written(index: nat, name: CStr, value: Option<CStr>, slash: bool, apart: bool)

  predicate Fits(table: seq<OptionDef>, n: nat, w: Written) {
    w.index < n <= |table| && table[w.index].longname.Some? && EqFold(w.name, table[w.index].longname.value)
  }

  /** The words of one option. */
  function Words(w: Written): seq<CStr> {
    var lead: CStr := (if w.slash then "/" else "--") + w.name;
    if w.value.None? then [lead]
    else if w.apart then [lead, w.value.value]
    else [lead + "=" + w.value.value]
  }

  function AllWords(ws: seq<Written>): seq<CStr> {
    if ws == [] then [] else Words(ws[0]) + AllWords(ws[1..])
  }

  function Meant(w: Written): Item {
    Item(w.index, w.value)
  }

  function AllMeant(ws: seq<Written>): (r: seq<Item>)
    ensures |r| == |ws|
  {
    if ws == [] then [] else [Meant(ws[0])] + AllMeant(ws[1..])
  }

  /** A value of its own needs an entry that requires one, a joined one an entry that takes one, and none an entry that
      can do without; only a joined value can stand behind an empty name. */
  predicate Readable(table: seq<OptionDef>, n: nat, w: Written)
    requires Fits(table, n, w)
  {
    var t := table[w.index].argtype;
    if w.value.None? then t != ArgRequired && w.name != ""
    else if w.apart then t == ArgRequired && w.name != ""
    else t != ArgNone
  }

  lemma FoldedEq(a: string, b: string)
    requires EqFold(a, b)
    ensures '=' in a <==> '=' in b
  {
    if '=' in a {
      var i :| 0 <= i < |a| && a[i] == '=';
      assert Lower(a[i]) == Lower(b[i]);
    }
    if '=' in b {
      var i :| 0 <= i < |b| && b[i] == '=';
      assert Lower(a[i]) == Lower(b[i]);
    }
  }

  lemma SameFold(a: string, b: string, c: string)
    requires EqFold(a, b) && EqFold(c, b)
    ensures EqFold(a, c) && EqFold(c, a)
  {}

  lemma {:induction false} FindsName(table: seq<OptionDef>, n: nat, k: nat, name: CStr, text: CStr, i: nat)
    requires PlainNames(table, n) && i <= k < n && table[k].longname.Some?
    requires EqFold(name, table[k].longname.value) && BeforeEq(text) == name
    ensures FindLong(table, text, i) == Some(k)
    decreases k - i
  {
    if i < k {
      if table[i].longname.Some? {
        MatchIsTextBeforeEq(table[i].longname.value, text);
        if EqFold(table[i].longname.value, name) {
          SameFoldThree(table[i].longname.value, name, table[k].longname.value);
        }
      }
      FindsName(table, n, k, name, text, i + 1);
    } else {
      MatchIsTextBeforeEq(table[k].longname.value, text);
      SameFold(table[k].longname.value, table[k].longname.value, name);
    }
  }

  lemma SameFoldThree(a: string, b: string, c: string)
    requires EqFold(a, b) && EqFold(b, c)
    ensures EqFold(a, c)
  {}

  /** The text behind the lead, split at its first "=". */
  lemma WrittenText(name: CStr, value: Option<CStr>, word: CStr, cut: nat)
    requires '=' !in name && cut <= |word| && word[cut..] == name + (if value.Some? then "=" + value.value else "")
    ensures BeforeEq(word[cut..]) == name && AfterEq(word[cut..]) == value
  {
    var tail := if value.Some? then "=" + value.value else "";
    EqSplitsAppended(name, tail);
    assert value.Some? ==> tail[1..] == value.value;
  }

  /** The effect of a written option standing before any other words. */
  lemma WrittenEffect(table: seq<OptionDef>, n: nat, w: Written, tail: seq<CStr>, f: Fields)
    requires PlainNames(table, n) && Fits(table, n, w)
    ensures var args := Words(w) + tail;
      && (Readable(table, n, w) ==>
            !IsNonOption(args[0]) &&
            HeadEffect(table, args, f) == Effect(w.index, |Words(w)|, Fields(w.value, w.index, "")))
      && (!Readable(table, n, w) ==>
            IsNonOption(args[0]) ||
            var e := HeadEffect(table, args, f); e.code < 0 || e.fields.optarg != w.value)
  {
    var args, word := Words(w) + tail, Words(w)[0];
    var joined := if w.value.Some? && !w.apart then w.value else None;
    var cut := if w.slash then 1 else 2;
    FoldedEq(w.name, table[w.index].longname.value);
    assert word[cut..] == w.name + (if joined.Some? then "=" + joined.value else "");
    WrittenText(w.name, joined, word, cut);
    WordKinds(word);
    if |word| > cut {
      assert word[..cut] == if w.slash then "/" else "--";
      assert IsLong(word) && (word[0] == '/' <==> w.slash);
      FindsName(table, n, w.index, w.name, word[cut..], 0);
    }
  }

  /** The scan of a written option and the words behind it. */
  lemma WrittenScan(table: seq<OptionDef>, n: nat, w: Written, tail: seq<CStr>, f: Fields)
    requires PlainNames(table, n) && Fits(table, n, w)
    ensures var s := Scan(table, Words(w) + tail, f);
      if Readable(table, n, w)
      then s == After([Meant(w)], Words(w), Scan(table, tail, Fields(w.value, w.index, "")))
      else s.items == [] || s.items[0].arg != w.value || s.skipped != []
  {
    WrittenEffect(table, n, w, tail, f);
    hide HeadEffect, Readable, PlainNames, Fits, Words;
    var args := Words(w) + tail;
    assert |Words(w)| > 0 by { SomeWord(w); }
    assert args[..|Words(w)|] == Words(w) && args[|Words(w)|..] == tail;
  }

  lemma SomeWord(w: Written)
    ensures |Words(w)| > 0
  {}

  lemma AllWordsStep(ws: seq<Written>, tail: seq<CStr>)
    requires ws != []
    ensures AllWords(ws) + tail == Words(ws[0]) + (AllWords(ws[1..]) + tail)
    ensures AllMeant(ws) == [Meant(ws[0])] + AllMeant(ws[1..])
  {}

  /** The words behind the options: none, or "--" and whatever stands behind it. */
  function Ending(stop: bool, more: seq<CStr>): seq<CStr> {
    if stop then ["--"] + more else []
  }

  lemma EndingScan(table: seq<OptionDef>, stop: bool, more: seq<CStr>, f: Fields)
    requires stop || more == []
    ensures Scan(table, Ending(stop, more), f) == ScanResult([], false, [], [], [], f).(
      consumed := if stop then ["--"] else [], rest := more)
  {
    if stop {
      WordKinds("--");
      assert (["--"] + more)[..1] == ["--"] && (["--"] + more)[1..] == more;
    }
  }

  lemma AllReadableStep(table: seq<OptionDef>, n: nat, ws: seq<Written>)
    requires ws != [] && (forall i :: 0 <= i < |ws| ==> Fits(table, n, ws[i])) && Readable(table, n, ws[0])
    ensures forall i :: 0 <= i < |ws[1..]| ==> Fits(table, n, ws[1..][i])
    ensures (forall i :: 0 <= i < |ws| ==> Readable(table, n, ws[i])) <==>
      (forall i :: 0 <= i < |ws[1..]| ==> Readable(table, n, ws[1..][i]))
  {
    hide Readable, Fits;
    assert forall i :: 0 <= i < |ws[1..]| ==> ws[1..][i] == ws[i + 1];
    assert forall i :: 1 <= i < |ws| ==> ws[i] == ws[1..][i - 1];
  }

  /** Parsing written options, in any mixture of "--" and "/" words, joined and separate values and cases of letters,
      gives exactly what is meant, and leaves what stands behind "--" alone, if and only if every one is readable. */
  lemma {:induction false} WrittenParse(table: seq<OptionDef>, n: nat, ws: seq<Written>, stop: bool, more: seq<CStr>,
      f: Fields)
    requires PlainNames(table, n) && (stop || more == [])
    requires forall i :: 0 <= i < |ws| ==> Fits(table, n, ws[i])
    ensures var s := Scan(table, AllWords(ws) + Ending(stop, more), f);
      (forall i :: 0 <= i < |ws| ==> Readable(table, n, ws[i])) <==>
      s.items == AllMeant(ws) && !s.failed && s.skipped == [] && s.rest == more
  {
    var tail := Ending(stop, more);
    EndingScan(table, stop, more, f);
    if ws == [] {
      assert AllWords(ws) + tail == tail;
    } else {
      var w, rest := ws[0], ws[1..];
      AllWordsStep(ws, tail);
      WrittenScan(table, n, w, AllWords(rest) + tail, f);
      hide Scan, AllWords, Words, Readable, PlainNames, AllMeant, Fits, Ending;
      if Readable(table, n, w) {
        var g := Fields(w.value, w.index, "");
        AllReadableStep(table, n, ws);
        WrittenParse(table, n, rest, stop, more, g);
        SameTail(Meant(w), Scan(table, AllWords(rest) + tail, g).items, AllMeant(rest));
      }
    }
  }

  /** A value required by a long option and given as the next word is taken, whatever that word looks like. */
  lemma NextWord(table: seq<OptionDef>, n: nat, k: nat, name: CStr, value: CStr, tail: seq<CStr>, slash: bool,
      f: Fields)
    requires PlainNames(table, n) && k < n && table[k].longname == Some(name) && name != ""
    requires table[k].argtype == ArgRequired
    ensures var word: CStr := (if slash then "/" else "--") + name;
      HeadEffect(table, [word, value] + tail, f) == Effect(k, 2, Fields(Some(value), k, ""))
  {
    var w := Written(k, name, Some(value), slash, true);
    WrittenEffect(table, n, w, tail, f);
  }

  // ----- errors -----

  /** A message with data that fits reads as written; longer data is cut to 63 characters in all. */
  lemma ErrorReads(msg: CStr, data: CStr)
    requires |msg| <= 27
    ensures var t := msg + " -- '" + data + "'";
      if |t| <= 63 then ErrorText(msg, data) == t else ErrorText(msg, data) == t[..62] + "'"
  {
    var head, t := msg + " -- '", msg + " -- '" + data + "'";
    if |t| > 63 { assert t[..62] == head + data[..62 - |head|]; }
  }

  /** No entry matches: a long word is consumed, a short one is not. */
  lemma UnknownWord(table: seq<OptionDef>, word: CStr, tail: seq<CStr>, f: Fields)
    requires |word| >= 3
    ensures word[..2] == "--" && FindLong(table, word[2..], 0) == None ==>
      HeadEffect(table, [word] + tail, f) == Effect(ERR, 1, Fields(None, 0, ErrorText("invalid option", word[2..])))
    ensures word[..1] == "/" && FindLong(table, word[1..], 0) == None ==>
      HeadEffect(table, [word] + tail, f) == Effect(ERR, 1, Fields(None, 0, ErrorText("invalid option", word[1..])))
    ensures word[0] == '-' && word[1] != '-' && FindShort(table, word[1], 0) == None ==>
      HeadEffect(table, [word] + tail, f) == Effect(ERR, 0, f.(msg := ErrorText("invalid option", word)))
  {
    WordKinds(word);
    assert word[..2] == [word[0], word[1]];
  }

  /** A missing value and a value that is not taken. */
  lemma WrongValue(table: seq<OptionDef>, n: nat, k: nat, name: CStr, value: CStr, tail: seq<CStr>, f: Fields)
    requires PlainNames(table, n) && k < n && table[k].longname == Some(name) && name != ""
    ensures table[k].argtype == ArgRequired ==>
      HeadEffect(table, ["--" + name], f)
        == Effect(ERR, 1, Fields(None, k, ErrorText("option requires an argument", name)))
    ensures table[k].argtype == ArgNone ==>
      HeadEffect(table, ["--" + name + "=" + value] + tail, f)
        == Effect(ERR, 1, Fields(None, k, ErrorText("option takes no arguments", name)))
  {
    var bare: CStr, joined: CStr := "--" + name, "--" + name + "=" + value;
    WordKinds(bare);
    WordKinds(joined);
    assert bare[2..] == name && joined[2..] == name + "=" + value && bare[..2] == "--" == joined[..2];
    WrittenText(name, None, bare, 2);
    WrittenText(name, Some(value), joined, 2);
    FindsName(table, n, k, name, bare[2..], 0);
    FindsName(table, n, k, name, joined[2..], 0);
  }

  // ----- the help options -----

  /** With the table of nwinfo, "/?", "--help" and "-h" end the option loop with the usage text. */
  method HelpAsked(p: Parser, table: seq<OptionDef>, n: nat, word: CStr) returns (status: Status, applied: seq<Item>)
    requires p.Valid() && p.permute && PlainNames(table, n) && n >= 2
    requires table[0] == OptionDef(Some("help"), 'h', ArgNone) && table[1] == OptionDef(Some("?"), '?', ArgNone)
    requires p.optind < |p.Words()| && p.Words()[p.optind] == word
    requires word in ["/?", "--?", "--help", "/HELP", "-h", "-H"]
    modifies p`optind, p`optopt, p`optarg, p.argv, p.errmsg
    ensures status == Usage && applied == []
  {
    ghost var args := p.Words()[p.optind..];
    HelpWord(table, n, word, args[1..], p.View());
    assert args == [word] + args[1..];
    assert Terminated(table) by { assert IsEnd(table[n]); }
    status, applied := ParseOptions(p, table);
  }

  lemma HelpWord(table: seq<OptionDef>, n: nat, word: CStr, tail: seq<CStr>, f: Fields)
    requires PlainNames(table, n) && n >= 2
    requires table[0] == OptionDef(Some("help"), 'h', ArgNone) && table[1] == OptionDef(Some("?"), '?', ArgNone)
    requires word in ["/?", "--?", "--help", "/HELP", "-h", "-H"]
    ensures var s := Scan(table, [word] + tail, f); s.items != [] && BeforeHelp(s.items) == 0
  {
    if word == "-h" || word == "-H" {
      HelpShort(table, word, tail, f);
    } else if word == "/?" {
      assert "/" + "?" == word;
      HelpLong(table, n, 1, "?", true, word, tail, f);
    } else if word == "--?" {
      assert "--" + "?" == word;
      HelpLong(table, n, 1, "?", false, word, tail, f);
    } else if word == "--help" {
      assert "--" + "help" == word;
      HelpLong(table, n, 0, "help", false, word, tail, f);
    } else {
      assert "/" + "HELP" == word;
      HelpLong(table, n, 0, "HELP", true, word, tail, f);
    }
  }

  lemma HelpShort(table: seq<OptionDef>, word: CStr, tail: seq<CStr>, f: Fields)
    requires |table| > 0 && table[0] == OptionDef(Some("help"), 'h', ArgNone) && (word == "-h" || word == "-H")
    ensures var s := Scan(table, [word] + tail, f); s.items != [] && BeforeHelp(s.items) == 0
  {
    assert FindShort(table, word[1], 0) == Some(0);
    WordKinds(word);
  }

  lemma HelpLong(table: seq<OptionDef>, n: nat, k: nat, name: CStr, slash: bool, word: CStr, tail: seq<CStr>, f: Fields)
    requires PlainNames(table, n) && k < n && k < 2 && name != ""
    requires table[k].longname.Some? && EqFold(name, table[k].longname.value) && table[k].argtype == ArgNone
    requires word == (if slash then "/" else "--") + name
    ensures var s := Scan(table, [word] + tail, f); s.items != [] && BeforeHelp(s.items) == 0
  {
    var w := Written(k, name, None, slash, false);
    assert Words(w) == [word];
    WrittenScan(table, n, w, tail, f);
  }
}
