/**
 The option loop of nwinfo: the calls of the permuting parser return what one
 left-to-right scan that moves nothing returns.
 */
module Scanner {
  import opened CStrings
  import opened OptScan
  import opened Optparse

  /** One parsed option: its table index and its argument. */
  datatype Item = Item(index: nat, arg: Option<string>)

  datatype ScanResult = ScanResult(
    items: seq<Item>, failed: bool,
    consumed: seq<CStr>, skipped: seq<CStr>, rest: seq<CStr>,
    fields: Fields)

  /** A scan result behind what was parsed before it. */
  function After(items: seq<Item>, consumed: seq<CStr>, s: ScanResult): ScanResult {
    s.(items := items + s.items, consumed := consumed + s.consumed)
  }

  lemma AfterTwice(items: seq<Item>, consumed: seq<CStr>, items2: seq<Item>, consumed2: seq<CStr>, s: ScanResult)
    ensures After(items, consumed, After(items2, consumed2, s)) == After(items + items2, consumed + consumed2, s)
  {}

  /** One pass over the words: non-options are skipped where they stand. */
  function Scan(table: seq<OptionDef>, args: seq<CStr>, f: Fields): (s: ScanResult)
    ensures forall i :: 0 <= i < |s.skipped| ==> IsNonOption(s.skipped[i])
    decreases |args|
  {
    if args == [] then ScanResult([], false, [], [], [], f)
    else if IsNonOption(args[0]) then
      var s := Scan(table, args[1..], f);
      s.(skipped := args[..1] + s.skipped)
    else
      var e := HeadEffect(table, args, f);
      if e.code < 0 then ScanResult([], e.code == ERR, args[..e.used], [], args[e.used..], e.fields)
      else
        After([Item(e.code, e.fields.optarg)], args[..e.used], Scan(table, args[e.used..], e.fields))
  }

  /** Leading non-options are skipped and leave the rest of the scan as it is. */
  lemma {:induction false} ScanSkips(table: seq<OptionDef>, skipped: seq<CStr>, tail: seq<CStr>, f: Fields)
    requires forall i :: 0 <= i < |skipped| ==> IsNonOption(skipped[i])
    ensures Scan(table, skipped + tail, f)
         == var s := Scan(table, tail, f); s.(skipped := skipped + s.skipped)
  {
    var s := Scan(table, tail, f);
    if skipped == [] {
      assert skipped + tail == tail && skipped + s.skipped == s.skipped;
    } else {
      assert (skipped + tail)[1..] == skipped[1..] + tail;
      ScanSkips(table, skipped[1..], tail, f);
      assert (skipped + tail)[..1] + (skipped[1..] + s.skipped) == skipped + s.skipped;
    }
  }

  /** A call is the scan of its skipped words followed by the effect of the option behind them. */
  lemma {:induction false} CallSkips(table: seq<OptionDef>, args: seq<CStr>, f: Fields)
    ensures var c := Call(table, args, true, f);
      && (c.skip == |args| ==> c == CallResult(|args|, 0, DONE, f))
      && (c.skip < |args| ==>
            && !IsNonOption(args[c.skip])
            && var e := HeadEffect(table, args[c.skip..], f); c == CallResult(c.skip, e.used, e.code, e.fields))
  {
    if args != [] {
      if IsNonOption(args[0]) {
        CallSkips(table, args[1..], f);
        var c := Call(table, args, true, f);
        assert args[1..][c.skip - 1..] == args[c.skip..];
      } else {
        assert args[0..] == args;
      }
    }
  }

  /** The words behind the consumed ones after a call: skipped ones, then those not yet seen. */
  function Left(args: seq<CStr>, c: CallResult): seq<CStr>
    requires c.skip + c.used <= |args|
  {
    args[..c.skip] + args[c.skip + c.used..]
  }

  /** What the scan makes of words whose first non-skipped one is parsed with effect e. */
  lemma ScanAtOption(table: seq<OptionDef>, skipped: seq<CStr>, tail: seq<CStr>, f: Fields)
    requires forall i :: 0 <= i < |skipped| ==> IsNonOption(skipped[i])
    requires tail != [] && !IsNonOption(tail[0])
    ensures var e := HeadEffect(table, tail, f);
      if e.code >= 0 then
        Scan(table, skipped + tail, f) ==
          After([Item(e.code, e.fields.optarg)], tail[..e.used], Scan(table, skipped + tail[e.used..], e.fields))
      else
        Scan(table, skipped + tail, f) ==
          ScanResult([], e.code == ERR, tail[..e.used], skipped, tail[e.used..], e.fields)
  {
    hide HeadEffect;
    var e := HeadEffect(table, tail, f);
    ScanSkips(table, skipped, tail, f);
    if e.code >= 0 {
      ScanSkips(table, skipped, tail[e.used..], e.fields);
    } else {
      assert skipped + [] == skipped;
    }
  }

  /** One call returns the scan's first item and leaves words whose scan is the scan's remainder. */
  lemma CallIsScanStep(table: seq<OptionDef>, args: seq<CStr>, f: Fields)
    ensures var c := Call(table, args, true, f);
      var used := args[c.skip..c.skip + c.used];
      if c.code >= 0 then
        Scan(table, args, f) ==
          After([Item(c.code, c.fields.optarg)], used, Scan(table, Left(args, c), c.fields))
      else
        Scan(table, args, f) == ScanResult([], c.code == ERR, used, args[..c.skip], args[c.skip + c.used..], c.fields)
  {
    hide HeadEffect, Call;
    var c := Call(table, args, true, f);
    var skipped, tail := args[..c.skip], args[c.skip..];
    assert args == skipped + tail;
    CallSkips(table, args, f);
    if tail == [] {
      ScanSkips(table, skipped, tail, f);
      assert skipped + [] == skipped;
    } else {
      assert tail[..c.used] == args[c.skip..c.skip + c.used] && tail[c.used..] == args[c.skip + c.used..];
      ScanAtOption(table, skipped, tail, f);
    }
  }

  /** The entries of s whose mask is `which`, in order. */
  function Pick<T>(s: seq<T>, mask: seq<bool>, which: bool): seq<T>
    requires |s| == |mask|
  {
    if s == [] then []
    else (if mask[0] == which then s[..1] else []) + Pick(s[1..], mask[1..], which)
  }

  lemma {:induction false} PickAppend<T>(s: seq<T>, m: seq<bool>, t: seq<T>, n: seq<bool>, which: bool)
    requires |s| == |m| && |t| == |n|
    ensures Pick(s + t, m + n, which) == Pick(s, m, which) + Pick(t, n, which)
  {
    if s == [] {
      assert s + t == t && m + n == n;
    } else {
      var first := if m[0] == which then s[..1] else [];
      assert (s + t)[1..] == s[1..] + t && (m + n)[1..] == m[1..] + n && (s + t)[..1] == s[..1];
      PickAppend(s[1..], m[1..], t, n, which);
      assert Pick(s + t, m + n, which) == first + (Pick(s[1..], m[1..], which) + Pick(t, n, which));
    }
  }

  lemma {:induction false} PickConstant<T>(s: seq<T>, which: bool, value: bool)
    ensures Pick(s, seq(|s|, _ => value), which) == if value == which then s else []
  {
    if s != [] {
      assert seq(|s|, _ => value)[1..] == seq(|s[1..]|, _ => value);
      PickConstant(s[1..], which, value);
    }
  }

  /** The consumed words and the words left over are a stable partition of the input. */
  lemma {:induction false} ScanPartitions(table: seq<OptionDef>, args: seq<CStr>, f: Fields) returns (mask: seq<bool>)
    ensures |mask| == |args|
    ensures var s := Scan(table, args, f);
      Pick(args, mask, true) == s.consumed && Pick(args, mask, false) == s.skipped + s.rest
    decreases |args|
  {
    var s := Scan(table, args, f);
    if args == [] {
      mask := [];
    } else if IsNonOption(args[0]) {
      var m := ScanPartitions(table, args[1..], f);
      mask := [false] + m;
      assert args[..1] + Scan(table, args[1..], f).skipped + s.rest
        == args[..1] + (Scan(table, args[1..], f).skipped + s.rest);
    } else {
      var e := HeadEffect(table, args, f);
      var head, tail := args[..e.used], args[e.used..];
      assert args == head + tail;
      var m;
      if e.code < 0 {
        m := seq(|tail|, _ => false);
        PickConstant(tail, true, false);
        PickConstant(tail, false, false);
      } else {
        m := ScanPartitions(table, tail, e.fields);
      }
      mask := seq(|head|, _ => true) + m;
      PickConstant(head, true, true);
      PickConstant(head, false, true);
      PickAppend(head, seq(|head|, _ => true), tail, m, true);
      PickAppend(head, seq(|head|, _ => true), tail, m, false);
      if e.code < 0 {
        assert s.skipped + s.rest == tail && s.consumed == head + [];
      } else {
        assert [] + (s.skipped + s.rest) == s.skipped + s.rest;
      }
    }
  }

  lemma {:induction false} PickMultiset<T>(s: seq<T>, mask: seq<bool>)
    requires |s| == |mask|
    ensures multiset(Pick(s, mask, true)) + multiset(Pick(s, mask, false)) == multiset(s)
  {
    if s != [] {
      PickMultiset(s[1..], mask[1..]);
      assert s == s[..1] + s[1..];
    }
  }

  /** No word is lost or duplicated by the scan. */
  lemma ScanPermutes(table: seq<OptionDef>, args: seq<CStr>, f: Fields)
    ensures var s := Scan(table, args, f);
      multiset(s.consumed + s.skipped + s.rest) == multiset(args)
  {
    hide Scan, Pick;
    var s := Scan(table, args, f);
    var mask := ScanPartitions(table, args, f);
    PickMultiset(args, mask);
    assert s.consumed + s.skipped + s.rest == s.consumed + (s.skipped + s.rest);
  }

  /** The effect of an option that parses depends only on the words it consumes. */
  lemma HeadEffectLocal(table: seq<OptionDef>, args: seq<CStr>, other: seq<CStr>, f: Fields)
    requires args != [] && !IsNonOption(args[0]) && HeadEffect(table, args, f).code != ERR
    ensures var e := HeadEffect(table, args, f);
      e.used > 0 && HeadEffect(table, args[..e.used] + other, f) == e
  {}

  lemma {:induction false} NonOptionsScan(table: seq<OptionDef>, words: seq<CStr>, f: Fields)
    requires forall i :: 0 <= i < |words| ==> IsNonOption(words[i])
    ensures Scan(table, words, f) == ScanResult([], false, [], words, [], f)
  {
    assert words + [] == words;
    ScanSkips(table, words, [], f);
  }

  /** Behind the consumed words, any words that stop at "--" or hold no option parse the same way. */
  lemma {:induction false} ConsumedReparse(table: seq<OptionDef>, args: seq<CStr>, f: Fields, left: seq<CStr>)
    requires !Scan(table, args, f).failed
    requires Scan(table, args, f).rest != [] || forall i :: 0 <= i < |left| ==> IsNonOption(left[i])
    ensures var s, t := Scan(table, args, f), Scan(table, Scan(table, args, f).consumed + left, f);
      && t.items == s.items && t.consumed == s.consumed && t.fields == s.fields && !t.failed
      && t.skipped + t.rest == left
    decreases |args|
  {
    hide HeadEffect;
    var s := Scan(table, args, f);
    if args == [] {
      assert s.consumed + left == left;
      NonOptionsScan(table, left, f);
    } else if IsNonOption(args[0]) {
      ConsumedReparse(table, args[1..], f, left);
    } else {
      var e := HeadEffect(table, args, f);
      var again := s.consumed + left;
      HeadEffectLocal(table, args, again[e.used..], f);
      assert again == args[..e.used] + again[e.used..];
      if e.code >= 0 {
        var inner := Scan(table, args[e.used..], e.fields);
        assert again[e.used..] == inner.consumed + left;
        ConsumedReparse(table, args[e.used..], e.fields, left);
      } else {
        assert again[e.used..] == left;
      }
    }
  }

  /** The permuted command line is a normal form: parsing it again gives the same options. */
  lemma PermutedReparse(table: seq<OptionDef>, args: seq<CStr>, f: Fields)
    requires !Scan(table, args, f).failed
    ensures var s := Scan(table, args, f); var t := Scan(table, s.consumed + s.skipped + s.rest, f);
      && t.items == s.items && t.consumed == s.consumed && t.fields == s.fields && !t.failed
      && t.skipped + t.rest == s.skipped + s.rest
  {
    var s := Scan(table, args, f);
    if s.rest == [] { assert s.skipped + s.rest == s.skipped; }
    assert s.consumed + s.skipped + s.rest == s.consumed + (s.skipped + s.rest);
    ConsumedReparse(table, args, f, s.skipped + s.rest);
  }

  const NW_OPT_HELP := 0
  const NW_OPT_HELP_WIN32 := 1

  predicate IsHelp(item: Item) {
    item.index == NW_OPT_HELP || item.index == NW_OPT_HELP_WIN32
  }

  /** How many items come before the first help option. */
  function BeforeHelp(items: seq<Item>): (n: nat)
    ensures n <= |items|
    ensures forall i :: 0 <= i < n ==> !IsHelp(items[i])
    ensures n < |items| ==> IsHelp(items[n])
  {
    if items == [] || IsHelp(items[0]) then 0 else 1 + BeforeHelp(items[1..])
  }

  lemma BeforeHelpAt(items: seq<Item>, n: nat)
    requires n <= |items| && forall i :: 0 <= i < n ==> !IsHelp(items[i])
    requires n < |items| ==> IsHelp(items[n])
    ensures BeforeHelp(items) == n
  {}

  datatype Status = Go | Usage | Bad(msg: string)

  /** One turn of the option loop that returns an option. */
  lemma TurnWithOption(table: seq<OptionDef>, all: ScanResult, applied: seq<Item>, before: seq<CStr>, taken: seq<CStr>,
                       args: seq<CStr>, f: Fields, now: seq<CStr>) returns (used: seq<CStr>)
    requires all == After(applied, taken, Scan(table, args, f))
    requires var c := Call(table, args, true, f); c.code >= 0 && now == before + taken + Moved(args, c.skip, c.used)
    ensures var c := Call(table, args, true, f);
      var n, item := |before| + |taken| + c.used, Item(c.code, c.fields.optarg);
      && |used| == c.used
      && now[..n] == before + (taken + used)
      && all == After(applied + [item], taken + used, Scan(table, now[n..], c.fields))
      && |applied| < |all.items| && all.items[..|applied|] == applied && all.items[|applied|] == item
  {
    hide Call, Scan;
    var c := Call(table, args, true, f);
    used := args[c.skip..c.skip + c.used];
    CallIsScanStep(table, args, f);
    CallMoves(before + taken, args, c, now);
    AfterTwice(applied, taken, [Item(c.code, c.fields.optarg)], used, Scan(table, Left(args, c), c.fields));
  }

  /** The turn of the option loop that ends the parse. */
  lemma TurnAtEnd(table: seq<OptionDef>, all: ScanResult, applied: seq<Item>, before: seq<CStr>, taken: seq<CStr>,
                  args: seq<CStr>, f: Fields, now: seq<CStr>)
    requires all == After(applied, taken, Scan(table, args, f))
    requires var c := Call(table, args, true, f); c.code < 0 && now == before + taken + Moved(args, c.skip, c.used)
    ensures var c := Call(table, args, true, f);
      && all.items == applied && all.failed == (c.code == ERR) && all.fields == c.fields
      && |all.consumed| == |taken| + c.used
      && now == before + all.consumed + all.skipped + all.rest
  {
    hide Call, Scan;
    CallIsScanStep(table, args, f);
  }

  /** The option loop of main: every option up to a help option, an error or the end is applied. */
  method ParseOptions(p: Parser, table: seq<OptionDef>) returns (status: Status, applied: seq<Item>)
    requires p.Valid() && p.permute && Terminated(table)
    modifies p`optind, p`optopt, p`optarg, p.argv, p.errmsg
    ensures p.Valid()
    ensures var s := Scan(table, old(p.Words()[p.optind..]), old(p.View())); var n := BeforeHelp(s.items);
      && applied == s.items[..n]
      && (forall i :: 0 <= i < n ==> s.items[i].index > 1)
      && (n < |s.items| ==> s.items[n].index in {0, 1})
      && status == (if n < |s.items| then Usage else if s.failed then Bad(s.fields.msg) else Go)
      && (n == |s.items| ==>
            && p.optind == old(p.optind) + |s.consumed|
            && p.View() == s.fields
            && p.Words() == old(p.Words()[..p.optind]) + s.consumed + s.skipped + s.rest)
  {
    hide Call, Scan, BeforeHelp, Moved, CText, Values, After;
    ghost var before, all := p.Words()[..p.optind], Scan(table, p.Words()[p.optind..], p.View());
    ghost var taken: seq<CStr> := [];
    applied := [];
    AfterNothing(all);
    while true
      invariant p.Valid() && p.permute
      invariant p.optind == |before| + |taken|
      invariant p.Words()[..p.optind] == before + taken
      invariant forall i :: 0 <= i < |applied| ==> !IsHelp(applied[i])
      invariant all == After(applied, taken, Scan(table, p.Words()[p.optind..], p.View()))
      decreases p.argv.Length - p.optind
    {
      ghost var args, f := p.Words()[p.optind..], p.View();
      var option := p.Parse(table);
      if option == DONE || option == ERR {
        TurnAtEnd(table, all, applied, before, taken, args, f, p.Words());
        BeforeHelpAt(all.items, |applied|);
        if option == DONE {
          return Go, applied;
        }
        var msg := p.Message();
        return Bad(msg), applied;
      }
      ghost var used := TurnWithOption(table, all, applied, before, taken, args, f, p.Words());
      if option == NW_OPT_HELP || option == NW_OPT_HELP_WIN32 {
        BeforeHelpAt(all.items, |applied|);
        return Usage, applied;
      }
      applied := applied + [Item(option, p.optarg)];
      taken := taken + used;
    }
  }

  lemma AfterNothing(s: ScanResult)
    ensures After([], [], s) == s
  {}

  /** Where a call leaves the words, relative to the new parse position. */
  lemma CallMoves(before: seq<CStr>, args: seq<CStr>, c: CallResult, now: seq<CStr>)
    requires c.skip + c.used <= |args|
    requires now == before + Moved(args, c.skip, c.used)
    ensures var n := |before| + c.used;
      && now[..n] == before + args[c.skip..c.skip + c.used]
      && now[n..] == Left(args, c)
  {}
}
