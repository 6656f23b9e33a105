/** The permuting option parser: the in-place recursion, and the scanner it refines. */
module Optparse {
  import opened CStrings
  import opened OptScan

  /** What one call of the parser returns after stepping over `skip` non-options. */
  datatype CallResult = CallResult(skip: nat, used: nat, code: int, fields: Fields)

  function Call(table: seq<OptionDef>, args: seq<CStr>, permute: bool, f: Fields): (c: CallResult)
    ensures c.skip + c.used <= |args| && c.used <= 2
    ensures forall i :: 0 <= i < c.skip ==> IsNonOption(args[i])
    ensures c.code >= 0 ==> c.used > 0
    ensures c.code >= 0 || c.code == ERR || c.code == DONE
  {
    if args == [] then CallResult(0, 0, DONE, f)
    else if !IsNonOption(args[0]) then
      var e := HeadEffect(table, args, f);
      CallResult(0, e.used, e.code, e.fields)
    else if permute then
      var c := Call(table, args[1..], permute, f);
      c.(skip := c.skip + 1)
    else CallResult(0, 0, DONE, f)
  }

  /** The m consumed words first, then the k skipped ones in order, then the rest. */
  function Moved<T>(args: seq<T>, k: nat, m: nat): (r: seq<T>)
    requires k + m <= |args|
    ensures |r| == |args|
  {
    args[k..k + m] + args[..k] + args[k + m..]
  }

  /** The element at i moved behind the slots i+1..n. */
  function MoveBehind<T>(s: seq<T>, i: nat, n: nat): (r: seq<T>)
    requires i < n <= |s|
    ensures |r| == |s|
  {
    s[..i] + s[i + 1..n] + [s[i]] + s[n..]
  }

  function Values(s: seq<Option<CStr>>): (r: seq<CStr>)
    requires forall i :: 0 <= i < |s| ==> s[i].Some?
    ensures |r| == |s| && forall i :: 0 <= i < |s| ==> r[i] == s[i].value
  {
    seq(|s|, i requires 0 <= i < |s| => s[i].value)
  }

  lemma MovedNothing<T>(before: seq<T>, args: seq<T>, m: nat)
    requires m <= |args|
    ensures before + Moved(args, 0, m) == before + args
  {}

  lemma TakeOneMore<T>(s: seq<T>, i: nat)
    requires i < |s|
    ensures s[i + 1..] == s[i..][1..] && s[..i + 1] == s[..i] + s[i..][..1]
  {}

  /** Moving one skipped word behind the m words its recursive call consumed adds it to the skipped ones. */
  lemma MoveBehindExtendsMoved<T>(before: seq<T>, args: seq<T>, k: nat, m: nat)
    requires 1 + k + m <= |args|
    ensures MoveBehind(before + args[..1] + Moved(args[1..], k, m), |before|, |before| + 1 + m)
         == before + Moved(args, k + 1, m)
  {
    var x, y, z := args[k + 1..k + 1 + m], args[1..k + 1], args[k + 1 + m..];
    TailMoved(args, k, m);
    MovedIs(args, k + 1, m);
    assert args[..1] + y == args[..k + 1];
    hide Moved, MoveBehind;
    MovesOver(before, args[..1], x, y + z);
    Regroup(before, args[..1], x, y, z);
  }

  lemma TailMoved<T>(args: seq<T>, k: nat, m: nat)
    requires 1 + k + m <= |args|
    ensures Moved(args[1..], k, m) == args[k + 1..k + 1 + m] + (args[1..k + 1] + args[k + 1 + m..])
  {
    assert args[1..][k..k + m] == args[k + 1..k + 1 + m];
    assert args[1..][..k] == args[1..k + 1] && args[1..][k + m..] == args[k + 1 + m..];
  }

  lemma Regroup<T>(before: seq<T>, one: seq<T>, x: seq<T>, y: seq<T>, z: seq<T>)
    ensures before + x + one + (y + z) == before + (x + (one + y) + z)
  {}

  lemma MovedIs<T>(args: seq<T>, k: nat, m: nat)
    requires k + m <= |args|
    ensures Moved(args, k, m) == args[k..k + m] + args[..k] + args[k + m..]
  {}

  /** A single element moved behind the words next to it. */
  lemma MovesOver<T>(before: seq<T>, one: seq<T>, x: seq<T>, rest: seq<T>)
    requires |one| == 1
    ensures MoveBehind(before + one + (x + rest), |before|, |before| + 1 + |x|) == before + x + one + rest
  {
    var s, n := before + one + (x + rest), |before|;
    assert s[..n] == before && s[n + 1..n + 1 + |x|] == x && [s[n]] == one && s[n + 1 + |x|..] == rest;
  }

  lemma ShiftMovesBehind<T>(was: seq<T>, now: seq<T>, i: nat, n: nat)
    requires i < n <= |was| && |now| == |was|
    requires forall j :: 0 <= j < i ==> now[j] == was[j]
    requires forall j :: i <= j < n - 1 ==> now[j] == was[j + 1]
    requires now[n - 1] == was[i]
    requires forall j :: n <= j < |was| ==> now[j] == was[j]
    ensures now == MoveBehind(was, i, n)
  {}

  /** Moving a slot of argv moves the same word. */
  lemma ValuesMoveBehind(s: seq<Option<CStr>>, i: nat, n: nat)
    requires i < n < |s| && forall j :: 0 <= j < |s| - 1 ==> s[j].Some?
    ensures forall j :: 0 <= j < |s| - 1 ==> MoveBehind(s, i, n)[j].Some?
    ensures Values(MoveBehind(s, i, n)[..|s| - 1]) == MoveBehind(Values(s[..|s| - 1]), i, n)
  {
    assert MoveBehind(s, i, n)[..|s| - 1] == MoveBehind(s[..|s| - 1], i, n);
  }

  /** A buffer holding the cut text, a quote and a terminator reads back as the error text. */
  lemma ErrorTextShape(msg: CStr, data: CStr, buf: seq<char>, p: nat)
    requires |msg| <= 27 && |buf| == ERRMSG_SIZE && 1 <= p < ERRMSG_SIZE
    requires |msg| + 5 <= p - 1 <= |msg| + 5 + |data|
    requires p - 1 == ERRMSG_SIZE - 2 || p - 1 == |msg| + 5 + |data| < ERRMSG_SIZE - 2
    requires forall j :: 0 <= j < p - 1 ==> buf[j] == (msg + " -- '" + data)[j]
    requires buf[p - 1] == '\'' && buf[p] == '\0'
    ensures CText(buf) == ErrorText(msg, data)
  {}

  class Parser {
    const argv: array<Option<CStr>>
    const errmsg: array<char>
    var permute: bool
    var optind: nat
    var optopt: int
    var optarg: Option<string>

    /** argv ends in its only null entry and the message buffer holds a terminated string. */
    ghost predicate Valid()
      reads this, argv, errmsg
    {
      && argv.Length > 0
      && (forall i :: 0 <= i < argv.Length - 1 ==> argv[i].Some?)
      && argv[argv.Length - 1].None?
      && optind < argv.Length
      && errmsg.Length == ERRMSG_SIZE
      && |CText(errmsg[..])| < ERRMSG_SIZE
    }

    ghost function Words(): (r: seq<CStr>)
      requires Valid()
      reads this, argv, errmsg
      ensures |r| == argv.Length - 1
    {
      Values(argv[..argv.Length - 1])
    }

    ghost function View(): Fields
      reads this, errmsg
    {
      Fields(optarg, optopt, CText(errmsg[..]))
    }

    /** optparse_init; the field optopt, which the source leaves uninitialised, starts arbitrary. */
    constructor (argv: array<Option<CStr>>, optopt: int)
      requires argv.Length > 0
      requires forall i :: 0 <= i < argv.Length - 1 ==> argv[i].Some?
      requires argv[argv.Length - 1].None?
      ensures Valid() && fresh(errmsg) && this.argv == argv
      ensures permute && optind == (if argv.Length > 1 then 1 else 0)
      ensures View() == Fields(None, optopt, "")
    {
      this.argv := argv;
      permute := true;
      optind := if argv[0].Some? then 1 else 0;
      this.optopt := optopt;
      optarg := None;
      var buf := new char[ERRMSG_SIZE];
      errmsg := buf;
      new;
      errmsg[0] := '\0';
    }

    /** Reading the message as a string. */
    method Message() returns (r: CStr)
      requires Valid()
      ensures r == View().msg
    {
      r := CText(errmsg[..]);
    }

    method ClearError()
      requires Valid()
      modifies errmsg
      ensures Valid() && CText(errmsg[..]) == ""
    {
      errmsg[0] := '\0';
    }

    method Error(msg: CStr, data: CStr) returns (r: int)
      requires Valid() && |msg| <= 27
      modifies errmsg
      ensures Valid() && r == ERR && CText(errmsg[..]) == ErrorText(msg, data)
    {
      var sep: CStr := " -- '";
      ghost var text := msg + sep + data;
      var p, i := 0, 0;
      while At(msg, i) != '\0'
        invariant i == p <= |msg|
        invariant forall j :: 0 <= j < p ==> errmsg[j] == text[j]
        decreases |msg| - i
      {
        errmsg[p] := msg[i];
        p, i := p + 1, i + 1;
      }
      i := 0;
      while At(sep, i) != '\0'
        invariant i <= |sep| && p == |msg| + i
        invariant forall j :: 0 <= j < p ==> errmsg[j] == text[j]
        decreases |sep| - i
      {
        errmsg[p] := sep[i];
        p, i := p + 1, i + 1;
      }
      i := 0;
      while p < ERRMSG_SIZE - 2 && At(data, i) != '\0'
        invariant i <= |data| && p == |msg| + |sep| + i <= ERRMSG_SIZE - 2
        invariant forall j :: 0 <= j < p ==> errmsg[j] == text[j]
        decreases |data| - i
      {
        errmsg[p] := data[i];
        p, i := p + 1, i + 1;
      }
      errmsg[p] := '\'';
      p := p + 1;
      errmsg[p] := '\0';
      ErrorTextShape(msg, data, errmsg[..], p);
      r := ERR;
    }

    /** optparse_permute: moves the word at index behind the ones just consumed. */
    method Permute(index: nat)
      requires Valid() && index < optind
      modifies argv
      ensures Valid()
      ensures Words() == MoveBehind(old(Words()), index, optind)
    {
      hide MoveBehind, CText, Values;
      ghost var was := argv[..];
      var nonoption := argv[index];
      var i := index;
      while i < optind - 1
        invariant index <= i < optind
        invariant forall j :: 0 <= j < index ==> argv[j] == was[j]
        invariant forall j :: index <= j < i ==> argv[j] == was[j + 1]
        invariant forall j :: i <= j < argv.Length ==> argv[j] == was[j]
      {
        argv[i] := argv[i + 1];
        i := i + 1;
      }
      argv[optind - 1] := nonoption;
      ShiftMovesBehind(was, argv[..], index, optind);
      ValuesMoveBehind(was, index, optind);
    }

    /** optparse_opts_arg: the part after "=", or NULL. */
    static method OptsArg(option: CStr) returns (arg: Option<string>)
      ensures arg == AfterEq(option)
    {
      var i := 0;
      while At(option, i) != '\0' && At(option, i) != '='
        invariant i <= |option|
        invariant AfterEq(option[i..]) == AfterEq(option)
        decreases |option| - i
      {
        i := i + 1;
      }
      arg := if At(option, i) == '=' then Some(option[i + 1..]) else None;
    }

    method HandleShortopt(table: seq<OptionDef>) returns (r: int)
      requires Valid() && Terminated(table)
      requires optind < argv.Length - 1 && IsShort(Words()[optind])
      modifies `optind, `optopt, `optarg, errmsg
      ensures Valid()
      ensures var e := ShortEffect(table, old(Words()[optind..]), old(View()));
        r == e.code && optind == old(optind) + e.used && View() == e.fields
    {
      var option := argv[optind].value;
      ghost var args := Words()[optind..];
      assert option == args[0];
      var matched := -1;
      var i := 0;
      while !IsEnd(table[i])
        invariant i < |table| && matched == -1
        invariant exists j :: i <= j < |table| && IsEnd(table[j])
        invariant FindShort(table, option[1], 0) == FindShort(table, option[1], i)
        decreases |table| - i
      {
        if table[i].shortname != '\0' && Lower(table[i].shortname) == Lower(option[1]) {
          matched := i;
          break;
        }
        i := i + 1;
      }
      if matched < 0 {
        r := Error(MSG_INVALID, option);
        return;
      }
      var namebuf: CStr := [table[matched].shortname];
      ClearError();
      optopt := matched;
      optarg := None;
      match table[matched].argtype
      case ArgNone =>
        if At(option, 2) != '\0' {
          r := Error(MSG_TOOMANY, option);
        } else {
          optind := optind + 1;
          r := matched;
        }
      case ArgRequired =>
        if At(option, 2) != '\0' {
          optarg := Some(option[2..]);
          optind := optind + 1;
          r := matched;
        } else if argv[optind + 1].Some? {
          assert argv[optind + 1].value == args[1];
          optarg := Some(argv[optind + 1].value);
          optind := optind + 2;
          r := matched;
        } else {
          var name := if table[matched].longname.Some? then table[matched].longname.value else namebuf;
          r := Error(MSG_MISSING, name);
        }
      case ArgOptional =>
        if At(option, 2) != '\0' {
          optarg := Some(option[2..]);
        }
        optind := optind + 1;
        r := matched;
    }

    method HandleLongopt(table: seq<OptionDef>) returns (r: int)
      requires Valid() && Terminated(table)
      requires optind < argv.Length - 1 && IsLong(Words()[optind])
      modifies `optind, `optopt, `optarg, errmsg
      ensures Valid()
      ensures var e := LongEffect(table, old(Words()[optind..]));
        r == e.code && optind == old(optind) + e.used && View() == e.fields
    {
      var word := argv[optind].value;
      ghost var args := Words()[optind..];
      assert word == args[0];
      ClearError();
      optopt := 0;
      optarg := None;
      var prefix := if At(word, 0) == '/' then 1 else 2;
      var option: CStr := word[prefix..];
      assert option == OptionText(word);
      optind := optind + 1;
      var i := 0;
      while !IsEnd(table[i])
        invariant i < |table|
        invariant exists j :: i <= j < |table| && IsEnd(table[j])
        invariant FindLong(table, option, 0) == FindLong(table, option, i)
        decreases |table| - i
      {
        var name := table[i].longname;
        if OptsMatch(name, option) {
          optopt := i;
          var arg := OptsArg(option);
          if table[i].argtype == ArgNone && arg.Some? {
            r := Error(MSG_TOOMANY, name.value);
            return;
          }
          if arg.Some? {
            optarg := arg;
          } else if table[i].argtype == ArgRequired {
            optarg := argv[optind];
            if optarg.None? {
              r := Error(MSG_MISSING, name.value);
              return;
            }
            assert argv[optind].value == args[1];
            optind := optind + 1;
          }
          r := i;
          return;
        }
        i := i + 1;
      }
      r := Error(MSG_INVALID, option);
    }

    /** optparse: parses the next option, recursing past non-options and moving them behind it. */
    method Parse(table: seq<OptionDef>) returns (r: int)
      requires Valid() && Terminated(table)
      modifies `optind, `optopt, `optarg, argv, errmsg
      ensures Valid()
      ensures var c := Call(table, old(Words()[optind..]), permute, old(View()));
        && r == c.code && optind == old(optind) + c.used && View() == c.fields
        && Words() == old(Words()[..optind]) + Moved(old(Words()[optind..]), c.skip, c.used)
      decreases argv.Length - optind, 1
    {
      hide Moved, CText, Values, FindShort, FindLong, ErrorText;
      ghost var before, args := Words()[..optind], Words()[optind..];
      assert Words() == before + args;
      var option := argv[optind];
      if option.Some? && IsNonOption(option.value) && permute {
        assert option.value == args[0];
        r := ParsePastNonoption(table);
        return;
      }
      MovedNothing(before, args, Call(table, args, permute, View()).used);
      if option.None? {
        return DONE;
      }
      assert option.value == args[0];
      if IsDashDash(option.value) {
        optind := optind + 1;
        r := DONE;
      } else if IsShort(option.value) {
        r := HandleShortopt(table);
      } else if IsLong(option.value) {
        r := HandleLongopt(table);
      } else {
        r := DONE;
      }
    }

    /** The permuting tail of optparse, on a word that is no option. */
    method ParsePastNonoption(table: seq<OptionDef>) returns (r: int)
      requires Valid() && Terminated(table)
      requires permute && optind < argv.Length - 1 && IsNonOption(Words()[optind])
      modifies `optind, `optopt, `optarg, argv, errmsg
      ensures Valid()
      ensures var c := Call(table, old(Words()[optind..]), permute, old(View()));
        && r == c.code && optind == old(optind) + c.used && View() == c.fields
        && Words() == old(Words()[..optind]) + Moved(old(Words()[optind..]), c.skip, c.used)
      decreases argv.Length - optind, 0
    {
      hide Moved, MoveBehind, CText, Values, HeadEffect, Terminated;
      ghost var before, args := Words()[..optind], Words()[optind..];
      ghost var inner := Call(table, args[1..], true, View());
      var index := optind;
      optind := optind + 1;
      TakeOneMore(Words(), index);
      r := Parse(table);
      MoveBehindExtendsMoved(before, args, inner.skip, inner.used);
      Permute(index);
      optind := optind - 1;
    }
  }
}
