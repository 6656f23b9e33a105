/** The comma-separated filters of nwinfo's options. */
module ArgFilter {
  import opened CStrings

  datatype Filter = Filter(arg: CStr, flag: bv64)

  /** The characters before the first comma. */
  function Head(s: string): (r: string)
    ensures |r| <= |s| && r == s[..|r|] && ',' !in r
    ensures |r| < |s| ==> s[|r|] == ','
  {
    if s == "" || s[0] == ',' then "" else [s[0]] + Head(s[1..])
  }

  lemma HeadAt(s: string, n: nat)
    requires n <= |s| && ',' !in s[..n] && (n == |s| || s[n] == ',')
    ensures Head(s) == s[..n]
  {}

  /** The tokens of a list; what follows a final comma is not one. */
  function Tokens(s: string): (r: seq<string>)
    ensures r == [] <==> s == ""
    ensures NulFree(s) ==> forall i :: 0 <= i < |r| ==> NulFree(r[i])
  {
    if s == "" then []
    else if Head(s) == s then [s]
    else [Head(s)] + Tokens(s[|Head(s)| + 1..])
  }

  /** The token starts with the prefix, ignoring case. */
  predicate Starts(token: string, extra: Option<string>) {
    extra.Some? && |extra.value| <= |token| && EqFold(token[..|extra.value|], extra.value)
  }

  /** The flag of the first filter that equals the token ignoring case. */
  function FlagOf(filters: seq<Filter>, token: string): bv64 {
    if filters == [] then 0
    else if EqFold(token, filters[0].arg) then filters[0].flag
    else FlagOf(filters[1..], token)
  }

  /** What one token adds. */
  function Bits(filters: seq<Filter>, extra: Option<string>, token: string): bv64 {
    if Starts(token, extra) then 0 else FlagOf(filters, token)
  }

  function Or(a: bv64, b: bv64): bv64 {
    a | b
  }

  /** All bits of all tokens that do not start with the prefix. */
  function Flags(filters: seq<Filter>, extra: Option<string>, tokens: seq<string>): bv64 {
    if tokens == [] then 0 else Or(Bits(filters, extra, tokens[0]), Flags(filters, extra, tokens[1..]))
  }

  /** The last token that starts with the prefix. */
  function LastStart(extra: Option<string>, tokens: seq<string>): Option<string> {
    if tokens == [] then None
    else if Starts(tokens[|tokens| - 1], extra) then Some(tokens[|tokens| - 1])
    else LastStart(extra, tokens[..|tokens| - 1])
  }

  // ----- the loop -----

  lemma TokensStep(s: string)
    requires s != ""
    ensures Tokens(s) == [Head(s)] + Tokens(if Head(s) == s then "" else s[|Head(s)| + 1..])
  {}

  method Strdup(s: CStr) returns (dup: array<char>)
    ensures fresh(dup) && dup[..] == s + "\0"
  {
    dup := new char[|s| + 1](i requires 0 <= i <= |s| => if i < |s| then s[i] else '\0');
  }

  lemma DoneMore(done: seq<string>, text: string, after: seq<string>)
    ensures done + ([text] + after) == (done + [text]) + after
  {}

  /** What is left to read at the token pointer. */
  predicate Unread(dup: array<char>, token: Option<nat>, rest: string)
    reads dup
  {
    if token.None? then rest == ""
    else token.value + |rest| + 1 == dup.Length && dup[token.value..] == rest + "\0"
  }

  lemma CutAt(dup: array<char>, token: nat, text: CStr, n: nat)
    requires token <= n && token + |text| + 1 == dup.Length && dup[token..] == text + "\0"
    requires n < dup.Length && ',' !in text[..n - token]
    ensures dup[n] == At(text, n - token)
    ensures dup[n + 1..] == if n - token < |text| then text[n - token + 1..] + "\0" else ""
    ensures n - token < |text| ==> text[..n - token + 1] == text[..n - token] + [dup[n]]
    ensures dup[token..n] == text[..n - token] && |text[..n - token]| == n - token
    ensures n - token == |text| || dup[n] == ',' ==> Head(text) == text[..n - token]
  {}

  /** strchr(token, ',') in the buffer, the cut there, and what is left to read. */
  method CutToken(dup: array<char>, token: nat, ghost text: CStr)
    returns (next: Option<nat>, str: CStr, ghost rest: CStr)
    requires text != "" && Unread(dup, Some(token), text)
    modifies dup
    ensures Tokens(text) == [str] + Tokens(rest) && |rest| < |text|
    ensures Unread(dup, next, rest)
  {
    hide Head, Tokens;
    var n := token;
    while dup[n] != '\0' && dup[n] != ','
      invariant token <= n < dup.Length && Unread(dup, Some(token), text)
      invariant ',' !in text[..n - token]
      decreases dup.Length - n
    {
      CutAt(dup, token, text, n);
      n := n + 1;
    }
    CutAt(dup, token, text, n);
    TokensStep(text);
    str := dup[token..n];
    if dup[n] == ',' {
      dup[n] := '\0';
      next, rest := Some(n + 1), text[n - token + 1..];
      assert |Head(text)| < |text|;
    } else {
      next, rest := None, "";
    }
  }

  /** The bounded comparison against the prefix's length is the prefix test. */
  lemma StartsIsStrnicmp(token: CStr, extra: CStr)
    ensures StrniEq(token, extra, |extra|) <==> Starts(token, Some(extra))
  {
    if |extra| <= |token| {
      StrniEqPrefix(token, extra, |extra|);
      assert extra[..|extra|] == extra;
    } else {
      StrniEqShort(token, extra, |extra|);
    }
  }

  lemma OrAssoc(a: bv64, b: bv64, c: bv64)
    ensures Or(Or(a, b), c) == Or(a, Or(b, c))
  {}

  lemma OrZero(a: bv64)
    ensures Or(a, 0) == a && Or(0, a) == a
  {}

  lemma {:induction false} FlagsJoin(filters: seq<Filter>, extra: Option<string>, a: seq<string>, b: seq<string>)
    ensures Flags(filters, extra, a + b) == Or(Flags(filters, extra, a), Flags(filters, extra, b))
  {
    hide Or;
    if a == [] {
      assert a + b == b;
      OrZero(Flags(filters, extra, b));
    } else {
      FlagsJoin(filters, extra, a[1..], b);
      assert (a + b)[1..] == a[1..] + b;
      OrAssoc(Bits(filters, extra, a[0]), Flags(filters, extra, a[1..]), Flags(filters, extra, b));
    }
  }

  lemma FlagsOne(filters: seq<Filter>, extra: Option<string>, token: string)
    ensures Flags(filters, extra, [token]) == Bits(filters, extra, token)
  {}

  /** The loop over the filter table, left at the first match. */
  method AddFlag(filters: seq<Filter>, token: CStr, flag: bv64) returns (sum: bv64)
    ensures sum == Or(flag, FlagOf(filters, token))
  {
    sum := flag;
    for j := 0 to |filters|
      invariant sum == flag && FlagOf(filters, token) == FlagOf(filters[j..], token)
    {
      if EqFold(token, filters[j].arg) {
        return sum | filters[j].flag;
      }
      assert filters[j..][1..] == filters[j + 1..];
    }
    OrZero(flag);
  }

  /** The flag word after these tokens. */
  function Sum(filters: seq<Filter>, extra: Option<string>, flag: bv64, tokens: seq<string>): bv64 {
    Or(flag, Flags(filters, extra, tokens))
  }

  lemma OneMore(filters: seq<Filter>, extra: Option<string>, flag: bv64, done: seq<string>, token: string)
    ensures Sum(filters, extra, flag, done + [token])
         == Or(Sum(filters, extra, flag, done), Bits(filters, extra, token))
    ensures LastStart(extra, done + [token]) == if Starts(token, extra) then Some(token) else LastStart(extra, done)
  {
    assert (done + [token])[..|done|] == done;
    hide Or, Flags, Bits, Starts;
    FlagsJoin(filters, extra, done, [token]);
    FlagsOne(filters, extra, token);
    OrAssoc(flag, Flags(filters, extra, done), Bits(filters, extra, token));
  }

  /** nwinfo_get_opts: the last prefixed token and the new flag word. */
  method GetOpts(arg: Option<CStr>, flag: bv64, filters: seq<Filter>, extra: Option<CStr>)
    returns (str: Option<CStr>, sum: bv64)
    ensures arg.None? ==> str == None && sum == flag
    ensures arg.Some? ==> str == LastStart(extra, Tokens(arg.value))
    ensures arg.Some? ==> sum == Sum(filters, extra, flag, Tokens(arg.value))
  {
    hide Sum, LastStart, Tokens;
    str, sum := None, flag;
    NoTokens(filters, extra, flag);
    if arg.None? || arg.value == "" {
      return;
    }
    var dup := Strdup(arg.value);
    var token: Option<nat> := Some(0);
    ghost var rest: CStr, done := arg.value, [];
    while token.Some? && dup[token.value] != '\0'
      invariant Unread(dup, token, rest)
      invariant done + Tokens(rest) == Tokens(arg.value)
      invariant str == LastStart(extra, done) && sum == Sum(filters, extra, flag, done)
      decreases |rest|
    {
      assert dup[token.value] == dup[token.value..][0];
      assert Unread(dup, Some(token.value), rest) && token == Some(token.value);
      var next, text, more := CutToken(dup, token.value, rest);
      sum, str := Use(filters, extra, text, flag, sum, str, done);
      DoneMore(done, text, Tokens(more));
      done, rest := done + [text], more;
      token := next;
    }
    assert token.Some? ==> dup[token.value..][0] == dup[token.value];
    assert done + [] == done;
  }

  lemma NoTokens(filters: seq<Filter>, extra: Option<string>, flag: bv64)
    ensures Sum(filters, extra, flag, []) == flag && LastStart(extra, []) == None && Tokens("") == []
  {}

  /** The body of the loop on one token. */
  method Use(filters: seq<Filter>, extra: Option<CStr>, token: CStr, ghost flag: bv64, sum: bv64, str: Option<CStr>,
      ghost done: seq<string>) returns (newSum: bv64, newStr: Option<CStr>)
    requires str == LastStart(extra, done) && sum == Sum(filters, extra, flag, done)
    ensures newStr == LastStart(extra, done + [token]) && newSum == Sum(filters, extra, flag, done + [token])
  {
    hide Or, Sum, FlagOf, StrniEq, LastStart;
    newSum, newStr := sum, str;
    OneMore(filters, extra, flag, done, token);
    if extra.Some? { StartsIsStrnicmp(token, extra.value); }
    if extra.Some? && StrniEq(token, extra.value, |extra.value|) {
      newStr := Some(token);
      OrZero(sum);
    } else {
      newSum := AddFlag(filters, token, sum);
    }
  }

  // ----- what the flags depend on -----

  lemma FlagsPick(filters: seq<Filter>, extra: Option<string>, tokens: seq<string>, i: nat)
    requires i < |tokens|
    ensures Flags(filters, extra, tokens)
         == Or(Bits(filters, extra, tokens[i]), Flags(filters, extra, tokens[..i] + tokens[i + 1..]))
  {
    hide Or, Flags, Bits;
    var a, t, b := tokens[..i], tokens[i], tokens[i + 1..];
    assert tokens == a + ([t] + b);
    FlagsJoin(filters, extra, a, [t] + b);
    FlagsJoin(filters, extra, [t], b);
    FlagsOne(filters, extra, t);
    FlagsJoin(filters, extra, a, b);
    OrSwap(Flags(filters, extra, a), Bits(filters, extra, t), Flags(filters, extra, b));
  }

  lemma OrSwap(a: bv64, t: bv64, b: bv64)
    ensures Or(a, Or(t, b)) == Or(t, Or(a, b))
  {}

  lemma SameRest(a: seq<string>, b: seq<string>) returns (i: nat)
    requires a != [] && multiset(a) == multiset(b)
    ensures i < |b| && b[i] == a[0] && multiset(a[1..]) == multiset(b[..i] + b[i + 1..])
  {
    assert a[0] in multiset(b);
    i :| 0 <= i < |b| && b[i] == a[0];
    WithoutOne(a, 0);
    WithoutOne(b, i);
    assert a[..0] + a[1..] == a[1..];
  }

  lemma WithoutOne(s: seq<string>, i: nat)
    requires i < |s|
    ensures multiset(s[..i] + s[i + 1..]) == multiset(s) - multiset{s[i]}
  {
    assert s == s[..i] + [s[i]] + s[i + 1..];
  }

  /** The order of the tokens does not matter. */
  lemma {:induction false} FlagsPermute(filters: seq<Filter>, extra: Option<string>, a: seq<string>, b: seq<string>)
    requires multiset(a) == multiset(b)
    ensures Flags(filters, extra, a) == Flags(filters, extra, b)
  {
    if a == [] {
      assert b == [] by { assert |b| == |multiset(b)|; }
    } else {
      FlagsPick(filters, extra, a, 0);
      hide Or, Flags, Bits;
      var i := SameRest(a, b);
      assert a[..0] + a[1..] == a[1..];
      FlagsPermute(filters, extra, a[1..], b[..i] + b[i + 1..]);
      FlagsPick(filters, extra, b, i);
    }
  }

  /** The tokens before the first empty one. */
  function BeforeEmpty(tokens: seq<string>): (r: seq<string>)
    ensures r <= tokens && "" !in r
    ensures |r| < |tokens| ==> tokens[|r|] == ""
  {
    if tokens == [] || tokens[0] == "" then [] else [tokens[0]] + BeforeEmpty(tokens[1..])
  }

  /** A filter table without an empty name. */
  predicate Named(filters: seq<Filter>) {
    forall j :: 0 <= j < |filters| ==> filters[j].arg != ""
  }

  /** Every token that can set a flag equals, ignoring case, one before the first empty token. */
  predicate NothingNew(extra: Option<string>, tokens: seq<string>) {
    forall i :: 0 <= i < |tokens| && tokens[i] != "" && !Starts(tokens[i], extra) ==>
      Repeats(tokens[i], BeforeEmpty(tokens))
  }

  predicate Repeats(token: string, tokens: seq<string>) {
    exists j :: 0 <= j < |tokens| && EqFold(token, tokens[j])
  }

  /** Each token's bits are in the sum. */
  lemma Absorbs(filters: seq<Filter>, extra: Option<string>, tokens: seq<string>, i: nat)
    requires i < |tokens|
    ensures Or(Flags(filters, extra, tokens), Bits(filters, extra, tokens[i])) == Flags(filters, extra, tokens)
  {
    FlagsPick(filters, extra, tokens, i);
    hide Or, Flags, Bits;
    OrAgain(Bits(filters, extra, tokens[i]), Flags(filters, extra, tokens[..i] + tokens[i + 1..]));
  }

  lemma OrAgain(a: bv64, b: bv64)
    ensures Or(Or(a, b), a) == Or(a, b)
  {
    OrComm(a, b);
    OrSame(a);
    hide Or;
    OrAssoc(b, a, a);
  }

  lemma OrComm(a: bv64, b: bv64)
    ensures Or(a, b) == Or(b, a)
  {}

  lemma OrSame(a: bv64)
    ensures Or(a, a) == a
  {}

  lemma {:induction false} FlagOfFold(filters: seq<Filter>, a: string, b: string)
    requires EqFold(a, b)
    ensures FlagOf(filters, a) == FlagOf(filters, b)
  {
    if filters != [] { FlagOfFold(filters[1..], a, b); }
  }

  lemma {:induction false} EmptyHasNoFlag(filters: seq<Filter>)
    requires Named(filters)
    ensures FlagOf(filters, "") == 0
  {
    if filters != [] { EmptyHasNoFlag(filters[1..]); }
  }

  /** Tokens whose bits are all in the sum of the first ones add nothing. */
  lemma {:induction false} AddsNothing(filters: seq<Filter>, extra: Option<string>, first: seq<string>,
      more: seq<string>)
    requires forall i :: 0 <= i < |more| ==>
      Or(Flags(filters, extra, first), Bits(filters, extra, more[i])) == Flags(filters, extra, first)
    ensures Or(Flags(filters, extra, first), Flags(filters, extra, more)) == Flags(filters, extra, first)
  {
    if more == [] {
      OrZero(Flags(filters, extra, first));
    } else {
      hide Or, Bits;
      AddsNothing(filters, extra, first, more[1..]);
      OrAssoc(Flags(filters, extra, first), Bits(filters, extra, more[0]), Flags(filters, extra, more[1..]));
    }
  }

  /** A token sets no flag or the flag of one of the first tokens. */
  lemma RepeatedBits(filters: seq<Filter>, extra: Option<string>, tokens: seq<string>, i: nat) returns (j: nat)
    requires Named(filters) && NothingNew(extra, tokens) && i < |tokens|
    ensures var first := BeforeEmpty(tokens);
      || Bits(filters, extra, tokens[i]) == 0
      || (j < |first| && Bits(filters, extra, tokens[i]) == Bits(filters, extra, first[j]))
  {
    hide FlagOf, EqFold, BeforeEmpty, Starts;
    var t, first := tokens[i], BeforeEmpty(tokens);
    j := 0;
    if t == "" {
      EmptyHasNoFlag(filters);
    } else if !Starts(t, extra) {
      j :| 0 <= j < |first| && EqFold(t, first[j]);
      FlagOfFold(filters, t, first[j]);
      StartsFold(t, first[j], extra);
    }
  }

  lemma StartsFold(a: string, b: string, extra: Option<string>)
    requires EqFold(a, b)
    ensures Starts(a, extra) <==> Starts(b, extra)
  {}

  lemma {:induction false} OneNameFlags(t: CStr, extra: Option<string>, tokens: seq<string>)
    requires !Repeats(t, tokens)
    ensures Flags([Filter(t, 1)], extra, tokens) == 0
  {
    if tokens != [] {
      assert !EqFold(t, tokens[0]) && (EqFold(tokens[0], t) ==> EqFold(t, tokens[0]));
      NoFlag([Filter(t, 1)], extra, tokens[0]);
      forall j | 0 <= j < |tokens[1..]|
        ensures !EqFold(t, tokens[1..][j])
      {
        assert !EqFold(t, tokens[j + 1]);
      }
      OneNameFlags(t, extra, tokens[1..]);
      OrZero(0);
    }
  }

  lemma NoFlag(filters: seq<Filter>, extra: Option<string>, token: string)
    requires |filters| == 1 && !EqFold(token, filters[0].arg)
    ensures Bits(filters, extra, token) == 0
  {
    assert filters[1..] == [] && FlagOf(filters[1..], token) == 0;
  }

  lemma SetsOne(t: CStr, extra: Option<string>, tokens: seq<string>, i: nat)
    requires i < |tokens| && tokens[i] == t && !Starts(t, extra)
    ensures Flags([Filter(t, 1)], extra, tokens) != 0
  {
    Absorbs([Filter(t, 1)], extra, tokens, i);
    assert Bits([Filter(t, 1)], extra, t) == 1;
    OrOne(Flags([Filter(t, 1)], extra, tokens));
  }

  lemma OrOne(a: bv64)
    ensures Or(a, 1) != 0
  {}

  lemma AddsNoBits(filters: seq<Filter>, extra: Option<string>, tokens: seq<string>, i: nat)
    requires Named(filters) && NothingNew(extra, tokens) && i < |tokens|
    ensures var f := Flags(filters, extra, BeforeEmpty(tokens)); Or(f, Bits(filters, extra, tokens[i])) == f
  {
    hide Or, Flags, Bits, BeforeEmpty, Named, NothingNew;
    var first := BeforeEmpty(tokens);
    var j := RepeatedBits(filters, extra, tokens, i);
    if j < |first| { Absorbs(filters, extra, first, j); }
    OrZero(Flags(filters, extra, first));
  }

  /** If later tokens repeat earlier ones, stopping at the empty token would make no difference. */
  lemma RepeatsAddNothing(filters: seq<Filter>, extra: Option<string>, tokens: seq<string>)
    requires Named(filters) && NothingNew(extra, tokens)
    ensures Flags(filters, extra, tokens) == Flags(filters, extra, BeforeEmpty(tokens))
  {
    hide Or, Flags, Bits, Starts, Named, NothingNew;
    var first := BeforeEmpty(tokens);
    var more := tokens[|first|..];
    assert tokens == first + more;
    FlagsJoin(filters, extra, first, more);
    forall i | 0 <= i < |more|
      ensures Or(Flags(filters, extra, first), Bits(filters, extra, more[i])) == Flags(filters, extra, first)
    {
      AddsNoBits(filters, extra, tokens, |first| + i);
    }
    AddsNothing(filters, extra, first, more);
  }

  /** A new token after the empty one shows in the flags for some table. */
  lemma NewTokenShows(extra: Option<string>, tokens: seq<CStr>) returns (filters: seq<Filter>)
    requires !NothingNew(extra, tokens)
    ensures Named(filters) && Flags(filters, extra, tokens) != Flags(filters, extra, BeforeEmpty(tokens))
  {
    hide Flags, Starts, Repeats;
    var i :| 0 <= i < |tokens| && tokens[i] != "" && !Starts(tokens[i], extra)
      && !Repeats(tokens[i], BeforeEmpty(tokens));
    filters := [Filter(tokens[i], 1)];
    SetsOne(tokens[i], extra, tokens, i);
    OneNameFlags(tokens[i], extra, BeforeEmpty(tokens));
  }

  /** An empty token in the middle does not end the list: for all tables the flags are those of the
      tokens before the first empty one exactly when the tokens after it repeat earlier ones. */
  lemma EmptyTokenDoesNotStop(extra: Option<string>, s: CStr)
    ensures (forall filters | Named(filters) ::
               Flags(filters, extra, Tokens(s)) == Flags(filters, extra, BeforeEmpty(Tokens(s))))
      <==> NothingNew(extra, Tokens(s))
  {
    hide Flags, NothingNew, Named, BeforeEmpty;
    var tokens := Tokens(s);
    if NothingNew(extra, tokens) {
      forall filters | Named(filters)
        ensures Flags(filters, extra, tokens) == Flags(filters, extra, BeforeEmpty(tokens))
      {
        RepeatsAddNothing(filters, extra, tokens);
      }
    } else {
      var filters := NewTokenShows(extra, tokens);
    }
  }

  /** "a,,b" sets the flag of b as well. */
  lemma EmptyTokenExample()
    ensures Tokens("a,,b") == ["a", "", "b"] && !NothingNew(None, ["a", "", "b"])
  {
    var tokens := ["a", "", "b"];
    var first := BeforeEmpty(tokens);
    assert first[0] == tokens[0] && |first| == 1;
    assert NothingNew(None, tokens) ==> Repeats(tokens[2], first);
    ExampleTokens();
  }

  lemma ExampleTokens()
    ensures Tokens("a,,b") == ["a", "", "b"]
  {
    HeadAt("a,,b", 1);
    HeadAt(",b", 0);
    HeadAt("b", 1);
    TokensStep("a,,b");
    TokensStep(",b");
    TokensStep("b");
    assert Tokens("") == [];
    assert "a,,b"[2..] == ",b" && ",b"[1..] == "b" && "b"[..1] == "b" && "a,,b"[..1] == "a";
    hide Head, Tokens;
    assert Tokens("b") == ["b"] + Tokens("");
    assert Tokens(",b") == [""] + Tokens("b");
    assert Tokens("a,,b") == ["a"] + Tokens(",b");
  }

  lemma {:induction false} LastStartJoin(extra: Option<string>, a: seq<string>, b: seq<string>)
    ensures LastStart(extra, a + b) == if LastStart(extra, b).Some? then LastStart(extra, b) else LastStart(extra, a)
    decreases |b|
  {
    if b == [] {
      assert a + b == a;
    } else {
      var n := |b| - 1;
      assert (a + b)[..|a + b| - 1] == a + b[..n] && (a + b)[|a + b| - 1] == b[n];
      LastStartJoin(extra, a, b[..n]);
    }
  }

  lemma {:induction false} NoStart(extra: Option<string>, tokens: seq<string>)
    ensures LastStart(extra, tokens).None? <==> forall i :: 0 <= i < |tokens| ==> !Starts(tokens[i], extra)
    decreases |tokens|
  {
    if tokens != [] { NoStart(extra, tokens[..|tokens| - 1]); }
  }

  /** Nor does it end the search for the prefix: the token returned is the one found before the first empty token
      exactly when no later token starts with the prefix or the last that does has the same text. */
  lemma EmptyTokenAndPrefix(extra: Option<string>, s: CStr)
    ensures var tokens := Tokens(s); var first := BeforeEmpty(tokens); var more := tokens[|first|..];
      LastStart(extra, tokens) == LastStart(extra, first) <==>
        (forall i :: 0 <= i < |more| ==> !Starts(more[i], extra)) || LastStart(extra, more) == LastStart(extra, first)
  {
    var tokens := Tokens(s);
    var first := BeforeEmpty(tokens);
    var more := tokens[|first|..];
    hide LastStart, Starts, Tokens, BeforeEmpty;
    assert tokens == first + more;
    LastStartJoin(extra, first, more);
    NoStart(extra, more);
  }

  /** "a,,x1" gives x1 for the prefix x. */
  lemma EmptyTokenPrefixExample()
    ensures Tokens("a,,x1") == ["a", "", "x1"]
    ensures LastStart(Some("x"), ["a", "", "x1"]) == Some("x1")
    ensures LastStart(Some("x"), BeforeEmpty(["a", "", "x1"])) == None
  {
    var tokens, first := ["a", "", "x1"], BeforeEmpty(["a", "", "x1"]);
    assert Starts(tokens[2], Some("x")) by { assert "x1"[..1] == "x"; }
    assert first[0] == tokens[0] && |first| == 1;
    assert first == ["a"] && "a"[..1] == "a" && "a"[0] == 'a' && "x"[0] == 'x';
    assert !Starts("a", Some("x"));
    assert first[..0] == [];
    PrefixExampleTokens();
  }

  lemma PrefixExampleTokens()
    ensures Tokens("a,,x1") == ["a", "", "x1"]
  {
    HeadAt("a,,x1", 1);
    HeadAt(",x1", 0);
    HeadAt("x1", 2);
    TokensStep("a,,x1");
    TokensStep(",x1");
    TokensStep("x1");
    assert "a,,x1"[2..] == ",x1" && ",x1"[1..] == "x1" && "x1"[..2] == "x1" && "a,,x1"[..1] == "a";
    hide Head, Tokens;
    assert Tokens("x1") == ["x1"] + Tokens("") && Tokens("") == [] by { NoTokensInNothing(); }
    assert Tokens(",x1") == [""] + Tokens("x1");
    assert Tokens("a,,x1") == ["a"] + Tokens(",x1");
  }

  lemma NoTokensInNothing()
    ensures Tokens("") == []
  {}
}
