/** Which bits the filters of an option set, and which token is returned. */
module ArgFilterBits {
  import opened CStrings
  import opened ArgFilter

  /** No two names of the table are equal ignoring case. */
  ghost predicate Distinct(filters: seq<Filter>) {
    forall i, j :: 0 <= i < j < |filters| ==> !EqFold(filters[i].arg, filters[j].arg)
  }

  /** With distinct names a token has exactly the flag of the entry it equals. */
  lemma {:induction false} OwnFlag(filters: seq<Filter>, token: string, i: nat)
    requires Distinct(filters) && i < |filters| && EqFold(token, filters[i].arg)
    ensures FlagOf(filters, token) == filters[i].flag
  {
    if i > 0 {
      assert !EqFold(filters[0].arg, filters[i].arg);
      FoldsApart(token, filters[0].arg, filters[i].arg);
      assert filters[1..][i - 1] == filters[i];
      OwnFlag(filters[1..], token, i - 1);
    }
  }

  lemma FoldsApart(token: string, a: string, b: string)
    requires !EqFold(a, b) && EqFold(token, b)
    ensures !EqFold(token, a)
  {}

  lemma {:induction false} NoName(filters: seq<Filter>, token: string)
    requires forall i :: 0 <= i < |filters| ==> !EqFold(token, filters[i].arg)
    ensures FlagOf(filters, token) == 0
  {
    if filters != [] {
      assert forall i :: 0 <= i < |filters[1..]| ==> filters[1..][i] == filters[i + 1];
      NoName(filters[1..], token);
    }
  }

  predicate Has(word: bv64, mask: bv64) {
    word & mask != 0
  }

  lemma OrHas(a: bv64, b: bv64, mask: bv64)
    ensures Has(Or(a, b), mask) <==> Has(a, mask) || Has(b, mask)
    ensures !Has(0, mask)
  {
    Distribute(a, b, mask);
    OrIsZero(a & mask, b & mask);
  }

  lemma Distribute(a: bv64, b: bv64, mask: bv64)
    ensures (a | b) & mask == (a & mask) | (b & mask)
  {}

  lemma OrIsZero(a: bv64, b: bv64)
    ensures a | b == 0 <==> a == 0 && b == 0
  {}

  /** Token i equals entry j ignoring case, does not start with the prefix, and the entry has one of these bits. */
  ghost predicate Sets(filters: seq<Filter>, extra: Option<string>, tokens: seq<string>, i: nat, j: nat, mask: bv64) {
    && i < |tokens| && j < |filters|
    && !(extra.Some? && |extra.value| <= |tokens[i]| && EqFold(tokens[i][..|extra.value|], extra.value))
    && EqFold(tokens[i], filters[j].arg) && Has(filters[j].flag, mask)
  }

  ghost predicate AnySets(filters: seq<Filter>, extra: Option<string>, tokens: seq<string>, mask: bv64) {
    exists i: nat, j: nat :: Sets(filters, extra, tokens, i, j, mask)
  }

  lemma TokenSets(filters: seq<Filter>, extra: Option<string>, token: string, mask: bv64)
    requires Distinct(filters)
    ensures Has(Bits(filters, extra, token), mask) <==> AnySets(filters, extra, [token], mask)
  {
    OrHas(0, 0, mask);
    hide Has, EqFold, FlagOf;
    if Has(Bits(filters, extra, token), mask) {
      if forall j :: 0 <= j < |filters| ==> !EqFold(token, filters[j].arg) {
        NoName(filters, token);
      } else {
        var j: nat :| j < |filters| && EqFold(token, filters[j].arg);
        OwnFlag(filters, token, j);
        assert Sets(filters, extra, [token], 0, j, mask);
      }
    }
    if i: nat, j: nat :| Sets(filters, extra, [token], i, j, mask) { OwnFlag(filters, token, j); }
  }

  /** With distinct names a bit is set in the sum exactly when it was set before or a token that does not start with
      the prefix is the name of an entry with that bit. */
  lemma {:induction false} FlagsHave(filters: seq<Filter>, extra: Option<string>, tokens: seq<string>, mask: bv64)
    requires Distinct(filters)
    ensures Has(Flags(filters, extra, tokens), mask) <==> AnySets(filters, extra, tokens, mask)
  {
    if tokens == [] {
      OrHas(0, 0, mask);
    } else {
      OrHas(Bits(filters, extra, tokens[0]), Flags(filters, extra, tokens[1..]), mask);
      TokenSets(filters, extra, tokens[0], mask);
      FlagsHave(filters, extra, tokens[1..], mask);
      hide Has, Or, Bits, Distinct;
      SetsMore(filters, extra, tokens, mask);
    }
  }

  lemma SetsMore(filters: seq<Filter>, extra: Option<string>, tokens: seq<string>, mask: bv64)
    requires tokens != []
    ensures AnySets(filters, extra, tokens, mask) <==>
      AnySets(filters, extra, [tokens[0]], mask) || AnySets(filters, extra, tokens[1..], mask)
  {
    hide Has, EqFold;
    if i: nat, j: nat :| Sets(filters, extra, tokens, i, j, mask) {
      if i == 0 {
        assert Sets(filters, extra, [tokens[0]], 0, j, mask);
      } else {
        assert Sets(filters, extra, tokens[1..], i - 1, j, mask);
      }
    }
    if i: nat, j: nat :| Sets(filters, extra, [tokens[0]], i, j, mask) {
      assert Sets(filters, extra, tokens, 0, j, mask);
    }
    if i: nat, j: nat :| Sets(filters, extra, tokens[1..], i, j, mask) {
      assert Sets(filters, extra, tokens, i + 1, j, mask);
    }
  }

  /** The flag word of nwinfo_get_opts, bit by bit. */
  lemma SumHas(filters: seq<Filter>, extra: Option<string>, flag: bv64, tokens: seq<string>, mask: bv64)
    requires Distinct(filters)
    ensures Has(Sum(filters, extra, flag, tokens), mask) <==>
      Has(flag, mask) || exists i: nat, j: nat :: Sets(filters, extra, tokens, i, j, mask)
  {
    OrHas(flag, Flags(filters, extra, tokens), mask);
    hide Has, Or, Flags;
    FlagsHave(filters, extra, tokens, mask);
  }

  /** The token returned is the last one that starts with the prefix. */
  lemma {:induction false} LastStartIs(extra: Option<string>, tokens: seq<string>, i: nat)
    requires i < |tokens| && Starts(tokens[i], extra)
    requires forall k :: i < k < |tokens| ==> !Starts(tokens[k], extra)
    ensures LastStart(extra, tokens) == Some(tokens[i])
    decreases |tokens|
  {
    if i < |tokens| - 1 { LastStartIs(extra, tokens[..|tokens| - 1], i); }
  }

  // ----- lists -----

  /** Tokens with commas between. */
  function Join(tokens: seq<string>): string {
    if tokens == [] then "" else if |tokens| == 1 then tokens[0] else tokens[0] + "," + Join(tokens[1..])
  }

  /** The tokens of such a list are the ones joined, unless it ends in an empty one; a comma behind it adds none. */
  lemma {:induction false} JoinTokens(tokens: seq<string>)
    requires tokens != [] && tokens[|tokens| - 1] != ""
    requires forall i :: 0 <= i < |tokens| ==> ',' !in tokens[i]
    ensures Tokens(Join(tokens)) == tokens && Tokens(Join(tokens) + ",") == tokens
  {
    hide Tokens, Join;
    var t, more := tokens[0], tokens[1..];
    if |tokens| == 1 {
      OneToken(t);
      JoinOne(t);
      assert tokens == [t];
    } else {
      assert forall i :: 0 <= i < |more| ==> more[i] == tokens[i + 1];
      JoinTokens(more);
      JoinCons(t, more);
      assert tokens == [t] + more;
    }
  }

  lemma JoinCons(t: string, more: seq<string>)
    requires more != [] && ',' !in t && Tokens(Join(more)) == Tokens(Join(more) + ",") == more
    ensures Tokens(Join([t] + more)) == Tokens(Join([t] + more) + ",") == [t] + more
  {
    JoinStep([t] + more);
    hide Tokens, Join;
    assert ([t] + more)[1..] == more;
    assert t + "," + Join(more) + "," == t + "," + (Join(more) + ",");
    FirstToken(t, Join(more));
    FirstToken(t, Join(more) + ",");
  }

  lemma JoinOne(t: string)
    ensures Join([t]) == t
  {}

  lemma JoinStep(tokens: seq<string>)
    requires |tokens| > 1
    ensures Join(tokens) == tokens[0] + "," + Join(tokens[1..])
  {}

  lemma FirstToken(t: string, rest: string)
    requires ',' !in t
    ensures Tokens(t + "," + rest) == [t] + Tokens(rest)
  {
    var s := t + "," + rest;
    assert s[..|t|] == t && s[|t|] == ',' && s[|t| + 1..] == rest;
    HeadAt(s, |t|);
  }

  lemma OneToken(t: string)
    requires t != "" && ',' !in t
    ensures Tokens(t) == [t] && Tokens(t + ",") == [t]
  {
    HeadAt(t, |t|);
    assert t[..|t|] == t && t + "," + "" == t + ",";
    FirstToken(t, "");
  }
}
