/** The sets of names or numbers that options of nwinfo take as comma-separated lists. */
module ArgSet {
  import opened CStrings
  import opened Numbers
  import opened ArgFilter

  // ----- numbers -----

  const ULLONG_MAX := 0xFFFF_FFFF_FFFF_FFFF

  function DropSpaces(s: string): (r: string)
    ensures |r| <= |s|
  {
    if s != "" && IsSpace(s[0]) then DropSpaces(s[1..]) else s
  }

  function Whole(digits: string, base: nat): Option<nat> {
    if digits == "" || !Digits(digits, base) then None else Some(ValueIn(digits, base))
  }

  /** A number: hexadecimal behind "0x", octal behind "0", else decimal. */
  function Unsigned(s: string): Option<nat> {
    if |s| > 2 && s[0] == '0' && (s[1] == 'x' || s[1] == 'X') && DigitValue(s[2]) < 16 then Whole(s[2..], 16)
    else if s != "" && s[0] == '0' then Whole(s, 8)
    else Whole(s, 10)
  }

  /** _strtoui64(token, &end, 0) where it reads the token to its end: spaces, a sign, a number; too large a number
      saturates, and a sign negates in 64 bits. */
  function Strtoui64(token: string): (v: Option<nat>)
    ensures v.Some? ==> v.value <= ULLONG_MAX
  {
    var s := DropSpaces(token);
    var signed := s != "" && (s[0] == '-' || s[0] == '+');
    match Unsigned(if signed then s[1..] else s)
    case None => None
    case Some(v) =>
      Some(if v > ULLONG_MAX then ULLONG_MAX else if signed && s[0] == '-' && v > 0 then ULLONG_MAX + 1 - v else v)
  }

  lemma ReadsPlain(s: string)
    requires s != "" && '1' <= s[0] <= '9' && Digits(s, 10) && ValueIn(s, 10) <= ULLONG_MAX
    ensures Strtoui64(s) == Some(ValueIn(s, 10))
  {}

  lemma ReadsZero()
    ensures Strtoui64("0") == Some(0)
  {}

  /** A number printed in decimal is read back. */
  lemma ReadsDecimal(n: nat)
    requires n <= ULLONG_MAX
    ensures Strtoui64(Decimal(n)) == Some(n)
  {
    DecimalValue(n);
    if n == 0 {
      ReadsZero();
      assert Decimal(0) == "0";
    } else {
      assert IsDigit(Decimal(n)[0]);
      hide Decimal, Strtoui64, ValueIn;
      ReadsPlain(Decimal(n));
    }
  }

  /** A number written with digits of a base. */
  predicate Written(digits: string, base: nat) {
    digits != "" && Digits(digits, base) && ValueIn(digits, base) <= 0xFFFF_FFFF_FFFF_FFFF
  }

  /** Hexadecimal digits behind "0x" or "0X" are read in base 16, digits behind "0" in base 8, and any others in
      base 10. */
  lemma ReadsBases(x: string)
    ensures Written(x, 16) ==> Strtoui64("0x" + x) == Strtoui64("0X" + x) == Some(ValueIn(x, 16))
    ensures Written(x, 8) ==> Strtoui64("0" + x) == Some(ValueIn(x, 8))
    ensures Written(x, 10) && x[0] != '0' ==> Strtoui64(x) == Some(ValueIn(x, 10))
  {
    hide ValueIn, Digits;
    if Written(x, 16) {
      FirstDigit(x, 16);
      assert ("0x" + x)[2..] == x && ("0X" + x)[2..] == x;
    }
    if Written(x, 8) {
      FirstDigit(x, 8);
      LeadingZero(x, 8);
    }
    if Written(x, 10) { FirstDigit(x, 10); }
  }

  lemma FirstDigit(x: string, base: nat)
    requires x != "" && Digits(x, base) && base <= 16
    ensures DigitValue(x[0]) < base && !IsSpace(x[0]) && x[0] != '-' && x[0] != '+' && (base <= 10 ==> IsDigit(x[0]))
  {}

  lemma {:induction false} LeadingZero(x: string, base: nat)
    requires Digits(x, base) && base > 0
    ensures Digits("0" + x, base) && ValueIn("0" + x, base) == ValueIn(x, base)
  {
    if x != "" {
      var n := |x| - 1;
      assert ("0" + x)[..n + 1] == "0" + x[..n] && ("0" + x)[n + 1] == x[n];
      LeadingZero(x[..n], base);
    } else {
      assert "0" + x == "0" && "0"[..0] == "" && ValueIn("", base) == 0;
    }
  }

  /** A sign in front: "+" changes nothing, "-" negates in 64 bits. */
  lemma ReadsSigned(n: nat)
    requires n <= 0xFFFF_FFFF_FFFF_FFFF
    ensures Strtoui64("+" + Decimal(n)) == Some(n)
    ensures Strtoui64("-" + Decimal(n)) == Some(if n == 0 then 0 else 0x1_0000_0000_0000_0000 - n)
  {
    var d := Decimal(n);
    DecimalValue(n);
    PlainUnsigned(n);
    assert ("+" + d)[1..] == d && ("-" + d)[1..] == d;
    hide Decimal, Unsigned, ValueIn;
    assert DropSpaces("+" + d) == "+" + d && DropSpaces("-" + d) == "-" + d;
  }

  lemma PlainUnsigned(n: nat)
    ensures Unsigned(Decimal(n)) == Some(n)
  {
    DecimalValue(n);
    assert IsDigit(Decimal(n)[0]);
    if n == 0 { assert Decimal(0) == "0" && "0"[..0] == "" && ValueIn("", 8) == 0; }
  }

  /** White space in front is passed over. */
  lemma {:induction false} ReadsSpaced(w: string, s: string)
    requires forall i :: 0 <= i < |w| ==> IsSpace(w[i])
    ensures Strtoui64(w + s) == Strtoui64(s)
  {
    if w == "" {
      assert w + s == s;
    } else {
      assert (w + s)[1..] == w[1..] + s;
      ReadsSpaced(w[1..], s);
      hide Unsigned;
    }
  }

  /** Numbers of more than 64 bits are read as the greatest one. */
  lemma ReadsTooLarge(n: nat)
    requires n > 0xFFFF_FFFF_FFFF_FFFF
    ensures Strtoui64(Decimal(n)) == Some(0xFFFF_FFFF_FFFF_FFFF)
  {
    DecimalValue(n);
    PlainUnsigned(n);
    assert IsDigit(Decimal(n)[0]);
    hide Decimal, Unsigned, ValueIn;
  }

  // ----- keys -----

  const KEY_SIZE := 8

  /** NWL_ArgKeyFromStr: at most eight characters, the rest zeros. */
  function StrKey(value: string): (k: string)
    ensures |k| == 8
  {
    seq(KEY_SIZE, i requires 0 <= i < KEY_SIZE => At(value, i))
  }

  /** Two names of at most eight characters have the same key only if they are equal. */
  lemma StrKeyInjective(a: CStr, b: CStr)
    requires |a| <= 8 && |b| <= 8 && StrKey(a) == StrKey(b)
    ensures a == b
  {
    forall i | 0 <= i < KEY_SIZE
      ensures At(a, i) == At(b, i)
    {
      assert StrKey(a)[i] == At(a, i) && StrKey(b)[i] == At(b, i);
    }
    assert |a| < KEY_SIZE ==> At(b, |a|) == '\0';
    assert |b| < KEY_SIZE ==> At(a, |b|) == '\0';
    assert |a| == |b|;
    assert forall i :: 0 <= i < |a| ==> a[i] == At(a, i) && b[i] == At(b, i);
  }

  /** The bytes of a number, lowest first. */
  function Bytes(v: nat, n: nat): (k: string)
    ensures |k| == n
  {
    if n == 0 then "" else [(v % 256) as char] + Bytes(v / 256, n - 1)
  }

  /** Numbers below 256^n with the same n bytes are equal. */
  lemma {:induction false} BytesInjective(a: nat, b: nat, n: nat)
    requires a < Pow(256, n) && b < Pow(256, n) && Bytes(a, n) == Bytes(b, n)
    ensures a == b
    decreases n
  {
    if n > 0 {
      assert Bytes(a, n)[0] == Bytes(b, n)[0] && Bytes(a, n)[1..] == Bytes(b, n)[1..];
      assert Pow(256, n) == 256 * Pow(256, n - 1);
      BytesInjective(a / 256, b / 256, n - 1);
    }
  }

  /** NWL_ArgKeyFromU64 */
  function U64Key(v: nat): (k: string)
    ensures |k| == 8
  {
    Bytes(v, KEY_SIZE)
  }

  /** Reading bytes, lowest first. */
  function Little(k: string): nat {
    if k == "" then 0 else k[0] as int + 256 * Little(k[1..])
  }

  lemma {:induction false} BytesReadBack(v: nat, n: nat)
    requires v < Pow(256, n)
    ensures Little(Bytes(v, n)) == v && forall i :: 0 <= i < n ==> Bytes(v, n)[i] as int < 256
    decreases n
  {
    if n > 0 {
      assert Bytes(v, n)[1..] == Bytes(v / 256, n - 1);
      assert Pow(256, n) == 256 * Pow(256, n - 1);
      BytesReadBack(v / 256, n - 1);
    }
  }

  /** The key of a number holds its eight bytes, lowest first. */
  lemma U64KeyReadsBack(v: nat)
    requires v <= 0xFFFF_FFFF_FFFF_FFFF
    ensures Little(U64Key(v)) == v && forall i :: 0 <= i < 8 ==> U64Key(v)[i] as int < 256
  {
    assert Pow(256, 4) == 0x1_0000_0000;
    assert Pow(256, 8) == 0x1_0000_0000_0000_0000;
    BytesReadBack(v, 8);
  }

  /** The key of a name holds its first eight characters, with zeros behind a shorter one. */
  lemma StrKeyText(a: CStr)
    ensures |a| >= 8 ==> StrKey(a) == a[..8]
    ensures |a| < 8 ==> StrKey(a)[..|a|] == a && forall i :: |a| <= i < 8 ==> StrKey(a)[i] == '\0'
  {}

  lemma U64KeyInjective(a: nat, b: nat)
    requires a <= ULLONG_MAX && b <= ULLONG_MAX && U64Key(a) == U64Key(b)
    ensures a == b
  {
    assert Pow(256, 4) == 0x1_0000_0000;
    assert Pow(256, 8) == ULLONG_MAX + 1;
    BytesInjective(a, b, KEY_SIZE);
  }

  // ----- the lists -----

  /** The key a token adds, if any. */
  function KeyOf(useString: bool, token: string): Option<string> {
    if token == "" then None
    else if useString then Some(StrKey(token))
    else match Strtoui64(token)
      case None => None
      case Some(v) => Some(U64Key(v))
  }

  function Keys(useString: bool, tokens: seq<string>): set<string> {
    set t | t in tokens && KeyOf(useString, t).Some? :: KeyOf(useString, t).value
  }

  /** nwinfo_parse_arg_set: the keys of the nonempty tokens that are names, or numbers to their end, join the set. */
  method ParseArgSet(arg: Option<CStr>, keys: set<string>, useString: bool) returns (more: set<string>)
    ensures arg.None? ==> more == keys
    ensures arg.Some? ==> more == keys + Keys(useString, Tokens(arg.value))
  {
    hide KeyOf, Strtoui64;
    more := keys;
    if arg.None? || arg.value == "" {
      return;
    }
    var dup := Strdup(arg.value);
    var token: Option<nat> := Some(0);
    ghost var rest: CStr, done := arg.value, [];
    while token.Some? && dup[token.value] != '\0'
      invariant Unread(dup, token, rest)
      invariant done + Tokens(rest) == Tokens(arg.value)
      invariant more == keys + Keys(useString, done)
      decreases |rest|
    {
      assert dup[token.value] == dup[token.value..][0];
      assert Unread(dup, Some(token.value), rest) && token == Some(token.value);
      var next, text, after := CutToken(dup, token.value, rest);
      KeyOfIs(useString, text);
      if text != "" {
        if useString {
          more := more + {StrKey(text)};
        } else {
          var value := Strtoui64(text);
          if value.Some? {
            more := more + {U64Key(value.value)};
          }
        }
      }
      DoneMore(done, text, Tokens(after));
      done, rest := done + [text], after;
      token := next;
    }
    assert token.Some? ==> dup[token.value..][0] == dup[token.value];
    assert done + [] == done;
  }

  lemma KeyOfIs(useString: bool, token: string)
    ensures KeyOf(useString, token) ==
      if token == "" then None
      else if useString then Some(StrKey(token))
      else if Strtoui64(token).Some? then Some(U64Key(Strtoui64(token).value)) else None
  {}

  /** The characters of a name that fit a key. */
  function Cut(value: CStr): CStr {
    if |value| <= 8 then value else value[..8]
  }

  /** Two names have the same key exactly when they agree in their first eight characters. */
  lemma StrKeySame(a: CStr, b: CStr)
    ensures StrKey(a) == StrKey(b) <==> Cut(a) == Cut(b)
  {
    assert StrKey(a) == StrKey(Cut(a)) && StrKey(b) == StrKey(Cut(b));
    if StrKey(a) == StrKey(b) {
      hide StrKey;
      StrKeyInjective(Cut(a), Cut(b));
    }
  }

  /** A name is found in the set of a list exactly when a name of the list agrees with it in the first eight
      characters. */
  lemma FoundExactlyIfListed(s: CStr, v: CStr)
    requires v != ""
    ensures StrKey(v) in Keys(true, Tokens(s)) <==> exists t :: t in Tokens(s) && t != "" && Cut(t) == Cut(v)
  {
    hide StrKey, Tokens, Cut;
    if StrKey(v) in Keys(true, Tokens(s)) {
      var t :| t in Tokens(s) && KeyOf(true, t).Some? && KeyOf(true, t).value == StrKey(v);
      StrKeySame(t, v);
    }
    if t :| t in Tokens(s) && t != "" && Cut(t) == Cut(v) {
      StrKeySame(t, v);
      assert KeyOf(true, t) == Some(StrKey(v));
    }
  }

  /** So exactly the listed names are found when no name is longer. */
  lemma ShortNamesFound(s: CStr, v: CStr)
    requires v != "" && |v| <= 8 && forall t :: t in Tokens(s) ==> |t| <= 8
    ensures StrKey(v) in Keys(true, Tokens(s)) <==> v in Tokens(s)
  {
    hide StrKey, Tokens, Keys;
    FoundExactlyIfListed(s, v);
  }

  /** Numbers printed in decimal with commas between. */
  function List(ns: seq<nat>): CStr {
    if ns == [] then "" else if |ns| == 1 then Decimal(ns[0]) else Decimal(ns[0]) + "," + List(ns[1..])
  }

  function Decimals(ns: seq<nat>): (r: seq<string>)
    ensures |r| == |ns| && forall i :: 0 <= i < |ns| ==> r[i] == Decimal(ns[i])
  {
    seq(|ns|, i requires 0 <= i < |ns| => Decimal(ns[i]))
  }

  lemma TokensCons(d: string, tail: string)
    requires d != "" && ',' !in d
    ensures Tokens(d) == [d] && Tokens(d + "," + tail) == [d] + Tokens(tail)
  {
    var s := d + "," + tail;
    assert s[..|d|] == d && s[|d|] == ',' && s[|d| + 1..] == tail && d[..|d|] == d;
    HeadAt(s, |d|);
    HeadAt(d, |d|);
  }

  lemma {:induction false} TokensOfList(ns: seq<nat>)
    ensures Tokens(List(ns)) == Decimals(ns)
  {
    if ns != [] {
      assert ',' !in Decimal(ns[0]);
      hide Tokens, Decimal;
      TokensCons(Decimal(ns[0]), List(ns[1..]));
      TokensOfList(ns[1..]);
      assert Decimals(ns) == [Decimal(ns[0])] + Decimals(ns[1..]);
    } else {
      NoTokensInNothing();
    }
  }

  /** A printed list of 64-bit numbers yields a set in which exactly those numbers are found. */
  lemma NumbersFoundExactlyIfListed(ns: seq<nat>, v: nat)
    requires v <= ULLONG_MAX && forall i :: 0 <= i < |ns| ==> ns[i] <= ULLONG_MAX
    ensures U64Key(v) in Keys(false, Tokens(List(ns))) <==> v in ns
  {
    hide U64Key, Tokens, Strtoui64, Decimal;
    TokensOfList(ns);
    forall n | n in ns ensures KeyOf(false, Decimal(n)) == Some(U64Key(n)) { ReadsDecimal(n); }
    if U64Key(v) in Keys(false, Tokens(List(ns))) {
      var t :| t in Decimals(ns) && KeyOf(false, t).Some? && KeyOf(false, t).value == U64Key(v);
      var i :| 0 <= i < |ns| && Decimals(ns)[i] == t;
      U64KeyInjective(ns[i], v);
    }
    if v in ns {
      var i :| 0 <= i < |ns| && ns[i] == v;
      assert Decimals(ns)[i] in Decimals(ns);
    }
  }
}
