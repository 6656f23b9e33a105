/** Numbers as text: decimal and hexadecimal output, and strtoul. */
module Numbers {
  import opened CStrings

  /** An unsigned 32-bit integer. */
  type Word = x: int | 0 <= x < 0x1_0000_0000

  predicate IsDigit(c: char) {
    '0' <= c <= '9'
  }

  predicate IsSpace(c: char) {
    c == ' ' || '\t' <= c <= '\r'
  }

  /** The characters of isdigit and isspace. */
  lemma CharClasses(c: char)
    ensures IsDigit(c) <==> c in "0123456789"
    ensures IsSpace(c) <==> c in " \t\n\U{0B}\U{0C}\r"
  {
    var digits, spaces := "0123456789", " \t\n\U{0B}\U{0C}\r";
    if IsDigit(c) { assert c == digits[c as int - '0' as int]; }
    if IsSpace(c) { assert c == spaces[if c == ' ' then 0 else c as int - '\t' as int + 1]; }
  }

  predicate AllDigits(s: string) {
    forall i :: 0 <= i < |s| ==> IsDigit(s[i])
  }

  function Value(s: string): nat
    requires AllDigits(s)
  {
    if s == "" then 0 else 10 * Value(s[..|s| - 1]) + (s[|s| - 1] as int - '0' as int)
  }

  function Decimal(n: nat): (s: CStr)
    ensures s != "" && AllDigits(s) && Value(s) == n
  {
    var d := ('0' as int + n % 10) as char;
    if n < 10 then [d] else
      var lead := Decimal(n / 10);
      assert (lead + [d])[..|lead|] == lead;
      lead + [d]
  }

  /** The leading digits of s. */
  function DigitRun(s: string): (r: string)
    ensures |r| <= |s| && r == s[..|r|] && AllDigits(r)
    ensures |r| < |s| ==> !IsDigit(s[|r|])
  {
    if s == "" || !IsDigit(s[0]) then "" else [s[0]] + DigitRun(s[1..])
  }

  lemma {:induction false} DigitRunAt(digits: string, tail: string)
    requires AllDigits(digits) && (tail == "" || !IsDigit(tail[0]))
    ensures DigitRun(digits + tail) == digits
  {
    if digits == "" {
      assert digits + tail == tail;
    } else {
      assert (digits + tail)[1..] == digits[1..] + tail;
      DigitRunAt(digits[1..], tail);
    }
  }

  const ULONG_MAX := 0xFFFFFFFF

  /** strtoul in base ten on text that starts with a digit; it saturates. */
  function Strtoul(s: string): nat {
    var v := Value(DigitRun(s));
    if v > ULONG_MAX then ULONG_MAX else v
  }

  /** The value of a digit; 36 for anything else. */
  function DigitValue(c: char): nat {
    if '0' <= c <= '9' then c as int - '0' as int
    else if 'a' <= c <= 'z' then c as int - 'a' as int + 10
    else if 'A' <= c <= 'Z' then c as int - 'A' as int + 10
    else 36
  }

  predicate Digits(s: string, base: nat) {
    forall i :: 0 <= i < |s| ==> DigitValue(s[i]) < base
  }

  function ValueIn(s: string, base: nat): nat
    requires Digits(s, base)
  {
    if s == "" then 0 else base * ValueIn(s[..|s| - 1], base) + DigitValue(s[|s| - 1])
  }

  lemma {:induction false} DecimalValue(n: nat)
    ensures Digits(Decimal(n), 10) && ValueIn(Decimal(n), 10) == n
    ensures n > 0 ==> Decimal(n)[0] != '0'
    ensures n < 10 ==> |Decimal(n)| == 1
  {
    if n >= 10 {
      DecimalValue(n / 10);
      var s, lead := Decimal(n), Decimal(n / 10);
      assert s[..|s| - 1] == lead && s[0] == lead[0];
    } else {
      assert Decimal(n)[..0] == "" && ValueIn("", 10) == 0;
    }
  }

  lemma {:induction false} ValueInTen(s: string)
    requires AllDigits(s)
    ensures Digits(s, 10) && ValueIn(s, 10) == Value(s)
  {
    if s != "" {
      ValueInTen(s[..|s| - 1]);
      assert forall i :: 0 <= i < |s| ==> DigitValue(s[i]) < 10;
    }
  }

  function HexDigits(n: nat): string {
    var d := n % 16;
    var c := if d < 10 then ('0' as int + d) as char else ('A' as int + d - 10) as char;
    if n < 16 then [c] else HexDigits(n / 16) + [c]
  }

  /** %02X */
  function Hex2(n: nat): string {
    if n < 16 then "0" + HexDigits(n) else HexDigits(n)
  }

  predicate UpperHex(s: string) {
    forall i :: 0 <= i < |s| ==> '0' <= s[i] <= '9' || 'A' <= s[i] <= 'F'
  }

  /** Hexadecimal output reads back in base 16. */
  lemma {:induction false} HexValue(n: nat)
    ensures var s := HexDigits(n);
      && s != "" && UpperHex(s) && Digits(s, 16) && ValueIn(s, 16) == n
      && (n < 16 <==> |s| == 1) && (n < 256 <==> |s| <= 2)
    ensures n > 0 ==> HexDigits(n)[0] != '0'
  {
    var s := HexDigits(n);
    if n >= 16 {
      HexValue(n / 16);
      var lead := HexDigits(n / 16);
      assert s[..|s| - 1] == lead;
      assert n / 16 < 16 <==> n < 256;
    } else {
      assert s[..0] == "" && ValueIn("", 16) == 0;
    }
  }

  /** Two digits below 256, and as many as it takes from there on. */
  lemma Hex2Value(n: nat)
    ensures var s := Hex2(n);
      |s| >= 2 && UpperHex(s) && Digits(s, 16) && ValueIn(s, 16) == n && (n < 256 <==> |s| == 2)
  {
    HexValue(n);
    if n < 16 {
      var s := "0" + HexDigits(n);
      assert s[..1] == "0" && "0"[..0] == "" && ValueIn("0", 16) == 0;
    }
  }

  function Pow(b: nat, n: nat): (r: nat)
    ensures b > 0 ==> r > 0
  {
    if n == 0 then 1 else MulPos(b, Pow(b, n - 1))
  }

  function MulPos(a: nat, b: nat): (r: nat)
    ensures r == a * b
    ensures a > 0 && b > 0 ==> r > 0
  {
    a * b
  }

  lemma {:induction false} DecimalLength(n: nat, k: nat)
    requires k > 0 && n < Pow(10, k)
    ensures |Decimal(n)| <= k
    decreases k
  {
    assert Pow(10, k) == 10 * Pow(10, k - 1);
    if n >= 10 {
      assert k > 1 by { assert Pow(10, 0) == 1; }
      DecimalLength(n / 10, k - 1);
    }
  }
}
