/** Human-readable sizes: repeated division with the last remainder as hundredths. */
module HumanSize {
  import opened Numbers

  type U64 = x: int | 0 <= x < 0x1_0000_0000_0000_0000

  const UNITS := ["B", "KB", "MB", "GB", "TB", "PB", "EB", "ZB"]
  const MAX_UNITS := 5
  const BUFFER_SIZE := 48

  /** The pieces printed: whole units, hundredths, and how often the size was divided. */
  datatype Printed = Printed(whole: nat, cents: nat, units: nat)

  /** "%llu.%02llu %s", or "%llu %s" when nothing was divided. */
  function Show(p: Printed): string
    requires p.units <= MAX_UNITS
  {
    if p.units == 0 then Decimal(p.whole) + " " + UNITS[0]
    else Decimal(p.whole) + "." + (if p.cents < 10 then "0" else "") + Decimal(p.cents) + " " + UNITS[p.units]
  }

  /** A number in decimal, without leading zeros. */
  predicate Plain(s: string, n: nat) {
    s != "" && AllDigits(s) && Value(s) == n && (|s| > 1 ==> s[0] != '0')
  }

  /** How the text reads: undivided, the number of bytes; otherwise the whole units, a point, exactly two digits
      with the hundredths, and the unit. */
  ghost predicate Reads(msg: string, p: Printed) {
    if p.units == 0 then
      p.cents == 0 && exists w :: Plain(w, p.whole) && msg == w + " B"
    else
      p.units <= 5 && exists w, two ::
        (Plain(w, p.whole) && |two| == 2 && AllDigits(two) && Value(two) == p.cents
        && msg == w + "." + two + [' ', ['K', 'M', 'G', 'T', 'P'][p.units - 1], 'B'])
  }

  /** size == (whole * base + frac) * base^(units - 1) + low, with low and frac below their bounds. */
  ghost predicate Split(size: nat, base: nat, whole: nat, frac: nat, units: nat, low: nat)
    requires units > 0
  {
    && frac < base
    && low < Pow(base, units - 1)
    && size == (whole * base + frac) * Pow(base, units - 1) + low
  }

  /** The remainder of the last division in hundredths of a unit, in 64-bit arithmetic. */
  function Cents(rem: nat, base: nat): nat
    requires base > 0
  {
    rem * 100 % 0x1_0000_0000_0000_0000 / base
  }

  /** How often the size is divided: until fewer than `base` units are left, at most MAX_UNITS times. */
  function UnitsFrom(size: nat, base: nat, n: nat): (u: nat)
    requires n <= MAX_UNITS
    ensures n <= u <= MAX_UNITS
    decreases MAX_UNITS - n
  {
    if n == MAX_UNITS || size < Pow(base, n + 1) then n else UnitsFrom(size, base, n + 1)
  }

  /** What is printed for a size: its quotient by base^u, and the next digit in hundredths. */
  function Human(size: nat, base: nat): (p: Printed)
    requires base > 0
    ensures p.units <= MAX_UNITS
  {
    var u := UnitsFrom(size, base, 0);
    Printed(size / Pow(base, u), if u == 0 then 0 else Cents(size / Pow(base, u - 1) % base, base), u)
  }

  /** The printed q.cc, as (100 q + c) hundredths of a unit, is at most the size and less than `slack` hundredths
      below. */
  ghost predicate Near(size: nat, base: nat, p: Printed, slack: nat)
  {
    var unit, n := Pow(base, p.units), 100 * p.whole + p.cents;
    p.cents < 100 && n * unit <= 100 * size < (n + slack) * unit
  }

  /** The same with a slack of num/base hundredths. */
  ghost predicate Within(size: nat, base: nat, p: Printed, num: nat)
  {
    var unit, n := Pow(base, p.units), 100 * p.whole + p.cents;
    n * unit <= 100 * size && (100 * size - n * unit) * base < num * unit
  }

  /** GetHumanSize */
  method GetHumanSize(size: U64, base: U64) returns (p: Printed, msg: string)
    requires base > 0
    ensures p == Human(size, base) && msg == Show(p)
    ensures p.cents < 100 && |msg| < BUFFER_SIZE && Reads(msg, p)
    ensures p.units == 0 <==> size < base
    ensures p.units < 5 ==> p.whole < base
    ensures p.units > 0 ==> p.whole > 0
    ensures p.units > 0 && base >= 100 && 100 * base <= 0x1_0000_0000_0000_0000 ==>
      Near(size, base, p, if base % 100 == 0 || p.units == 1 then 1 else 2)
  {
    hide Pow, Split, Show, Cents, Near, Human, UnitsFrom, Reads;
    var fsize: nat, rem: nat := size, 0;
    var units: nat := 0;
    ghost var low: nat := 0;
    while fsize >= base && units < MAX_UNITS
      invariant units <= MAX_UNITS && fsize <= size && (units > 0 ==> rem < base)
      invariant units == 0 ==> fsize == size
      invariant units > 0 ==> size >= base && fsize > 0 && Split(size, base, fsize, rem, units, low)
      decreases MAX_UNITS - units
    {
      if units > 0 { SplitMore(size, base, fsize, rem, units, low); } else { SplitFirst(size, base); }
      Quotient(fsize, base);
      low := if units == 0 then 0 else rem * Pow(base, units - 1) + low;
      rem, fsize := fsize % base, fsize / base;
      units := units + 1;
    }
    if units > 0 {
      HumanIs(size, base, fsize, rem, units, low);
      if base >= 100 && 100 * base <= 0x1_0000_0000_0000_0000 {
        HumanBounds(size, base, fsize, rem, units, low);
      }
      if rem != 0 {
        TwoDigits(rem, base);
        rem := CentsOf(rem, base);
      } else {
        ZeroCents(base);
      }
      p := Printed(fsize, rem, units);
    } else {
      HumanSmall(size, base);
      p := Printed(size, 0, 0);
    }
    ShowFits(p);
    ShowReads(p);
    msg := Show(p);
  }

  lemma ShowReads(p: Printed)
    requires p.units <= 5 && p.cents < 100 && (p.units == 0 ==> p.cents == 0)
    ensures Reads(Show(p), p)
  {
    var w := Decimal(p.whole);
    NoLeadingZero(p.whole);
    if p.units == 0 {
      assert Show(p) == w + " B";
    } else {
      var two := (if p.cents < 10 then "0" else "") + Decimal(p.cents);
      TwoDigitText(p.cents);
      UnitText(p.units);
      hide Decimal, Value;
      assert Show(p) == w + "." + two + (" " + UNITS[p.units]);
    }
  }

  lemma NoLeadingZero(n: nat)
    ensures Plain(Decimal(n), n)
  {
    DecimalValue(n);
  }

  lemma TwoDigitText(c: nat)
    requires c < 100
    ensures var two := (if c < 10 then "0" else "") + Decimal(c); |two| == 2 && AllDigits(two) && Value(two) == c
  {
    var two := (if c < 10 then "0" else "") + Decimal(c);
    if c < 10 {
      assert two[..1] == "0" && Value("0") == 0;
    } else {
      assert Decimal(c)[..1] == Decimal(c / 10);
    }
  }

  lemma UnitText(n: nat)
    requires 1 <= n <= 5
    ensures " " + UNITS[n] == [' ', ['K', 'M', 'G', 'T', 'P'][n - 1], 'B']
  {}

  /** A text reads as one result only. */
  lemma ReadsOnce(msg: string, p: Printed, q: Printed)
    requires Reads(msg, p) && Reads(msg, q)
    ensures p == q
  {
    var w, more := Parts(msg, p);
    var v, rest := Parts(msg, q);
    DigitRunAt(w, more);
    DigitRunAt(v, rest);
    assert w == v && more == rest by {
      assert more == msg[|w|..] && rest == msg[|v|..];
    }
  }

  /** The digits up to the first other character, and what follows them. */
  lemma Parts(msg: string, p: Printed) returns (w: string, more: string)
    requires Reads(msg, p)
    ensures msg == w + more && Plain(w, p.whole) && more != "" && !IsDigit(more[0])
    ensures if p.units == 0 then p.cents == 0 && more == " B" else
      p.units <= 5 && |more| == 6 && more[0] == '.' && AllDigits(more[1..3]) && Value(more[1..3]) == p.cents
      && more[4] == ['K', 'M', 'G', 'T', 'P'][p.units - 1]
  {
    if p.units == 0 {
      w :| Plain(w, p.whole) && msg == w + " B";
      more := " B";
    } else {
      var two;
      w, two :| Plain(w, p.whole) && |two| == 2 && AllDigits(two) && Value(two) == p.cents
        && msg == w + "." + two + [' ', ['K', 'M', 'G', 'T', 'P'][p.units - 1], 'B'];
      more := "." + two + [' ', ['K', 'M', 'G', 'T', 'P'][p.units - 1], 'B'];
      assert more[1..3] == two;
    }
  }

  /** frac * 100 / ullBase on unsigned 64-bit operands */
  method CentsOf(rem: nat, base: nat) returns (cents: nat)
    requires base > 0
    ensures cents == Cents(rem, base)
  {
    cents := rem * 100 % 0x1_0000_0000_0000_0000 / base;
  }

  lemma ZeroCents(base: nat)
    requires base > 0
    ensures Cents(0, base) == 0
  {}

  lemma Quotient(a: nat, b: nat)
    requires a >= b > 0
    ensures 0 < a / b <= a && a % b < b
  {
    var q, r := a / b, a % b;
    assert a == q * b + r && 0 <= r < b;
    assert q * 1 <= q * b by { MulGe(q, b); }
  }

  lemma MulGe(q: nat, b: nat)
    requires b >= 1
    ensures q * b >= q
  {}

  lemma SplitFirst(size: nat, base: nat)
    requires base > 0
    ensures Split(size, base, size / base, size % base, 1, 0)
  {}

  lemma SplitMore(size: nat, base: nat, whole: nat, frac: nat, units: nat, low: nat)
    requires units > 0 && base > 0 && Split(size, base, whole, frac, units, low)
    ensures Split(size, base, whole / base, whole % base, units + 1, frac * Pow(base, units - 1) + low)
  {
    var q, r, m := whole / base, whole % base, Pow(base, units - 1);
    assert Pow(base, units) == base * m;
    assert (whole * base + frac) * m + low == whole * (base * m) + (frac * m + low) by {
      Regroup(whole, base, frac, m, low);
    }
    assert whole == q * base + r;
    assert frac * m + low < base * m by { Below(frac, base, m, low); }
  }

  lemma Regroup(whole: nat, base: nat, frac: nat, m: nat, low: nat)
    ensures (whole * base + frac) * m + low == whole * (base * m) + (frac * m + low)
  {}

  lemma Below(a: nat, b: nat, m: nat, low: nat)
    requires a < b && low < m
    ensures a * m + low < b * m
  {
    assert (a + 1) * m <= b * m by { MulLe(a + 1, b, m); }
  }

  lemma MulLe(a: nat, b: nat, m: nat)
    requires a <= b
    ensures a * m <= b * m
  {}

  /** For a base of at least 100 whose hundredfold fits 64 bits, the printed value is at most
      the size in its unit and less than two hundredths below it; one if 100 divides the base or
      the size was divided once. */
  lemma HumanBounds(size: nat, base: nat, whole: nat, frac: nat, units: nat, low: nat)
    requires units > 0 && base >= 100 && 100 * base <= 0x1_0000_0000_0000_0000
    requires Split(size, base, whole, frac, units, low)
    ensures var p := Printed(whole, Cents(frac, base), units);
      Near(size, base, p, if base % 100 == 0 || units == 1 then 1 else 2)
  {
    var m := Pow(base, units - 1);
    assert Pow(base, units) == base * m && (units == 1 ==> m == 1);
    CentsFit(frac, base);
    hide Pow, Cents;
    BoundsAt(size, base, whole, frac, m, low, Cents(frac, base), frac * 100 - Cents(frac, base) * base);
  }

  /** Even where the multiplication overflows there are only two digits. */
  lemma TwoDigits(rem: nat, base: nat)
    requires rem < base <= 0x1_0000_0000_0000_0000
    ensures Cents(rem, base) < 100
  {}

  lemma ShowFits(p: Printed)
    requires p.units <= MAX_UNITS && p.cents < 100 && p.whole < 0x1_0000_0000_0000_0000
    ensures |Show(p)| <= 26
  {
    assert Pow(10, 20) > 0x1_0000_0000_0000_0000 && Pow(10, 2) == 100 by { TenTo20(); }
    DecimalLength(p.whole, 20);
    DecimalLength(p.cents, 2);
  }

  lemma TenTo20()
    ensures Pow(10, 20) == 100_000_000_000_000_000_000 && Pow(10, 2) == 100
  {
    assert Pow(10, 4) == 10_000;
    assert Pow(10, 8) == 100_000_000;
    assert Pow(10, 12) == 1_000_000_000_000;
    assert Pow(10, 16) == 10_000_000_000_000_000;
  }

  lemma CentsFit(frac: nat, base: nat)
    requires frac < base && 100 * base <= 0x1_0000_0000_0000_0000
    ensures Cents(frac, base) < 100
    ensures 0 <= frac * 100 - Cents(frac, base) * base < base
  {
    DivMod(frac * 100, base);
  }

  lemma BoundsAt(size: nat, base: nat, whole: nat, frac: nat, m: nat, low: nat, cents: nat, r: nat)
    requires base >= 100 && low < m && size == (whole * base + frac) * m + low
    requires frac * 100 == cents * base + r && r < base
    ensures (100 * whole + cents) * (base * m) <= 100 * size < (100 * whole + cents + 2) * (base * m)
    ensures base % 100 == 0 || m == 1 ==> 100 * size < (100 * whole + cents + 1) * (base * m)
  {
    var n, unit, rest := 100 * whole + cents, base * m, r * m + 100 * low;
    assert 100 * size == n * unit + rest by { Hundredfold(size, base, whole, frac, m, low, cents, r); }
    assert rest < 2 * unit by { TwoUnits(r, base, m, low); }
    assert base % 100 == 0 || m == 1 ==> rest < unit by {
      if base % 100 == 0 { OneUnit(frac, base, m, low, cents, r); }
    }
    assert 0 <= rest by { Products(r, m); }
    Plus(n, 1, unit);
    Plus(n, 2, unit);
  }

  lemma Products(a: nat, b: nat)
    ensures a * b >= 0
  {}

  lemma Plus(a: nat, b: nat, m: nat)
    ensures (a + b) * m == a * m + b * m
  {}

  lemma DivMod(a: nat, b: nat)
    requires b > 0
    ensures 0 <= a - a / b * b < b
    ensures a < 100 * b ==> a / b < 100
  {}

  lemma Hundredfold(size: nat, base: nat, whole: nat, frac: nat, m: nat, low: nat, cents: nat, r: nat)
    requires size == (whole * base + frac) * m + low && frac * 100 == cents * base + r
    ensures 100 * size == (100 * whole + cents) * (base * m) + (r * m + 100 * low)
  {}

  lemma TwoUnits(r: nat, base: nat, m: nat, low: nat)
    requires r < base && low < m && base >= 100
    ensures r * m + 100 * low < 2 * (base * m)
  {}

  lemma OneUnit(frac: nat, base: nat, m: nat, low: nat, cents: nat, r: nat)
    requires base % 100 == 0 && base > 0 && low < m && frac * 100 == cents * base + r && r < base
    ensures r * m + 100 * low < base * m
  {
    var k := base / 100;
    assert base == 100 * k;
    assert r == 100 * (frac - cents * k);
    assert r + 100 <= base;
    assert (r + 100) * m <= base * m by { MulLe(r + 100, base, m); }
    assert (r + 100) * m == r * m + 100 * m by { Plus(r, 100, m); }
  }

  // ----- the result as quotient and digit -----

  lemma DivIs(a: nat, b: nat, q: nat, r: nat)
    requires a == q * b + r && r < b
    ensures a / b == q && a % b == r
  {
    assert a == a / b * b + a % b;
    Cancel(a / b, q, b, a % b, r);
  }

  /** Equal sums with remainders below b have equal quotients. */
  lemma Cancel(q: nat, p: nat, b: nat, r: nat, t: nat)
    requires q * b + r == p * b + t && r < b && t < b
    ensures q == p && r == t
  {
    if q > p {
      assert q * b >= (p + 1) * b by { MulLe(p + 1, q, b); }
    } else if p > q {
      assert p * b >= (q + 1) * b by { MulLe(q + 1, p, b); }
    }
  }

  lemma MulAtLeast(d: nat, b: nat)
    requires d >= 1
    ensures d * b >= b
  {}

  /** The digits of a size are its quotients and remainders. */
  lemma SplitUnique(size: nat, base: nat, whole: nat, frac: nat, units: nat, low: nat)
    requires units > 0 && base > 0 && Split(size, base, whole, frac, units, low)
    ensures whole == size / Pow(base, units)
    ensures frac == size / Pow(base, units - 1) % base && low == size % Pow(base, units - 1)
  {
    var m := Pow(base, units - 1);
    assert Pow(base, units) == base * m;
    assert size == whole * (base * m) + (frac * m + low) by { Regroup(whole, base, frac, m, low); }
    assert frac * m + low < base * m by { Below(frac, base, m, low); }
    assert frac * m + low >= 0 by { Products(frac, m); }
    DivIs(size, base * m, whole, frac * m + low);
    assert whole * base + frac >= 0 by { Products(whole, base); }
    DivIs(size, m, whole * base + frac, low);
    DivIs(whole * base + frac, base, whole, frac);
  }

  lemma SplitExists(size: nat, base: nat, units: nat)
    requires units > 0 && base > 0
    ensures var m := Pow(base, units - 1); Split(size, base, size / Pow(base, units), size / m % base, units, size % m)
  {
    var m := Pow(base, units - 1);
    hide Pow;
    var q, low := size / m, size % m;
    DivParts(size, m);
    DivParts(q, base);
    assert Split(size, base, q / base, q % base, units, low);
    SplitUnique(size, base, q / base, q % base, units, low);
  }

  lemma DivParts(a: nat, b: nat)
    requires b > 0
    ensures a / b >= 0 && 0 <= a % b < b && a == a / b * b + a % b
  {}

  lemma {:induction false} PowMonotone(base: nat, a: nat, b: nat)
    requires base >= 1 && a <= b
    ensures Pow(base, a) <= Pow(base, b)
    decreases b
  {
    if a < b {
      PowMonotone(base, a, b - 1);
      MulAtLeast(base, Pow(base, b - 1));
    }
  }

  lemma {:induction false} UnitsAre(size: nat, base: nat, u: nat, n: nat)
    requires base >= 1 && n <= u <= MAX_UNITS
    requires u == 0 || Pow(base, u) <= size
    requires u == MAX_UNITS || size < Pow(base, u + 1)
    ensures UnitsFrom(size, base, n) == u
    decreases u - n
  {
    if n < u {
      PowMonotone(base, n + 1, u);
      UnitsAre(size, base, u, n + 1);
    }
  }

  lemma HumanSmall(size: nat, base: nat)
    requires 0 < size < base || 0 == size < base
    ensures Human(size, base) == Printed(size, 0, 0)
  {
    assert Pow(base, 1) == base * Pow(base, 0) == base;
    UnitsAre(size, base, 0, 0);
  }

  /** The outcome of the division loop is the result. */
  lemma HumanIs(size: nat, base: nat, whole: nat, frac: nat, units: nat, low: nat)
    requires base > 0 && 0 < units <= MAX_UNITS && Split(size, base, whole, frac, units, low)
    requires whole > 0 && (units == MAX_UNITS || whole < base)
    ensures Human(size, base) == Printed(whole, Cents(frac, base), units)
    ensures size >= base
  {
    var m := Pow(base, units - 1);
    var unit := base * m;
    assert Pow(base, units) == unit && Pow(base, units + 1) == base * unit;
    assert size == whole * unit + (frac * m + low) by { Regroup(whole, base, frac, m, low); }
    assert 0 <= frac * m + low < unit by { Below(frac, base, m, low); Products(frac, m); }
    assert whole * unit >= unit by { MulAtLeast(whole, unit); }
    if whole < base {
      assert (whole + 1) * unit <= base * unit by { MulLe(whole + 1, base, unit); }
      Plus(whole, 1, unit);
    }
    UnitsAre(size, base, units, 0);
    SplitUnique(size, base, whole, frac, units, low);
    PowMonotone(base, 1, units);
    assert Pow(base, 1) == base * Pow(base, 0) == base;
  }

  // ----- when one hundredth is enough -----

  /** With any common divisor g of 100 and the base the slack is (base - g + 100)/base hundredths. */
  lemma SharpSlack(size: nat, base: nat, g: nat)
    requires 0 < base <= size && 100 * base <= 0x1_0000_0000_0000_0000
    requires g > 0 && 100 % g == 0 && base % g == 0
    ensures Within(size, base, Human(size, base), base - g + 100)
  {
    var p := Human(size, base);
    assert p.units > 0 by { assert Pow(base, 1) == base * Pow(base, 0) == base; }
    var m := Pow(base, p.units - 1);
    var frac, low := size / m % base, size % m;
    var r := frac * 100 - p.cents * base;
    SplitExists(size, base, p.units);
    CentsFit(frac, base);
    assert Pow(base, p.units) == base * m;
    hide Pow, Cents, Human;
    assert r <= base - g by { Multiple(frac, p.cents, base, r, g); }
    SharpAt(size, base, p.whole, frac, m, low, p.cents, r, base - g);
  }

  lemma SharpAt(size: nat, base: nat, whole: nat, frac: nat, m: nat, low: nat, cents: nat, r: nat, most: nat)
    requires size == (whole * base + frac) * m + low && frac * 100 == cents * base + r
    requires low < m && r <= most && base > 0
    ensures var n, unit := 100 * whole + cents, base * m;
      n * unit <= 100 * size && (100 * size - n * unit) * base < (most + 100) * unit
  {
    var n := 100 * whole + cents;
    assert 100 * size == n * (base * m) + (r * m + 100 * low) by {
      Hundredfold(size, base, whole, frac, m, low, cents, r);
    }
    assert r * m <= most * m by { MulLe(r, most, m); }
    assert (most + 100) * m == most * m + 100 * m by { Plus(most, 100, m); }
    assert r * m >= 0 by { Products(r, m); }
    Scale(r * m + 100 * low, most + 100, base, m);
  }

  lemma Scale(rest: nat, num: nat, base: nat, m: nat)
    requires rest < num * m && base > 0
    ensures rest * base < num * (base * m)
  {
    assert (rest + 1) * base <= num * m * base by { MulLe(rest + 1, num * m, base); }
    Plus(rest, 1, base);
  }

  /** What is left of frac * 100 after taking whole bases is a multiple of g below the base. */
  lemma Multiple(frac: nat, cents: nat, base: nat, r: nat, g: nat)
    requires g > 0 && 100 % g == 0 && base % g == 0 && frac * 100 == cents * base + r && r < base
    ensures r <= base - g
  {
    var a, b := 100 / g, base / g;
    assert 100 == a * g && base == b * g;
    var k := frac * a - cents * b;
    assert r == k * g by {
      assert frac * 100 == frac * a * g && cents * base == cents * b * g;
    }
    assert k < b by { Smaller(k, b, g); }
    assert k * g <= (b - 1) * g by { Factor(b - 1 - k, g); }
  }

  lemma Smaller(k: int, b: nat, g: nat)
    requires k * g < b * g
    ensures k < b
  {}

  lemma Factor(d: nat, g: nat)
    ensures d * g >= 0
  {}

  /** The greatest common divisor of a and b as a combination of them. */
  lemma {:induction false} Combination(a: nat, b: nat) returns (g: nat, x: int, y: int)
    requires a > 0
    ensures g > 0 && a % g == 0 && b % g == 0 && a * x + b * y == g
    decreases b
  {
    if b == 0 {
      g, x, y := a, 1, 0;
      Divides(a, 1, a);
    } else {
      var q, r := a / b, a % b;
      assert a == q * b + r;
      var x1, y1;
      g, x1, y1 := Combination(b, r);
      x, y := y1, x1 - q * y1;
      assert a * x + b * y == g by { Recombine(a, b, q, r, x1, y1); }
      assert a % g == 0 by { SumDivides(a, b, q, r, g); }
    }
  }

  lemma Recombine(a: int, b: int, q: int, r: int, x: int, y: int)
    requires a == q * b + r
    ensures a * y + b * (x - q * y) == b * x + r * y
  {
    assert a * y == q * b * y + r * y;
    assert b * (x - q * y) == b * x - b * (q * y);
    assert q * b * y == b * (q * y);
  }

  lemma Divides(a: nat, k: nat, g: nat)
    requires g > 0 && a == k * g
    ensures a % g == 0
  {
    DivIs(a, g, k, 0);
  }

  lemma SumDivides(a: nat, b: nat, q: nat, r: nat, g: nat)
    requires g > 0 && b % g == 0 && r % g == 0 && a == q * b + r
    ensures a % g == 0
  {
    var m, n := b / g, r / g;
    assert b == m * g && r == n * g;
    assert q * b == q * m * g;
    assert a == (q * m + n) * g;
    assert q * m >= 0 by { Products(q, m); }
    Divides(a, q * m + n, g);
  }

  /** Some digit leaves the remainder base - g. */
  lemma WorstDigit(base: nat, g: nat, x: int, y: int) returns (frac: nat, cents: nat)
    requires 0 < g <= base && 100 * x + base * y == g
    ensures frac < base && frac * 100 == cents * base + (base - g)
  {
    frac := (-x) % base;
    var t := (-x) / base;
    assert -x == t * base + frac;
    var c := y - 100 * t - 1;
    assert frac * 100 == c * base + (base - g) by {
      assert 100 * (t * base) == 100 * t * base;
      assert c * base == y * base - 100 * t * base - base;
    }
    NotNegative(c, base, frac * 100, base - g);
    cents := c;
  }

  lemma NotNegative(c: int, b: nat, a: nat, r: nat)
    requires a == c * b + r && r < b
    ensures c >= 0
  {}

  /** For a base of at least 100 no smaller slack will do: with the greatest common divisor g some size is low
      by (base - g + 99)/base hundredths or more. */
  lemma SlackIsSharp(base: nat) returns (g: nat, size: nat)
    requires 100 <= base && 100 * base <= 0x1_0000_0000_0000_0000
    ensures g > 0 && 100 % g == 0 && base % g == 0 && base <= size
    ensures !Within(size, base, Human(size, base), base - g + 99)
  {
    var x, y, cents, frac;
    g, x, y := Combination(100, base);
    assert g <= base by { DivisorAtMost(base, g); }
    frac, cents := WorstDigit(base, g, x, y);
    size := WorstSize(base, frac, cents, base - g);
  }

  lemma DivisorAtMost(a: nat, g: nat)
    requires a > 0 && g > 0 && a % g == 0
    ensures g <= a
  {}

  lemma WorstSize(base: nat, frac: nat, cents: nat, r: nat) returns (size: nat)
    requires 100 <= base && 100 * base <= 0x1_0000_0000_0000_0000
    requires frac < base && r < base && frac * 100 == cents * base + r
    ensures base <= size && !Within(size, base, Human(size, base), r + 99)
  {
    size := WorstAmount(base, frac, cents, r);
    var rest := r * base + 100 * (base - 1);
    WorstRest(rest, r, base);
    SmallSquare(base);
    hide Human, Pow, Within;
    NotWithin(size, base, Printed(1, cents, 2), r + 99, rest);
  }

  lemma WorstAmount(base: nat, frac: nat, cents: nat, r: nat) returns (size: nat)
    requires 100 <= base && 100 * base <= 0x1_0000_0000_0000_0000
    requires frac < base && r < base && frac * 100 == cents * base + r
    ensures base <= size && Human(size, base) == Printed(1, cents, 2)
    ensures 100 * size == (100 * 1 + cents) * (base * base) + (r * base + 100 * (base - 1))
  {
    size := LargestRest(base, frac);
    WorstPrinted(size, base, frac, cents, r);
    assert base <= size by { MulAtLeast(1 * base + frac, base); }
    hide Human;
    Hundredfold(size, base, 1, frac, base, base - 1, cents, r);
  }

  /** One unit of base^2, the digit behind it, and the largest rest. */
  function LargestRest(base: nat, frac: nat): (size: nat)
    requires base > 0
    ensures size == (1 * base + frac) * base + (base - 1)
  {
    MulPos(1 * base + frac, base) + (base - 1)
  }

  lemma NotWithin(size: nat, base: nat, p: Printed, num: nat, rest: nat)
    requires 100 * size == (100 * p.whole + p.cents) * Pow(base, p.units) + rest
    requires rest * base >= num * Pow(base, p.units)
    ensures !Within(size, base, p, num)
  {
    hide Pow;
  }

  lemma WorstPrinted(size: nat, base: nat, frac: nat, cents: nat, r: nat)
    requires 1 < base && 100 * base <= 0x1_0000_0000_0000_0000 && frac < base && r < base
    requires frac * 100 == cents * base + r && size == (1 * base + frac) * base + (base - 1)
    ensures Human(size, base) == Printed(1, cents, 2)
  {
    SmallSquare(base);
    CentsAre(frac, base, cents, r);
    hide Pow, Cents;
    assert Split(size, base, 1, frac, 2, base - 1);
    hide Split;
    HumanIs(size, base, 1, frac, 2, base - 1);
  }

  lemma WorstRest(rest: nat, r: nat, base: nat)
    requires base >= 100 && rest == r * base + 100 * (base - 1)
    ensures rest * base >= (r + 99) * (base * base)
  {
    assert rest >= (r + 99) * base by { Plus(r, 99, base); }
    assert rest * base >= (r + 99) * base * base by { MulLe((r + 99) * base, rest, base); }
  }

  lemma CentsAre(frac: nat, base: nat, cents: nat, r: nat)
    requires frac < base && 100 * base <= 0x1_0000_0000_0000_0000 && frac * 100 == cents * base + r && r < base
    ensures Cents(frac, base) == cents
  {
    DivIs(frac * 100, base, cents, r);
  }

  /** The smallest size printed a full hundredth or more too low, when 100 does not divide the base. */
  function FirstMiss(base: nat): nat {
    (base + base / 100) * base + (base % 100 * base + 99) / 100
  }

  /** That size is printed as 1.00 of the second unit. */
  lemma FirstMissFails(base: nat)
    requires base >= 100 && base % 100 != 0 && 100 * base <= 0x1_0000_0000_0000_0000
    ensures Human(FirstMiss(base), base) == Printed(1, 0, 2)
    ensures !Near(FirstMiss(base), base, Human(FirstMiss(base), base), 1)
  {
    var k, e := base / 100, base % 100;
    var low, size := (e * base + 99) / 100, FirstMiss(base);
    MissParts(base, k, e, low);
    assert size == (base + k) * base + low;
    SmallSquare(base);
    hide FirstMiss;
    MissSplit(size, base, k, low);
    MissSize(base, k, e, low);
    hide Pow, Cents, Split;
    HumanIs(size, base, 1, k, 2, low);
  }

  lemma SmallSquare(base: nat)
    ensures Pow(base, 1) == base && Pow(base, 2) == base * base
  {
    assert Pow(base, 1) == base * Pow(base, 0);
  }

  lemma MissParts(base: nat, k: nat, e: nat, low: nat)
    requires base >= 100 && k == base / 100 && e == base % 100 && e > 0 && low == (e * base + 99) / 100
    ensures base == 100 * k + e && 0 <= e * base <= 100 * low && low < base && k * 100 < base
  {
    assert e * base <= 99 * base by { MulLe(e, 99, base); }
    assert e * base >= 0 by { Products(e, base); }
  }

  lemma MissSplit(size: nat, base: nat, k: nat, low: nat)
    requires base >= 100 && low < base && k * 100 < base && 100 * base <= 0x1_0000_0000_0000_0000
    requires size == (base + k) * base + low
    ensures Split(size, base, 1, k, 2, low) && Cents(k, base) == 0
  {
    SmallSquare(base);
    assert Cents(k, base) == 0 by { NoCents(k, base); }
    hide Pow, Cents;
    assert 1 * base + k == base + k;
  }

  lemma NoCents(k: nat, base: nat)
    requires k * 100 < base && 100 * base <= 0x1_0000_0000_0000_0000
    ensures Cents(k, base) == 0
  {
    DivIs(k * 100, base, 0, k * 100);
  }

  lemma MissSize(base: nat, k: nat, e: nat, low: nat)
    requires base == 100 * k + e && e * base <= 100 * low
    ensures 100 * ((base + k) * base + low) >= 101 * (base * base)
  {
    assert (base + k) * base == base * base + k * base by { Plus(base, k, base); }
    assert base * base == 100 * (k * base) + e * base by { Plus(100 * k, e, base); }
  }

  /** Below it a size divided twice is printed less than a hundredth too low. */
  lemma BelowFirstMiss(base: nat, whole: nat, frac: nat, low: nat, cents: nat, r: nat)
    requires base >= 100 && base % 100 != 0 && whole >= 1 && low < base && frac < base
    requires frac * 100 == cents * base + r && r < base
    requires (whole * base + frac) * base + low < FirstMiss(base)
    ensures r * base + 100 * low < base * base
  {
    var k, e := base / 100, base % 100;
    assert base == 100 * k + e;
    assert cents * base >= 0 by { Products(cents, base); }
    assert r <= 100 * frac;
    if frac < k {
      assert r + 100 <= base - e;
      assert (r + 100) * base <= base * base by { MulLe(r + 100, base, base); }
      Plus(r, 100, base);
    } else {
      assert whole * base >= base by { MulAtLeast(whole, base); }
      var c := (e * base + 99) / 100;
      assert e * base <= 99 * base by { MulLe(e, 99, base); }
      assert 0 <= e * base by { Products(e, base); }
      assert c <= base;
      assert (base + k + 1) * base == (base + k) * base + base by { Plus(base + k, 1, base); }
      Smaller(whole * base + frac, base + k + 1, base);
      assert frac == k && whole * base == base;
      assert 100 * low < e * base;
      assert r == 100 * k by { SmallQuotient(100 * k, base, cents, r); }
      assert r * base + e * base == base * base by { Plus(r, e, base); }
    }
  }

  lemma SmallQuotient(a: nat, base: nat, cents: nat, r: nat)
    requires a == cents * base + r && a < base
    ensures r == a
  {
    if cents > 0 { MulAtLeast(cents, base); }
  }

  /** For a base that 100 does not divide, no size below FirstMiss misses by a hundredth. */
  lemma FirstMissIsFirst(size: nat, base: nat)
    requires 100 <= base <= size < FirstMiss(base) && base % 100 != 0 && 100 * base <= 0x1_0000_0000_0000_0000
    ensures Near(size, base, Human(size, base), 1)
  {
    var p := Human(size, base);
    SmallCube(base);
    assert 0 < p.units <= 2 by { MissBelowCube(base); }
    var m := Pow(base, p.units - 1);
    var frac, low := size / m % base, size % m;
    SplitExists(size, base, p.units);
    HumanBounds(size, base, p.whole, frac, p.units, low);
    if p.units == 2 {
      assert p.whole >= 1 by { AtLeastOne(size, base * base); }
      TwiceDivided(base, p.whole, frac, low);
    }
  }

  lemma SmallCube(base: nat)
    ensures Pow(base, 1) == base && Pow(base, 2) == base * base && Pow(base, 3) == base * (base * base)
  {
    assert Pow(base, 1) == base * Pow(base, 0);
  }

  /** The size with these digits. */
  function SizeOf(base: nat, whole: nat, frac: nat, low: nat): (size: nat)
    ensures size == (whole * base + frac) * base + low
  {
    MulPos(MulPos(whole, base) + frac, base) + low
  }

  lemma TwiceDivided(base: nat, whole: nat, frac: nat, low: nat)
    requires base >= 100 && base % 100 != 0 && 100 * base <= 0x1_0000_0000_0000_0000
    requires whole >= 1 && frac < base && low < base && SizeOf(base, whole, frac, low) < FirstMiss(base)
    ensures Near(SizeOf(base, whole, frac, low), base, Printed(whole, Cents(frac, base), 2), 1)
  {
    SmallCube(base);
    TwiceSplit(base, whole, frac, low);
    CentsFit(frac, base);
    var size := SizeOf(base, whole, frac, low);
    HumanBounds(size, base, whole, frac, 2, low);
    hide Pow, Cents, FirstMiss, SizeOf;
    var cents := Cents(frac, base);
    var r := frac * 100 - cents * base;
    BelowFirstMiss(base, whole, frac, low, cents, r);
    Hundredfold(size, base, whole, frac, base, low, cents, r);
    Plus(100 * whole + cents, 1, base * base);
  }

  lemma TwiceSplit(base: nat, whole: nat, frac: nat, low: nat)
    requires frac < base && low < base
    ensures Split(SizeOf(base, whole, frac, low), base, whole, frac, 2, low)
  {
    SmallCube(base);
  }

  lemma AtLeastOne(a: nat, b: nat)
    requires a >= b > 0
    ensures a / b >= 1
  {}

  lemma MissBelowCube(base: nat)
    requires base >= 100
    ensures FirstMiss(base) < base * (base * base)
  {
    var k, e := base / 100, base % 100;
    assert e * base <= 99 * base by { MulLe(e, 99, base); }
    assert 0 <= e * base by { Products(e, base); }
    assert (base + k) * base <= (2 * base) * base by { MulLe(base + k, 2 * base, base); }
    assert (2 * base) * base + base == (2 * base + 1) * base by { Plus(2 * base, 1, base); }
    assert 100 * base <= base * base by { MulLe(100, base, base); }
    assert (2 * base + 1) * base < (base * base) * base by {
      assert (2 * base + 2) * base <= (base * base) * base by { MulLe(2 * base + 2, base * base, base); }
      Plus(2 * base + 1, 1, base);
    }
    assert (base * base) * base == base * (base * base);
  }

  /** For base at least 100 whose hundredfold fits 64 bits: every 64-bit size from one unit on is printed less
      than one hundredth too low exactly when 100 divides the base or the first size to miss does not fit 64 bits. */
  lemma OneHundredthExactly(base: nat)
    requires base >= 100 && 100 * base <= 0x1_0000_0000_0000_0000
    ensures (forall size: U64 :: base <= size ==> Near(size, base, Human(size, base), 1))
      <==> base % 100 == 0 || FirstMiss(base) >= 0x1_0000_0000_0000_0000
  {
    hide Near, Human, FirstMiss;
    if base % 100 == 0 {
      forall size: U64 | base <= size ensures Near(size, base, Human(size, base), 1) {
        OneHundredthOfHundreds(size, base);
      }
    } else if FirstMiss(base) >= 0x1_0000_0000_0000_0000 {
      forall size: U64 | base <= size ensures Near(size, base, Human(size, base), 1) {
        FirstMissIsFirst(size, base);
      }
    } else {
      FirstMissFails(base);
      var size: U64 := FirstMiss(base);
      assert base <= size by { MissAtLeastBase(base); }
      assert !Near(size, base, Human(size, base), 1);
    }
  }

  lemma OneHundredthOfHundreds(size: nat, base: nat)
    requires 100 <= base <= size && 100 * base <= 0x1_0000_0000_0000_0000 && base % 100 == 0
    ensures Near(size, base, Human(size, base), 1)
  {
    var p := Human(size, base);
    assert Pow(base, 1) == base * Pow(base, 0) == base;
    assert p.units > 0;
    SplitExists(size, base, p.units);
    HumanBounds(size, base, p.whole, size / Pow(base, p.units - 1) % base, p.units, size % Pow(base, p.units - 1));
  }

  lemma MissAtLeastBase(base: nat)
    requires base >= 1
    ensures FirstMiss(base) >= base
  {
    assert 0 <= base % 100 * base by { Products(base % 100, base); }
    assert (base + base / 100) * base >= base by { MulAtLeast(base + base / 100, base); }
  }

  /** With base 1024 the slack is 1120/1024 of a hundredth, and 1059062 bytes, printed as 1.00 MB, is the first miss. */
  lemma KibiMisses(size: nat)
    requires size >= 1024
    ensures Within(size, 1024, Human(size, 1024), 1120)
    ensures size < 1059062 ==> Near(size, 1024, Human(size, 1024), 1)
    ensures Human(1059062, 1024) == Printed(1, 0, 2) && !Near(1059062, 1024, Printed(1, 0, 2), 1)
  {
    assert FirstMiss(1024) == 1059062;
    hide FirstMiss, Human, Near, Within;
    SharpSlack(size, 1024, 4);
    FirstMissFails(1024);
    if size < 1059062 { FirstMissIsFirst(size, 1024); }
  }

  /** With base 1024 the size 1269736 is printed as 1.20 MB, more than a hundredth too low. */
  lemma OneHundredthFails()
    ensures Human(1269736, 1024) == Printed(1, 20, 2) && !Near(1269736, 1024, Printed(1, 20, 2), 1)
  {
    SmallSquare(1024);
    hide Pow, Human;
    assert Split(1269736, 1024, 1, 215, 2, 1000);
    HumanIs(1269736, 1024, 1, 215, 2, 1000);
  }
}
