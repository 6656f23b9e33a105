/** The PCI scan by class code over bus, device and function numbers. */
module PciScan {
  import opened CStrings
  import opened Numbers

  type Byte = x: int | 0 <= x < 256

  const NOT_FOUND: Word := 0xFFFFFFFF
  const BUSES := 256
  const DEVICES := 32
  const FUNCTIONS := 8
  const ADDRESSES := 65536

  /** What a function's configuration space answers: class register, and the header type if it reads. */
  datatype Config = Config(classReg: Word, headerType: Option<Byte>)

  /** The functions whose first twelve configuration bytes read, with what they hold. */
  type Space = map<Word, Config>

  /** PciBusDevFunc */
  function Address(bus: nat, dev: nat, func: nat): (a: Word)
    requires bus < BUSES && dev < DEVICES && func < FUNCTIONS
    ensures a < ADDRESSES && a % FUNCTIONS == func && a - func == 256 * bus + 8 * dev
  {
    bus * 256 + dev * 8 + func
  }

  /** Addresses are ordered by bus, then device, then function. */
  lemma AddressOrder(bus: nat, dev: nat, func: nat, bus2: nat, dev2: nat, func2: nat)
    requires bus < BUSES && dev < DEVICES && func < FUNCTIONS && bus2 < BUSES && dev2 < DEVICES && func2 < FUNCTIONS
    ensures Address(bus, dev, func) < Address(bus2, dev2, func2) <==>
      bus < bus2 || (bus == bus2 && (dev < dev2 || (dev == dev2 && func < func2)))
    ensures Address(bus, dev, func) == Address(bus2, dev2, func2) <==> bus == bus2 && dev == dev2 && func == func2
  {}

  predicate Multifunction(space: Space, a: Word) {
    && a in space
    && space[a].headerType.Some?
    && space[a].headerType.value >= 0x80
  }

  predicate HasClass(space: Space, a: Word, base: Byte, sub: Byte, prog: Byte) {
    a in space && space[a].classReg / 256 == base * 65536 + sub * 256 + prog
  }

  /** A function counts if it has the class and is function 0 or sits in a multifunction device. */
  predicate Counts(space: Space, a: Word, base: Byte, sub: Byte, prog: Byte) {
    HasClass(space, a, base, sub, prog) && (a % FUNCTIONS == 0 || Multifunction(space, a - a % FUNCTIONS))
  }

  /** The counting functions below address n, in order. */
  function Hits(space: Space, n: nat, base: Byte, sub: Byte, prog: Byte): (h: seq<Word>)
    requires n <= ADDRESSES
  {
    if n == 0 then []
    else Hits(space, n - 1, base, sub, prog) + (if Counts(space, n - 1, base, sub, prog) then [n - 1] else [])
  }

  /** The three upper bytes of the class register are base class, subclass and programming interface. */
  predicate ClassBytes(reg: Word, base: Byte, sub: Byte, prog: Byte) {
    && reg / 0x100_0000 == base
    && reg / 0x1_0000 % 0x100 == sub
    && reg / 0x100 % 0x100 == prog
  }

  /** Bit 7 of the header type, as far as it reads. */
  predicate TopBit(headerType: Option<Byte>) {
    headerType.Some? && headerType.value / 128 % 2 == 1
  }

  /** What is looked for, by the bytes of the registers: the function answers and its class register starts with the
      three bytes; functions 1 to 7 need bit 7 of the header type of function 0 of their device. */
  predicate Wanted(space: Space, a: Word, base: Byte, sub: Byte, prog: Byte) {
    && a in space
    && ClassBytes(space[a].classReg, base, sub, prog)
    && (a % 8 == 0 || (a - a % 8 in space && TopBit(space[a - a % 8].headerType)))
  }

  /** A register put together from four bytes has exactly the class of its upper three; the revision is ignored. */
  lemma ClassOfRegister(b: Byte, s: Byte, p: Byte, revision: Byte, base: Byte, sub: Byte, prog: Byte)
    ensures ClassBytes(0x100_0000 * b + 0x1_0000 * s + 0x100 * p + revision, base, sub, prog) <==>
      b == base && s == sub && p == prog
  {
    var reg := 0x100_0000 * b + 0x1_0000 * s + 0x100 * p + revision;
    assert reg / 0x100 == 0x1_0000 * b + 0x100 * s + p;
    assert reg / 0x1_0000 == 0x100 * b + s;
    assert reg / 0x100_0000 == b;
  }

  /** The test of the scan says that. */
  lemma CountsWanted(space: Space, a: Word, base: Byte, sub: Byte, prog: Byte)
    ensures Counts(space, a, base, sub, prog) <==> Wanted(space, a, base, sub, prog)
  {
    if a in space { SameClass(space[a].classReg, base, sub, prog); }
  }

  lemma SameClass(reg: Word, base: Byte, sub: Byte, prog: Byte)
    ensures reg / 256 == base * 65536 + sub * 256 + prog <==> ClassBytes(reg, base, sub, prog)
  {
    var top := reg / 0x100;
    assert top / 0x100 == reg / 0x1_0000 && top / 0x1_0000 == reg / 0x100_0000;
    assert top == top / 0x1_0000 * 0x1_0000 + top / 0x100 % 0x100 * 0x100 + top % 0x100;
  }

  /** h lists exactly the wanted functions below n, each once, in bus/device/function order. */
  ghost predicate Enumerates(h: seq<Word>, space: Space, n: nat, base: Byte, sub: Byte, prog: Byte) {
    && (forall i :: 0 <= i < |h| ==> h[i] < n && Wanted(space, h[i], base, sub, prog))
    && (forall a: Word :: a < n && Wanted(space, a, base, sub, prog) ==> a in h)
    && (forall i, j :: 0 <= i < j < |h| ==> h[i] < h[j])
  }

  lemma {:induction false} HitsEnumerate(space: Space, n: nat, base: Byte, sub: Byte, prog: Byte)
    requires n <= ADDRESSES
    ensures Enumerates(Hits(space, n, base, sub, prog), space, n, base, sub, prog)
  {
    if n > 0 {
      HitsEnumerate(space, n - 1, base, sub, prog);
      var h, g := Hits(space, n, base, sub, prog), Hits(space, n - 1, base, sub, prog);
      assert Enumerates(g, space, n - 1, base, sub, prog);
      CountsWanted(space, n - 1, base, sub, prog);
      hide Wanted, Counts;
      if Counts(space, n - 1, base, sub, prog) { EnumeratesMore(g, space, n - 1, base, sub, prog); }
    }
  }

  lemma EnumeratesMore(g: seq<Word>, space: Space, a: Word, base: Byte, sub: Byte, prog: Byte)
    requires Enumerates(g, space, a, base, sub, prog) && Wanted(space, a, base, sub, prog)
    ensures Enumerates(g + [a], space, a + 1, base, sub, prog)
  {
    hide Wanted;
  }

  /** There is only one such list. */
  lemma {:induction false} OneEnumeration(g: seq<Word>, h: seq<Word>, space: Space, n: nat,
      base: Byte, sub: Byte, prog: Byte)
    requires Enumerates(g, space, n, base, sub, prog) && Enumerates(h, space, n, base, sub, prog)
    ensures g == h
    decreases |g|
  {
    hide Wanted;
    if h != [] { NotEmpty(h, g, space, n, base, sub, prog); }
    if g != [] {
      NotEmpty(g, h, space, n, base, sub, prog);
      var x, y := g[|g| - 1], h[|h| - 1];
      assert x in h && y in g;
      assert x == y;
      Shorter(g, space, n, base, sub, prog);
      Shorter(h, space, n, base, sub, prog);
      OneEnumeration(g[..|g| - 1], h[..|h| - 1], space, x, base, sub, prog);
      assert g == g[..|g| - 1] + [x] && h == h[..|h| - 1] + [x];
    }
  }

  lemma NotEmpty(g: seq<Word>, h: seq<Word>, space: Space, n: nat, base: Byte, sub: Byte, prog: Byte)
    requires Enumerates(g, space, n, base, sub, prog) && Enumerates(h, space, n, base, sub, prog) && g != []
    ensures h != []
  {
    assert g[0] in h;
  }

  lemma Shorter(h: seq<Word>, space: Space, n: nat, base: Byte, sub: Byte, prog: Byte)
    requires h != [] && Enumerates(h, space, n, base, sub, prog)
    ensures Enumerates(h[..|h| - 1], space, h[|h| - 1], base, sub, prog)
  {
    hide Wanted;
    var g, x := h[..|h| - 1], h[|h| - 1];
    forall a: Word | a < x && Wanted(space, a, base, sub, prog)
      ensures a in g
    {
      var i :| 0 <= i < |h| && h[i] == a;
      assert g[i] == a;
    }
  }

  lemma HitsEmpty(space: Space, base: Byte, sub: Byte, prog: Byte)
    ensures Hits(space, 0, base, sub, prog) == []
  {}

  lemma HitsNext(space: Space, a: Word, base: Byte, sub: Byte, prog: Byte)
    requires a < ADDRESSES
    ensures var h, all := Hits(space, a, base, sub, prog), Hits(space, ADDRESSES, base, sub, prog);
      if Counts(space, a, base, sub, prog)
      then |Hits(space, a + 1, base, sub, prog)| == |h| + 1 && |h| < |all| && all[|h|] == a
      else Hits(space, a + 1, base, sub, prog) == h
  {
    HitsPrefix(space, a + 1, ADDRESSES, base, sub, prog);
  }

  lemma {:induction false} HitsPrefix(space: Space, m: nat, n: nat, base: Byte, sub: Byte, prog: Byte)
    requires m <= n <= ADDRESSES
    ensures Hits(space, m, base, sub, prog) <= Hits(space, n, base, sub, prog)
    decreases n
  {
    if m < n { HitsPrefix(space, m, n - 1, base, sub, prog); }
  }

  /** Functions that do not count leave the enumeration as it is. */
  lemma {:induction false} HitsSkip(space: Space, m: nat, n: nat, base: Byte, sub: Byte, prog: Byte)
    requires m <= n <= ADDRESSES
    requires forall a: Word :: m <= a < n ==> !Counts(space, a, base, sub, prog)
    ensures Hits(space, n, base, sub, prog) == Hits(space, m, base, sub, prog)
    decreases n
  {
    if m < n { HitsSkip(space, m, n - 1, base, sub, prog); }
  }

  /** The functions left out of a device without the multifunction bit do not count. */
  lemma RestOfDevice(space: Space, first: Word, func: nat, base: Byte, sub: Byte, prog: Byte)
    requires first % FUNCTIONS == 0 && first < ADDRESSES && 0 < func <= FUNCTIONS
    requires func < FUNCTIONS ==> !Multifunction(space, first)
    ensures Hits(space, first + FUNCTIONS, base, sub, prog) == Hits(space, first + func, base, sub, prog)
  {
    hide Hits, Multifunction, HasClass;
    HitsSkip(space, first + func, first + FUNCTIONS, base, sub, prog);
  }

  /** WR0_FindPciByClass; `usable` is the check of the driver handle and type. */
  method FindPciByClass(usable: bool, space: Space, base: Byte, sub: Byte, prog: Byte, index: Byte) returns (r: Word)
    ensures var h := Hits(space, ADDRESSES, base, sub, prog);
      r == if usable && index < |h| then h[index] else NOT_FOUND
    ensures exists h :: (
      Enumerates(h, space, 65536, base, sub, prog) && r == if usable && index < |h| then h[index] else 0xFFFF_FFFF)
  {
    hide Hits, Enumerates, Wanted;
    HitsEnumerate(space, ADDRESSES, base, sub, prog);
    assert Hits(space, 0, base, sub, prog) == [] by { HitsEmpty(space, base, sub, prog); }
    r := NOT_FOUND;
    if !usable {
      return;
    }
    var count := 0;
    var bus := 0;
    while bus < BUSES
      invariant bus <= BUSES
      invariant count == |Hits(space, 256 * bus, base, sub, prog)| <= index
    {
      var dev := 0;
      while dev < DEVICES
        invariant dev <= DEVICES
        invariant count == |Hits(space, 256 * bus + 8 * dev, base, sub, prog)| <= index
      {
        ghost var first := Address(bus, dev, 0);
        var mfFlag := false;
        var func := 0;
        while func < FUNCTIONS
          invariant func <= FUNCTIONS
          invariant func == 0 ==> !mfFlag
          invariant func > 0 ==> (mfFlag <==> Multifunction(space, first))
          invariant count == |Hits(space, first + func, base, sub, prog)| <= index
        {
          if !mfFlag && func > 0 {
            break;
          }
          var addr := Address(bus, dev, func);
          HitsNext(space, addr, base, sub, prog);
          if addr in space {
            if func == 0 && space[addr].headerType.Some? {
              if space[addr].headerType.value >= 0x80 {
                mfFlag := true;
              }
            }
            if space[addr].classReg / 256 == base * 65536 + sub * 256 + prog {
              if count == index {
                return addr;
              }
              count := count + 1;
            }
          }
          func := func + 1;
        }
        RestOfDevice(space, first, func, base, sub, prog);
        dev := dev + 1;
      }
      bus := bus + 1;
    }
  }
}
