/** UTF-16 code units to UTF-8 in a fixed buffer, and the decoding of RFC 3629, section 3. */
module Utf8 {
  import opened CStrings

  const U_BUFSZ := 0x10000
  const CAP := U_BUFSZ / 3

  predicate Surrogate(u: bv16) {
    0xD800 <= u <= 0xDFFF
  }

  function EncodeUnit(u: bv16): (r: seq<bv8>)
    ensures 1 <= |r| <= 3
  {
    if u <= 0x007F then [u as bv8]
    else if u <= 0x07FF then [((u >> 6) | 0xC0) as bv8, ((u & 0x3F) | 0x80) as bv8]
    else [((u >> 12) | 0xE0) as bv8, (((u >> 6) & 0x3F) | 0x80) as bv8, ((u & 0x3F) | 0x80) as bv8]
  }

  function Encode(units: seq<bv16>): (r: seq<bv8>)
    ensures |units| <= |r| <= 3 * |units|
  {
    if units == [] then [] else EncodeUnit(units[0]) + Encode(units[1..])
  }

  lemma {:induction false} EncodeSnoc(units: seq<bv16>, u: bv16)
    ensures Encode(units + [u]) == Encode(units) + EncodeUnit(u)
  {
    if units == [] {
      assert Encode([u][1..]) == [];
    } else {
      assert (units + [u])[1..] == units[1..] + [u];
      EncodeSnoc(units[1..], u);
    }
  }

  predicate Trail(b: bv8) {
    b & 0xC0 == 0x80
  }

  predicate Lead(b: bv8, n: nat) {
    match n
    case 1 => b & 0x80 == 0
    case 2 => b & 0xE0 == 0xC0
    case _ => b & 0xF0 == 0xE0
  }

  function Two(a: bv8, b: bv8): bv16 {
    ((a & 0x1F) as bv16 << 6) | ((b & 0x3F) as bv16)
  }

  function Three(a: bv8, b: bv8, c: bv8): bv16 {
    ((a & 0x0F) as bv16 << 12) | ((b & 0x3F) as bv16 << 6) | ((c & 0x3F) as bv16)
  }

  /** One character of at most three bytes: its code point and length, or None if the bytes are not valid. */
  function DecodeOne(b: seq<bv8>): (r: Option<(bv16, nat)>)
    requires b != []
    ensures r.Some? ==> 1 <= r.value.1 <= |b|
  {
    if Lead(b[0], 1) then Some((b[0] as bv16, 1))
    else if Lead(b[0], 2) && |b| >= 2 && Trail(b[1]) then
      if Two(b[0], b[1]) >= 0x80 then Some((Two(b[0], b[1]), 2)) else None
    else if Lead(b[0], 3) && |b| >= 3 && Trail(b[1]) && Trail(b[2]) then
      var u := Three(b[0], b[1], b[2]);
      if u >= 0x800 && !Surrogate(u) then Some((u, 3)) else None
    else None
  }

  function Decode(b: seq<bv8>): Option<seq<bv16>> {
    if b == [] then Some([])
    else match DecodeOne(b)
      case None => None
      case Some((u, n)) =>
        match Decode(b[n..])
        case None => None
        case Some(more) => Some([u] + more)
  }

  lemma OneByte(u: bv16)
    requires u <= 0x7F
    ensures Lead(u as bv8, 1) && (u as bv8) as bv16 == u && (u != 0 ==> u as bv8 != 0)
  {}

  lemma TwoBytes(u: bv16)
    requires 0x80 <= u <= 0x7FF
    ensures var a, b := ((u >> 6) | 0xC0) as bv8, ((u & 0x3F) | 0x80) as bv8;
      !Lead(a, 1) && Lead(a, 2) && Trail(b) && a != 0 && b != 0 && Two(a, b) == u
  {}

  lemma ThreeBytes(u: bv16)
    requires u >= 0x800
    ensures var a, b, c := ((u >> 12) | 0xE0) as bv8, (((u >> 6) & 0x3F) | 0x80) as bv8, ((u & 0x3F) | 0x80) as bv8;
      && !Lead(a, 1) && !Lead(a, 2) && Lead(a, 3) && Trail(b) && Trail(c)
      && a != 0 && b != 0 && c != 0 && Three(a, b, c) == u
  {}

  lemma DecodeUnit(u: bv16, tail: seq<bv8>)
    requires !Surrogate(u)
    ensures DecodeOne(EncodeUnit(u) + tail) == Some((u, |EncodeUnit(u)|))
    ensures (EncodeUnit(u) + tail)[|EncodeUnit(u)|..] == tail
    ensures u != 0 ==> 0 !in EncodeUnit(u)
  {
    hide Trail, Lead, Two, Three;
    if u <= 0x7F {
      OneByte(u);
    } else if u <= 0x7FF {
      TwoBytes(u);
    } else {
      ThreeBytes(u);
    }
  }

  /** The encoding of text without surrogates decodes to that text, and holds no NUL if the text holds none. */
  lemma {:induction false} DecodeEncode(units: seq<bv16>)
    requires forall i :: 0 <= i < |units| ==> !Surrogate(units[i])
    ensures Decode(Encode(units)) == Some(units)
    ensures 0 !in units ==> 0 !in Encode(units)
  {
    if units != [] {
      DecodeUnit(units[0], Encode(units[1..]));
      DecodeEncode(units[1..]);
      assert units == [units[0]] + units[1..];
    }
  }

  /** How many units are converted: up to the first NUL or surrogate, at most cap. */
  function Taken(src: seq<bv16>, cap: nat): (n: nat)
    ensures n <= |src| && n <= cap
    ensures forall i :: 0 <= i < n ==> src[i] != 0 && !Surrogate(src[i])
    ensures n == cap || n == |src| || src[n] == 0 || Surrogate(src[n])
  {
    if cap == 0 || src == [] || src[0] == 0 || Surrogate(src[0]) then 0
    else 1 + Taken(src[1..], cap - 1)
  }

  lemma TakenAt(src: seq<bv16>, cap: nat, n: nat)
    requires n <= |src| && n <= cap
    requires forall i :: 0 <= i < n ==> src[i] != 0 && !Surrogate(src[i])
    requires n == cap || n == |src| || src[n] == 0 || Surrogate(src[n])
    ensures Taken(src, cap) == n
  {}

  /** Writes the bytes of one unit at p. */
  method Put(buf: array<bv8>, p: nat, u: bv16) returns (q: nat)
    requires p + 3 <= buf.Length && !Surrogate(u)
    requires forall k :: p <= k < buf.Length ==> buf[k] == 0
    modifies buf
    ensures p <= q <= p + 3 && buf[..q] == old(buf[..p]) + EncodeUnit(u)
    ensures forall k :: q <= k < buf.Length ==> buf[k] == 0
  {
    q := p;
    if u <= 0x007F {
      buf[q] := u as bv8;
      q := q + 1;
    } else if u <= 0x07FF {
      buf[q], buf[q + 1] := ((u >> 6) | 0xC0) as bv8, ((u & 0x3F) | 0x80) as bv8;
      q := q + 2;
    } else {
      buf[q], buf[q + 1] := ((u >> 12) | 0xE0) as bv8, (((u >> 6) & 0x3F) | 0x80) as bv8;
      buf[q + 2] := ((u & 0x3F) | 0x80) as bv8;
      q := q + 3;
    }
    assert buf[p..q] == EncodeUnit(u);
    assert buf[..q] == buf[..p] + buf[p..q];
  }

  /** Ucs2ToUtf8: the bytes written are the encoding of the units taken, and the rest of the buffer is zero. */
  method Ucs2ToUtf8(src: seq<bv16>, buf: array<bv8>)
    requires 0 in src && buf.Length == U_BUFSZ + 1
    modifies buf
    ensures var text := Encode(src[..Taken(src, 21845)]);
      |text| < buf.Length && buf[..|text|] == text && forall k :: |text| <= k < buf.Length ==> buf[k] == 0
  {
    hide EncodeUnit, Encode, Taken;
    forall k | 0 <= k < buf.Length {
      buf[k] := 0;
    }
    ghost var z :| 0 <= z < |src| && src[z] == 0;
    var p, i := 0, 0;
    assert Encode(src[..0]) == [] by { EncodeNothing(); }
    while i < CAP
      invariant i <= CAP && i <= z && p <= 3 * i
      invariant forall k :: 0 <= k < i ==> src[k] != 0 && !Surrogate(src[k])
      invariant p == |Encode(src[..i])| && buf[..p] == Encode(src[..i])
      invariant forall k :: p <= k < buf.Length ==> buf[k] == 0
    {
      var u := src[i];
      if u == 0 {
        break;
      } else if 0xD800 <= u <= 0xDFFF {
        buf[p] := 0;
        break;
      }
      p := Put(buf, p, u);
      EncodeSnoc(src[..i], u);
      assert src[..i + 1] == src[..i] + [u];
      i := i + 1;
    }
    TakenAt(src, CAP, i);
  }

  lemma EncodeNothing()
    ensures Encode([]) == []
  {}

  /** What the caller reads: the text before the first zero byte decodes to the units taken. */
  lemma WrittenText(src: seq<bv16>, buf: seq<bv8>, n: nat)
    requires n <= |buf| && buf[..n] == Encode(src[..Taken(src, 21845)])
    requires n < |buf| && buf[n] == 0
    ensures 0 !in buf[..n] && Decode(buf[..n]) == Some(src[..Taken(src, 21845)])
  {
    DecodeEncode(src[..Taken(src, 21845)]);
  }

  /** The examples of RFC 3629, section 7, that need no surrogates. */
  lemma Examples()
    ensures Encode([0x0041, 0x2262, 0x0391, 0x002E]) == [0x41, 0xE2, 0x89, 0xA2, 0xCE, 0x91, 0x2E]
    ensures Encode([0xD55C, 0xAD6D, 0xC5B4]) == [0xED, 0x95, 0x9C, 0xEA, 0xB5, 0xAD, 0xEC, 0x96, 0xB4]
    ensures Encode([0x65E5, 0x672C, 0x8A9E]) == [0xE6, 0x97, 0xA5, 0xE6, 0x9C, 0xAC, 0xE8, 0xAA, 0x9E]
  {
    UnitBytes();
    hide EncodeUnit;
    FourUnits(0x0041, 0x2262, 0x0391, 0x002E);
    ThreeUnits(0xD55C, 0xAD6D, 0xC5B4);
    ThreeUnits(0x65E5, 0x672C, 0x8A9E);
  }

  lemma ThreeUnits(a: bv16, b: bv16, c: bv16)
    ensures Encode([a, b, c]) == EncodeUnit(a) + EncodeUnit(b) + EncodeUnit(c)
  {
    hide EncodeUnit;
    EncodeNothing();
    EncodeSnoc([], a);
    EncodeSnoc([a], b);
    EncodeSnoc([a, b], c);
    assert [] + [a] == [a] && [a] + [b] == [a, b] && [a, b] + [c] == [a, b, c];
  }

  lemma FourUnits(a: bv16, b: bv16, c: bv16, d: bv16)
    ensures Encode([a, b, c, d]) == EncodeUnit(a) + EncodeUnit(b) + EncodeUnit(c) + EncodeUnit(d)
  {
    hide EncodeUnit;
    ThreeUnits(a, b, c);
    EncodeSnoc([a, b, c], d);
    assert [a, b, c] + [d] == [a, b, c, d];
  }

  lemma UnitBytes()
    ensures EncodeUnit(0x0041) == [0x41] && EncodeUnit(0x002E) == [0x2E] && EncodeUnit(0x0391) == [0xCE, 0x91]
    ensures EncodeUnit(0x2262) == [0xE2, 0x89, 0xA2] && EncodeUnit(0xD55C) == [0xED, 0x95, 0x9C]
    ensures EncodeUnit(0xAD6D) == [0xEA, 0xB5, 0xAD] && EncodeUnit(0xC5B4) == [0xEC, 0x96, 0xB4]
    ensures EncodeUnit(0x65E5) == [0xE6, 0x97, 0xA5] && EncodeUnit(0x672C) == [0xE6, 0x9C, 0xAC]
    ensures EncodeUnit(0x8A9E) == [0xE8, 0xAA, 0x9E]
  {}

  /** The first and the last unit of one, two and three bytes, as in the table of section 3. */
  lemma Boundaries()
    ensures EncodeUnit(0) == [0] && EncodeUnit(0x7F) == [0x7F]
    ensures EncodeUnit(0x80) == [0xC2, 0x80] && EncodeUnit(0x7FF) == [0xDF, 0xBF]
    ensures EncodeUnit(0x800) == [0xE0, 0xA0, 0x80] && EncodeUnit(0xFFFF) == [0xEF, 0xBF, 0xBF]
    ensures !Surrogate(0xD7FF) && Surrogate(0xD800) && Surrogate(0xDFFF) && !Surrogate(0xE000)
  {}
}
