/** The big-integer helpers with logic of their own: the hex codec between integers and bytes,
    the bytewise loops behind and, or and xor, and the trimming of random bits. */
module BigInt {
  import opened Wrappers
  import opened CBytes
  import opened HexBytes

  // Integers and bytes.

  function FromDigits(d: seq<nibble>): nat {
    if d == [] then 0 else 16 * FromDigits(d[..|d| - 1]) + d[|d| - 1]
  }

  /** A big-endian byte string as a number. */
  function FromBytes(b: seq<byte>): nat {
    if b == [] then 0 else 256 * FromBytes(b[..|b| - 1]) + b[|b| - 1]
  }

  /** The hex digits of a number, without leading zeros except for 0 itself. */
  function HexText(n: nat): (d: seq<nibble>)
    ensures d != [] && (n > 0 ==> d[0] != 0)
  {
    if n < 16 then [n] else HexText(n / 16) + [n % 16]
  }

  /** Format with at least two hex digits, pad to an even number. */
  function EvenText(n: nat): seq<nibble> {
    var xx := if |HexText(n)| < 2 then [0] + HexText(n) else HexText(n);
    if |xx| % 2 == 0 then xx else [0] + xx
  }

  function ToBytes(n: nat): seq<byte> {
    Pairs(EvenText(n))
  }

  /** Print as hex and read as a base-16 number; there is no number in an empty text. */
  function FromHex(b: seq<byte>): Option<nat> {
    if b == [] then None else Some(FromDigits(Nibbles(b)))
  }

  lemma {:induction false} HexTextReads(n: nat)
    ensures FromDigits(HexText(n)) == n
  {
    var d := HexText(n);
    if n >= 16 {
      HexTextReads(n / 16);
      assert d[..|d| - 1] == HexText(n / 16);
    } else {
      assert d[..0] == [];
    }
  }

  lemma {:induction false} LeadingZero(d: seq<nibble>)
    ensures FromDigits([0] + d) == FromDigits(d)
  {
    var z: seq<nibble> := [0];
    if d == [] {
      assert z + d == z && z[..0] == [];
    } else {
      LeadingZero(d[..|d| - 1]);
      assert (z + d)[..|d|] == z + d[..|d| - 1];
    }
  }

  lemma {:induction false} NibblesOfPairs(d: seq<nibble>, m: nat)
    requires |d| == 2 * m
    ensures Nibbles(Pairs(d)) == d
  {
    if m == 0 {
    } else {
      var n := 2 * (m - 1);
      NibblesOfPairs(d[..n], m - 1);
      assert d == d[..n] + [d[n], d[n + 1]];
      PairsLast(d[..n], d[n], d[n + 1], m - 1);
      NibblesLast(Pairs(d[..n]), Join(d[n], d[n + 1]));
    }
  }

  lemma NibblesLast(b: seq<byte>, x: byte)
    ensures Nibbles(b + [x]) == Nibbles(b) + [x / 16, x % 16]
  {
    assert (b + [x])[..|b|] == b;
  }

  lemma {:induction false} NibblesRead(b: seq<byte>)
    ensures FromDigits(Nibbles(b)) == FromBytes(b)
  {
    if b == [] {
    } else {
      NibblesRead(b[..|b| - 1]);
      var d := Nibbles(b);
      assert d[..|d| - 1][..|d| - 2] == d[..|d| - 2] == Nibbles(b[..|b| - 1]);
    }
  }

  /** The codec loses nothing, for every number. */
  lemma CodecRoundTrip(n: nat)
    ensures FromHex(ToBytes(n)) == Some(n) && FromBytes(ToBytes(n)) == n
  {
    var d := EvenText(n);
    HexTextReads(n);
    LeadingZero(HexText(n));
    NibblesOfPairs(d, |d| / 2);
    NibblesRead(Pairs(d));
  }

  /** Every non-empty byte string is read as the big-endian number it is. */
  lemma ReadsBigEndian(b: seq<byte>)
    ensures b == [] <==> FromHex(b).None?
    ensures b != [] ==> FromHex(b) == Some(FromBytes(b))
    ensures b != [] ==> FromHex(b).value == FromBytes(b[..|b| - 1]) * 256 + b[|b| - 1]
  {
    NibblesRead(b);
  }

  function Pow2(k: nat): (r: nat)
    ensures r > 0
  {
    if k == 0 then 1 else 2 * Pow2(k - 1)
  }

  lemma Pow2Plus8(k: nat)
    ensures Pow2(k + 8) == 256 * Pow2(k)
  {
    assert Pow2(k + 8) == 2 * Pow2(k + 7) == 4 * Pow2(k + 6) == 8 * Pow2(k + 5) == 16 * Pow2(k + 4);
    assert Pow2(k + 4) == 2 * Pow2(k + 3) == 4 * Pow2(k + 2) == 8 * Pow2(k + 1) == 16 * Pow2(k);
  }

  lemma {:induction false} FromBytesBound(b: seq<byte>)
    ensures FromBytes(b) < Pow2(8 * |b|)
  {
    if b == [] {
    } else {
      FromBytesBound(b[..|b| - 1]);
      Pow2Plus8(8 * (|b| - 1));
    }
  }

  lemma {:induction false} LeadingByteCounts(b: seq<byte>)
    requires b != [] && b[0] != 0
    ensures FromBytes(b) >= Pow2(8 * (|b| - 1))
  {
    if |b| == 1 {
      assert b[..0] == [];
    } else {
      LeadingByteCounts(b[..|b| - 1]);
      Pow2Plus8(8 * (|b| - 2));
    }
  }

  lemma {:induction false} Pow2Monotone(i: nat, j: nat)
    requires i <= j
    ensures Pow2(i) <= Pow2(j)
  {
    if i == j {
    } else {
      Pow2Monotone(i, j - 1);
    }
  }

  lemma FirstByteCounts(n: nat)
    requires n > 0
    ensures ToBytes(n) != [] && ToBytes(n)[0] != 0
  {
    assert |EvenText(n)| >= 2;
  }

  /** No non-empty byte string that means n is shorter than the encoding of n. */
  lemma CodecIsMinimal(n: nat, b: seq<byte>)
    requires b != [] && FromBytes(b) == n
    ensures |ToBytes(n)| <= |b|
  {
    if n == 0 {
      assert HexText(0) == [0];
    } else {
      hide ToBytes, FromBytes, Pow2;
      var t := ToBytes(n);
      CodecRoundTrip(n);
      FirstByteCounts(n);
      LeadingByteCounts(t);
      FromBytesBound(b);
      if |t| > |b| {
        Pow2Monotone(8 * |b|, 8 * (|t| - 1));
        assert false;
      }
    }
  }

  // Bitwise operations.

  /** Bit i of a number. */
  predicate Bit(n: nat, i: nat)
    decreases i
  {
    if i == 0 then n % 2 == 1 else Bit(n / 2, i - 1)
  }

  lemma {:induction false} BitsDetermine(x: nat, y: nat)
    requires forall i: nat :: Bit(x, i) == Bit(y, i)
    ensures x == y
    decreases x + y
  {
    if x == 0 && y == 0 {
    } else {
      assert Bit(x, 0) == Bit(y, 0);
      forall i: nat ensures Bit(x / 2, i) == Bit(y / 2, i) {
        assert Bit(x, i + 1) == Bit(y, i + 1);
      }
      BitsDetermine(x / 2, y / 2);
    }
  }

  datatype Op = And | Or | Xor {
    predicate On(p: bool, q: bool) {
      match this
      case And => p && q
      case Or => p || q
      case Xor => p != q
    }
  }

  /** The bitwise operation on numbers of at most w bits, from the lowest bit up. */
  function Combined(op: Op, x: nat, y: nat, w: nat): (r: nat)
    ensures r < Pow2(w)
    decreases w
  {
    if w == 0 then 0
    else (if op.On(x % 2 == 1, y % 2 == 1) then 1 else 0) + 2 * Combined(op, x / 2, y / 2, w - 1)
  }

  lemma {:induction false} CombinedBit(op: Op, x: nat, y: nat, w: nat, i: nat)
    requires x < Pow2(w) && y < Pow2(w)
    ensures Bit(Combined(op, x, y, w), i) == op.On(Bit(x, i), Bit(y, i))
    decreases w, i
  {
    if i == 0 {
    } else if w == 0 {
      CombinedBit(op, 0, 0, 0, i - 1);
    } else {
      CombinedBit(op, x / 2, y / 2, w - 1, i - 1);
    }
  }

  /** High and low parts combine on their own. */
  lemma {:induction false} CombinedSplit(op: Op, hx: nat, hy: nat, x: nat, y: nat, w: nat, k: nat)
    requires x < Pow2(k) && y < Pow2(k)
    ensures 0 <= hx * Pow2(k) && 0 <= hy * Pow2(k)
    ensures Combined(op, hx * Pow2(k) + x, hy * Pow2(k) + y, w + k)
            == Combined(op, hx, hy, w) * Pow2(k) + Combined(op, x, y, k)
    decreases k
  {
    if k == 0 {
    } else {
      var p := Pow2(k - 1);
      CombinedSplit(op, hx, hy, x / 2, y / 2, w, k - 1);
      HalfOf(hx, p, x);
      HalfOf(hy, p, y);
      HalfOf(Combined(op, hx, hy, w), p, 0);
      CombinedStep(op, hx * (2 * p) + x, hy * (2 * p) + y, w + k);
      CombinedStep(op, x, y, k);
    }
  }

  lemma CombinedStep(op: Op, x: nat, y: nat, w: nat)
    requires w > 0
    ensures Combined(op, x, y, w)
            == (if op.On(x % 2 == 1, y % 2 == 1) then 1 else 0) + 2 * Combined(op, x / 2, y / 2, w - 1)
  {
  }

  lemma HalfOf(h: nat, p: nat, x: nat)
    ensures 0 <= h * (2 * p) == 2 * (h * p)
    ensures (h * (2 * p) + x) / 2 == h * p + x / 2 && (h * (2 * p) + x) % 2 == x % 2
  {
    assert h * (2 * p) == 2 * (h * p);
  }

  lemma CombinedLastByte(op: Op, hx: nat, hy: nat, x: byte, y: byte, w: nat)
    ensures Combined(op, 256 * hx + x, 256 * hy + y, w + 8)
            == 256 * Combined(op, hx, hy, w) + Combined(op, x, y, 8)
  {
    hide Combined;
    Pow2Plus8(0);
    CombinedSplit(op, hx, hy, x, y, w, 8);
  }

  function CombinedBytes(op: Op, xs: seq<byte>, ys: seq<byte>): seq<byte>
    requires |xs| == |ys|
  {
    seq(|xs|, i requires 0 <= i < |xs| => CombinedByte(op, xs[i], ys[i]))
  }

  function CombinedByte(op: Op, x: byte, y: byte): byte {
    assert Pow2(8) == 256 by { Pow2Plus8(0); }
    Combined(op, x, y, 8)
  }

  lemma CombinedBytesLast(op: Op, xs: seq<byte>, ys: seq<byte>)
    requires |xs| == |ys| > 0
    ensures var n := |xs| - 1;
            CombinedBytes(op, xs, ys) == CombinedBytes(op, xs[..n], ys[..n]) + [CombinedByte(op, xs[n], ys[n])]
  {
    hide CombinedByte;
  }

  lemma BytewiseStep(op: Op, xs: seq<byte>, ys: seq<byte>, n: nat)
    requires |xs| == |ys| == n + 1
    requires FromBytes(CombinedBytes(op, xs[..n], ys[..n])) == Combined(op, FromBytes(xs[..n]), FromBytes(ys[..n]), 8 * n)
    ensures FromBytes(CombinedBytes(op, xs, ys)) == Combined(op, FromBytes(xs), FromBytes(ys), 8 * (n + 1))
  {
    hide Combined, FromBytes, CombinedBytes;
    CombinedBytesLast(op, xs, ys);
    LastByte(CombinedBytes(op, xs, ys));
    LastByte(xs);
    LastByte(ys);
    CombinedLastByte(op, FromBytes(xs[..n]), FromBytes(ys[..n]), xs[n], ys[n], 8 * n);
  }

  /** Byte by byte is the same as on the whole numbers. */
  lemma {:induction false} BytewiseIsBitwise(op: Op, xs: seq<byte>, ys: seq<byte>)
    requires |xs| == |ys|
    ensures FromBytes(CombinedBytes(op, xs, ys)) == Combined(op, FromBytes(xs), FromBytes(ys), 8 * |xs|)
  {
    if xs == [] {
    } else {
      hide Combined, FromBytes, CombinedBytes;
      var n := |xs| - 1;
      BytewiseIsBitwise(op, xs[..n], ys[..n]);
      BytewiseStep(op, xs, ys, n);
    }
  }

  lemma LastByte(b: seq<byte>)
    requires b != []
    ensures FromBytes(b) == 256 * FromBytes(b[..|b| - 1]) + b[|b| - 1]
  {
  }

  function BitLen(n: nat): nat {
    if n == 0 then 0 else 1 + BitLen(n / 2)
  }

  lemma {:induction false} BitLenBound(n: nat)
    ensures n < Pow2(BitLen(n))
    ensures n > 0 ==> Pow2(BitLen(n) - 1) <= n
  {
    if n == 0 {
    } else {
      BitLenBound(n / 2);
    }
  }

  /** The low size bytes of a number, big-endian; they are the whole number if it fits. */
  function Fixed(n: nat, size: nat): (b: seq<byte>)
    ensures |b| == size
    decreases size
  {
    if size == 0 then [] else Fixed(n / 256, size - 1) + [n % 256]
  }

  lemma {:induction false} FixedReads(n: nat, size: nat)
    requires n < Pow2(8 * size)
    ensures FromBytes(Fixed(n, size)) == n
    decreases size
  {
    if size == 0 {
    } else {
      Pow2Plus8(8 * (size - 1));
      FixedReads(n / 256, size - 1);
      assert Fixed(n, size)[..size - 1] == Fixed(n / 256, size - 1);
    }
  }

  lemma FitsSize(n: nat, m: nat, size: nat)
    requires BitLen(n) <= m && size == (m + 7) / 8
    ensures n < Pow2(8 * size)
  {
    BitLenBound(n);
    Pow2Monotone(BitLen(n), 8 * size);
  }

  lemma BytewiseResult(op: Op, a: nat, b: nat, size: nat, i: nat)
    requires a < Pow2(8 * size) && b < Pow2(8 * size)
    ensures Bit(FromBytes(CombinedBytes(op, Fixed(a, size), Fixed(b, size))), i) == op.On(Bit(a, i), Bit(b, i))
  {
    hide Combined, CombinedBytes, Bit, Pow2;
    FixedReads(a, size);
    FixedReads(b, size);
    BytewiseIsBitwise(op, Fixed(a, size), Fixed(b, size));
    CombinedBit(op, a, b, 8 * size, i);
  }

  lemma NoBytesMeansZero(a: nat, b: nat, m: nat)
    requires BitLen(a) <= m && BitLen(b) <= m && (m + 7) / 8 == 0
    ensures a == 0 && b == 0
  {
  }

  /** The loop of __and__, __or__ and __xor__: bit by bit the operation on the two numbers,
      which by BitsDetermine leaves one result only. Of two zeros the buffers are empty, and
      wiping them fails on the address of their first byte. */
  method Bitwise(op: Op, a: nat, b: nat) returns (result: Option<nat>)
    ensures result.None? <==> a == 0 && b == 0
    ensures result.Some? ==> forall i: nat :: Bit(result.value, i) == op.On(Bit(a, i), Bit(b, i))
  {
    hide Combined, Bit, Pow2, FromBytes, Fixed, BitLen;
    var m := if BitLen(a) < BitLen(b) then BitLen(b) else BitLen(a);
    var size := (m + 7) / 8;
    FitsSize(a, m, size);
    FitsSize(b, m, size);
    var xs, ys := Fixed(a, size), Fixed(b, size);
    var output := new byte[size];
    var ii := 0;
    while ii < size
      invariant 0 <= ii <= size
      invariant forall k :: 0 <= k < ii ==> output[k] == CombinedByte(op, xs[k], ys[k])
    {
      output[ii] := CombinedByte(op, xs[ii], ys[ii]);
      ii := ii + 1;
    }
    assert output[..] == CombinedBytes(op, xs, ys);
    var r := FromBytes(output[..]);
    if size == 0 {
      assert a == 0 && b == 0 by { NoBytesMeansZero(a, b, m); }
      return None;
    }
    assert a > 0 || b > 0 by { ZeroHasNoBits(); }
    result := Some(r);
    forall i: nat ensures Bit(r, i) == op.On(Bit(a, i), Bit(b, i)) {
      BytewiseResult(op, a, b, size, i);
    }
  }

  /** The operators in arithmetic: x + y is the xor plus twice the carries, which are the and;
      and and or together have the bits of both; the and is no more than either. */
  lemma {:induction false} OperatorsAddUp(x: nat, y: nat, w: nat)
    requires x < Pow2(w) && y < Pow2(w)
    ensures Combined(Xor, x, y, w) + 2 * Combined(And, x, y, w) == x + y
    ensures Combined(Or, x, y, w) + Combined(And, x, y, w) == x + y
    ensures Combined(And, x, y, w) <= x && Combined(And, x, y, w) <= y
    decreases w
  {
    if w == 0 {
    } else {
      OperatorsAddUp(x / 2, y / 2, w - 1);
    }
  }

  // Random numbers below a bound.

  function ShiftRight(v: nat, e: nat): nat
    decreases e
  {
    if e == 0 then v else ShiftRight(v / 2, e - 1)
  }

  /** Shifting right drops exactly the low bits. */
  lemma {:induction false} ShiftShortens(v: nat, e: nat)
    requires e <= BitLen(v)
    ensures BitLen(ShiftRight(v, e)) == BitLen(v) - e
    decreases e
  {
    if e == 0 {
    } else {
      ShiftShortens(v / 2, e - 1);
    }
  }

  lemma MulMonotone(a: nat, b: nat, p: nat)
    requires a <= b
    ensures 0 <= a * p <= b * p
  {
    assert b * p == a * p + (b - a) * p;
  }

  lemma QuotientUnique(v: nat, p: nat, q: nat)
    requires p > 0 && 0 <= q * p <= v < q * p + p
    ensures v / p == q
  {
    var d := v / p;
    assert v == d * p + v % p;
    MulMonotone(d + 1, if d < q then q else d + 1, p);
    MulMonotone(q + 1, if d > q then d else q + 1, p);
  }

  lemma {:induction false} ShiftBounds(v: nat, e: nat)
    ensures 0 <= ShiftRight(v, e) * Pow2(e) <= v < ShiftRight(v, e) * Pow2(e) + Pow2(e)
    decreases e
  {
    if e == 0 {
    } else {
      ShiftBounds(v / 2, e - 1);
      var q, p := ShiftRight(v, e), Pow2(e - 1);
      assert q * (2 * p) == 2 * (q * p);
    }
  }

  /** Shifting right by e divides by the e-th power of two, and moves every bit down by e. */
  lemma ShiftDivides(v: nat, e: nat)
    ensures ShiftRight(v, e) == v / Pow2(e)
  {
    ShiftBounds(v, e);
    QuotientUnique(v, Pow2(e), ShiftRight(v, e));
  }

  lemma {:induction false} ShiftMovesBits(v: nat, e: nat, i: nat)
    ensures Bit(ShiftRight(v, e), i) == Bit(v, i + e)
    decreases e
  {
    if e == 0 {
    } else {
      ShiftMovesBits(v / 2, e - 1, i);
    }
  }

  /** By how much a number is longer than k bits. */
  function Excess(v: nat, k: nat): nat {
    if BitLen(v) <= k then 0 else BitLen(v) - k
  }

  /** The drawn bytes as a number, its bits beyond k shifted out at the low end. */
  function Trimmed(k: nat, drawn: seq<byte>): nat {
    var value := FromBytes(drawn);
    ShiftRight(value, Excess(value, k))
  }

  /** The result is the draw without its lowest bits, as many as it has beyond k; so it has at most
      k bits, and a number that has no more is left alone. */
  lemma TrimmedBelow(k: nat, drawn: seq<byte>)
    ensures var v := FromBytes(drawn); Trimmed(k, drawn) == v / Pow2(Excess(v, k))
    ensures forall i: nat :: Bit(Trimmed(k, drawn), i) == Bit(FromBytes(drawn), i + Excess(FromBytes(drawn), k))
    ensures Trimmed(k, drawn) < Pow2(k)
    ensures FromBytes(drawn) < Pow2(k) ==> Trimmed(k, drawn) == FromBytes(drawn)
  {
    hide Pow2, BitLen, FromBytes, Bit;
    var value := FromBytes(drawn);
    ShiftDivides(value, Excess(value, k));
    forall i: nat ensures Bit(Trimmed(k, drawn), i) == Bit(value, i + Excess(value, k)) {
      ShiftMovesBits(value, Excess(value, k), i);
    }
    BitLenBound(value);
    BitLenBound(Trimmed(k, drawn));
    if BitLen(value) > k {
      ShiftShortens(value, BitLen(value) - k);
      assert value > 0 by { ZeroHasNoBits(); }
      Pow2Monotone(k, BitLen(value) - 1);
    } else {
      Pow2Monotone(BitLen(value), k);
    }
  }

  /** k random bits from (k + 7) / 8 drawn bytes. */
  method GetRandBits(k: int, drawn: seq<byte>) returns (r: Option<nat>)
    requires k > 0 ==> |drawn| == (k + 7) / 8
    ensures r.None? <==> k <= 0
    ensures r.Some? ==> r.value == Trimmed(k, drawn) < Pow2(k)
    ensures r.Some? ==> r.value == FromBytes(drawn) / Pow2(Excess(FromBytes(drawn), k))
  {
    if k <= 0 {
      return None;
    }
    TrimmedBelow(k, drawn);
    var value := FromBytes(drawn);
    var extra := BitLen(value) - k;
    r := Some(ShiftRight(value, if extra <= 0 then 0 else extra));
  }

  lemma ZeroHasNoBits()
    ensures BitLen(0) == 0
  {
  }

  datatype Drawn = Rejected | Running | Value(n: nat)

  /** Draw until the value is below the bound. draws is what the generator will deliver; Running
      means that it was not enough so far. */
  method RandBelow(bound: int, draws: seq<seq<byte>>) returns (r: Drawn)
    requires bound > 0 ==> forall i :: 0 <= i < |draws| ==> |draws[i]| == (BitLen(bound) + 7) / 8
    ensures r.Rejected? <==> bound <= 0
    ensures r.Running? ==> forall i :: 0 <= i < |draws| ==> Trimmed(BitLen(bound), draws[i]) >= bound
    ensures r.Value? ==>
              && r.n < bound
              && exists i :: && 0 <= i < |draws|
                             && r.n == Trimmed(BitLen(bound), draws[i])
                             && forall j :: 0 <= j < i ==> Trimmed(BitLen(bound), draws[j]) >= bound
  {
    if bound <= 0 {
      return Rejected;
    }
    hide Trimmed, BitLen;
    var kk := BitLen(bound);
    assert kk > 0 by { PositiveHasBits(bound); }
    var i := 0;
    while i < |draws|
      invariant 0 <= i <= |draws|
      invariant forall j :: 0 <= j < i ==> Trimmed(kk, draws[j]) >= bound
    {
      var rr := GetRandBits(kk, draws[i]);
      if rr.value < bound {
        return Value(rr.value);
      }
      i := i + 1;
    }
    return Running;
  }

  lemma PositiveHasBits(n: nat)
    requires n > 0
    ensures BitLen(n) > 0
  {
  }

  datatype Chosen<T> = IndexError | StillDrawing | Element(item: T)

  /** An element of a sequence: an error exactly on an empty one, otherwise the element at the
      first draw below the length. */
  method Choice<T>(items: seq<T>, draws: seq<seq<byte>>) returns (r: Chosen<T>)
    requires items != [] ==> forall i :: 0 <= i < |draws| ==> |draws[i]| == (BitLen(|items|) + 7) / 8
    ensures r.IndexError? <==> items == []
    ensures r.StillDrawing? ==> forall i :: 0 <= i < |draws| ==> Trimmed(BitLen(|items|), draws[i]) >= |items|
    ensures r.Element? ==>
              exists i :: && 0 <= i < |draws|
                          && Trimmed(BitLen(|items|), draws[i]) < |items|
                          && r.item == items[Trimmed(BitLen(|items|), draws[i])]
                          && forall j :: 0 <= j < i ==> Trimmed(BitLen(|items|), draws[j]) >= |items|
  {
    hide Trimmed, BitLen;
    var d := RandBelow(|items|, draws);
    match d {
      case Rejected => r := IndexError;
      case Running => r := StillDrawing;
      case Value(n) => r := Element(items[n]);
    }
  }
}
