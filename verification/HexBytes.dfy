/** Hexadecimal text and bytes: the tolerant parser hex2ints. */
module HexBytes {
  import opened CBytes

  type nibble = n: nat | n < 16

  predicate IsHex(c: byte) {
    '0' as int <= c <= '9' as int || 'a' as int <= c <= 'f' as int || 'A' as int <= c <= 'F' as int
  }

  function Value(c: byte): nibble
    requires IsHex(c)
  {
    if c <= '9' as int then c - '0' as int
    else if c >= 'a' as int then c - 'a' as int + 10
    else c - 'A' as int + 10
  }

  /** The hex digits of a text; everything else separates. */
  function Digits(s: seq<byte>): seq<nibble> {
    if s == [] then [] else Digits(s[..|s| - 1]) + (if IsHex(s[|s| - 1]) then [Value(s[|s| - 1])] else [])
  }

  function Join(hi: nibble, lo: nibble): byte {
    var h: nat := hi;
    16 * h + lo
  }

  /** Two digits a byte; a last odd digit is a high nibble. */
  function Pairs(d: seq<nibble>): (b: seq<byte>)
    ensures |d| <= 2 * |b| <= |d| + 1
  {
    if d == [] then []
    else if |d| == 1 then [Join(d[0], 0)]
    else [Join(d[0], d[1])] + Pairs(d[2..])
  }

  /** Byte k is sixteen times digit 2k, plus digit 2k + 1 if there is one. */
  lemma {:induction false} PairsAt(d: seq<nibble>, k: nat)
    requires k < |Pairs(d)|
    ensures 2 * k < |d|
    ensures Pairs(d)[k] == d[2 * k] as int * 16 + (if 2 * k + 1 < |d| then d[2 * k + 1] as int else 0)
    decreases k
  {
    if k == 0 {
    } else {
      PairsAt(d[2..], k - 1);
    }
  }

  lemma {:induction false} DigitsFew(s: seq<byte>)
    ensures |Digits(s)| <= |s|
  {
    if s == [] {
    } else {
      DigitsFew(s[..|s| - 1]);
    }
  }

  lemma {:induction false} DigitsGrow(s: seq<byte>, i: nat)
    requires i <= |s|
    ensures |Digits(s[..i])| <= |Digits(s)|
  {
    if i < |s| {
      assert s[..|s| - 1][..i] == s[..i];
      DigitsGrow(s[..|s| - 1], i);
    } else {
      assert s[..i] == s;
    }
  }

  lemma {:induction false} PairsLast(d: seq<nibble>, x: nibble, y: nibble, m: nat)
    requires |d| == 2 * m
    ensures Pairs(d + [x]) == Pairs(d) + [Join(x, 0)]
    ensures Pairs(d + [x, y]) == Pairs(d) + [Join(x, y)]
  {
    if m == 0 {
      assert d + [x] == [x] && d + [x, y] == [x, y];
    } else {
      PairsLast(d[2..], x, y, m - 1);
      assert (d + [x])[2..] == d[2..] + [x];
      assert (d + [x, y])[2..] == d[2..] + [x, y];
    }
  }

  /** One more digit either opens a byte or completes the last one. */
  lemma OneMoreDigit(d: seq<nibble>, x: nibble, m: nat)
    ensures |d| == 2 * m ==> Pairs(d + [x]) == Pairs(d) + [Join(x, 0)]
    ensures |d| == 2 * m + 1 ==>
              Pairs(d)[m] + x < 256 && Pairs(d + [x]) == Pairs(d)[..m] + [Pairs(d)[m] + x]
  {
    hide Pairs, Join;
    if |d| == 2 * m {
      PairsLast(d, x, x, m);
    } else if |d| == 2 * m + 1 {
      LastDigit(d, x, m);
    }
  }

  lemma LastDigit(d: seq<nibble>, x: nibble, m: nat)
    requires |d| == 2 * m + 1
    ensures Pairs(d)[m] + x < 256 && Pairs(d + [x]) == Pairs(d)[..m] + [Pairs(d)[m] + x]
  {
    hide Pairs, Join;
    var e, y := d[..2 * m], d[2 * m];
    assert d == e + [y];
    assert d + [x] == e + [y, x];
    PairsLast(e, y, x, m);
    JoinAdds(y, x);
  }

  lemma JoinAdds(y: nibble, x: nibble)
    ensures Join(y, 0) + x < 256 && Join(y, x) == Join(y, 0) + x
  {
  }

  /** Write one digit: it opens byte size, or it is or-ed into it. */
  method PutDigit(out: array<byte>, size: nat, upper: bool, d: nibble, ghost before: seq<nibble>)
    requires |before| == 2 * size + (if upper then 0 else 1)
    requires |Pairs(before + [d])| <= out.Length && Pairs(before) <= out[..]
    modifies out
    ensures Pairs(before + [d]) <= out[..]
    ensures forall k :: |Pairs(before + [d])| <= k < out.Length ==> out[k] == old(out[k])
  {
    OneMoreDigit(before, d, size);
    hide Pairs;
    if upper {
      out[size] := Join(d, 0);
    } else {
      assert out[size] == Pairs(before)[size];
      out[size] := out[size] + d;    // the low nibble is still zero, so or is plus
    }
  }

  /** Parse a NUL-terminated text into out: exactly the pairwise decoding of its hex digits,
      no more than half the text (rounded up), and not a byte beyond. */
  method Hex2Ints(out: array<byte>, text: seq<byte>) returns (size: nat)
    requires 0 in text
    requires |Pairs(Digits(CString(text)))| <= out.Length
    modifies out
    ensures size == |Pairs(Digits(CString(text)))| <= (|CString(text)| + 1) / 2
    ensures out[..size] == Pairs(Digits(CString(text)))
    ensures forall k :: size <= k < out.Length ==> out[k] == old(out[k])
  {
    ghost var s := CString(text);
    DigitsFew(s);
    hide Pairs, CString, Digits;
    var upper := true;
    var i := 0;
    size := 0;
    NoDigits();
    while text[i] != 0
      invariant 0 <= i <= |s| < |text|
      invariant |Digits(s[..i])| == 2 * size + (if upper then 0 else 1)
      invariant Pairs(Digits(s[..i])) <= out[..]
      invariant forall k :: |Pairs(Digits(s[..i]))| <= k < out.Length ==> out[k] == old(out[k])
      decreases |s| - i
    {
      DigitsStep(s, i);
      DigitsGrow(s, i + 1);
      if IsHex(text[i]) {
        PutDigit(out, size, upper, Value(text[i]), Digits(s[..i]));
        if !upper {
          size := size + 1;
        }
        upper := !upper;
      }
      i := i + 1;
    }
    assert s[..i] == s;
    if !upper {
      size := size + 1;
    }
  }

  lemma DigitsStep(s: seq<byte>, i: nat)
    requires i < |s|
    ensures Digits(s[..i + 1]) == Digits(s[..i]) + (if IsHex(s[i]) then [Value(s[i])] else [])
    ensures !IsHex(s[i]) ==> Digits(s[..i + 1]) == Digits(s[..i])
  {
    assert s[..i + 1][..i] == s[..i];
  }

  lemma NoDigits()
    ensures Digits([]) == [] && Pairs([]) == []
  {
  }

  // Round trip.

  function Nibbles(b: seq<byte>): (d: seq<nibble>)
    ensures |d| == 2 * |b|
  {
    if b == [] then [] else Nibbles(b[..|b| - 1]) + [b[|b| - 1] / 16, b[|b| - 1] % 16]
  }

  lemma {:induction false} PairsOfNibbles(b: seq<byte>)
    ensures Pairs(Nibbles(b)) == b
  {
    if b == [] {
    } else {
      hide Pairs;
      var n := |b| - 1;
      PairsOfNibbles(b[..n]);
      PairsLast(Nibbles(b[..n]), b[n] / 16, b[n] % 16, n);
      JoinSplit(b[n]);
      assert b == b[..n] + [b[n]];
    }
  }

  lemma JoinSplit(b: byte)
    ensures Join(b / 16, b % 16) == b
  {
  }

  /** How one byte is printed: separators before and inside, and the case of its digits. */
  datatype Style = Style(before: seq<byte>, inside: seq<byte>, bigHigh: bool, bigLow: bool)

  const SMALL: seq<char> := ['0', '1', '2', '3', '4', '5', '6', '7', '8', '9', 'a', 'b', 'c', 'd', 'e', 'f']
  const BIG: seq<char> := ['0', '1', '2', '3', '4', '5', '6', '7', '8', '9', 'A', 'B', 'C', 'D', 'E', 'F']

  /** A separator is any text without NUL and without the 22 characters that print digits. */
  predicate Separates(s: seq<byte>) {
    forall k :: 0 <= k < |s| ==> s[k] != 0 && s[k] as char !in SMALL && s[k] as char !in BIG
  }

  /** The digits are those 22 characters and no others. */
  lemma DigitsByName(c: byte)
    ensures IsHex(c) <==> c as char in SMALL || c as char in BIG
  {
    if IsHex(c) {
      var n := Value(c);
      assert c as char == SMALL[n] || c as char == BIG[n];
    }
  }

  function Digit(n: nibble, big: bool): (c: byte)
    ensures IsHex(c) && Value(c) == n && c != 0
  {
    (if big then BIG[n] else SMALL[n]) as int
  }

  function PrintedByte(b: byte, st: Style): seq<byte> {
    st.before + [Digit(b / 16, st.bigHigh)] + st.inside + [Digit(b % 16, st.bigLow)]
  }

  function Printed(b: seq<byte>, styles: seq<Style>): seq<byte>
    requires |b| == |styles|
  {
    if b == [] then [] else
    var n := |b| - 1;
    Printed(b[..n], styles[..n]) + PrintedByte(b[n], styles[n])
  }

  lemma {:induction false} DigitsAppend(s: seq<byte>, t: seq<byte>)
    ensures Digits(s + t) == Digits(s) + Digits(t)
  {
    if t == [] {
      assert s + t == s;
    } else {
      assert (s + t)[..|s + t| - 1] == s + t[..|t| - 1];
      DigitsAppend(s, t[..|t| - 1]);
    }
  }

  lemma {:induction false} SeparatorsVanish(s: seq<byte>)
    requires Separates(s)
    ensures Digits(s) == []
  {
    if s == [] {
    } else {
      SeparatorsVanish(s[..|s| - 1]);
      DigitsByName(s[|s| - 1]);
    }
  }

  lemma DigitPrints(n: nibble, big: bool)
    ensures Digits([Digit(n, big)]) == [n]
  {
    hide Digit;
    assert [Digit(n, big)][..0] == [];
  }

  lemma NoNul(s: seq<byte>)
    requires Separates(s)
    ensures 0 !in s
  {
  }

  lemma DigitsOfByte(b: byte, st: Style)
    requires Separates(st.before) && Separates(st.inside)
    ensures Digits(PrintedByte(b, st)) == [b / 16, b % 16] && 0 !in PrintedByte(b, st)
  {
    var hi, lo := [Digit(b / 16, st.bigHigh)], [Digit(b % 16, st.bigLow)];
    hide Digits, Digit, Separates;
    DigitPrints(b / 16, st.bigHigh);
    DigitPrints(b % 16, st.bigLow);
    NoNul(st.before);
    NoNul(st.inside);
    SeparatorsVanish(st.before);
    SeparatorsVanish(st.inside);
    DigitsAppend(st.before, hi);
    DigitsAppend(st.before + hi, st.inside);
    DigitsAppend(st.before + hi + st.inside, lo);
  }

  lemma {:induction false} DigitsOfPrinted(b: seq<byte>, styles: seq<Style>)
    requires |b| == |styles|
    requires forall k :: 0 <= k < |b| ==> Separates(styles[k].before) && Separates(styles[k].inside)
    ensures Digits(Printed(b, styles)) == Nibbles(b) && 0 !in Printed(b, styles)
  {
    hide Digits, PrintedByte;
    if b == [] {
      SeparatorsVanish([]);
    } else {
      var n := |b| - 1;
      DigitsOfPrinted(b[..n], styles[..n]);
      DigitsOfByte(b[n], styles[n]);
      DigitsAppend(Printed(b[..n], styles[..n]), PrintedByte(b[n], styles[n]));
    }
  }

  /** Parsing inverts every way to print bytes in hex: any separators before, inside and after
      the bytes, any mix of cases. */
  lemma ParsingInvertsPrinting(b: seq<byte>, styles: seq<Style>, tail: seq<byte>, junk: seq<byte>)
    requires |b| == |styles| && Separates(tail)
    requires forall k :: 0 <= k < |b| ==> Separates(styles[k].before) && Separates(styles[k].inside)
    ensures Pairs(Digits(CString(Printed(b, styles) + tail + [0] + junk))) == b
  {
    hide Digits, Printed, Pairs, Nibbles;
    var s := Printed(b, styles) + tail;
    DigitsOfPrinted(b, styles);
    assert (s + [0] + junk)[|s|] == 0;
    CStringUnique(s + [0] + junk, s);
    DigitsAppend(Printed(b, styles), tail);
    SeparatorsVanish(tail);
    assert Nibbles(b) + [] == Nibbles(b);
    PairsOfNibbles(b);
  }
}
