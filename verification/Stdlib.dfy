/** Reading numbers (tests/programs/libc/stdlib.c), and the round trip with printing. A C string is
    a sequence whose end reads as the null character. */
module Stdlib {
  import opened Words
  import D = Digits
  import P = Printf

  const NUL: char := '\0'

  function CharAt(str: string, i: nat): char { if i < |str| then str[i] else NUL }

  predicate IsXDigit(ch: char) {
    ch != NUL && ('0' <= ch <= '9' || 'a' <= ch <= 'f' || 'A' <= ch <= 'F')
  }

  /** A letter in a decimal number counts as a zero digit: the loop accepts it and adds nothing. */
  function DigitOf(ch: char, base: nat): nat {
    if '0' <= ch <= '9' then (ch - '0') as nat
    else if base == 16 && 'a' <= ch <= 'f' then (ch - 'a') as nat + 10
    else if base == 16 && 'A' <= ch <= 'F' then (ch - 'A') as nat + 10
    else 0
  }

  /** Unsigned 64-bit wrap-around. */
  function Wrap(x: nat): DWord { x % TWO_64 }

  // ---------------------------------------------------------------------------
  // The meaning of a text
  // ---------------------------------------------------------------------------

  /** The longest prefix of hexadecimal digits. */
  ghost function HexRun(s: string): string {
    if s != [] && IsXDigit(s[0]) then [s[0]] + HexRun(s[1..]) else []
  }

  ghost function DigitsOf(s: string, base: nat): (ds: seq<nat>)
    ensures |ds| == |s| && forall i | 0 <= i < |s| :: ds[i] == DigitOf(s[i], base)
  {
    if s == [] then [] else [DigitOf(s[0], base)] + DigitsOf(s[1..], base)
  }

  ghost function Magnitude(s: string, base: nat): DWord
    requires base == 10 || base == 16
  {
    Wrap(D.Value(DigitsOf(HexRun(s), base), base))
  }

  predicate HexPrefix(str: string, base: int) {
    (base == 0 || base == 16) && CharAt(str, 0) == '0' && (CharAt(str, 1) == 'x' || CharAt(str, 1) == 'X')
  }

  ghost function Unsigned(str: string, base: int): DWord {
    if HexPrefix(str, base) then Magnitude(str[2..], 16)
    else if base == 16 then Magnitude(str, 16) else Magnitude(str, 10)
  }

  function Negative(num: DWord): DWord { Wrap(TWO_64 - num) }

  /** The number a text stands for: digits in its base modulo 2^64, negated behind a minus sign. */
  ghost function Meaning(str: string, base: int): DWord {
    if CharAt(str, 0) == '-' then Negative(Unsigned(str[1..], base)) else Unsigned(str, base)
  }

  // ---------------------------------------------------------------------------
  // The loop
  // ---------------------------------------------------------------------------

  method Stou64(str: string, base: int) returns (result: DWord)
    ensures result == Meaning(str, base)
  {
    hide Wrap, Magnitude;
    var p, neg, b := 0, false, base;
    if CharAt(str, 0) == NUL {
      EmptyMeans(str, base);
      return 0;
    }
    if CharAt(str, 0) == '-' {
      p, neg := 1, true;
    }
    if (b == 0 || b == 16) && CharAt(str, p) == '0' && (CharAt(str, p + 1) == 'x' || CharAt(str, p + 1) == 'X') {
      p, b := p + 2, 16;
    }
    Suffixes(str, p);
    var num := ReadDigits(str, p, b);
    result := if neg then Wrap(TWO_64 - num) else num;
  }

  lemma Suffixes(str: string, p: nat)
    requires str != []
    ensures CharAt(str[1..], 0) == CharAt(str, 1) && CharAt(str[1..], 1) == CharAt(str, 2)
    ensures 3 <= p <= |str| ==> str[1..][2..] == str[3..]
    ensures str[0..] == str
  {
  }

  /** The loop of stou64, from position `start`. */
  method ReadDigits(str: string, start: nat, base: int) returns (num: DWord)
    requires start <= |str|
    ensures num == Magnitude(str[start..], if base == 16 then 16 else 10)
  {
    hide Wrap, HexRun, DigitsOf, D.Value, DigitOf;
    ghost var radix: nat := if base == 16 then 16 else 10;
    var p := start;
    num := 0;
    NothingRead(str, start, radix);
    while IsXDigit(CharAt(str, p))
      invariant start <= p <= |str|
      invariant HexRun(str[start..]) == str[start..p] + HexRun(str[p..])
      invariant num == Wrap(D.Value(DigitsOf(str[start..p], radix), radix))
      decreases |str| - p
    {
      var ch := CharAt(str, p);
      RunStep(str, start, p);
      DigitStep(str, start, p, radix, num);
      DigitCases(ch, base, radix);
      num := if base == 16 then Wrap(num * 16) else Wrap(num * 10);
      if '0' <= ch <= '9' {
        num := Wrap(num + (ch - '0') as nat);
      } else if base == 16 && 'a' <= ch <= 'f' {
        num := Wrap(num + ((ch - 'a') as nat + 10));
      } else if base == 16 && 'A' <= ch <= 'F' {
        num := Wrap(num + ((ch - 'A') as nat + 10));
      }
      p := p + 1;
    }
    RunEnds(str, p);
    assert str[start..p] + [] == str[start..p];
  }

  lemma NothingRead(str: string, start: nat, radix: nat)
    requires start <= |str| && (radix == 10 || radix == 16)
    ensures str[start..start] == [] && Wrap(D.Value(DigitsOf(str[start..start], radix), radix)) == 0
  {
  }

  lemma RunEnds(str: string, p: nat)
    requires p <= |str| && !IsXDigit(CharAt(str, p))
    ensures HexRun(str[p..]) == []
  {
  }

  lemma DigitCases(ch: char, base: int, radix: nat)
    requires radix == if base == 16 then 16 else 10
    ensures DigitOf(ch, radix) ==
              if '0' <= ch <= '9' then (ch - '0') as nat
              else if base == 16 && 'a' <= ch <= 'f' then (ch - 'a') as nat + 10
              else if base == 16 && 'A' <= ch <= 'F' then (ch - 'A') as nat + 10
              else 0
  {
  }

  lemma EmptyMeans(str: string, base: int)
    requires CharAt(str, 0) == NUL
    ensures Meaning(str, base) == 0
  {
    assert HexRun(str) == [];
    assert D.Value([], 16) == 0 && D.Value([], 10) == 0;
  }

  lemma RunStep(str: string, start: nat, p: nat)
    requires start <= p < |str| && IsXDigit(str[p])
    requires HexRun(str[start..]) == str[start..p] + HexRun(str[p..])
    ensures HexRun(str[start..]) == str[start..p + 1] + HexRun(str[p + 1..])
  {
    assert str[p..][1..] == str[p + 1..];
    assert str[start..p] + [str[p]] == str[start..p + 1];
  }

  lemma DigitsExtend(str: string, start: nat, p: nat, base: nat)
    requires start <= p < |str| && (base == 10 || base == 16)
    ensures DigitsOf(str[start..p + 1], base) == DigitsOf(str[start..p], base) + [DigitOf(str[p], base)]
  {
    hide DigitOf;
    assert |str[start..p + 1]| == p + 1 - start;
  }

  lemma DigitStep(str: string, start: nat, p: nat, base: nat, num: DWord)
    requires start <= p < |str| && (base == 10 || base == 16)
    requires num == Wrap(D.Value(DigitsOf(str[start..p], base), base))
    ensures Wrap(D.Value(DigitsOf(str[start..p + 1], base), base)) == Wrap(Wrap(num * base) + DigitOf(str[p], base))
    ensures Wrap(Wrap(num * base) + 0) == Wrap(num * base)
  {
    hide Wrap, DigitOf, DigitsOf, D.Value;
    var ds, d := DigitsOf(str[start..p], base), DigitOf(str[p], base);
    DigitsExtend(str, start, p, base);
    D.ValueExtends(ds, d, base);
    ValueStep(D.Value(ds, base), base, d, num);
  }

  lemma ValueStep(v: nat, base: nat, d: nat, num: DWord)
    requires num == Wrap(v)
    ensures Wrap(v * base + d) == Wrap(Wrap(num * base) + d) && Wrap(Wrap(num * base) + 0) == Wrap(num * base)
  {
    hide Wrap;
    WrapStep(v, base, d);
    WrapOnce(num * base);
  }

  lemma WrapOnce(x: nat)
    ensures Wrap(Wrap(x)) == Wrap(x)
  {
  }

  lemma WrapMultiple(k: nat, x: nat)
    ensures Wrap(k * TWO_64 + x) == Wrap(x)
  {
    Euclid(x, TWO_64);
    QuotientUnique(k * TWO_64 + x, TWO_64, k + x / TWO_64, x % TWO_64);
  }

  /** Wrapping early or late makes no difference. */
  lemma WrapStep(v: nat, base: nat, d: nat)
    ensures Wrap(v * base + d) == Wrap(Wrap(Wrap(v) * base) + d)
  {
    var q := v / TWO_64;
    Euclid(v, TWO_64);
    assert v == q * TWO_64 + Wrap(v);
    Regroup(v, q, Wrap(v), base, d);
    WrapMultiple(q * base, Wrap(v) * base + d);
    WrapSum(Wrap(v) * base, d);
  }

  lemma WrapSum(x: nat, d: nat)
    ensures Wrap(x + d) == Wrap(Wrap(x) + d)
  {
    Euclid(x, TWO_64);
    WrapMultiple(x / TWO_64, Wrap(x) + d);
  }

  lemma Regroup(v: nat, q: nat, r: nat, base: nat, d: nat)
    requires v == q * TWO_64 + r
    ensures v * base + d == (q * base) * TWO_64 + (r * base + d)
  {
    assert v * base == (q * TWO_64) * base + r * base;
    assert (q * TWO_64) * base == (q * base) * TWO_64;
  }

  // ---------------------------------------------------------------------------
  // Round trips
  // ---------------------------------------------------------------------------

  /** What may follow a number in a longer text. */
  predicate Ends(tail: string) {
    tail == [] || (!IsXDigit(tail[0]) && tail[0] != 'x' && tail[0] != 'X')
  }

  lemma CharReads(d: nat, base: nat)
    requires d < base && (base == 10 || base == 16)
    ensures IsXDigit(P.DigitChar(d)) && DigitOf(P.DigitChar(d), base) == d
    ensures P.DigitChar(d) == '0' <==> d == 0
    ensures P.DigitChar(d) != '-' && P.DigitChar(d) != 'x' && P.DigitChar(d) != 'X'
  {
  }

  lemma {:induction false} RunOfChars(ds: seq<nat>, base: nat, tail: string)
    requires (base == 10 || base == 16) && P.AllBelow(ds, base) && Ends(tail)
    ensures HexRun(P.Chars(ds) + tail) == P.Chars(ds)
  {
    hide IsXDigit, P.DigitChar;
    if ds == [] {
      assert P.Chars(ds) + tail == tail;
    } else {
      CharReads(ds[0], base);
      assert (P.Chars(ds) + tail)[1..] == P.Chars(ds[1..]) + tail;
      RunOfChars(ds[1..], base, tail);
    }
  }

  lemma DigitsOfChars(ds: seq<nat>, base: nat)
    requires (base == 10 || base == 16) && P.AllBelow(ds, base)
    ensures DigitsOf(P.Chars(ds), base) == ds
  {
    hide DigitOf, P.DigitChar;
    forall i | 0 <= i < |ds| ensures DigitOf(P.Chars(ds)[i], base) == ds[i] { CharReads(ds[i], base); }
  }

  /** A printed numeral has its number as magnitude, whatever follows it. */
  lemma MagnitudeOfNumeral(n: nat, base: nat, tail: string)
    requires (base == 10 || base == 16) && n < TWO_64 && Ends(tail)
    ensures Magnitude(P.NumeralText(n, base) + tail, base) == n
  {
    D.NumeralDigits(n, base);
    RunOfChars(D.Numeral(n, base), base, tail);
    DigitsOfChars(D.Numeral(n, base), base);
    D.ValueOfNumeral(n, base);
  }

  lemma NumeralStart(n: nat, base: nat, tail: string)
    requires (base == 10 || base == 16) && Ends(tail)
    ensures var s := P.NumeralText(n, base) + tail;
            CharAt(s, 0) != '-' && !(CharAt(s, 0) == '0' && (CharAt(s, 1) == 'x' || CharAt(s, 1) == 'X'))
  {
    hide P.DigitChar;
    D.NumeralDigits(n, base);
    var ds := D.Numeral(n, base);
    CharReads(ds[0], base);
    if n == 0 {
      P.ZeroText(base);
    }
  }

  predicate Reads(fmt: char, base: int) {
    || (fmt in "ud" && (base == 0 || base == 10))
    || (fmt in "xp" && (base == 0 || base == 16))
    || (fmt == 'h' && base == 16)
  }

  /** Every unsigned format is read back, in every base that accepts it, wherever the text ends. */
  lemma UnsignedRoundTrip(fmt: char, num: nat, width: nat, base: int, tail: string)
    requires P.IsWidth(width) && num < Pow2(width) && fmt != 'd' && Reads(fmt, base) && Ends(tail)
    ensures Meaning(P.Text(fmt, num, width) + tail, base) == num
  {
    hide Pow2, P.NumeralText, Magnitude;
    assert num < TWO_64 by { P.WidthValues(); }
    if fmt == 'u' {
      MagnitudeOfNumeral(num, 10, tail);
      NumeralStart(num, 10, tail);
    } else {
      MagnitudeOfNumeral(num, 16, tail);
      NumeralStart(num, 16, tail);
      if fmt != 'h' {
        var s := "0x" + P.NumeralText(num, 16) + tail;
        assert s[2..] == P.NumeralText(num, 16) + tail;
        assert P.Text(fmt, num, width) + tail == s;
      }
    }
  }

  /** A signed text is read back modulo the width it was printed in. */
  lemma SignedRoundTrip(num: nat, width: nat, base: int, tail: string)
    requires P.IsWidth(width) && num < Pow2(width) && (base == 0 || base == 10) && Ends(tail)
    ensures Meaning(P.Text('d', num, width) + tail, base) % Pow2(width) == num
  {
    hide Pow2, P.NumeralText, Magnitude, Wrap;
    P.WidthValues();
    SignedValue(num, width);
    var m := if num >= Pow2(width - 1) then Pow2(width) - num else num;
    MagnitudeOfNumeral(m, 10, tail);
    NumeralStart(m, 10, tail);
    var s := P.NumeralText(m, 10) + tail;
    if num >= Pow2(width - 1) {
      assert P.Text('d', num, width) + tail == "-" + s;
      assert ("-" + s)[1..] == s;
    }
  }

  lemma SignedValue(num: nat, width: nat)
    requires P.IsWidth(width) && num < Pow2(width)
    ensures num < TWO_64 && num % Pow2(width) == num
    ensures num >= Pow2(width - 1) ==> Pow2(width) - num < TWO_64 && Negative(Pow2(width) - num) % Pow2(width) == num
  {
    P.WidthValues();
    hide Pow2;
    var w := Pow2(width);
    QuotientUnique(num, w, 0, num);
    if num >= Pow2(width - 1) {
      var n := TWO_64 - (w - num);
      QuotientUnique(n, TWO_64, 0, n);
      QuotientUnique(n, w, if width == 32 then 0xffff_ffff else 0, num);
    }
  }

  // ---------------------------------------------------------------------------
  // Texts in either case
  // ---------------------------------------------------------------------------

  const LOWER := "0123456789abcdef"
  const UPPER := "0123456789ABCDEF"

  /** A character stands for a digit: in either case, and in a decimal number every letter for zero. */
  predicate Stands(ch: char, d: nat, base: nat) {
    if base == 16 then d < 16 && (ch == LOWER[d] || ch == UPPER[d])
    else d < 10 && (ch == LOWER[d] || (d == 0 && (ch in LOWER[10..] || ch in UPPER[10..])))
  }

  lemma StandsReads(ch: char, d: nat, base: nat)
    requires Stands(ch, d, base)
    ensures IsXDigit(ch) && DigitOf(ch, base) == d
  {
    Characters();
  }

  lemma Characters()
    ensures forall k | 0 <= k < 10 :: LOWER[k] == UPPER[k] == '0' + k as char
    ensures forall k | 10 <= k < 16 :: LOWER[k] == 'a' + (k - 10) as char && UPPER[k] == 'A' + (k - 10) as char
    ensures forall ch | ch in LOWER[10..] :: 'a' <= ch <= 'f'
    ensures forall ch | ch in UPPER[10..] :: 'A' <= ch <= 'F'
  {
  }

  /** No other character is read as a digit. */
  lemma XDigitStands(ch: char)
    ensures IsXDigit(ch) <==> exists d: nat :: Stands(ch, d, 16)
  {
    Characters();
    if IsXDigit(ch) {
      assert Stands(ch, DigitOf(ch, 16), 16);
    }
    forall d: nat | Stands(ch, d, 16) ensures IsXDigit(ch) { StandsReads(ch, d, 16); }
  }

  ghost predicate Spells(text: string, ds: seq<nat>, base: nat) {
    |text| == |ds| && forall i | 0 <= i < |ds| :: Stands(text[i], ds[i], base)
  }

  lemma {:induction false} RunOfText(text: string, ds: seq<nat>, base: nat, tail: string)
    requires Spells(text, ds, base) && Ends(tail)
    ensures HexRun(text + tail) == text
  {
    hide IsXDigit, Stands;
    if text == [] {
      assert text + tail == tail;
    } else {
      StandsReads(text[0], ds[0], base);
      assert (text + tail)[1..] == text[1..] + tail;
      RunOfText(text[1..], ds[1..], base, tail);
    }
  }

  /** A text of digits in either case has the value of its digits, modulo 2^64, wherever it ends. */
  lemma MagnitudeOfText(text: string, ds: seq<nat>, base: nat, tail: string)
    requires (base == 10 || base == 16) && Spells(text, ds, base) && Ends(tail)
    ensures Magnitude(text + tail, base) == D.Value(ds, base) % TWO_64
  {
    hide DigitOf, D.Value, HexRun, Stands;
    RunOfText(text, ds, base, tail);
    forall i | 0 <= i < |ds| ensures DigitOf(text[i], base) == ds[i] { StandsReads(text[i], ds[i], base); }
    assert DigitsOf(text, base) == ds;
  }

  /** Behind either prefix, with or without a minus sign, a hexadecimal text is read as its number. */
  lemma HexTextReads(text: string, ds: seq<nat>, base: int, tail: string)
    requires (base == 0 || base == 16) && Spells(text, ds, 16) && Ends(tail)
    ensures Meaning("0x" + text + tail, base) == Meaning("0X" + text + tail, base) == D.Value(ds, 16) % TWO_64
    ensures Meaning("-0x" + text + tail, base) == (TWO_64 - D.Value(ds, 16) % TWO_64) % TWO_64
  {
    hide Magnitude, D.Value, Spells;
    MagnitudeOfText(text, ds, 16, tail);
    assert ("0x" + text + tail)[2..] == text + tail && ("0X" + text + tail)[2..] == text + tail;
    assert ("-0x" + text + tail)[1..] == "0x" + text + tail;
  }

  // ---------------------------------------------------------------------------
  // The wrappers
  // ---------------------------------------------------------------------------

  method Stou32(str: string, base: int) returns (num: Word)
    ensures num == ToWord(Meaning(str, base))
  {
    var n := Stou64(str, base);
    num := n % TWO_32;
  }

  method Stoi(str: string, base: int) returns (num: int)
    ensures num == Signed(ToWord(Meaning(str, base)))
  {
    var n := Stou64(str, base);
    num := if n % TWO_32 < TWO_31 then n % TWO_32 else n % TWO_32 - TWO_32;
  }

  method Atoi(str: string) returns (num: int)
    ensures num == Signed(ToWord(Meaning(str, 10)))
  {
    num := Stoi(str, 10);
  }

  /** A 32-bit number printed as `%u`, `%x` or `%d` comes back through stou32, stoi and atoi. */
  lemma WrappersRoundTrip(num: Word, fmt: char, base: int, tail: string)
    requires Reads(fmt, base) && Ends(tail)
    ensures num < Pow2(32) && ToWord(Meaning(P.Text(fmt, num, 32) + tail, base)) == num
    ensures Signed(ToWord(Meaning(P.Text(fmt, num, 32) + tail, base))) == Signed(num)
  {
    hide Meaning, P.Text, Ends;
    P.WidthValues();
    hide Pow2;
    if fmt == 'd' {
      SignedRoundTrip(num, 32, base, tail);
    } else {
      UnsignedRoundTrip(fmt, num, 32, base, tail);
    }
  }

  /** Printing a number and reading the console text back is the identity. */
  method PrintThenRead(fmt: char, num: Word, base: int) returns (back: Word)
    requires Reads(fmt, base)
    ensures back == num
  {
    WrappersRoundTrip(num, fmt, base, "");
    var console := new P.Console();
    var _ := console.PrintNumber(fmt, num, 32);
    back := Stou32(console.text, base);
    assert console.text == P.Text(fmt, num, 32) + "";
  }
}
