/** Printing of numbers (tests/programs/libc/printf.c). The 32-bit and the 64-bit printers differ in
    the width of the operand and in their tables only, so one method stands for each pair. */
module Printf {
  import opened Words
  import D = Digits
  import V = Divide

  // ---------------------------------------------------------------------------
  // The text of a number
  // ---------------------------------------------------------------------------

  predicate IsWidth(width: nat) { width == 32 || width == 64 }

  function DigitChar(d: nat): char
    requires d < 16
  {
    if d >= 10 then (d - 10) as char + 'a' else d as char + '0'
  }

  ghost predicate AllBelow(ds: seq<nat>, base: nat) { forall i | 0 <= i < |ds| :: ds[i] < base }

  ghost function Chars(ds: seq<nat>): (s: string)
    requires AllBelow(ds, 16)
    ensures |s| == |ds| && forall i | 0 <= i < |ds| :: s[i] == DigitChar(ds[i])
  {
    if ds == [] then [] else [DigitChar(ds[0])] + Chars(ds[1..])
  }

  ghost function NumeralText(n: nat, base: nat): string
    requires 2 <= base <= 16
  {
    D.NumeralDigits(n, base);
    Chars(D.Numeral(n, base))
  }

  ghost function PaddedText(n: nat, w: nat, base: nat): (s: string)
    requires 2 <= base <= 16
    ensures |s| == w
  {
    PaddedDigits(n, w, base);
    Chars(D.Padded(n, w, base))
  }

  lemma {:induction false} PaddedDigits(n: nat, w: nat, base: nat)
    requires base >= 2
    ensures AllBelow(D.Padded(n, w, base), base)
  {
    if w == 0 {
    } else {
      PaddedDigits(D.Rest(n, base), w - 1, base);
    }
  }

  const UNKNOWN_FORMAT: string := "__unknown_format_"

  ghost function MagnitudeText(fmt: char, num: nat): string {
    if fmt == 'b' then PaddedText(num, 32, 2)
    else if fmt == 'x' || fmt == 'p' then "0x" + NumeralText(num, 16)
    else if fmt == 'h' then NumeralText(num, 16)
    else if fmt == 'u' || fmt == 'd' then NumeralText(num, 10)
    else UNKNOWN_FORMAT + [fmt] + "__"
  }

  /** What printing num in a format puts on the console: binary has all 32 digits, a signed number
      its magnitude behind a minus sign, and no other number has leading zeros. */
  ghost function Text(fmt: char, num: nat, width: nat): string
    requires IsWidth(width) && num < Pow2(width)
  {
    if fmt == 'd' && num >= Pow2(width - 1) then "-" + MagnitudeText('d', Pow2(width) - num)
        else MagnitudeText(fmt, num)
  }

  // ---------------------------------------------------------------------------
  // Digit buffers
  // ---------------------------------------------------------------------------

  lemma {:induction false} PowersOf16(k: nat)
    ensures D.Power(16, k) == Pow2(4 * k)
  {
    if k == 0 {
    } else {
      PowersOf16(k - 1);
      Pow2Add(4 * k - 4, 4);
      assert Pow2(4) == 16;
    }
  }

  lemma {:induction false} PowersOf2(k: nat)
    ensures D.Power(2, k) == Pow2(k)
  {
    if k == 0 {
    } else {
      PowersOf2(k - 1);
    }
  }

  /** Shifting a digit to the top and back down picks it out. */
  lemma HexDigit(num: nat, i: nat, w: nat)
    requires i < w
    ensures V.ShiftDown(V.ShiftUp(num, 4 * i, 4 * w), 4 * w - 4) == D.Padded(num, w, 16)[i]
  {
    hide Pow2;
    var s, p := Pow2(4 * i), D.Power(16, w - 1 - i);
    PowersOf16(w - 1 - i);
    PowersOf16(w - i);
    Pow2Add(4 * i, 4 * (w - 1 - i));
    Pow2Add(4 * i, 4 * (w - i));
    assert D.Power(16, w - i) == 16 * p;
    ScaledModulus(num, s, 16 * p);
    Euclid(num, 16 * p);
    ScaledQuotient(num % (16 * p), s, p);
    D.ReduceFirst(num, p, 16);
    D.DigitAt(num, w, 16, i);
  }

  lemma ScaledModulus(n: nat, s: nat, d: nat)
    requires s > 0 && d > 0
    ensures s * d > 0 && (n * s) % (s * d) == s * (n % d)
  {
    MultipleGrows(s, d);
    var q, r := n / d, n % d;
    Euclid(n, d);
    assert (q * d + r) * s == q * (s * d) + s * r;
    assert s * r < s * d by {
      MultipleGrows(d - r, s);
      assert (d - r) * s == s * d - s * r;
    }
    QuotientUnique(n * s, s * d, q, s * r);
  }

  lemma ScaledQuotient(x: nat, s: nat, p: nat)
    requires s > 0 && p > 0
    ensures s * p > 0 && (s * x) / (s * p) == x / p
  {
    MultipleGrows(s, p);
    var q, r := x / p, x % p;
    Euclid(x, p);
    assert s * (q * p + r) == q * (s * p) + s * r;
    assert s * r < s * p by {
      MultipleGrows(p - r, s);
      assert (p - r) * s == s * p - s * r;
    }
    QuotientUnique(s * x, s * p, q, s * r);
  }

  method ToHex(num: nat, buf: array<char>, width: nat)
    requires IsWidth(width) && num < Pow2(width) && buf.Length >= width / 4
    modifies buf
    ensures buf[..width / 4] == PaddedText(num, width / 4, 16)
  {
    hide Pow2, V.ShiftUp, V.ShiftDown;
    ghost var text := PaddedText(num, width / 4, 16);
    for i := 0 to width / 4
      invariant buf[..i] == text[..i]
    {
      HexDigit(num, i, width / 4);
      PaddedDigits(num, width / 4, 16);
      var digit := V.ShiftDown(V.ShiftUp(num, 4 * i, width), width - 4);
      buf[i] := if digit >= 10 then (digit - 10) as char + 'a' else digit as char + '0';
    }
  }

  const DIVIDERS_32: seq<nat> := [1000000000, 100000000, 10000000, 1000000, 100000, 10000, 1000, 100, 10, 1]

  const DIVIDERS_64: seq<nat> := [10000000000000000000, 1000000000000000000, 100000000000000000, 10000000000000000,
    1000000000000000, 100000000000000, 10000000000000, 1000000000000, 100000000000, 10000000000, 1000000000, 100000000,
    10000000, 1000000, 100000, 10000, 1000, 100, 10, 1]

  function Dividers(width: nat): seq<nat> { if width == 32 then DIVIDERS_32 else DIVIDERS_64 }

  function DecWidth(width: nat): nat { if width == 32 then 10 else 20 }

  lemma {:induction false} DividersArePowers(width: nat, i: nat)
    requires IsWidth(width) && i < DecWidth(width)
    ensures Dividers(width)[i] == D.Power(10, DecWidth(width) - 1 - i)
    decreases DecWidth(width) - i
  {
    if i < DecWidth(width) - 1 {
      DividersArePowers(width, i + 1);
      DividerStep(width, i);
    } else {
      assert D.Power(10, 0) == 1;
    }
  }

  lemma DividerStep(width: nat, i: nat)
    requires IsWidth(width) && i < DecWidth(width) - 1
    ensures |Dividers(width)| == DecWidth(width) && Dividers(width)[i] == 10 * Dividers(width)[i + 1]
  {
  }

  lemma DecWidthSuffices(num: nat, width: nat)
    requires IsWidth(width) && num < Pow2(width)
    ensures num < D.Power(10, DecWidth(width))
  {
    DividersArePowers(width, 0);
    WidthValues();
    assert D.Power(10, DecWidth(width)) == 10 * D.Power(10, DecWidth(width) - 1);
  }

  lemma WidthValues()
    ensures Pow2(32) == TWO_32 && Pow2(64) == TWO_64 && Pow2(31) == TWO_31 && Pow2(63) == TWO_64 / 2
  {
    Pow2Of32();
    Pow2Add(32, 32);
  }

  lemma DividerBounds(width: nat, i: nat)
    requires IsWidth(width) && i < DecWidth(width)
    ensures |Dividers(width)| == DecWidth(width) && 0 < Dividers(width)[i] < Pow2(width)
  {
    WidthValues();
  }

  /** The last k decimal digits of a number. */
  ghost function Residue(num: nat, k: nat): nat { num % D.Power(10, k) }

  /** One decimal digit: what the divisor leaves of the number, and the digit it takes out. */
  lemma DecDigit(num: nat, n: nat, i: nat, width: nat)
    requires IsWidth(width) && num < Pow2(width) && i < DecWidth(width) == |Dividers(width)|
    requires n == Residue(num, DecWidth(width) - i)
    ensures var d := Dividers(width)[i];
            && 0 < d < Pow2(width)
            && n / d < 10 && DigitChar(n / d) == PaddedText(num, DecWidth(width), 10)[i]
            && n % d == Residue(num, DecWidth(width) - i - 1) && n % d <= n
  {
    hide Pow2, Dividers;
    DividersArePowers(width, i);
    DividerBounds(width, i);
    var p := D.Power(10, DecWidth(width) - i - 1);
    assert D.Power(10, DecWidth(width) - i) == 10 * p;
    D.ReduceFirst(num, p, 10);
    D.DigitAt(num, DecWidth(width), 10, i);
    PaddedDigits(num, DecWidth(width), 10);
    RemainderSmaller(n, p);
  }

  /** Exact for every number of the width: each quotient on the way is a single digit. */
  method ToDec(num: nat, buf: array<char>, width: nat)
    requires IsWidth(width) && num < Pow2(width) && buf.Length >= DecWidth(width)
    modifies buf
    ensures buf[..DecWidth(width)] == PaddedText(num, DecWidth(width), 10)
  {
    hide Pow2, Dividers, Residue, PaddedText;
    var dividers := Dividers(width);
    var q, n := 0, num;
    DividerBounds(width, 0);
    AllDigits(num, width);
    ghost var text := PaddedText(num, DecWidth(width), 10);
    for i := 0 to DecWidth(width)
      invariant n <= num && n == Residue(num, DecWidth(width) - i)
      invariant buf[..i] == text[..i]
    {
      DecDigit(num, n, i, width);
      q, n := V.Div(n, dividers[i], width);
      buf[i] := q as char + '0';
    }
  }

  lemma AllDigits(num: nat, width: nat)
    requires IsWidth(width) && num < Pow2(width)
    ensures Residue(num, DecWidth(width)) == num
  {
    DecWidthSuffices(num, width);
    SmallModulus(num, D.Power(10, DecWidth(width)));
  }

  lemma RemainderSmaller(n: nat, d: nat)
    requires d > 0
    ensures n % d <= n
  {
    Euclid(n, d);
    MultipleGrows(n / d, d);
  }

  // ---------------------------------------------------------------------------
  // Leading zeros in text
  // ---------------------------------------------------------------------------

  ghost function StripText(s: string): string {
    if s != [] && s[0] == '0' then StripText(s[1..]) else s
  }

  lemma {:induction false} StripTextExtends(s: string, c: char)
    ensures StripText(s + [c]) == if StripText(s) != [] then StripText(s) + [c] else if c == '0' then [] else [c]
  {
    if s == [] {
      assert s + [c] == [c];
      assert [c][1..] == [];
    } else if s[0] == '0' {
      assert (s + [c])[1..] == s[1..] + [c];
      StripTextExtends(s[1..], c);
    }
  }

  lemma {:induction false} StripTextOfChars(ds: seq<nat>)
    requires AllBelow(ds, 16)
    ensures AllBelow(D.Strip(ds), 16) && StripText(Chars(ds)) == Chars(D.Strip(ds))
  {
    if ds == [] {
    } else {
      DigitCharZero(ds[0]);
      assert Chars(ds)[1..] == Chars(ds[1..]);
      if ds[0] == 0 { StripTextOfChars(ds[1..]); }
    }
  }

  lemma DigitCharZero(d: nat)
    requires d < 16
    ensures DigitChar(d) == '0' <==> d == 0
  {
  }

  lemma StrippedIsNumeral(num: nat, w: nat, base: nat)
    requires 2 <= base <= 16 && 0 < num < D.Power(base, w)
    ensures StripText(PaddedText(num, w, base)) == NumeralText(num, base)
  {
    PaddedDigits(num, w, base);
    D.NumeralDigits(num, base);
    D.StripOfPadded(num, w, base);
    StripTextOfChars(D.Padded(num, w, base));
  }

  lemma ZeroText(base: nat)
    requires 2 <= base <= 16
    ensures NumeralText(0, base) == "0"
  {
    D.NumeralDigits(0, base);
    assert D.Numeral(0, base) == [0];
    DigitCharZero(0);
  }

  lemma HexWidthSuffices(num: nat, width: nat)
    requires IsWidth(width) && num < Pow2(width)
    ensures num < D.Power(16, width / 4)
  {
    hide Pow2;
    PowersOf16(width / 4);
  }

  lemma BinaryDigit(num: nat, i: nat)
    requires i < 32
    ensures PaddedText(num, 32, 2)[31 - i] == if BitSet(num, i) then '1' else '0'
  {
    hide Pow2, D.Power, D.Padded;
    PaddedDigits(num, 32, 2);
    PowersOf2(i);
    D.DigitAt(num, 32, 2, 31 - i);
  }

  lemma SignBit(num: nat, width: nat)
    requires IsWidth(width) && num < Pow2(width)
    ensures BitSet(num, width - 1) <==> num >= Pow2(width - 1)
  {
    var p := Pow2(width - 1);
    TwoHalves(num, p);
  }

  lemma TwoHalves(n: nat, p: nat)
    requires 0 < p && n < 2 * p
    ensures (n / p) % 2 == 1 <==> n >= p
  {
    if n >= p {
      QuotientUnique(n, p, 1, n - p);
    } else {
      QuotientUnique(n, p, 0, n);
    }
  }

  /** The count the printers return: only the digits of a non-zero number, and a fixed 20 for a
      format they do not know. */
  ghost function PrintedCount(fmt: char, num: nat, width: nat): int
    requires IsWidth(width) && num < Pow2(width)
  {
    if fmt == 'b' || (fmt in "xphdu" && num == 0) then 0
    else if fmt == 'x' || fmt == 'p' || fmt == 'h' then |NumeralText(num, 16)|
    else if fmt == 'd' && num >= Pow2(width - 1) then |NumeralText(Pow2(width) - num, 10)|
    else if fmt == 'd' || fmt == 'u' then |NumeralText(num, 10)|
    else 20
  }

  // ---------------------------------------------------------------------------
  // The console
  // ---------------------------------------------------------------------------

  class Console {
    var text: string

    constructor ()
      ensures text == ""
    {
      text := "";
    }

    method PrintChar(ch: char) returns (len: int)
      modifies this
      ensures text == old(text) + [ch] && len == 1
    {
      text := text + [ch];
      len := 1;
    }

    method PrintString(str: string) returns (len: int)
      modifies this
      ensures text == old(text) + str && len == |str|
    {
      len := 0;
      while len < |str|
        invariant 0 <= len <= |str| && text == old(text) + str[..len]
      {
        var _ := PrintChar(str[len]);
        len := len + 1;
      }
      assert str[..len] == str;
    }

    /** Prints a digit buffer from its first digit that is not zero. */
    method PrintStarted(buf: array<char>, n: nat) returns (printed: int)
      requires n <= buf.Length
      modifies this
      ensures text == old(text) + StripText(buf[..n]) && printed == |StripText(buf[..n])|
    {
      var started := false;
      printed := 0;
      for i := 0 to n
        invariant text == old(text) + StripText(buf[..i]) && printed == |StripText(buf[..i])|
        invariant started <==> StripText(buf[..i]) != []
      {
        assert buf[..i + 1] == buf[..i] + [buf[i]];
        StripTextExtends(buf[..i], buf[i]);
        if buf[i] != '0' { started := true; }
        if started {
          var _ := PrintChar(buf[i]);
          printed := printed + 1;
        }
      }
    }

    method PrintHex(num: nat, width: nat) returns (printed: int)
      requires IsWidth(width) && num < Pow2(width)
      modifies this
      ensures text == old(text) + NumeralText(num, 16) && printed == if num == 0 then 0 else |NumeralText(num, 16)|
    {
      hide Pow2, PaddedText, NumeralText;
      printed := 0;
      ZeroText(16);
      if num == 0 {
        var _ := PrintChar('0');
      } else {
        var buf := new char[DecWidth(width)];
        ToHex(num, buf, width);
        HexWidthSuffices(num, width);
        StrippedIsNumeral(num, width / 4, 16);
        printed := PrintStarted(buf, width / 4);
      }
    }

    method PrintDec(num: nat, width: nat) returns (printed: int)
      requires IsWidth(width) && num < Pow2(width)
      modifies this
      ensures text == old(text) + NumeralText(num, 10) && printed == if num == 0 then 0 else |NumeralText(num, 10)|
    {
      hide Pow2, PaddedText, NumeralText;
      printed := 0;
      ZeroText(10);
      if num == 0 {
        var _ := PrintChar('0');
      } else {
        var buf := new char[DecWidth(width)];
        ToDec(num, buf, width);
        DecWidthSuffices(num, width);
        StrippedIsNumeral(num, DecWidth(width), 10);
        printed := PrintStarted(buf, DecWidth(width));
      }
    }

    method PrintBinary(num: nat)
      requires num < Pow2(32)
      modifies this
      ensures text == old(text) + PaddedText(num, 32, 2)
    {
      hide Pow2, PaddedText, BitSet;
      ghost var bits := PaddedText(num, 32, 2);
      var i := 31;
      while i >= 0
        invariant -1 <= i <= 31 && text == old(text) + bits[..31 - i]
        decreases i
      {
        BinaryDigit(num, i);
        var _ := PrintChar(if BitSet(num, i) then '1' else '0');
        i := i - 1;
      }
      assert bits[..32] == bits;
    }

    /** print_u32 and print_u64. The 64-bit binary format is not part of the contract. */
    method PrintNumber(fmt: char, value: nat, width: nat) returns (printed: int)
      requires IsWidth(width) && value < Pow2(width) && (fmt == 'b' ==> width == 32)
      modifies this
      ensures text == old(text) + Text(fmt, value, width)
      ensures printed == PrintedCount(fmt, value, width)
    {
      hide Pow2, PaddedText, NumeralText, BitSet;
      printed := 0;
      var num := value;
      assert Pow2(width - 1) > 0;
      if fmt == 'b' {
        PrintBinary(num);
      } else if fmt == 'x' || fmt == 'p' || fmt == 'h' {
        if fmt != 'h' { var _ := PrintString("0x"); }
        printed := PrintHex(num, width);
      } else if fmt == 'd' || fmt == 'u' {
        SignBit(num, width);
        if fmt == 'd' && BitSet(num, width - 1) {
          var _ := PrintChar('-');
          SmallModulus(Pow2(width) - num, Pow2(width));
          num := (Pow2(width) - 1 - num + 1) % Pow2(width);
        }
        printed := PrintDec(num, width);
      } else {
        var _ := PrintString(UNKNOWN_FORMAT);
        var _ := PrintChar(fmt);
        var _ := PrintString("__");
        printed := printed + 20;
      }
    }
  }
}
