/** Printing numbers (debugger_print.cpp) and reading them (debugger_menu.cpp). */
module Numbers {
  import opened Arithmetic

  const Word64: nat := 0x1_0000_0000_0000_0000

  function Char(d: nat): char
    requires d < 16
  {
    if d < 10 then ('0' as int + d) as char else ('a' as int + d - 10) as char
  }

  // ---- printing -------------------------------------------------------------------------------------------------

  function Pow16(k: nat): (p: nat)
    ensures 0 < p
  {
    if k == 0 then 1 else 16 * Pow16(k - 1)
  }

  /** The last k hexadecimal digits. */
  function HexDigits(n: nat, k: nat): (s: string)
    ensures |s| == k
    decreases k
  {
    if k == 0 then "" else HexDigits(n / 16, k - 1) + [Char(n % 16)]
  }

  /** The decimal digits, none for zero. */
  function DecDigits(n: nat): string {
    if n == 0 then "" else DecDigits(n / 10) + [Char(n % 10)]
  }

  function Repeated(c: char, n: nat): (s: string)
    ensures |s| == n && forall i :: 0 <= i < n ==> s[i] == c
  {
    seq(n, _ => c)
  }

  /** How often the pad is inserted; the count for zero is taken modulo 256. */
  function Pads(n: nat, decDigits: nat): nat {
    if n == 0 then (if decDigits == 0 then 255 else decDigits - 1)
    else if |DecDigits(n)| < decDigits then decDigits - |DecDigits(n)| else 0
  }

  function Magnitude(n: nat): nat
    requires n < Word64
  {
    if n < Word64 / 2 then n else Word64 - n
  }

  function Printed(n: nat, hex: bool, decDigits: nat, decPad: char): string
    requires n < Word64
  {
    if hex then "0x" + HexDigits(n, 16)
    else
      var m := Magnitude(n);
      (if n < Word64 / 2 then "" else "-") + Repeated(decPad, Pads(m, decDigits))
        + (if m == 0 then "0" else DecDigits(m))
  }

  lemma HexStep(n: nat, i: nat)
    requires i < 16
    ensures n / Pow16(15 - i) / 16 == n / Pow16(16 - i)
    ensures HexDigits(n / Pow16(16 - i), i) + [Char(n / Pow16(15 - i) % 16)] == HexDigits(n / Pow16(15 - i), i + 1)
  {
    DivTwice(n, Pow16(15 - i), 16);
    assert Pow16(16 - i) == 16 * Pow16(15 - i);
  }

  lemma {:induction false} BelowPower(n: nat, k: nat)
    requires n < Pow16(k)
    ensures k > 0 ==> n / 16 < Pow16(k - 1)
    ensures k == 0 ==> n == 0
  {
  }

  lemma Sixteen()
    ensures Pow16(16) == Word64
  {
    assert Pow16(4) == 0x10000;
    assert Pow16(8) == 0x1_0000_0000;
    assert Pow16(12) == 0x1_0000_0000_0000;
  }

  /** The digits of a number, inserted from the last to the first. */
  method PrintDecimal(m: nat, decDigits: nat) returns (str: string, left: nat)
    requires decDigits < 256 && 0 < m
    ensures str == DecDigits(m) && left == if |str| < decDigits then decDigits - |str| else 0
  {
    var nbr := m;
    str, left := "", decDigits;
    while nbr > 0
      invariant DecDigits(m) == DecDigits(nbr) + str
      invariant left == if |str| < decDigits then decDigits - |str| else 0
    {
      str := [Char(nbr % 10)] + str;
      nbr := nbr / 10;
      if left > 0 {
        left := left - 1;
      }
    }
  }

  method PrintHex(n: nat) returns (str: string)
    requires n < Word64
    ensures str == "0x" + HexDigits(n, 16)
  {
    hide HexDigits, Pow16, Char;
    str := "0x";
    var i := 0;
    AllShiftedOut(n);
    while i < 16
      invariant 0 <= i <= 16 && str == "0x" + HexDigits(n / Pow16(16 - i), i)
    {
      HexStep(n, i);
      str := str + [Char(n / Pow16(15 - i) % 16)];
      i := i + 1;
    }
    assert Pow16(0) == 1 by { NoShift(); }
  }

  lemma NoShift() ensures Pow16(0) == 1 {}

  lemma AllShiftedOut(n: nat)
    requires n < Word64
    ensures HexDigits(n / Pow16(16), 0) == ""
  {
  }

  method PrintNumber(n: nat, hex: bool, decDigits: nat, decPad: char) returns (str: string)
    requires n < Word64 && decDigits < 256
    ensures str == Printed(n, hex, decDigits, decPad)
  {
    hide HexDigits, Repeated;
    if hex {
      str := PrintHex(n);
      return;
    }
    var left;
    if n >= Word64 / 2 {
      str, left := PrintDecimal(Word64 - n, decDigits);
      str := "-" + (Repeated(decPad, left) + str);
      assert "-" + (Repeated(decPad, left) + DecDigits(Word64 - n))
        == "-" + Repeated(decPad, left) + DecDigits(Word64 - n);
      return;
    }
    if n == 0 {
      str, left := "0", (decDigits + 255) % 256;
    } else {
      str, left := PrintDecimal(n, decDigits);
    }
    assert "" + Repeated(decPad, left) + str == Repeated(decPad, left) + str;
    str := Repeated(decPad, left) + str;
  }

  // ---- reading ---------------------------------------------------------------------------------------------------

  datatype Reading = Bad | Good(relative: char, number: nat)

  predicate IsDigit(c: char, hex: bool) {
    '0' <= c <= '9' || (hex && ('a' <= c <= 'f' || 'A' <= c <= 'F'))
  }

  function DigitValue(c: char): nat
    requires IsDigit(c, true)
  {
    if '0' <= c <= '9' then c as int - '0' as int
    else if 'a' <= c <= 'f' then c as int - 'a' as int + 10
    else c as int - 'A' as int + 10
  }

  predicate AllDigits(s: string, hex: bool) { forall i :: 0 <= i < |s| ==> IsDigit(s[i], hex) }

  /** The number the digits stand for, modulo 2^64. */
  function NumberOf(s: string, hex: bool): nat
    requires AllDigits(s, hex)
  {
    if s == "" then 0
    else (NumberOf(s[..|s| - 1], hex) * (if hex then 16 else 10) + DigitValue(s[|s| - 1])) % Word64
  }

  predicate HexMarked(s: string) { |s| > 1 && s[0] == '0' && s[1] == 'x' }

  function Unsigned(s: string, relative: char): Reading {
    if s == "" then Bad
    else
      var hex := HexMarked(s);
      var t := if hex then s[2..] else s;
      if AllDigits(t, hex) then Good(relative, NumberOf(t, hex)) else Bad
  }

  /** A sign is taken off only where the caller asks for it. */
  function Read(s: string, signed: bool): Reading {
    if s == "" then Bad
    else if signed && (s[0] == '-' || s[0] == '+') then Unsigned(s[1..], s[0])
    else Unsigned(s, '\0')
  }

  /** The digits up to the first character that is none. */
  method ParseDigits(t: string, hex: bool) returns (ok: bool, number: nat)
    ensures ok == AllDigits(t, hex)
    ensures ok ==> number == NumberOf(t, hex)
  {
    number := 0;
    var i := 0;
    while i < |t|
      invariant 0 <= i <= |t| && AllDigits(t[..i], hex) && number == NumberOf(t[..i], hex)
    {
      if !IsDigit(t[i], hex) {
        return false, number;
      }
      assert t[..i + 1] == t[..i] + [t[i]] && t[..i + 1][..i] == t[..i];
      number := (number * (if hex then 16 else 10) + DigitValue(t[i])) % Word64;
      i := i + 1;
    }
    assert t[..i] == t;
    ok := true;
  }

  method ParseNumber(input: string, signed: bool) returns (r: Reading)
    ensures r == Read(input, signed)
  {
    var text := input;
    if text == "" {
      return Bad;
    }
    var relative := '\0';
    if signed {
      if text[0] == '-' || text[0] == '+' {
        relative := text[0];
        text := text[1..];
      }
    }
    if text == "" {
      return Bad;
    }
    var hex := false;
    if |text| > 1 {
      if text[0] == '0' && text[1] == 'x' {
        hex := true;
        text := text[2..];
      }
    }
    var ok, number := ParseDigits(text, hex);
    r := if ok then Good(relative, number) else Bad;
  }

  // ---- round trips --------------------------------------------------------------------------------------------------

  lemma CharValue(d: nat, hex: bool)
    requires d < if hex then 16 else 10
    ensures IsDigit(Char(d), hex) && DigitValue(Char(d)) == d
  {
  }

  lemma OneMore(s: string, c: char, hex: bool)
    requires AllDigits(s, hex) && IsDigit(c, hex)
    ensures AllDigits(s + [c], hex)
    ensures NumberOf(s + [c], hex) == (NumberOf(s, hex) * (if hex then 16 else 10) + DigitValue(c)) % Word64
  {
    assert (s + [c])[..|s|] == s;
  }

  lemma {:induction false} HexBack(n: nat, k: nat)
    requires n < Pow16(k) && n < Word64
    ensures AllDigits(HexDigits(n, k), true) && NumberOf(HexDigits(n, k), true) == n
    decreases k
  {
    if k > 0 {
      BelowPower(n, k);
      HexBack(n / 16, k - 1);
      CharValue(n % 16, true);
      OneMore(HexDigits(n / 16, k - 1), Char(n % 16), true);
    }
  }

  lemma {:induction false} DecBack(n: nat)
    requires n < Word64
    ensures AllDigits(DecDigits(n), false) && NumberOf(DecDigits(n), false) == n
  {
    if n > 0 {
      hide Char, DigitValue, NumberOf, IsDigit;
      DecBack(n / 10);
      CharValue(n % 10, false);
      OneMore(DecDigits(n / 10), Char(n % 10), false);
    } else {
      NothingRead();
    }
  }

  lemma NothingRead()
    ensures AllDigits("", false) && NumberOf("", false) == 0
  {
  }

  /** Every number is read back from its hexadecimal form. */
  lemma HexRoundTrip(n: nat, decDigits: nat, decPad: char, signed: bool)
    requires n < Word64
    ensures Read(Printed(n, true, decDigits, decPad), signed) == Good('\0', n)
  {
    var s := Printed(n, true, decDigits, decPad);
    Sixteen();
    HexBack(n, 16);
    assert s[0] == '0' && s[1] == 'x' && s[2..] == HexDigits(n, 16);
  }

  lemma OneZero(k: nat)
    requires k > 0
    ensures Repeated('0', k) == Repeated('0', k - 1) + ['0']
    ensures IsDigit('0', false) && DigitValue('0') == 0
  {
    var s, t := Repeated('0', k), Repeated('0', k - 1) + ['0'];
    assert |s| == |t|;
    forall i | 0 <= i < k ensures s[i] == t[i] {
    }
  }

  lemma {:induction false} OnlyZeros(k: nat)
    ensures AllDigits(Repeated('0', k), false) && NumberOf(Repeated('0', k), false) == 0
  {
    if k == 0 {
      NothingRead();
    } else {
      hide NumberOf, DigitValue, IsDigit, Repeated;
      OnlyZeros(k - 1);
      OneZero(k);
      OneMore(Repeated('0', k - 1), '0', false);
    }
  }

  lemma {:induction false} LeadingZeros(k: nat, s: string)
    requires AllDigits(s, false)
    ensures AllDigits(Repeated('0', k) + s, false) && NumberOf(Repeated('0', k) + s, false) == NumberOf(s, false)
    decreases |s|
  {
    hide NumberOf, DigitValue, IsDigit;
    var p := Repeated('0', k);
    OnlyZeros(k);
    if s == "" {
      NothingRead();
      assert p + s == p;
    } else {
      var t, c := s[..|s| - 1], s[|s| - 1];
      LeadingZeros(k, t);
      assert s == t + [c] && p + s == (p + t) + [c];
      OneMore(p + t, c, false);
      OneMore(t, c, false);
    }
  }

  /** The decimal digits of a magnitude as they are printed. */
  function Plain(m: nat): string { if m == 0 then "0" else DecDigits(m) }

  lemma {:induction false} FirstDigit(m: nat)
    ensures |Plain(m)| > 0 && IsDigit(Plain(m)[0], false) && !HexMarked(Plain(m))
    ensures AllDigits(Plain(m), false)
    decreases m
  {
    if m >= 10 {
      FirstDigit(m / 10);
      CharValue(m % 10, false);
      assert Plain(m) == Plain(m / 10) + [Char(m % 10)];
    } else {
      CharValue(m, false);
      assert m > 0 ==> DecDigits(m / 10) == "";
    }
  }

  lemma PlainBack(m: nat)
    requires m < Word64
    ensures AllDigits(Plain(m), false) && NumberOf(Plain(m), false) == m
  {
    DecBack(m);
    if m == 0 {
      assert "0"[..0] == "";
    }
  }

  /**
   Read back with a sign allowed, the decimal form gives sign and magnitude, exactly if it is
   padded with zeros or not at all.
   */
  lemma DecimalRoundTrip(n: nat, decDigits: nat, decPad: char)
    requires n < Word64 && decDigits < 256 && (decPad == '0' || decPad == ' ')
    ensures Read(Printed(n, false, decDigits, decPad), true) == Good(if n < Word64 / 2 then '\0' else '-', Magnitude(n))
      <==> decPad == '0' || Pads(Magnitude(n), decDigits) == 0
  {
    hide NumberOf, IsDigit, HexMarked, DecDigits, Repeated;
    var m := Magnitude(n);
    var k, sign := Pads(m, decDigits), if n < Word64 / 2 then "" else "-";
    var body := Repeated(decPad, k) + Plain(m);
    assert Printed(n, false, decDigits, decPad) == sign + body;
    BodyStarts(k, m, decPad);
    SignRead(body, n);
    BodyRead(k, m, decPad, if n < Word64 / 2 then '\0' else '-');
  }

  lemma BodyStarts(k: nat, m: nat, decPad: char)
    requires decPad == '0' || decPad == ' '
    ensures var body := Repeated(decPad, k) + Plain(m); body != "" && body[0] != '-' && body[0] != '+'
  {
    FirstDigit(m);
    var body := Repeated(decPad, k) + Plain(m);
    assert k == 0 ==> body[0] == Plain(m)[0];
  }

  lemma SignRead(body: string, n: nat)
    requires body != "" && body[0] != '-' && body[0] != '+'
    ensures var sign := if n < Word64 / 2 then "" else "-";
      Read(sign + body, true) == Unsigned(body, if n < Word64 / 2 then '\0' else '-')
  {
    hide Unsigned;
    assert "" + body == body && ("-" + body)[1..] == body;
  }

  /** Zeros in front do not matter, blanks do. */
  lemma BodyRead(k: nat, m: nat, decPad: char, relative: char)
    requires m < Word64 && (decPad == '0' || decPad == ' ')
    ensures Unsigned(Repeated(decPad, k) + Plain(m), relative) == Good(relative, m) <==> decPad == '0' || k == 0
  {
    hide NumberOf, IsDigit, HexMarked, DecDigits, Plain;
    var body := Repeated(decPad, k) + Plain(m);
    PlainBack(m);
    FirstDigit(m);
    if decPad == '0' || k == 0 {
      LeadingZeros(k, Plain(m));
      NotMarked(k, m);
      assert k == 0 ==> body == Repeated('0', k) + Plain(m);
    } else {
      assert body[0] == ' ';
      BlankRefused(body);
    }
  }

  lemma BlankRefused(body: string)
    requires body != "" && body[0] == ' '
    ensures !HexMarked(body) && !AllDigits(body, false)
  {
    assert !IsDigit(body[0], false);
  }

  lemma NotMarked(k: nat, m: nat)
    ensures var b := Repeated('0', k) + Plain(m); |b| > 0 && IsDigit(b[0], false) && !HexMarked(b)
  {
    FirstDigit(m);
    var b := Repeated('0', k) + Plain(m);
    if |b| > 1 {
      assert IsDigit(b[1], false);
    }
  }

  /** With the defaults the decimal form is never padded. */
  lemma DefaultUnpadded(n: nat)
    requires n < Word64
    ensures Pads(Magnitude(n), 1) == 0
  {
    if Magnitude(n) > 0 {
      assert |DecDigits(Magnitude(n))| > 0;
    }
  }

  /** Asked for no digits at all, zero is padded 255 times. */
  lemma ZeroPadded()
    ensures Pads(0, 0) == 255 && |Printed(0, false, 0, ' ')| == 256
    ensures Read(Printed(0, false, 0, ' '), true) != Good('\0', 0)
  {
    DecimalRoundTrip(0, 0, ' ');
  }

  /** Where no sign is allowed, numbers with the top bit set are refused in decimal. */
  lemma UnsignedRefused(n: nat, decDigits: nat, decPad: char)
    requires Word64 / 2 <= n < Word64
    ensures Read(Printed(n, false, decDigits, decPad), false) == Bad
  {
    var s := Printed(n, false, decDigits, decPad);
    assert s[0] == '-' && !IsDigit(s[0], false);
  }
}
