/** The written form of numbers, place by place: exactly what is printed, and exactly what is read. */
module Numerals {
  import opened Arithmetic
  import opened Numbers

  const Lower: string := "0123456789abcdef"
  const Upper: string := "0123456789ABCDEF"

  /** The characters stand for these digits. */
  predicate Spells(t: string, ds: seq<nat>, base: nat) {
    && |t| == |ds|
    && forall i :: 0 <= i < |t| ==> ds[i] < base && ds[i] < 16 && (t[i] == Lower[ds[i]] || t[i] == Upper[ds[i]])
  }

  function Power(base: nat, k: nat): nat { if k == 0 then 1 else base * Power(base, k - 1) }

  /** Each digit counts by its place. */
  function Value(ds: seq<nat>, base: nat): nat {
    if ds == [] then 0 else ds[0] * Power(base, |ds| - 1) + Value(ds[1..], base)
  }

  lemma {:induction false} ValueLast(ds: seq<nat>, d: nat, base: nat)
    ensures Value(ds + [d], base) == Value(ds, base) * base + d
    decreases |ds|
  {
    if ds == [] {
      assert (ds + [d])[1..] == [];
    } else {
      ValueLast(ds[1..], d, base);
      assert (ds + [d])[1..] == ds[1..] + [d];
      Distribute(ds[0], Power(base, |ds| - 1), Value(ds[1..], base), base, d);
    }
  }

  lemma Distribute(a: nat, p: nat, v: nat, base: nat, d: nat)
    ensures a * (base * p) + (v * base + d) == (a * p + v) * base + d
  {
  }

  // ---- reading --------------------------------------------------------------------------------------------------

  function Base(hex: bool): nat { if hex then 16 else 10 }

  function Digits(t: string): (ds: seq<nat>)
    requires AllDigits(t, true)
    ensures |ds| == |t|
  {
    seq(|t|, i requires 0 <= i < |t| => DigitValue(t[i]))
  }

  lemma HexDigits(t: string, hex: bool)
    requires AllDigits(t, hex)
    ensures AllDigits(t, true)
  {
  }

  lemma DigitSpelled(c: char, hex: bool)
    requires IsDigit(c, hex)
    ensures DigitValue(c) < Base(hex) && (c == Lower[DigitValue(c)] || c == Upper[DigitValue(c)])
  {
  }

  lemma SpelledDigit(c: char, d: nat, hex: bool)
    requires d < Base(hex) && (c == Lower[d] || c == Upper[d])
    ensures IsDigit(c, hex) && IsDigit(c, true) && DigitValue(c) == d
  {
  }

  lemma DigitsSpell(t: string, hex: bool)
    requires AllDigits(t, hex)
    ensures AllDigits(t, true) && Spells(t, Digits(t), Base(hex))
  {
    hide DigitValue, IsDigit;
    HexDigits(t, hex);
    forall i | 0 <= i < |t|
      ensures var d := Digits(t)[i]; d < Base(hex) && (t[i] == Lower[d] || t[i] == Upper[d])
    {
      DigitSpelled(t[i], hex);
    }
  }

  lemma SpelledDigits(t: string, ds: seq<nat>, hex: bool)
    requires Spells(t, ds, Base(hex))
    ensures AllDigits(t, hex) && AllDigits(t, true) && Digits(t) == ds
  {
    hide DigitValue, IsDigit;
    forall i | 0 <= i < |t| ensures IsDigit(t[i], hex) && IsDigit(t[i], true) && DigitValue(t[i]) == ds[i] {
      SpelledDigit(t[i], ds[i], hex);
    }
    HexDigits(t, hex);
  }

  lemma CutFirst(a: nat, base: nat, d: nat)
    ensures (a % Word64 * base + d) % Word64 == (a * base + d) % Word64
  {
    var q, r := a / Word64, a % Word64;
    assert a == q * Word64 + r;
    assert a * base + d == (r * base + d) + (q * base) * Word64;
    Whole(r * base + d, q * base);
  }

  lemma Whole(x: nat, k: nat)
    ensures (x + k * Word64) % Word64 == x % Word64
  {
    var q, r := x / Word64, x % Word64;
    assert x + k * Word64 == Word64 * (q + k) + r;
    Unique(x + k * Word64, Word64, q + k, r);
  }

  lemma {:induction false} NumberIsValue(t: string, hex: bool)
    requires AllDigits(t, hex) && AllDigits(t, true)
    ensures NumberOf(t, hex) == Value(Digits(t), Base(hex)) % Word64
    decreases |t|
  {
    hide IsDigit, DigitValue;
    if t != "" {
      var front, last := t[..|t| - 1], t[|t| - 1];
      NumberIsValue(front, hex);
      assert Digits(t) == Digits(front) + [DigitValue(last)];
      ValueLast(Digits(front), DigitValue(last), Base(hex));
      CutFirst(Value(Digits(front), Base(hex)), Base(hex), DigitValue(last));
    }
  }

  /** A numeral: digits, behind 0x if they are hexadecimal, and behind a sign if one was asked for. */
  predicate Numeral(s: string, signed: bool, sign: char, hex: bool, t: string, ds: seq<nat>) {
    && Spells(t, ds, Base(hex)) && (hex || t != "")
    && (sign == '\0' || (signed && (sign == '-' || sign == '+')))
    && s == (if sign == '\0' then "" else [sign]) + (if hex then "0x" else "") + t
  }

  lemma UnsignedReads(hex: bool, t: string, ds: seq<nat>, c: char)
    requires Spells(t, ds, Base(hex)) && (hex || t != "")
    ensures Unsigned((if hex then "0x" else "") + t, c) == Good(c, Value(ds, Base(hex)) % Word64)
    ensures var body := (if hex then "0x" else "") + t; body != "" && body[0] != '-' && body[0] != '+'
  {
    hide NumberOf, DigitValue;
    SpelledDigits(t, ds, hex);
    NumberIsValue(t, hex);
    var body := (if hex then "0x" else "") + t;
    if hex {
      assert body[2..] == t;
    } else {
      assert body == t && IsDigit(t[0], false);
      assert |t| > 1 ==> IsDigit(t[1], false);
    }
  }

  /** What follows the sign. */
  function Body(s: string, signed: bool): string {
    if s != "" && signed && (s[0] == '-' || s[0] == '+') then s[1..] else s
  }

  function SignOf(s: string, signed: bool): char {
    if s != "" && signed && (s[0] == '-' || s[0] == '+') then s[0] else '\0'
  }

  lemma ReadsNumeral(s: string, signed: bool, sign: char, hex: bool, t: string, ds: seq<nat>)
    requires Numeral(s, signed, sign, hex, t, ds)
    ensures Read(s, signed) == Good(sign, Value(ds, Base(hex)) % Word64)
  {
    hide Unsigned, Spells, Value;
    var body := (if hex then "0x" else "") + t;
    UnsignedReads(hex, t, ds, sign);
    if sign == '\0' {
      assert s == body;
    } else {
      assert s == [sign] + body && s[1..] == body;
    }
  }

  lemma NumeralFound(s: string, signed: bool) returns (hex: bool, t: string, ds: seq<nat>)
    requires Read(s, signed).Good?
    ensures Numeral(s, signed, SignOf(s, signed), hex, t, ds)
  {
    hide NumberOf, DigitValue;
    var body := Body(s, signed);
    hex := HexMarked(body);
    t := if hex then body[2..] else body;
    DigitsSpell(t, hex);
    ds := Digits(t);
    assert hex ==> body == "0x" + t;
    assert SignOf(s, signed) != '\0' ==> s == [s[0]] + body;
  }

  /** Exactly what is read, for every input: the numerals, with their sign and their value modulo 2^64. */
  lemma ReadExact(s: string, signed: bool, sign: char, v: nat)
    ensures Read(s, signed) == Good(sign, v) <==>
      exists hex, t, ds :: Numeral(s, signed, sign, hex, t, ds) && v == Value(ds, Base(hex)) % Word64
  {
    hide Read, Numeral, Value;
    if Read(s, signed) == Good(sign, v) {
      var hex, t, ds := NumeralFound(s, signed);
      ReadsNumeral(s, signed, SignOf(s, signed), hex, t, ds);
    }
    forall hex, t, ds | Numeral(s, signed, sign, hex, t, ds)
      ensures Read(s, signed) == Good(sign, Value(ds, Base(hex)) % Word64)
    {
      ReadsNumeral(s, signed, sign, hex, t, ds);
    }
  }

  // ---- printing -------------------------------------------------------------------------------------------------

  lemma CharIs(d: nat)
    requires d < 16
    ensures Char(d) == Lower[d]
  {
  }

  lemma {:induction false} HexPlaces(n: nat, k: nat) returns (ds: seq<nat>)
    requires n < Pow16(k)
    ensures |ds| == k && Value(ds, 16) == n
    ensures forall i :: 0 <= i < k ==> ds[i] < 16 && Numbers.HexDigits(n, k)[i] == Lower[ds[i]]
    decreases k
  {
    hide Char;
    ds := [];
    if k > 0 {
      BelowPower(n, k);
      var front := HexPlaces(n / 16, k - 1);
      ds := front + [n % 16];
      ValueLast(front, n % 16, 16);
      CharIs(n % 16);
      var s := Numbers.HexDigits(n / 16, k - 1);
      assert Numbers.HexDigits(n, k) == s + [Char(n % 16)];
    }
  }

  /** In hexadecimal: sixteen lower-case digits behind 0x, whose value is the number. */
  lemma PrintedHex(n: nat, decDigits: nat, decPad: char) returns (t: string, ds: seq<nat>)
    requires n < Word64
    ensures Printed(n, true, decDigits, decPad) == "0x" + t && |t| == 16
    ensures Spells(t, ds, 16) && Value(ds, 16) == n && forall i :: 0 <= i < 16 ==> t[i] == Lower[ds[i]]
  {
    hide Numbers.HexDigits, Value;
    Sixteen();
    ds := HexPlaces(n, 16);
    t := Numbers.HexDigits(n, 16);
  }

  lemma {:induction false} DecPlaces(n: nat) returns (ds: seq<nat>)
    ensures Spells(DecDigits(n), ds, 10) && Value(ds, 10) == n
    ensures n > 0 ==> ds != [] && ds[0] != 0
    decreases n
  {
    hide Char;
    ds := [];
    if n > 0 {
      var front := DecPlaces(n / 10);
      ds := front + [n % 10];
      ValueLast(front, n % 10, 10);
      CharIs(n % 10);
      var s := DecDigits(n / 10);
      assert DecDigits(n) == s + [Char(n % 10)];
      forall i | 0 <= i < |ds|
        ensures ds[i] < 10 && DecDigits(n)[i] == Lower[ds[i]]
      {
      }
    }
  }

  /**
   In decimal: a minus for numbers with the top bit set, the padding, and the digits of the
   magnitude without leading zeros.  Padding and digits together have the length asked for,
   or that of the digits if it is greater; zero with no digits asked for is padded 255 times.
   */
  lemma PrintedDec(n: nat, decDigits: nat, decPad: char) returns (k: nat, t: string, ds: seq<nat>)
    requires n < Word64
    ensures Printed(n, false, decDigits, decPad) == (if n < Word64 / 2 then "" else "-") + Repeated(decPad, k) + t
    ensures Spells(t, ds, 10) && Value(ds, 10) == (if n < Word64 / 2 then n else Word64 - n)
    ensures t != "" && (t == "0" || ds[0] != 0)
    ensures if n == 0 && decDigits == 0 then k == 255 else k + |t| == if |t| < decDigits then decDigits else |t|
  {
    hide Repeated, Value, DecDigits;
    var m := Magnitude(n);
    k := Pads(m, decDigits);
    if m == 0 {
      t, ds := "0", [0];
      assert Value([0], 10) == 0 by { ZeroValue(); }
    } else {
      t := DecDigits(m);
      ds := DecPlaces(m);
    }
  }

  lemma ZeroValue()
    ensures Value([0], 10) == 0
  {
    assert [0][1..] == [];
  }
}
