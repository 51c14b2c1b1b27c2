/** What formatted numbers mean: their digits read back, and how wide they are. */
module FormatTheorems {
  import opened Arithmetic
  import opened FormatSpec

  // ----- reading digits

  function DigitValue(c: char): int {
    if '0' <= c <= '9' then c as int - '0' as int
    else if 'a' <= c <= 'f' then c as int - 'a' as int + 10
    else if 'A' <= c <= 'F' then c as int - 'A' as int + 10
    else -1
  }

  /** Digits of base b. */
  predicate Readable(s: string, b: nat) { forall i :: 0 <= i < |s| ==> 0 <= DigitValue(s[i]) < b }

  function Value(s: string, b: nat): int
    decreases |s|
  {
    if s == "" then 0 else b * Value(s[..|s| - 1], b) + DigitValue(s[|s| - 1])
  }

  lemma DigitReads(d: nat, large: bool)
    requires d < 16
    ensures DigitValue(Digit(d, large)) == d
  {
  }

  lemma QuotientShrinks(u: nat, b: nat)
    requires u > 0 && b >= 2
    ensures u / b < u
  {
    DivMod(u, b);
    if u / b >= u { TwiceAsMuch(u / b, b); }
  }

  lemma TwiceAsMuch(q: nat, b: nat)
    requires b >= 2
    ensures b * q >= 2 * q
  {
    assert (b - 2) * q >= 0;
  }

  lemma Appended(front: string, c: char, b: nat)
    ensures Value(front + [c], b) == b * Value(front, b) + DigitValue(c)
    ensures Readable(front, b) && 0 <= DigitValue(c) < b ==> Readable(front + [c], b)
  {
    assert (front + [c])[..|front|] == front;
  }

  lemma {:induction false} PositiveReads(u: nat, b: nat, large: bool)
    requires 2 <= b <= 16
    ensures Readable(Positive(u, b, large), b) && Value(Positive(u, b, large), b) == u
    decreases u
  {
    if u > 0 {
      DivMod(u, b);
      QuotientShrinks(u, b);
      PositiveReads(u / b, b, large);
      DigitReads(u % b, large);
      Appended(Positive(u / b, b, large), Digit(u % b, large), b);
    }
  }

  lemma {:induction false} NoLeadingZero(u: nat, b: nat, large: bool)
    requires 2 <= b <= 16 && u > 0
    ensures Positive(u, b, large) != "" && DigitValue(Positive(u, b, large)[0]) != 0
    decreases u
  {
    DivMod(u, b);
    if u / b == 0 {
      DigitReads(u % b, large);
      assert Positive(u / b, b, large) == "";
    } else {
      QuotientShrinks(u, b);
      NoLeadingZero(u / b, b, large);
    }
  }

  /** The digits of base ten and sixteen read back, with no leading zero. */
  lemma DigitsRead(u: nat, base: int, large: bool)
    ensures Readable(Digits(u, base, large), Divisor(base)) && Value(Digits(u, base, large), Divisor(base)) == u
    ensures Digits(u, base, large) != "" && (u > 0 ==> DigitValue(Digits(u, base, large)[0]) != 0)
  {
    PositiveReads(u, Divisor(base), large);
    if u > 0 { NoLeadingZero(u, Divisor(base), large); }
  }

  /** Octal output is made of hexadecimal digits, so it is right only for a single octal digit. */
  lemma OctalExactly(u: nat, large: bool)
    ensures Readable(Digits(u, 8, large), 8) && Value(Digits(u, 8, large), 8) == u <==> u < 8
  {
    var ds := Digits(u, 8, large);
    DigitsRead(u, 8, large);
    if u < 16 {
      SingleDigit(u, large);
    } else {
      assert |ds| >= 2;
      Smaller(ds);
    }
  }

  lemma SingleDigit(u: nat, large: bool)
    requires u < 16
    ensures Digits(u, 8, large) == [Digit(u, large)]
  {
    if u > 0 { assert Positive(0, 16, large) == "" && u / 16 == 0; }
  }

  /** Two digits or more are worth less in base eight than in base sixteen. */
  lemma {:induction false} Smaller(s: string)
    requires Readable(s, 16) && s != "" && DigitValue(s[0]) != 0
    ensures 0 < Value(s, 8) <= Value(s, 16) && (|s| >= 2 ==> Value(s, 8) < Value(s, 16))
    decreases |s|
  {
    if |s| == 1 {
      assert s[..0] == "" && Value(s[..0], 8) == 0 && Value(s[..0], 16) == 0;
    } else {
      Smaller(s[..|s| - 1]);
    }
  }

  /** No long needs more digits than the temporary buffer of print_number holds. */
  lemma DigitsFit(u: nat, base: int, large: bool)
    requires u < WRAP
    ensures |Digits(u, base, large)| <= 10
  {
    if base == 10 { FewDecimals(u, 10, large); } else { FewHex(u, 8, large); }
  }

  function Power(b: nat, n: nat): nat { if n == 0 then 1 else b * Power(b, n - 1) }

  lemma {:induction false} FewDigits(u: nat, b: nat, n: nat, large: bool)
    requires 2 <= b <= 16 && u < Power(b, n)
    ensures |Positive(u, b, large)| <= n
    decreases n
  {
    if n > 0 && u > 0 {
      assert u / b < Power(b, n - 1) by { assert b * (u / b) <= u < b * Power(b, n - 1); }
      FewDigits(u / b, b, n - 1, large);
    }
  }

  lemma FewDecimals(u: nat, n: nat, large: bool)
    requires u < WRAP && n == 10
    ensures |Positive(u, 10, large)| <= n
  {
    assert Power(10, 2) == 100;
    assert Power(10, 4) == 100 * Power(10, 2);
    assert Power(10, 6) == 100 * Power(10, 4);
    assert Power(10, 8) == 100 * Power(10, 6);
    assert Power(10, 10) == 100 * Power(10, 8);
    FewDigits(u, 10, 10, large);
  }

  lemma FewHex(u: nat, n: nat, large: bool)
    requires u < WRAP && n == 8
    ensures |Positive(u, 16, large)| <= n
  {
    assert Power(16, 2) == 256;
    assert Power(16, 4) == 256 * Power(16, 2);
    assert Power(16, 6) == 256 * Power(16, 4);
    assert Power(16, 8) == 256 * Power(16, 6);
    FewDigits(u, 16, 8, large);
  }

  // ----- the field

  /** The field is as wide as asked for, or as its sign and digits need; a precision of zero takes
      the digits themselves away. */
  lemma NumberWidth(num: int, base: int, width: int, precision: int, f: Flags)
    ensures var ds := |Digits(Magnitude(num, f), base, f.large)|;
            |NumberText(num, base, width, precision, f)| ==
              Max(width, |SignText(num, f)| + Max(ds, precision)) - if precision == 0 then ds else 0
  {
  }

  // ----- strings

  predicate Blank(s: string) { forall i :: 0 <= i < |s| ==> s[i] == ' ' }

  /** The string of a directive as section 7.21.6.1 of ISO/IEC 9899:2011 has it: at most `precision` characters. */
  function StandardString(d: Field): string
    requires d.precision >= 0
  {
    var s := TextArg(d.args);
    var t := if d.precision < |s| then s[..d.precision] else s;
    if d.flags.left then t + Pad(' ', d.width - |t|) else Pad(' ', d.width - |t|) + t
  }

  /** A precision of zero does not shorten a string: it is right only for blanks that the width makes up for. */
  lemma StringExactly(d: Field)
    requires d.precision >= 0
    ensures StringText(d) == StandardString(d) <==> d.precision > 0 || (Blank(TextArg(d.args)) && |TextArg(d.args)| <= Max(d.width, 0))
  {
    var s := TextArg(d.args);
    if d.precision == 0 {
      assert StandardString(d) == Pad(' ', d.width);
      assert |StringText(d)| == Max(d.width, |s|) && |Pad(' ', d.width)| == Max(d.width, 0);
      if StringText(d) == StandardString(d) { InField(d, s); }
    }
  }

  lemma InField(d: Field, s: string)
    requires s == TextArg(d.args) && d.precision == 0 && StringText(d) == Pad(' ', d.width)
    ensures Blank(s)
  {
    var n := if d.flags.left then 0 else |Pad(' ', d.width - |s|)|;
    forall i | 0 <= i < |s| ensures s[i] == ' ' { assert StringText(d)[n + i] == s[i]; }
  }

  // ----- reading a number back

  function SkipBlanks(s: string): string
    decreases |s|
  {
    if s != "" && s[0] == ' ' then SkipBlanks(s[1..]) else s
  }

  function SkipSign(s: string): string { if s != "" && (s[0] == '-' || s[0] == '+') then s[1..] else s }

  /** The leading digits. */
  function Run(s: string, b: nat): string
    decreases |s|
  {
    if s != "" && 0 <= DigitValue(s[0]) < b then [s[0]] + Run(s[1..], b) else ""
  }

  /** Blanks, a sign, digits: what a reader makes of a number. */
  function Read(s: string, b: nat): int {
    var t := SkipBlanks(s);
    var v := Value(Run(SkipSign(t), b), b);
    if t != "" && t[0] == '-' then -v else v
  }

  lemma {:induction false} SkipPad(n: int, s: string)
    ensures SkipBlanks(Pad(' ', n) + s) == SkipBlanks(s)
    decreases n
  {
    if n > 0 {
      assert (Pad(' ', n) + s)[1..] == Pad(' ', n - 1) + s;
      SkipPad(n - 1, s);
    } else {
      assert Pad(' ', n) + s == s;
    }
  }

  lemma {:induction false} RunOf(s: string, t: string, b: nat)
    requires Readable(s, b) && (t == "" || !(0 <= DigitValue(t[0]) < b))
    ensures Run(s + t, b) == s
    decreases |s|
  {
    if s == "" {
      assert s + t == t;
    } else {
      assert (s + t)[1..] == s[1..] + t;
      RunOf(s[1..], t, b);
    }
  }

  lemma {:induction false} ZerosInFront(n: int, s: string, b: nat)
    requires b > 0
    ensures Value(Pad('0', n) + s, b) == Value(s, b)
    decreases |s|, n
  {
    var z := Pad('0', n);
    if s != "" {
      assert (z + s)[..|z + s| - 1] == z + s[..|s| - 1];
      ZerosInFront(n, s[..|s| - 1], b);
    } else if n > 0 {
      assert (z + s)[..|z + s| - 1] == Pad('0', n - 1) + "";
      ZerosInFront(n - 1, "", b);
    }
  }

  /** What print_number was asked to print: the number, or what it is as an unsigned long. */
  function Meaning(num: int, f: Flags): int { if f.sign && num < 0 then 0 - Magnitude(num, f) else Magnitude(num, f) }

  /** Blanks, sign, zeros, digits, blanks. */
  lemma FieldReads(text: string, lead: int, sign: string, zeros: int, ds: string, trail: int, b: nat)
    requires text == Pad(' ', lead) + (sign + (Pad('0', zeros) + ds + Pad(' ', trail)))
    requires 2 <= b <= 16 && Readable(ds, b) && ds != "" && (sign == "" || sign == "-" || sign == "+" || sign == " ")
    ensures Read(text, b) == if sign == "-" then -Value(ds, b) else Value(ds, b)
  {
    var tail := Pad('0', zeros) + ds + Pad(' ', trail);
    SkipPad(lead, sign + tail);
    SignedTail(sign, tail, b);
    RunOf(Pad('0', zeros) + ds, Pad(' ', trail), b);
    ZerosInFront(zeros, ds, b);
  }

  /** The pieces of a field with the default precision, put together the other way. */
  lemma FieldIs(ds: string, room: int, sign: string, zeroPad: bool, left: bool)
    requires !(zeroPad && left)
    ensures FrontText(room, sign, zeroPad, left) + TailText(ds, -1, if left then room - |sign| else -1) ==
              Pad(' ', if left || zeroPad then 0 else room - |sign|)
              + (sign + (Pad('0', if zeroPad then room - |sign| else 0) + ds + Pad(' ', if left then room - |sign| else 0)))
  {
  }

  /** The widths of the three pads of a field. */
  function Lead(room: int, sign: string, f: Flags): int { if f.left || f.zeroPad then 0 else room - |sign| }

  function Zeros(room: int, sign: string, f: Flags): int { if f.zeroPad && !f.left then room - |sign| else 0 }

  function Trail(room: int, sign: string, f: Flags): int { if f.left then room - |sign| else 0 }

  lemma NumberIs(num: int, base: int, width: int, f: Flags)
    ensures var ds, sign := Digits(Magnitude(num, f), base, f.large), SignText(num, f);
            var room := width - |ds|;
            NumberText(num, base, width, -1, f) ==
              Pad(' ', Lead(room, sign, f)) + (sign + (Pad('0', Zeros(room, sign, f)) + ds + Pad(' ', Trail(room, sign, f))))
  {
    var ds := Digits(Magnitude(num, f), base, f.large);
    FieldIs(ds, width - |ds|, SignText(num, f), f.zeroPad && !f.left, f.left);
  }

  lemma MeaningIs(num: int, f: Flags)
    ensures Meaning(num, f) == if SignText(num, f) == "-" then 0 - Magnitude(num, f) else Magnitude(num, f)
  {
  }

  /** With the default precision, in base ten and sixteen, the text reads back as the number, whatever
      the width and the flags. */
  lemma NumberReadsBack(num: int, base: int, width: int, f: Flags)
    requires base == 10 || base == 16
    ensures Read(NumberText(num, base, width, -1, f), base) == Meaning(num, f)
  {
    DigitsRead(Magnitude(num, f), base, f.large);
    FieldReadsBack(num, base, width, f);
  }

  lemma FieldReadsBack(num: int, base: int, width: int, f: Flags)
    requires 2 <= base <= 16
    requires var ds := Digits(Magnitude(num, f), base, f.large); Readable(ds, base) && ds != "" && Value(ds, base) == Magnitude(num, f)
    ensures Read(NumberText(num, base, width, -1, f), base) == Meaning(num, f)
  {
    var ds, sign := Digits(Magnitude(num, f), base, f.large), SignText(num, f);
    var room := width - |ds|;
    NumberIs(num, base, width, f);
    MeaningIs(num, f);
    FieldReads(NumberText(num, base, width, -1, f), Lead(room, sign, f), sign, Zeros(room, sign, f), ds, Trail(room, sign, f), base);
  }

  /** Skipping blanks and sign arrives at the digits. */
  lemma SignedTail(sign: string, tail: string, b: nat)
    requires sign == "" || sign == "-" || sign == "+" || sign == " "
    requires tail != "" && 0 <= DigitValue(tail[0])
    ensures var t := SkipBlanks(sign + tail);
      SkipSign(t) == tail && (t != "" && t[0] == '-' <==> sign == "-")
  {
    if sign == "" { assert sign + tail == tail; } else { assert (sign + tail)[1..] == tail; }
  }

  /** The numbers %d and %u print are the values of their arguments. */
  lemma SignedMeaning(num: int, f: Flags)
    requires -0x8000_0000 <= num < WRAP
    ensures f.sign && num < 0x8000_0000 ==> Meaning(num, f) == num
    ensures !f.sign && num >= 0 ==> Meaning(num, f) == num
  {
  }
}
