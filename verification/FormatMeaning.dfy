/** What format strings mean: each directive, written with any flags, width, precision and qualifier, shows the next
    argument as its letter says. */
module FormatMeaning {
  import opened Arithmetic
  import opened FormatSpec
  import opened FormatTheorems

  // ----- directives as they are written

  datatype Count = Default | Given(text: string) | Star

  datatype Directive = Directive(flags: string, width: Count, dotted: bool, precision: Count, qualifier: string, letter: char)

  /** Ordinary text, or a directive behind its percent sign. */
  datatype Piece = Plain(text: string) | Conversion(d: Directive)

  predicate IsFlag(c: char) { c == '-' || c == '+' || c == ' ' || c == '#' || c == '0' }

  /** Nothing that could still belong to flags, width, precision or qualifier. */
  predicate IsLetter(c: char) { !IsFlag(c) && !IsDigit(c) && c != '*' && c != '.' && c != 'h' && c != 'l' }

  predicate IsCount(c: Count) { c.Given? ==> Readable(c.text, 10) && c.text != "" }

  predicate IsQualifier(q: string) { q == "" || q == "h" || q == "l" }

  predicate WellFormed(d: Directive) {
    && (forall i :: 0 <= i < |d.flags| ==> IsFlag(d.flags[i]))
    && IsCount(d.width) && (d.width.Given? ==> d.width.text[0] != '0')
    && IsCount(d.precision) && (!d.dotted ==> d.precision.Default?)
    && IsQualifier(d.qualifier)
    && IsLetter(d.letter)
  }

  function CountText(c: Count): string {
    match c
    case Default => ""
    case Given(text) => text
    case Star => "*"
  }

  function DotText(d: Directive): string { if d.dotted then "." + CountText(d.precision) else "" }

  /** All of it but percent sign and letter. */
  function Modifiers(d: Directive): string { d.flags + (CountText(d.width) + (DotText(d) + d.qualifier)) }

  // ----- what it asks for

  /** The arguments, taken one after the other as int or char *. */
  function IntAt(args: seq<Arg>, i: nat): int { if i < |args| && args[i].Number? then args[i].value else 0 }

  function TextAt(args: seq<Arg>, i: nat): string { if i < |args| && args[i].Text? then args[i].s else "(NULL)" }

  function From(args: seq<Arg>, i: nat): seq<Arg> { if i <= |args| then args[i..] else [] }

  function WidthStars(d: Directive): nat { if d.width.Star? then 1 else 0 }

  /** The place of its own argument: behind those of the stars. */
  function Own(d: Directive): nat { WidthStars(d) + if d.precision.Star? then 1 else 0 }

  predicate TakesOne(letter: char) { letter in {'c', 's', 'p', 'o', 'x', 'X', 'd', 'i', 'u'} }

  function Taken(d: Directive): nat { Own(d) + if TakesOne(d.letter) then 1 else 0 }

  /** -1 if none is given. */
  function Width(d: Directive, args: seq<Arg>): int {
    match d.width
    case Default => -1
    case Given(text) => Value(text, 10)
    case Star => if IntAt(args, 0) < 0 then -IntAt(args, 0) else IntAt(args, 0)
  }

  predicate ToLeft(d: Directive, args: seq<Arg>) { '-' in d.flags || (d.width.Star? && IntAt(args, 0) < 0) }

  /** -1 if there is no point, and nothing or less behind it counts as zero. */
  function Precision(d: Directive, args: seq<Arg>): int {
    if !d.dotted then -1
    else
      match d.precision
      case Default => 0
      case Given(text) => Value(text, 10)
      case Star => Max(IntAt(args, WidthStars(d)), 0)
  }

  // ----- reading it

  function WithFlag(f: Flags, c: char): Flags {
    f.(zeroPad := f.zeroPad || c == '0', plus := f.plus || c == '+', space := f.space || c == ' ',
       left := f.left || c == '-', special := f.special || c == '#')
  }

  lemma FlagStep(s: string, f: Flags)
    requires s != "" && IsFlag(s[0])
    ensures ParseFlags(s, f) == ParseFlags(s[1..], WithFlag(f, s[0]))
  {
  }

  lemma InFront(s: string, x: char)
    requires s != ""
    ensures x in s <==> x == s[0] || x in s[1..]
  {
    assert s == [s[0]] + s[1..];
  }

  lemma {:induction false} FlagsRead(fs: string, tail: string, f: Flags)
    requires forall i :: 0 <= i < |fs| ==> IsFlag(fs[i])
    requires tail == "" || !IsFlag(tail[0])
    ensures ParseFlags(fs + tail, f) ==
              (Flags(f.zeroPad || '0' in fs, f.sign, f.plus || '+' in fs, f.space || ' ' in fs, f.left || '-' in fs,
                     f.special || '#' in fs, f.large), tail)
    decreases |fs|
  {
    if fs == "" {
      assert fs + tail == tail;
    } else {
      assert (fs + tail)[0] == fs[0] && (fs + tail)[1..] == fs[1..] + tail;
      FlagStep(fs + tail, f);
      FlagsRead(fs[1..], tail, WithFlag(f, fs[0]));
      InFront(fs, '0');
      InFront(fs, '+');
      InFront(fs, ' ');
      InFront(fs, '-');
      InFront(fs, '#');
    }
  }

  lemma DigitsAre(s: string)
    ensures Readable(s, 10) <==> forall i :: 0 <= i < |s| ==> IsDigit(s[i])
  {
    forall i | 0 <= i < |s| ensures 0 <= DigitValue(s[i]) < 10 <==> IsDigit(s[i]) {}
  }

  lemma AtoiStep(s: string, i: nat)
    requires s != "" && IsDigit(s[0])
    ensures 0 <= 10 * i + DigitValue(s[0]) && Atoi(s, i) == Atoi(s[1..], 10 * i + DigitValue(s[0]))
  {
  }

  /** skip_atoi goes on from the value of the digits in front. */
  lemma {:induction false} AtoiReads(front: string, s: string, tail: string)
    requires Readable(front, 10) && Readable(s, 10) && (tail == "" || !IsDigit(tail[0]))
    ensures 0 <= Value(front, 10) && 0 <= Value(front + s, 10) && Atoi(s + tail, Value(front, 10)) == (Value(front + s, 10), tail)
    decreases |s|
  {
    Positively(front);
    DigitsAre(s);
    if s == "" {
      assert s + tail == tail && front + s == front;
    } else {
      assert (s + tail)[0] == s[0] && (s + tail)[1..] == s[1..] + tail;
      assert front + s == (front + [s[0]]) + s[1..];
      Appended(front, s[0], 10);
      AtoiStep(s + tail, Value(front, 10));
      AtoiReads(front + [s[0]], s[1..], tail);
    }
  }

  lemma {:induction false} Positively(s: string)
    requires Readable(s, 10)
    ensures Value(s, 10) >= 0
    decreases |s|
  {
    if s != "" { Positively(s[..|s| - 1]); }
  }

  lemma Counted(s: string, tail: string)
    requires Readable(s, 10) && s != "" && (tail == "" || !IsDigit(tail[0]))
    ensures IsDigit((s + tail)[0]) && 0 <= Value(s, 10) && Atoi(s + tail, 0) == (Value(s, 10), tail)
  {
    AtoiReads("", s, tail);
    DigitsAre(s);
    assert "" + s == s && Value("", 10) == 0;
  }

  lemma WidthRead(d: Directive, f: Flags, tail: string, args: seq<Arg>)
    requires IsCount(d.width) && (tail == "" || (!IsDigit(tail[0]) && tail[0] != '*'))
    ensures ParseWidth(Field(f, -1, -1, ' ', CountText(d.width) + tail, args)) ==
              Field(if d.width.Star? && IntAt(args, 0) < 0 then f.(left := true) else f, Width(d, args), -1, ' ', tail, From(args, WidthStars(d)))
  {
    CountRead(d.width, tail);
  }

  /** How a count begins tells its kind. */
  lemma CountRead(c: Count, tail: string)
    requires IsCount(c) && (tail == "" || (!IsDigit(tail[0]) && tail[0] != '*'))
    ensures var s := CountText(c) + tail;
      match c
      case Default => s == tail
      case Given(text) => s != "" && IsDigit(s[0]) && 0 <= Value(text, 10) && Atoi(s, 0) == (Value(text, 10), tail)
      case Star => s != "" && s[0] == '*' && s[1..] == tail
  {
    match c
    case Default => assert "" + tail == tail;
    case Given(text) => Counted(text, tail);
    case Star => assert ("*" + tail)[1..] == tail;
  }

  lemma PrecisionRead(d: Directive, f: Flags, w: int, tail: string, args: seq<Arg>)
    requires IsCount(d.precision) && (!d.dotted ==> d.precision.Default?)
    requires tail == "" || (!IsDigit(tail[0]) && tail[0] != '*' && tail[0] != '.')
    ensures ParsePrecision(Field(f, w, -1, ' ', DotText(d) + tail, From(args, WidthStars(d)))) ==
              Field(f, w, Precision(d, args), ' ', tail, From(args, Own(d)))
  {
    if d.dotted {
      var s := CountText(d.precision) + tail;
      assert DotText(d) + tail == "." + s && ("." + s)[1..] == s;
      CountRead(d.precision, tail);
    } else {
      assert DotText(d) + tail == tail;
    }
  }

  function QualifierOf(d: Directive): char { if d.qualifier == "" then ' ' else d.qualifier[0] }

  lemma QualifierRead(d: Directive, e: Field, tail: string)
    requires IsQualifier(d.qualifier) && (tail == "" || IsLetter(tail[0])) && e.qualifier == ' ' && e.rest == d.qualifier + tail
    ensures ParseQualifier(e) == e.(qualifier := QualifierOf(d), rest := tail)
  {
    if d.qualifier == "" { assert e.rest == tail; } else { assert e.rest[0] == d.qualifier[0] && e.rest[1..] == tail; }
  }

  function FieldOf(d: Directive, tail: string, args: seq<Arg>): Field {
    Field(Flags('0' in d.flags, false, '+' in d.flags, ' ' in d.flags, ToLeft(d, args), '#' in d.flags, false),
          Width(d, args), Precision(d, args), QualifierOf(d), tail, From(args, Own(d)))
  }

  /** Every part is read as it is written. */
  lemma ParseReads(d: Directive, tail: string, args: seq<Arg>)
    requires WellFormed(d) && (tail == "" || IsLetter(tail[0]))
    ensures Parse(Modifiers(d) + tail, args) == FieldOf(d, tail, args)
  {
    var s2 := d.qualifier + tail;
    var s1 := DotText(d) + s2;
    var s0 := CountText(d.width) + s1;
    assert Modifiers(d) + tail == d.flags + s0;
    StartsWell(d, tail);
    FlagsRead(d.flags, s0, NO_FLAGS);
    var f := Flags('0' in d.flags, false, '+' in d.flags, ' ' in d.flags, '-' in d.flags, '#' in d.flags, false);
    assert ParseFlags(Modifiers(d) + tail, NO_FLAGS) == (f, s0);
    RestRead(d, f, tail, args);
  }

  lemma RestRead(d: Directive, f: Flags, tail: string, args: seq<Arg>)
    requires WellFormed(d) && (tail == "" || IsLetter(tail[0]))
    requires f == Flags('0' in d.flags, false, '+' in d.flags, ' ' in d.flags, '-' in d.flags, '#' in d.flags, false)
    ensures ParseQualifier(ParsePrecision(ParseWidth(Field(f, -1, -1, ' ', CountText(d.width) + (DotText(d) + (d.qualifier + tail)), args))))
              == FieldOf(d, tail, args)
  {
    var s2 := d.qualifier + tail;
    StartsWell(d, tail);
    WidthRead(d, f, DotText(d) + s2, args);
    TailRead(d, if d.width.Star? && IntAt(args, 0) < 0 then f.(left := true) else f, Width(d, args), tail, args);
  }

  lemma TailRead(d: Directive, f: Flags, w: int, tail: string, args: seq<Arg>)
    requires IsCount(d.precision) && (!d.dotted ==> d.precision.Default?)
    requires IsQualifier(d.qualifier) && (tail == "" || IsLetter(tail[0]))
    ensures ParseQualifier(ParsePrecision(Field(f, w, -1, ' ', DotText(d) + (d.qualifier + tail), From(args, WidthStars(d)))))
              == Field(f, w, Precision(d, args), QualifierOf(d), tail, From(args, Own(d)))
  {
    var s2 := d.qualifier + tail;
    assert s2 == "" || s2[0] == (if d.qualifier == "" then tail[0] else d.qualifier[0]);
    PrecisionRead(d, f, w, s2, args);
    QualifierRead(d, Field(f, w, Precision(d, args), ' ', s2, From(args, Own(d))), tail);
  }

  /** No part can be taken for one in front of it. */
  lemma StartsWell(d: Directive, tail: string)
    requires WellFormed(d) && (tail == "" || IsLetter(tail[0]))
    ensures var s2 := d.qualifier + tail; s2 == "" || (!IsDigit(s2[0]) && !IsFlag(s2[0]) && s2[0] != '*' && s2[0] != '.')
    ensures var s1 := DotText(d) + (d.qualifier + tail); s1 == "" || (!IsDigit(s1[0]) && !IsFlag(s1[0]) && s1[0] != '*')
    ensures var s0 := CountText(d.width) + (DotText(d) + (d.qualifier + tail)); s0 == "" || !IsFlag(s0[0])
  {
    var s2 := d.qualifier + tail;
    var s1 := DotText(d) + s2;
    assert s2 == "" || s2[0] == (if d.qualifier == "" then tail[0] else d.qualifier[0]);
    assert s1 == "" || s1[0] == (if d.dotted then '.' else s2[0]);
    if d.width.Given? { DigitsAre(d.width.text); }
  }

  // ----- what it shows

  /** `x` is the value `v` cut to as many bits as `m` has, with a sign or without. */
  predicate Signed(x: int, v: int, m: nat) { m > 0 && 0 <= 2 * x + m < 2 * m && x % m == v % m }

  predicate Unsigned(x: int, v: int, m: nat) { 0 <= x < m && x == v % m }

  function Modulus(d: Directive): nat { if d.qualifier == "h" then 0x1_0000 else WRAP }

  /** `ds` are the digits of `u`: no zero in front, and letters of one case. */
  predicate Denotes(ds: string, u: int, b: nat, large: bool) {
    && Readable(ds, b) && Value(ds, b) == u && ds != "" && (u > 0 ==> ds[0] != '0') && (u == 0 ==> ds == "0")
    && forall i :: 0 <= i < |ds| ==> if large then !('a' <= ds[i] <= 'f') else !('A' <= ds[i] <= 'F')
  }

  /** Sign and digits in their field: at least `precision` digits, none if that is zero, and the room that is left
      filled with blanks on the side the flags say, or with zeros. */
  predicate Placed(t: string, sign: string, ds: string, width: int, precision: int, left: bool, zeros: bool) {
    Filled(t, sign, Pad('0', precision - |ds|) + (if precision == 0 then "" else ds), width - |sign| - Max(|ds|, precision), left, zeros)
  }

  predicate Filled(t: string, sign: string, number: string, room: int, left: bool, zeros: bool) {
    t == if left then sign + number + Pad(' ', room)
         else if zeros then sign + Pad('0', room) + number
         else Pad(' ', room) + sign + number
  }

  predicate Aligned(t: string, s: string, width: int, left: bool) {
    t == if left then s + Pad(' ', width - |s|) else Pad(' ', width - |s|) + s
  }

  function SignOf(d: Directive, x: int): string {
    if x < 0 then "-" else if '+' in d.flags then "+" else if ' ' in d.flags then " " else ""
  }

  predicate SignedAs(d: Directive, args: seq<Arg>, t: string, x: int, ds: string) {
    && Signed(x, IntAt(args, Own(d)), Modulus(d)) && Denotes(ds, if x < 0 then -x else x, 10, false)
    && Placed(t, SignOf(d, x), ds, Width(d, args), Precision(d, args), ToLeft(d, args), '0' in d.flags)
  }

  predicate UnsignedAs(d: Directive, args: seq<Arg>, t: string, b: nat, x: int, ds: string) {
    && Unsigned(x, IntAt(args, Own(d)), Modulus(d)) && Denotes(ds, x, b, d.letter == 'X')
    && Placed(t, "", ds, Width(d, args), Precision(d, args), ToLeft(d, args), '0' in d.flags)
  }

  /** Eight digits unless a width is given; a qualifier does not matter. */
  predicate PointerAs(d: Directive, args: seq<Arg>, t: string, x: int, ds: string) {
    && Unsigned(x, IntAt(args, Own(d)), WRAP) && Denotes(ds, x, 16, false)
    && Placed(t, "", ds, if Width(d, args) == -1 then 8 else Width(d, args), Precision(d, args), ToLeft(d, args),
              '0' in d.flags || Width(d, args) == -1)
  }

  ghost predicate ShowsSigned(d: Directive, args: seq<Arg>, t: string) { exists x, ds :: SignedAs(d, args, t, x, ds) }

  ghost predicate ShowsUnsigned(d: Directive, args: seq<Arg>, t: string, b: nat) { exists x, ds :: UnsignedAs(d, args, t, b, x, ds) }

  ghost predicate ShowsPointer(d: Directive, args: seq<Arg>, t: string) { exists x, ds :: PointerAs(d, args, t, x, ds) }

  /** A precision of zero does not cut. */
  function Shortened(s: string, precision: int): string { if 0 < precision < |s| then s[..precision] else s }

  /** What a directive shows, by its letter. Octal numbers come out in base sixteen. */
  ghost predicate Shows(d: Directive, args: seq<Arg>, t: string) {
    if d.letter == 'd' || d.letter == 'i' then ShowsSigned(d, args, t)
    else if d.letter == 'u' then ShowsUnsigned(d, args, t, 10)
    else if d.letter == 'x' || d.letter == 'X' || d.letter == 'o' then ShowsUnsigned(d, args, t, 16)
    else if d.letter == 'p' then ShowsPointer(d, args, t)
    else if d.letter == 'c' then Aligned(t, [(IntAt(args, Own(d)) % 0x100) as char], Width(d, args), ToLeft(d, args))
    else if d.letter == 's' then Aligned(t, Shortened(TextAt(args, Own(d)), Precision(d, args)), Width(d, args), ToLeft(d, args))
    else if d.letter == '%' then t == "%"
    else t == ['%', d.letter]
  }

  // ----- proofs, letter by letter

  lemma OwnIs(d: Directive, args: seq<Arg>)
    ensures NumberArg(From(args, Own(d))) == IntAt(args, Own(d)) && TextArg(From(args, Own(d))) == TextAt(args, Own(d))
    ensures Next(From(args, Own(d))) == From(args, Own(d) + 1)
  {
  }

  lemma FetchIs(e: Field, v: int, m: nat)
    requires v == NumberArg(e.args) && m == if e.qualifier == 'h' then 0x1_0000 else WRAP
    ensures Signed(Fetch(e, true), v, m) && Unsigned(Fetch(e, false), v, m)
  {
    if e.qualifier == 'h' { assert Fetch(e, true) % 0x1_0000 == v % 0x1_0000; } else { assert Fetch(e, true) % WRAP == v % WRAP; }
  }

  lemma DigitsDenote(u: nat, base: int, large: bool)
    ensures Denotes(Digits(u, base, large), u, Divisor(base), large)
  {
    if u == 0 {
      ZeroDenotes(Divisor(base), large);
    } else {
      PositiveDenotes(u, Divisor(base), large);
    }
  }

  lemma ZeroDenotes(b: nat, large: bool)
    requires 2 <= b <= 16
    ensures Denotes("0", 0, b, large)
  {
    assert "0"[..0] == "" && Value("", b) == 0;
  }

  lemma PositiveDenotes(u: nat, b: nat, large: bool)
    requires u > 0 && 2 <= b <= 16
    ensures Denotes(Positive(u, b, large), u, b, large)
  {
    PositiveReads(u, b, large);
    NoLeadingZero(u, b, large);
    OneCase(u, b, large);
    var ds := Positive(u, b, large);
    assert DigitValue('0') == 0;
    assert ds[0] != '0';
  }

  lemma {:induction false} OneCase(u: nat, b: nat, large: bool)
    requires 2 <= b <= 16
    ensures forall i :: 0 <= i < |Positive(u, b, large)| ==>
              var c := Positive(u, b, large)[i]; if large then !('a' <= c <= 'f') else !('A' <= c <= 'F')
    decreases u
  {
    if u > 0 {
      QuotientShrinks(u, b);
      DivMod(u, b);
      OneCase(u / b, b, large);
    }
  }

  lemma NumberPlaced(num: int, base: int, width: int, precision: int, f: Flags)
    ensures Placed(NumberText(num, base, width, precision, f), SignText(num, f), Digits(Magnitude(num, f), base, f.large), width, precision,
                   f.left, f.zeroPad)
  {
    PiecesPlaced(NumberText(num, base, width, precision, f), SignText(num, f), Digits(Magnitude(num, f), base, f.large), width, precision,
                 f.left, f.zeroPad);
  }

  lemma PiecesPlaced(t: string, sign: string, ds: string, width: int, precision: int, left: bool, zeros: bool)
    requires var room := width - Max(|ds|, precision);
             t == FrontText(room, sign, zeros && !left, left) + TailText(ds, precision, if left then room - |sign| else -1)
    ensures Placed(t, sign, ds, width, precision, left, zeros)
  {
    var room := width - |sign| - Max(|ds|, precision);
    var number := Pad('0', precision - |ds|) + if precision == 0 then "" else ds;
    TailIs(ds, precision, if left then room else -1);
    FrontIs(room + |sign|, sign, zeros, left);
    FrontAndTail(t, sign, number, room, left, zeros);
  }

  lemma FrontAndTail(t: string, sign: string, number: string, room: int, left: bool, zeros: bool)
    requires t == (if left then sign else if zeros then sign + Pad('0', room) else Pad(' ', room) + sign)
                  + (number + Pad(' ', if left then room else -1))
    ensures Filled(t, sign, number, room, left, zeros)
  {
    if left { assert sign + (number + Pad(' ', room)) == sign + number + Pad(' ', room); } else { assert number + "" == number; }
  }

  lemma TailIs(ds: string, precision: int, blanks: int)
    ensures TailText(ds, precision, blanks) == Pad('0', precision - |ds|) + (if precision == 0 then "" else ds) + Pad(' ', blanks)
  {
  }

  lemma FrontIs(room: int, sign: string, zeros: bool, left: bool)
    ensures FrontText(room, sign, zeros && !left, left) ==
              if left then sign else if zeros then sign + Pad('0', room - |sign|) else Pad(' ', room - |sign|) + sign
  {
    assert "" + sign == sign && sign + "" == sign;
  }

  lemma SignedShown(d: Directive, e: Field, args: seq<Arg>)
    requires WellFormed(d) && e == FieldOf(d, e.rest, args) && (d.letter == 'd' || d.letter == 'i')
    ensures ShowsSigned(d, args, NumberText(Fetch(e, true), 10, e.width, e.precision, e.flags.(sign := true)))
  {
    var x, f := Fetch(e, true), e.flags.(sign := true);
    FetchShown(d, e, args);
    var u := if x < 0 then -x else x;
    MagnitudeIs(x, f);
    var ds := NumberShows(x, u, 10, SignOf(d, x), e.width, e.precision, f);
    assert SignedAs(d, args, NumberText(x, 10, e.width, e.precision, f), x, ds);
  }

  lemma NumberShows(num: int, u: nat, base: int, sign: string, width: int, precision: int, f: Flags) returns (ds: string)
    requires u == Magnitude(num, f) && sign == SignText(num, f)
    ensures Denotes(ds, u, Divisor(base), f.large)
    ensures Placed(NumberText(num, base, width, precision, f), sign, ds, width, precision, f.left, f.zeroPad)
  {
    ds := Digits(u, base, f.large);
    DigitsDenote(u, base, f.large);
    NumberPlaced(num, base, width, precision, f);
  }


  lemma FetchShown(d: Directive, e: Field, args: seq<Arg>)
    requires WellFormed(d) && e == FieldOf(d, e.rest, args)
    ensures Signed(Fetch(e, true), IntAt(args, Own(d)), Modulus(d)) && Unsigned(Fetch(e, false), IntAt(args, Own(d)), Modulus(d))
    ensures Modulus(d) <= WRAP
  {
    OwnIs(d, args);
    FetchIs(e, IntAt(args, Own(d)), Modulus(d));
  }

  lemma MagnitudeIs(x: int, f: Flags)
    requires 0 < x + WRAP < 2 * WRAP
    ensures if x < 0 then f.sign ==> Magnitude(x, f) == 0 - x else Magnitude(x, f) == x
  {
  }


  lemma UnsignedShown(d: Directive, e: Field, args: seq<Arg>, base: int)
    requires WellFormed(d) && e == FieldOf(d, e.rest, args)
    ensures ShowsUnsigned(d, args, NumberText(Fetch(e, false), base, e.width, e.precision, e.flags.(large := d.letter == 'X')), Divisor(base))
  {
    var x, f := Fetch(e, false), e.flags.(large := d.letter == 'X');
    FetchShown(d, e, args);
    MagnitudeIs(x, f);
    var ds := NumberShows(x, x, base, "", e.width, e.precision, f);
    assert UnsignedAs(d, args, NumberText(x, base, e.width, e.precision, f), Divisor(base), x, ds);
  }

  lemma PointerShown(d: Directive, e: Field, args: seq<Arg>, width: int, f: Flags)
    requires WellFormed(d) && e == FieldOf(d, e.rest, args)
    requires width == (if e.width == -1 then 8 else e.width) && f == if e.width == -1 then e.flags.(zeroPad := true) else e.flags
    ensures ShowsPointer(d, args, NumberText(Fetch(e.(qualifier := 'l'), false), 16, width, e.precision, f))
  {
    var x := Fetch(e.(qualifier := 'l'), false);
    OwnIs(d, args);
    FetchIs(e.(qualifier := 'l'), IntAt(args, Own(d)), WRAP);
    MagnitudeIs(x, f);
    var ds := NumberShows(x, x, 16, "", width, e.precision, f);
    assert PointerAs(d, args, NumberText(x, 16, width, e.precision, f), x, ds);
  }

  lemma TextShown(d: Directive, e: Field, args: seq<Arg>)
    requires WellFormed(d) && e == FieldOf(d, e.rest, args)
    ensures Aligned(CharText(e), [(IntAt(args, Own(d)) % 0x100) as char], Width(d, args), ToLeft(d, args))
    ensures Aligned(StringText(e), Shortened(TextAt(args, Own(d)), Precision(d, args)), Width(d, args), ToLeft(d, args))
  {
    OwnIs(d, args);
  }

  lemma UnsignedConversion(d: Directive, e: Field, args: seq<Arg>)
    requires WellFormed(d) && e == FieldOf(d, e.rest, args) && e.rest != "" && e.rest[0] == d.letter
    requires d.letter == 'u' || d.letter == 'x' || d.letter == 'X' || d.letter == 'o'
    ensures ShowsUnsigned(d, args, Convert(e).0, if d.letter == 'u' then 10 else 16) && Convert(e).1
  {
    var base := if d.letter == 'u' then 10 else if d.letter == 'o' then 8 else 16;
    UnsignedShown(d, e, args, base);
    UnsignedIs(e, d.letter, base);
  }

  lemma UnsignedIs(e: Field, letter: char, base: int)
    requires e.rest != "" && e.rest[0] == letter && !e.flags.large
    requires letter == 'u' || letter == 'x' || letter == 'X' || letter == 'o'
    requires base == if letter == 'u' then 10 else if letter == 'o' then 8 else 16
    ensures Convert(e) == (NumberText(Fetch(e, false), base, e.width, e.precision, e.flags.(large := letter == 'X')), true)
  {
    assert e.flags.(large := false) == e.flags;
  }

  lemma SignedIs(e: Field)
    requires e.rest != "" && (e.rest[0] == 'd' || e.rest[0] == 'i')
    ensures Convert(e) == (NumberText(Fetch(e, true), 10, e.width, e.precision, e.flags.(sign := true)), true)
  {
  }

  lemma ConversionShows(d: Directive, e: Field, args: seq<Arg>)
    requires WellFormed(d) && e == FieldOf(d, e.rest, args) && e.rest != "" && e.rest[0] == d.letter
    ensures Shows(d, args, Convert(e).0) && (Convert(e).1 <==> TakesOne(d.letter))
  {
    if d.letter == 'd' || d.letter == 'i' {
      SignedShown(d, e, args);
      SignedIs(e);
    } else if d.letter == 'u' || d.letter == 'x' || d.letter == 'X' || d.letter == 'o' {
      UnsignedConversion(d, e, args);
    } else if d.letter == 'p' {
      PointerShown(d, e, args, if e.width == -1 then 8 else e.width, if e.width == -1 then e.flags.(zeroPad := true) else e.flags);
    } else {
      TextShown(d, e, args);
    }
  }

  // ----- whole format strings

  lemma CharIsCopied(s: string, args: seq<Arg>)
    requires s != "" && s[0] != '%'
    ensures Format(s, args) == [s[0]] + Format(s[1..], args)
  {
  }

  lemma InFrontOf(text: string, all: string, more: string, rest: string)
    requires text != "" && all == [text[0]] + more && more == text[1..] + rest
    ensures all == text + rest
  {
  }

  /** Text without a percent sign is copied. */
  lemma {:induction false} TextIsCopied(text: string, rest: string, args: seq<Arg>)
    requires '%' !in text
    ensures Format(text + rest, args) == text + Format(rest, args)
    decreases |text|
  {
    if text == "" {
      assert text + rest == rest && text + Format(rest, args) == Format(rest, args);
    } else {
      var s := text + rest;
      assert s[0] == text[0] && s[1..] == text[1..] + rest && text[0] in text;
      CharIsCopied(s, args);
      TextIsCopied(text[1..], rest, args);
      InFrontOf(text, Format(s, args), Format(s[1..], args), Format(rest, args));
    }
  }

  /** A directive shows its argument, and the text behind it goes on with the next. */
  lemma DirectiveShows(d: Directive, rest: string, args: seq<Arg>)
    requires WellFormed(d)
    ensures exists t :: Shows(d, args, t) && Format("%" + Modifiers(d) + [d.letter] + rest, args) == t + Format(rest, From(args, Taken(d)))
  {
    var fmt, tail := "%" + Modifiers(d) + [d.letter] + rest, [d.letter] + rest;
    assert fmt[1..] == Modifiers(d) + tail;
    ParseReads(d, tail, args);
    var e := FieldOf(d, tail, args);
    ConversionShows(d, e, args);
    OwnIs(d, args);
    assert tail[1..] == rest;
    OneFormatted(fmt, e, args);
    var t := Convert(e).0;
    assert Shows(d, args, t) && Format(fmt, args) == t + Format(rest, From(args, Taken(d)));
  }

  lemma OneFormatted(fmt: string, e: Field, args: seq<Arg>)
    requires fmt != "" && fmt[0] == '%' && e == Parse(fmt[1..], args) && e.rest != ""
    ensures Format(fmt, args) == Convert(e).0 + Format(e.rest[1..], if Convert(e).1 then Next(e.args) else e.args)
  {
  }

  /** One that the string ends in the middle of leaves its percent sign. */
  lemma UnfinishedShows(d: Directive, args: seq<Arg>)
    requires WellFormed(d)
    ensures Format("%" + Modifiers(d), args) == "%"
  {
    assert ("%" + Modifiers(d))[1..] == Modifiers(d) + "";
    ParseReads(d, "", args);
    assert "%" + "" == "%";
  }

  predicate Proper(p: Piece) { if p.Plain? then '%' !in p.text else WellFormed(p.d) }

  function Written(ps: seq<Piece>): string
    decreases |ps|
  {
    if ps == [] then ""
    else (if ps[0].Plain? then ps[0].text else "%" + Modifiers(ps[0].d) + [ps[0].d.letter]) + Written(ps[1..])
  }

  /** `t` is made of what the pieces show, in order, each directive with the arguments that follow. */
  ghost predicate ShowsAll(ps: seq<Piece>, args: seq<Arg>, t: string)
    decreases |ps|
  {
    if ps == [] then t == ""
    else if ps[0].Plain? then ps[0].text <= t && ShowsAll(ps[1..], args, t[|ps[0].text|..])
    else exists k: nat :: k <= |t| && Shows(ps[0].d, args, t[..k]) && ShowsAll(ps[1..], From(args, Taken(ps[0].d)), t[k..])
  }

  /** The text of a format string is what its pieces show. */
  lemma {:induction false} FormatShows(ps: seq<Piece>, args: seq<Arg>)
    requires forall i :: 0 <= i < |ps| ==> Proper(ps[i])
    ensures ShowsAll(ps, args, Format(Written(ps), args))
    decreases |ps|
  {
    if ps != [] {
      var fmt, rest := Written(ps), Written(ps[1..]);
      assert Proper(ps[0]);
      if ps[0].Plain? {
        var text := ps[0].text;
        TextIsCopied(text, rest, args);
        FormatShows(ps[1..], args);
        assert Format(fmt, args)[|text|..] == Format(rest, args);
      } else {
        var d := ps[0].d;
        DirectiveShows(d, rest, args);
        var t :| Shows(d, args, t) && Format(fmt, args) == t + Format(rest, From(args, Taken(d)));
        FormatShows(ps[1..], From(args, Taken(d)));
        assert Format(fmt, args)[..|t|] == t && Format(fmt, args)[|t|..] == Format(rest, From(args, Taken(d)));
      }
    }
  }

  // ----- reading back

  /** What is placed in a field with some precision but zero reads back as sign and digits say. */
  lemma OtherWay(t: string, sign: string, ds: string, room: int, more: int, z: int, left: bool, zeros: bool)
    requires z == (if !left && zeros then Max(room, 0) else 0) + Max(more, 0)
    requires Filled(t, sign, Pad('0', more) + ds, room, left, zeros)
    ensures t == Pad(' ', if left || zeros then 0 else room) + (sign + (Pad('0', z) + ds + Pad(' ', if left then room else 0)))
  {
    if left {
      assert Pad('0', z) == Pad('0', more);
    } else if zeros {
      assert Pad('0', room) + Pad('0', more) == Pad('0', z);
      assert sign + Pad('0', room) + (Pad('0', more) + ds) == sign + ((Pad('0', room) + Pad('0', more)) + ds);
    } else {
      assert Pad('0', z) == Pad('0', more);
    }
  }

  lemma PlacedReads(t: string, sign: string, ds: string, width: int, precision: int, left: bool, zeros: bool, b: nat)
    requires Placed(t, sign, ds, width, precision, left, zeros) && precision != 0
    requires 2 <= b <= 16 && Readable(ds, b) && ds != "" && (sign == "" || sign == "-" || sign == "+" || sign == " ")
    ensures Read(t, b) == if sign == "-" then -Value(ds, b) else Value(ds, b)
  {
    var room := width - |sign| - Max(|ds|, precision);
    var more := precision - |ds|;
    var z := (if !left && zeros then Max(room, 0) else 0) + Max(more, 0);
    var lead, trail := if left || zeros then 0 else room, if left then room else 0;
    OtherWay(t, sign, ds, room, more, z, left, zeros);
    FieldReads(t, lead, sign, z, ds, trail, b);
  }

  /** With any precision but zero the text of an integer directive reads back as its argument: in base ten with a sign for
      d and i, without one for u, and in base sixteen for x, X and p. */
  lemma IntegersReadBack(d: Directive, args: seq<Arg>, t: string)
    requires WellFormed(d) && Shows(d, args, t) && Precision(d, args) != 0
    ensures d.letter == 'd' || d.letter == 'i' ==> Signed(Read(t, 10), IntAt(args, Own(d)), Modulus(d))
    ensures d.letter == 'u' ==> Unsigned(Read(t, 10), IntAt(args, Own(d)), Modulus(d))
    ensures d.letter == 'x' || d.letter == 'X' ==> Unsigned(Read(t, 16), IntAt(args, Own(d)), Modulus(d))
    ensures d.letter == 'p' ==> Unsigned(Read(t, 16), IntAt(args, Own(d)), WRAP)
  {
    if d.letter == 'd' || d.letter == 'i' {
      SignedReads(d, args, t);
    } else if d.letter == 'u' {
      UnsignedReads(d, args, t, 10);
    } else if d.letter == 'x' || d.letter == 'X' {
      UnsignedReads(d, args, t, 16);
    } else if d.letter == 'p' {
      PointerReads(d, args, t);
    }
  }

  lemma SignedReads(d: Directive, args: seq<Arg>, t: string)
    requires ShowsSigned(d, args, t) && Precision(d, args) != 0
    ensures Signed(Read(t, 10), IntAt(args, Own(d)), Modulus(d))
  {
    var x, ds :| SignedAs(d, args, t, x, ds);
    SignedAsReads(d, args, t, x, ds);
    var y := Read(t, 10);
    assert y == x;
  }

  lemma SignedAsReads(d: Directive, args: seq<Arg>, t: string, x: int, ds: string)
    requires SignedAs(d, args, t, x, ds) && Precision(d, args) != 0
    ensures Read(t, 10) == x
  {
    SignedReadsAs(t, x, SignOf(d, x), ds, Width(d, args), Precision(d, args), ToLeft(d, args), '0' in d.flags);
  }

  lemma SignedReadsAs(t: string, x: int, sign: string, ds: string, width: int, precision: int, left: bool, zeros: bool)
    requires Denotes(ds, if x < 0 then -x else x, 10, false) && Placed(t, sign, ds, width, precision, left, zeros) && precision != 0
    requires if x < 0 then sign == "-" else sign == "" || sign == "+" || sign == " "
    ensures Read(t, 10) == x
  {
    PlacedReads(t, sign, ds, width, precision, left, zeros, 10);
  }

  lemma UnsignedReads(d: Directive, args: seq<Arg>, t: string, b: nat)
    requires ShowsUnsigned(d, args, t, b) && Precision(d, args) != 0 && 2 <= b <= 16
    ensures Unsigned(Read(t, b), IntAt(args, Own(d)), Modulus(d))
  {
    var x, ds :| UnsignedAs(d, args, t, b, x, ds);
    PlacedReads(t, "", ds, Width(d, args), Precision(d, args), ToLeft(d, args), '0' in d.flags, b);
  }

  lemma PointerReads(d: Directive, args: seq<Arg>, t: string)
    requires ShowsPointer(d, args, t) && Precision(d, args) != 0
    ensures Unsigned(Read(t, 16), IntAt(args, Own(d)), WRAP)
  {
    var x, ds :| PointerAs(d, args, t, x, ds);
    PlacedReads(t, "", ds, if Width(d, args) == -1 then 8 else Width(d, args), Precision(d, args), ToLeft(d, args),
                '0' in d.flags || Width(d, args) == -1, 16);
  }
}
