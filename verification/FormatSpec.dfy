/** The text rt_vsnprintf produces (kservice.c), with no buffer in the way. */
module FormatSpec {
  import opened Arithmetic


  datatype Flags = Flags(zeroPad: bool, sign: bool, plus: bool, space: bool, left: bool, special: bool, large: bool)

  const NO_FLAGS := Flags(false, false, false, false, false, false, false)

  function Pad(c: char, n: int): string { if n <= 0 then [] else seq(n, _ => c) }

  function Max(a: int, b: int): int { if a > b then a else b }

  // ----- digits

  const SMALL_DIGITS: string := "0123456789abcdef"
  const LARGE_DIGITS: string := "0123456789ABCDEF"

  function Digit(d: nat, large: bool): char
    requires d < 16
  {
    if large then LARGE_DIGITS[d] else SMALL_DIGITS[d]
  }

  /** What `divide` divides by: every base other than ten counts as sixteen. */
  function Divisor(base: int): nat { if base == 10 then 10 else 16 }

  /** The digits of a positive number, most significant first. */
  function Positive(u: nat, b: nat, large: bool): string
    requires 2 <= b <= 16
    decreases u
  {
    if u == 0 then "" else Positive(u / b, b, large) + [Digit(u % b, large)]
  }

  function Digits(u: nat, base: int, large: bool): string { if u == 0 then "0" else Positive(u, Divisor(base), large) }

  // ----- print_number

  /** `num` as an unsigned long, its sign taken off if it is to be printed. */
  function Magnitude(num: int, f: Flags): nat { (if f.sign && num < 0 then -num else num) % WRAP }

  function SignText(num: int, f: Flags): string {
    if !f.sign then "" else if num < 0 then "-" else if f.plus then "+" else if f.space then " " else ""
  }

  /** In front of the digits: blanks, sign, zeros up to the width. `room` is what the digits leave. */
  function FrontText(room: int, sign: string, zeroPad: bool, left: bool): string {
    (if left || zeroPad then "" else Pad(' ', room - |sign|)) + sign + (if zeroPad then Pad('0', room - |sign|) else "")
  }

  /** Zeros up to the precision, the digits unless that is zero, and blanks. */
  function TailText(ds: string, precision: int, blanks: int): string {
    Pad('0', Max(|ds|, precision) - |ds|) + (if precision == 0 then "" else ds) + Pad(' ', blanks)
  }

  /** A number in its field. */
  function NumberText(num: int, base: int, width: int, precision: int, f: Flags): string {
    var ds, sign := Digits(Magnitude(num, f), base, f.large), SignText(num, f);
    var room := width - Max(|ds|, precision);
    FrontText(room, sign, f.zeroPad && !f.left, f.left) + TailText(ds, precision, if f.left then room - |sign| else -1)
  }

  // ----- directives

  /** The variable arguments, one by one. */
  datatype Arg = Number(value: int) | Text(s: string) | NullText

  function NumberArg(args: seq<Arg>): int { if args != [] && args[0].Number? then args[0].value else 0 }

  function TextArg(args: seq<Arg>): string { if args != [] && args[0].Text? then args[0].s else "(NULL)" }

  function Next(args: seq<Arg>): seq<Arg> { if args == [] then [] else args[1..] }

  predicate IsDigit(c: char) { '0' <= c <= '9' }

  /** skip_atoi */
  function Atoi(s: string, i: nat): (r: (nat, string))
    ensures |r.1| <= |s|
    decreases |s|
  {
    if s == "" || !IsDigit(s[0]) then (i, s) else Atoi(s[1..], i * 10 + (s[0] as int - '0' as int))
  }

  function ParseFlags(s: string, f: Flags): (r: (Flags, string))
    ensures |r.1| <= |s|
    decreases |s|
  {
    if s == "" then (f, s)
    else if s[0] == '-' then ParseFlags(s[1..], f.(left := true))
    else if s[0] == '+' then ParseFlags(s[1..], f.(plus := true))
    else if s[0] == ' ' then ParseFlags(s[1..], f.(space := true))
    else if s[0] == '#' then ParseFlags(s[1..], f.(special := true))
    else if s[0] == '0' then ParseFlags(s[1..], f.(zeroPad := true))
    else (f, s)
  }

  /** What is known of a directive as it is read. */
  datatype Field = Field(flags: Flags, width: int, precision: int, qualifier: char, rest: string, args: seq<Arg>)

  function ParseWidth(d: Field): (r: Field)
    ensures |r.rest| <= |d.rest|
  {
    if d.rest != "" && IsDigit(d.rest[0]) then
      var (w, rest) := Atoi(d.rest, 0);
      d.(width := w, rest := rest)
    else if d.rest != "" && d.rest[0] == '*' then
      var w := NumberArg(d.args);
      d.(width := if w < 0 then -w else w, flags := if w < 0 then d.flags.(left := true) else d.flags, rest := d.rest[1..], args := Next(d.args))
    else d.(width := -1)
  }

  function ParsePrecision(d: Field): (r: Field)
    ensures |r.rest| <= |d.rest|
  {
    if d.rest == "" || d.rest[0] != '.' then d.(precision := -1)
    else
      var s := d.rest[1..];
      if s != "" && IsDigit(s[0]) then
        var (p, rest) := Atoi(s, 0);
        d.(precision := p, rest := rest)
      else if s != "" && s[0] == '*' then
        var p := NumberArg(d.args);
        d.(precision := if p < 0 then 0 else p, rest := s[1..], args := Next(d.args))
      else d.(precision := 0, rest := s)
  }

  function ParseQualifier(d: Field): (r: Field)
    ensures |r.rest| <= |d.rest|
  {
    if d.rest != "" && (d.rest[0] == 'h' || d.rest[0] == 'l') then d.(qualifier := d.rest[0], rest := d.rest[1..]) else d
  }

  function Parse(s: string, args: seq<Arg>): (r: Field)
    ensures |r.rest| <= |s|
  {
    var (flags, rest) := ParseFlags(s, NO_FLAGS);
    ParseQualifier(ParsePrecision(ParseWidth(Field(flags, -1, -1, ' ', rest, args))))
  }

  /** The value a conversion prints, as a long: truncated to its width, and extended by its sign. */
  function Fetch(d: Field, signed: bool): int {
    var v := NumberArg(d.args);
    if d.qualifier == 'h' then
      var u := v % 0x1_0000;
      if signed && u >= 0x8000 then u - 0x1_0000 else u
    else
      var u := v % WRAP;
      if signed && u >= 0x8000_0000 then u - WRAP else u
  }

  function CharText(d: Field): string {
    var pad := Pad(' ', d.width - 1);
    var c := [(NumberArg(d.args) % 0x100) as char];
    if d.flags.left then c + pad else pad + c
  }

  function StringText(d: Field): string {
    var s := TextArg(d.args);
    var t := if 0 < d.precision < |s| then s[..d.precision] else s;
    var pad := Pad(' ', d.width - |t|);
    if d.flags.left then t + pad else pad + t
  }

  /** sizeof(void *) << 1 */
  const POINTER_WIDTH := 8

  /** The text of one directive; `used` is whether it takes an argument of its own. */
  function Convert(d: Field): (string, bool) {
    if d.rest == "" then ("%", false)
    else if d.rest[0] == 'c' then (CharText(d), true)
    else if d.rest[0] == 's' then (StringText(d), true)
    else if d.rest[0] == 'p' then
      if d.width == -1 then (NumberText(Fetch(d.(qualifier := 'l'), false), 16, POINTER_WIDTH, d.precision, d.flags.(zeroPad := true)), true)
      else (NumberText(Fetch(d.(qualifier := 'l'), false), 16, d.width, d.precision, d.flags), true)
    else if d.rest[0] == '%' then ("%", false)
    else if d.rest[0] == 'o' then (NumberText(Fetch(d, false), 8, d.width, d.precision, d.flags), true)
    else if d.rest[0] == 'X' then (NumberText(Fetch(d, false), 16, d.width, d.precision, d.flags.(large := true)), true)
    else if d.rest[0] == 'x' then (NumberText(Fetch(d, false), 16, d.width, d.precision, d.flags), true)
    else if d.rest[0] == 'd' || d.rest[0] == 'i' then (NumberText(Fetch(d, true), 10, d.width, d.precision, d.flags.(sign := true)), true)
    else if d.rest[0] == 'u' then (NumberText(Fetch(d, false), 10, d.width, d.precision, d.flags), true)
    else ("%" + [d.rest[0]], false)
  }

  /** The whole text. */
  function Format(fmt: string, args: seq<Arg>): string
    decreases |fmt|
  {
    if fmt == "" then ""
    else if fmt[0] != '%' then [fmt[0]] + Format(fmt[1..], args)
    else
      var d := Parse(fmt[1..], args);
      var (text, used) := Convert(d);
      text + Format(if d.rest == "" then "" else d.rest[1..], if used then Next(d.args) else d.args)
  }
}
