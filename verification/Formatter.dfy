/** print_number and rt_vsnprintf (kservice.c) writing into a buffer of bounded size. */
module Formatters {
  import opened Arithmetic
  import opened FormatSpec
  import opened FormatTheorems

  function Backwards(s: seq<char>): string { if s == [] then "" else Backwards(s[1..]) + [s[0]] }

  lemma {:induction false} BackwardsSnoc(s: seq<char>, c: char)
    ensures Backwards(s + [c]) == [c] + Backwards(s)
    decreases |s|
  {
    if s == [] {
      assert [] + [c] == [c] && [c][1..] == [];
    } else {
      assert (s + [c])[1..] == s[1..] + [c];
      BackwardsSnoc(s[1..], c);
      assert ([c] + Backwards(s[1..])) + [s[0]] == [c] + (Backwards(s[1..]) + [s[0]]);
    }
  }

  /** One turn of the conversion moves a digit over. */
  lemma DigitStep(u: nat, b: nat, large: bool, s: seq<char>)
    requires u > 0 && 2 <= b <= 16
    ensures Positive(u / b, b, large) + Backwards(s + [Digit(u % b, large)]) == Positive(u, b, large) + Backwards(s)
    ensures |Positive(u / b, b, large)| + 1 == |Positive(u, b, large)|
  {
    var front, d := Positive(u / b, b, large), Digit(u % b, large);
    BackwardsSnoc(s, d);
    assert (front + [d]) + Backwards(s) == front + ([d] + Backwards(s));
  }

  class Formatter {
    const buf: array<char>
    const size: nat
    var str: nat             // distance of str from buf
    ghost var out: string    // all that was emitted, stored or not

    /** What is emitted is stored as far as it fits. */
    ghost predicate Valid()
      reads this, buf
    {
      size <= buf.Length && str == |out| && forall i :: 0 <= i < str && i < size ==> buf[i] == out[i]
    }

    /** Nothing behind the text or the end of the buffer is written. */
    twostate predicate Inside()
      reads this, buf
    {
      forall i :: 0 <= i < buf.Length && (i >= size || i >= str) ==> buf[i] == old(buf[i])
    }

    constructor (target: array<char>, n: nat)
      requires n <= target.Length
      ensures Valid() && buf == target && size == n && out == ""
    {
      buf, size, str, out := target, n, 0, "";
    }

    method Put(c: char)
      requires Valid()
      modifies this, buf
      ensures Valid() && Inside() && out == old(out) + [c]
    {
      if str < size { buf[str] := c; }
      str := str + 1;
      out := out + [c];
    }

    /** while (n-- > 0) */
    method PutMany(c: char, n: int)
      requires Valid()
      modifies this, buf
      ensures Valid() && Inside() && out == old(out) + Pad(c, n)
    {
      var left := n;
      ghost var start := out;
      assert start + Pad(c, 0) == start;
      while left > 0
        invariant Valid() && Inside() && left <= n
        invariant out == start + Pad(c, if n <= 0 then 0 else if left < 0 then n else n - left)
        invariant n > 0 ==> left >= 0
      {
        assert Pad(c, n - left) + [c] == Pad(c, n - left + 1);
        Put(c);
        left := left - 1;
      }
    }

    /** The digits of a number, least significant first, in a buffer of sixteen. */
    method Convert(u0: nat, base: int, large: bool) returns (tmp: array<char>, i: nat)
      requires u0 < WRAP
      ensures fresh(tmp) && tmp.Length == 16 && i == |Digits(u0, base, large)| <= 10
      ensures Backwards(tmp[..i]) == Digits(u0, base, large)
    {
      tmp := new char[16];
      i := 0;
      DigitsFit(u0, base, large);
      if u0 == 0 {
        tmp[0] := '0';
        i := 1;
        assert tmp[..1] == ['0'] && ['0'][1..] == [];
      } else {
        var u: nat := u0;
        ghost var b := Divisor(base);
        assert tmp[..0] == [];
        while u != 0
          invariant i + |Positive(u, b, large)| == |Digits(u0, base, large)| <= 10
          invariant Positive(u, b, large) + Backwards(tmp[..i]) == Digits(u0, base, large)
          decreases u
        {
          DigitStep(u, b, large, tmp[..i]);
          ghost var back := tmp[..i];
          tmp[i] := Digit(u % Divisor(base), large);
          assert tmp[..i + 1] == back + [Digit(u % b, large)];
          i := i + 1;
          u := u / Divisor(base);
        }
      }
    }

    /** The digits come out of the buffer last first. */
    method PutDigits(tmp: array<char>, n: nat)
      requires Valid() && tmp != buf && n <= tmp.Length
      modifies this, buf
      ensures Valid() && Inside() && out == old(out) + Backwards(tmp[..n])
    {
      var i := n;
      ghost var start := out;
      while i > 0
        invariant Valid() && Inside() && 0 <= i <= n
        invariant out + Backwards(tmp[..i]) == start + Backwards(tmp[..n])
      {
        assert tmp[..i] == tmp[..i - 1] + [tmp[i - 1]];
        BackwardsSnoc(tmp[..i - 1], tmp[i - 1]);
        assert out + ([tmp[i - 1]] + Backwards(tmp[..i - 1])) == (out + [tmp[i - 1]]) + Backwards(tmp[..i - 1]);
        i := i - 1;
        Put(tmp[i]);
      }
      assert tmp[..0] == [] && out + "" == out;
    }

    /** What print_number emits in front of the digits; the room that is left to the right of them. */
    method PutFront(r0: int, sign: string, zeroPad: bool, left: bool) returns (room: int)
      requires Valid() && |sign| <= 1 && !(zeroPad && left)
      modifies this, buf
      ensures Valid() && Inside() && out == old(out) + FrontText(r0, sign, zeroPad, left)
      ensures room == if left then r0 - |sign| else -1
    {
      room := r0;
      if !(zeroPad || left) {
        if sign != "" && room > 0 { room := room - 1; }
        PutMany(' ', room);
        room := -1;
      }
      if sign != "" {
        Put(sign[0]);
        room := room - 1;
      }
      if !left {
        PutMany(if zeroPad then '0' else ' ', room);
        room := -1;
      }
      assert sign != "" ==> sign == [sign[0]];
    }

    /** The rest of print_number. */
    method PutTail(tmp: array<char>, i: nat, precision: int, room: int)
      requires Valid() && tmp != buf && i <= tmp.Length
      modifies this, buf
      ensures Valid() && Inside() && out == old(out) + TailText(Backwards(tmp[..i]), precision, room)
    {
      BackwardsLength(tmp[..i]);
      ghost var ds := Backwards(tmp[..i]);
      var digits := if i > precision then i else precision;
      PutMany('0', digits - i);
      if precision != 0 { PutDigits(tmp, i); }
      PutMany(' ', room);
      assert out == old(out) + (Pad('0', digits - i) + (if precision == 0 then "" else ds) + Pad(' ', room));
    }

    method PutField(tmp: array<char>, i: nat, width: int, precision: int, sign: string, zeroPad: bool, left: bool)
      requires Valid() && tmp != buf && i <= tmp.Length && |sign| <= 1 && !(zeroPad && left)
      modifies this, buf
      ensures Valid() && Inside()
      ensures var room := width - Max(i, precision);
        out == old(out) + FrontText(room, sign, zeroPad, left) + TailText(Backwards(tmp[..i]), precision, if left then room - |sign| else -1)
    {
      var room := PutFront(width - (if i > precision then i else precision), sign, zeroPad, left);
      PutTail(tmp, i, precision, room);
    }

    /** print_number */
    method PrintNumber(num: int, base: int, width: int, precision: int, f: Flags)
      requires Valid()
      modifies this, buf
      ensures Valid() && Inside() && out == old(out) + NumberText(num, base, width, precision, f)
    {
      ghost var start := out;
      var tmp, i := Convert(Magnitude(num, f), base, f.large);
      PutField(tmp, i, width, precision, SignText(num, f), f.zeroPad && !f.left, f.left);
      Together(start, out, num, base, width, precision, f);
    }

    lemma Together(start: string, end: string, num: int, base: int, width: int, precision: int, f: Flags)
      requires var ds, sign := Digits(Magnitude(num, f), base, f.large), SignText(num, f);
        var room := width - Max(|ds|, precision);
        end == start + FrontText(room, sign, f.zeroPad && !f.left, f.left) + TailText(ds, precision, if f.left then room - |sign| else -1)
      ensures end == start + NumberText(num, base, width, precision, f)
    {
    }

    lemma BackwardsLength(s: seq<char>)
      ensures |Backwards(s)| == |s|
      decreases |s|
    {
      if s != [] { BackwardsLength(s[1..]); }
    }

    // ----- reading a directive

    /** skip_atoi */
    method SkipAtoi(fmt: string, at: nat) returns (value: nat, next: nat)
      requires at <= |fmt|
      ensures at <= next <= |fmt| && (value, fmt[next..]) == Atoi(fmt[at..], 0)
    {
      value, next := 0, at;
      while next < |fmt| && IsDigit(fmt[next])
        invariant at <= next <= |fmt| && Atoi(fmt[next..], value) == Atoi(fmt[at..], 0)
      {
        value := value * 10 + (fmt[next] as int - '0' as int);
        next := next + 1;
      }
    }

    /** The flag loop. */
    method ReadFlags(fmt: string, at: nat) returns (f: Flags, next: nat)
      requires at <= |fmt|
      ensures at <= next <= |fmt| && (f, fmt[next..]) == ParseFlags(fmt[at..], NO_FLAGS)
    {
      f, next := NO_FLAGS, at;
      while next < |fmt|
        invariant at <= next <= |fmt| && ParseFlags(fmt[next..], f) == ParseFlags(fmt[at..], NO_FLAGS)
      {
        var c := fmt[next];
        if c == '-' { f := f.(left := true); }
        else if c == '+' { f := f.(plus := true); }
        else if c == ' ' { f := f.(space := true); }
        else if c == '#' { f := f.(special := true); }
        else if c == '0' { f := f.(zeroPad := true); }
        else { return; }
        next := next + 1;
      }
    }

    method ReadWidth(fmt: string, at: nat, d: Field) returns (r: Field, next: nat)
      requires at <= |fmt| && d.rest == fmt[at..]
      ensures at <= next <= |fmt| && r == ParseWidth(d) && r.rest == fmt[next..]
    {
      r, next := d.(width := -1), at;
      if at < |fmt| && IsDigit(fmt[at]) {
        var w;
        w, next := SkipAtoi(fmt, at);
        r := d.(width := w, rest := fmt[next..]);
      } else if at < |fmt| && fmt[at] == '*' {
        next := at + 1;
        var w := NumberArg(d.args);
        r := d.(width := w, rest := fmt[next..], args := Next(d.args));
        if w < 0 { r := r.(width := -w, flags := d.flags.(left := true)); }
      }
    }

    method ReadPrecision(fmt: string, at: nat, d: Field) returns (r: Field, next: nat)
      requires at <= |fmt| && d.rest == fmt[at..]
      ensures at <= next <= |fmt| && r == ParsePrecision(d) && r.rest == fmt[next..]
    {
      r, next := d.(precision := -1), at;
      if at < |fmt| && fmt[at] == '.' {
        next := at + 1;
        assert d.rest[1..] == fmt[next..];
        var p := -1;
        var args := d.args;
        if next < |fmt| && IsDigit(fmt[next]) {
          p, next := SkipAtoi(fmt, next);
        } else if next < |fmt| && fmt[next] == '*' {
          next := next + 1;
          p := NumberArg(args);
          args := Next(args);
        }
        if p < 0 { p := 0; }
        r := d.(precision := p, rest := fmt[next..], args := args);
      }
    }

    method ReadDirective(fmt: string, at: nat, args: seq<Arg>) returns (d: Field, next: nat)
      requires at <= |fmt|
      ensures at <= next <= |fmt| && d == Parse(fmt[at..], args) && d.rest == fmt[next..]
    {
      var f;
      f, next := ReadFlags(fmt, at);
      d, next := ReadWidth(fmt, next, Field(f, -1, -1, ' ', fmt[next..], args));
      d, next := ReadPrecision(fmt, next, d);
      if next < |fmt| && (fmt[next] == 'h' || fmt[next] == 'l') {
        d := d.(qualifier := fmt[next], rest := fmt[next + 1..]);
        next := next + 1;
      }
    }

    // ----- conversions

    method PutChar(d: Field)
      requires Valid()
      modifies this, buf
      ensures Valid() && Inside() && out == old(out) + CharText(d)
    {
      var fieldWidth := d.width;
      if !d.flags.left {
        PutMany(' ', fieldWidth - 1);
        fieldWidth := 0;
      }
      Put((NumberArg(d.args) % 0x100) as char);
      PutMany(' ', fieldWidth - 1);
    }

    method PutString(d: Field)
      requires Valid()
      modifies this, buf
      ensures Valid() && Inside() && out == old(out) + StringText(d)
    {
      var s := TextArg(d.args);
      var len := |s|;
      if d.precision > 0 && len > d.precision { len := d.precision; }
      ghost var t := if 0 < d.precision < |s| then s[..d.precision] else s;
      assert t == s[..len];
      var fieldWidth := d.width;
      if !d.flags.left {
        PutMany(' ', fieldWidth - len);
        fieldWidth := len - 1;
      }
      PutPrefix(s, len);
      PutMany(' ', fieldWidth - len);
    }

    method PutPrefix(s: string, len: nat)
      requires Valid() && len <= |s|
      modifies this, buf
      ensures Valid() && Inside() && out == old(out) + s[..len]
    {
      var i := 0;
      ghost var start := out;
      while i < len
        invariant Valid() && Inside() && 0 <= i <= len && out == start + s[..i]
      {
        assert s[..i + 1] == s[..i] + [s[i]];
        Put(s[i]);
        i := i + 1;
      }
    }

    /** The switch over the conversion character; whether it takes an argument. */
    method PutConversion(d: Field) returns (used: bool)
      requires Valid() && d.rest != ""
      modifies this, buf
      ensures Valid() && Inside() && out == old(out) + FormatSpec.Convert(d).0 && used == FormatSpec.Convert(d).1
    {
      var c := d.rest[0];
      used := true;
      if c == 'c' {
        PutChar(d);
      } else if c == 's' {
        PutString(d);
      } else if c == 'p' {
        if d.width == -1 {
          PrintNumber(Fetch(d.(qualifier := 'l'), false), 16, POINTER_WIDTH, d.precision, d.flags.(zeroPad := true));
        } else {
          PrintNumber(Fetch(d.(qualifier := 'l'), false), 16, d.width, d.precision, d.flags);
        }
      } else {
        used := PutInteger(d);
      }
    }

    method PutInteger(d: Field) returns (used: bool)
      requires Valid() && d.rest != "" && d.rest[0] != 'c' && d.rest[0] != 's' && d.rest[0] != 'p'
      modifies this, buf
      ensures Valid() && Inside() && out == old(out) + FormatSpec.Convert(d).0 && used == FormatSpec.Convert(d).1
    {
      var c := d.rest[0];
      var base, f := 10, d.flags;
      if c == 'o' {
        base := 8;
      } else if c == 'X' {
        f := f.(large := true);
        base := 16;
      } else if c == 'x' {
        base := 16;
      } else if c == 'd' || c == 'i' {
        f := f.(sign := true);
      } else if c != 'u' {
        Put('%');
        if c != '%' { Put(c); }
        return false;
      }
      PrintNumber(Fetch(d, c == 'd' || c == 'i'), base, d.width, d.precision, f);
      return true;
    }

    /** The loop of rt_vsnprintf. */
    method PutFormat(fmt: string, args: seq<Arg>)
      requires Valid()
      modifies this, buf
      ensures Valid() && Inside() && out == old(out) + Format(fmt, args)
    {
      var i, left := 0, args;
      ghost var start := out;
      assert fmt[0..] == fmt;
      while i < |fmt|
        invariant Valid() && Inside() && 0 <= i <= |fmt|
        invariant out + Format(fmt[i..], left) == start + Format(fmt, args)
        decreases |fmt| - i
      {
        if fmt[i] != '%' {
          assert fmt[i..][1..] == fmt[i + 1..];
          StepOver(out, fmt[i..], left);
          Put(fmt[i]);
          i := i + 1;
        } else {
          assert fmt[i..][1..] == fmt[i + 1..];
          i, left := PutDirective(fmt, i, left);
        }
      }
      assert fmt[i..] == "" && out + "" == out;
    }

    lemma StepOver(text: string, s: string, args: seq<Arg>)
      requires s != "" && s[0] != '%'
      ensures text + Format(s, args) == (text + [s[0]]) + Format(s[1..], args)
    {
    }

    /** One directive, from its percent sign on. */
    method PutDirective(fmt: string, at: nat, args: seq<Arg>) returns (next: nat, left: seq<Arg>)
      requires Valid() && at < |fmt| && fmt[at] == '%'
      modifies this, buf
      ensures Valid() && Inside() && at < next <= |fmt| && |out| >= |old(out)|
      ensures out + Format(fmt[next..], left) == old(out) + Format(fmt[at..], args)
    {
      ghost var was := out;
      assert fmt[at..][1..] == fmt[at + 1..];
      var d;
      d, next := ReadDirective(fmt, at + 1, args);
      left := d.args;
      if next == |fmt| {
        assert d.rest == "";
        Put('%');
        assert fmt[next..] == "";
      } else {
        assert d.rest[0] == fmt[next] && d.rest[1..] == fmt[next + 1..];
        var used := PutConversion(d);
        if used { left := Next(d.args); }
        next := next + 1;
      }
      OneDirective(was, fmt[at..], args, d, fmt[next..], left);
    }

    lemma OneDirective(was: string, s: string, args: seq<Arg>, d: Field, rest: string, left: seq<Arg>)
      requires s != "" && s[0] == '%' && d == Parse(s[1..], args)
      requires rest == (if d.rest == "" then "" else d.rest[1..]) && left == if FormatSpec.Convert(d).1 then Next(d.args) else d.args
      ensures was + FormatSpec.Convert(d).0 + Format(rest, left) == was + Format(s, args)
    {
      var text := FormatSpec.Convert(d).0;
      assert was + text + Format(rest, left) == was + (text + Format(rest, left));
    }
  }

  /** The room for `size` characters at address `base`: an end behind the last address is moved there. */
  function Room(base: nat, size: nat): nat
    requires base < WRAP && size < WRAP
  {
    if base + size < WRAP then size else WRAP - 1 - base
  }

  /** rt_vsnprintf. What the formatted text is does not depend on the room, nor does the value returned; what is
      stored is as much of the text as fits in front of a NUL, and nothing behind it or behind the room is
      written. A room larger than the buffer takes a text that is not; every place the text reaches is then in
      front of both ends. */
  method Vsnprintf(target: array<char>, base: nat, size: nat, fmt: string, args: seq<Arg>) returns (len: nat)
    requires base < WRAP && size < WRAP
    requires Room(base, size) <= target.Length || |Format(fmt, args)| < target.Length
    modifies target
    ensures len == |Format(fmt, args)|
    ensures var n := Room(base, size);
            n > 0 ==>
              var k := if len < n then len else n - 1;
              k < target.Length && target[..k] == Format(fmt, args)[..k] && target[k] == '\0'
    ensures forall i :: 0 <= i < target.Length && (i >= Room(base, size) || i > len) ==> target[i] == old(target[i])
  {
    var n := if base + size < WRAP then size else WRAP - 1 - base;
    var w := new Formatter(target, if n < target.Length then n else target.Length);
    w.PutFormat(fmt, args);
    assert w.out == Format(fmt, args) by { assert "" + Format(fmt, args) == Format(fmt, args); }
    len := w.str;
    if n > 0 {
      if len < n { target[len] := '\0'; } else { target[n - 1] := '\0'; }
    }
  }

  /** rt_vsprintf: the whole text, if the buffer holds it. */
  method Vsprintf(target: array<char>, base: nat, fmt: string, args: seq<Arg>) returns (len: nat)
    requires base < WRAP && |Format(fmt, args)| < target.Length
    modifies target
    ensures len == |Format(fmt, args)|
    ensures len < Room(base, WRAP - 1) ==> target[..len] == Format(fmt, args) && target[len] == '\0'
    ensures forall i :: 0 <= i < target.Length && i > len ==> target[i] == old(target[i])
  {
    len := Vsnprintf(target, base, WRAP - 1, fmt, args);
  }
}
