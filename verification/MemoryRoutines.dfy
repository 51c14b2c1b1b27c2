/** rt_memset, rt_memcpy and rt_memmove of kservice.c on one memory of bytes; addresses are indices, and the
    memory starts at a word boundary. A long has four bytes, the low one first. */
module MemoryRoutines {
  import opened Arithmetic
  import opened Sequences

  type Byte = x: nat | x < 256
  type Memory = seq<Byte>

  const WORD: nat := 4

  // ----- what the routines are for

  /** `n` bytes from `s` on are `d`. */
  function Filled(m: Memory, s: nat, n: nat, d: Byte): Memory
    requires s + n <= |m|
  {
    m[..s] + seq(n, _ => d) + m[s + n..]
  }

  /** One byte after the other, upwards. */
  function Forward(m: Memory, dst: nat, src: nat, n: nat): (r: Memory)
    requires dst + n <= |m| && src + n <= |m|
    ensures |r| == |m|
    decreases n
  {
    if n == 0 then m else Forward(m[dst := m[src]], dst + 1, src + 1, n - 1)
  }

  lemma {:induction false} ForwardSplit(m: Memory, dst: nat, src: nat, n: nat, k: nat)
    requires dst + n <= |m| && src + n <= |m| && k <= n
    ensures Forward(m, dst, src, n) == Forward(Forward(m, dst, src, k), dst + k, src + k, n - k)
    decreases n
  {
    if k > 0 { ForwardSplit(m[dst := m[src]], dst + 1, src + 1, n - 1, k - 1); }
  }

  /** Upwards every byte is read before it is overwritten unless the target starts inside the source. */
  lemma {:induction false} ForwardCopies(m: Memory, dst: nat, src: nat, n: nat)
    requires dst + n <= |m| && src + n <= |m| && (dst <= src || src + n <= dst)
    ensures Forward(m, dst, src, n) == Copied(m, dst, src, n)
    decreases n
  {
    if n > 0 {
      ForwardCopies(m[dst := m[src]], dst + 1, src + 1, n - 1);
      FirstThenRest(m, dst, src, n);
    }
  }

  lemma FirstThenRest(m: Memory, dst: nat, src: nat, n: nat)
    requires dst + n <= |m| && src + n <= |m| && (dst <= src || src + n <= dst) && n > 0
    ensures Copied(m[dst := m[src]], dst + 1, src + 1, n - 1) == Copied(m, dst, src, n)
  {
    var m' := m[dst := m[src]];
    assert m'[src + 1..src + n] == m[src + 1..src + n];
    assert m[src..src + n] == [m[src]] + m[src + 1..src + n];
    assert m'[..dst + 1] == m[..dst] + [m[src]] && m'[dst + n..] == m[dst + n..];
  }

  lemma {:induction false} ForwardFrame(m: Memory, dst: nat, src: nat, n: nat)
    requires dst + n <= |m| && src + n <= |m|
    ensures forall k :: 0 <= k < |m| && !(dst <= k < dst + n) ==> Forward(m, dst, src, n)[k] == m[k]
    decreases n
  {
    if n > 0 { ForwardFrame(m[dst := m[src]], dst + 1, src + 1, n - 1); }
  }

  /** What is read at place `i` is what the copies before it left. */
  lemma ForwardAt(m: Memory, dst: nat, src: nat, n: nat, i: nat)
    requires dst + n <= |m| && src + n <= |m| && i < n
    ensures Forward(m, dst, src, n)[dst + i] == Forward(m, dst, src, i)[src + i]
  {
    var mid := Forward(m, dst, src, i);
    var next := mid[dst + i := mid[src + i]];
    ForwardSplit(m, dst, src, n, i);
    ForwardFrame(next, dst + i + 1, src + i + 1, n - i - 1);
  }

  /** A target inside the source gets its first bytes over and over. */
  lemma {:induction false} ForwardRepeats(m: Memory, dst: nat, src: nat, n: nat, i: nat)
    requires src < dst && dst + n <= |m| && i < n
    ensures Forward(m, dst, src, n)[dst + i] == m[src + i % (dst - src)]
    decreases i
  {
    var g := dst - src;
    ForwardAt(m, dst, src, n, i);
    if i < g {
      ForwardFrame(m, dst, src, i);
      DivisionUnique(i, g, 0, i);
    } else {
      ForwardRepeats(m, dst, src, i, i - g);
      Wraps(i, g);
    }
  }

  lemma Wraps(i: nat, g: nat)
    requires 0 < g <= i
    ensures i % g == (i - g) % g
  {
    var q, r := (i - g) / g, (i - g) % g;
    assert i == (q + 1) * g + r;
    DivisionUnique(i, g, q + 1, r);
  }

  /** From `src` on, `n` bytes repeat after every `g`. */
  predicate Repeats(m: Memory, src: nat, n: nat, g: nat)
    requires src + n <= |m| && g > 0
  {
    forall k :: src <= k < src + n ==> m[k] == m[src + (k - src) % g]
  }

  /** Exactly when an upward copy delivers the old source. */
  lemma ForwardCopiesExactly(m: Memory, dst: nat, src: nat, n: nat)
    requires dst + n <= |m| && src + n <= |m|
    ensures Forward(m, dst, src, n) == Copied(m, dst, src, n) <==>
              dst <= src || src + n <= dst || Repeats(m, src, n, dst - src)
  {
    if dst <= src || src + n <= dst {
      ForwardCopies(m, dst, src, n);
    } else {
      Overlapping(m, dst, src, n);
    }
  }

  lemma Overlapping(m: Memory, dst: nat, src: nat, n: nat)
    requires src < dst < src + n && dst + n <= |m|
    ensures Forward(m, dst, src, n) == Copied(m, dst, src, n) <==> Repeats(m, src, n, dst - src)
  {
    var f, c, g := Forward(m, dst, src, n), Copied(m, dst, src, n), dst - src;
    if Repeats(m, src, n, g) {
      ForwardFrame(m, dst, src, n);
      forall k | 0 <= k < |m| ensures f[k] == c[k] {
        if dst <= k < dst + n { OverlappingByte(m, dst, src, n, k - g); }
      }
      assert f == c;
    }
    if f == c {
      forall k | src <= k < src + n ensures m[k] == m[src + (k - src) % g] { OverlappingByte(m, dst, src, n, k); }
    }
  }

  lemma OverlappingByte(m: Memory, dst: nat, src: nat, n: nat, k: nat)
    requires src < dst < src + n && dst + n <= |m| && src <= k < src + n
    ensures Forward(m, dst, src, n)[k + dst - src] == m[src + (k - src) % (dst - src)] && Copied(m, dst, src, n)[k + dst - src] == m[k]
  {
    ForwardRepeats(m, dst, src, n, k - src);
  }

  // ----- words

  function Word(b0: nat, b1: nat, b2: nat, b3: nat): nat { b0 + 256 * b1 + 0x1_0000 * b2 + 0x100_0000 * b3 }

  function WordAt(m: Memory, a: nat): nat
    requires a + WORD <= |m|
  {
    Word(m[a], m[a + 1], m[a + 2], m[a + 3])
  }

  /** Memory after the store of a word. */
  function Stored(m: Memory, a: nat, w: nat): Memory
    requires a + WORD <= |m|
  {
    m[a := w % 256][a + 1 := w / 256 % 256][a + 2 := w / 0x1_0000 % 256][a + 3 := w / 0x100_0000 % 256]
  }

  lemma Digits(b0: nat, b1: nat, b2: nat, b3: nat)
    requires b0 < 256 && b1 < 256 && b2 < 256 && b3 < 256
    ensures var w := Word(b0, b1, b2, b3); w % 256 == b0 && w / 256 % 256 == b1 && w / 0x1_0000 % 256 == b2 && w / 0x100_0000 % 256 == b3
  {
    var w := Word(b0, b1, b2, b3);
    assert w == 256 * (b1 + 256 * b2 + 0x1_0000 * b3) + b0;
    assert w == 0x1_0000 * (b2 + 256 * b3) + (b0 + 256 * b1);
    assert w == 0x100_0000 * b3 + (b0 + 256 * b1 + 0x1_0000 * b2);
    assert w / 256 == b1 + 256 * b2 + 0x1_0000 * b3 && w / 0x1_0000 == b2 + 256 * b3 && w / 0x100_0000 == b3;
  }

  /** Both addresses at word boundaries: a word moved is four bytes moved, even where the ranges overlap. */
  lemma WordForward(m: Memory, dst: nat, src: nat)
    requires dst + WORD <= |m| && src + WORD <= |m| && dst % WORD == 0 && src % WORD == 0
    ensures Stored(m, dst, WordAt(m, src)) == Forward(m, dst, src, WORD)
  {
    Digits(m[src], m[src + 1], m[src + 2], m[src + 3]);
    var m1 := m[dst := m[src]];
    var m2 := m1[dst + 1 := m1[src + 1]];
    var m3 := m2[dst + 2 := m2[src + 2]];
    assert Forward(m, dst, src, 4) == Forward(m1, dst + 1, src + 1, 3);
    assert Forward(m1, dst + 1, src + 1, 3) == Forward(m2, dst + 2, src + 2, 2);
    assert Forward(m2, dst + 2, src + 2, 2) == Forward(m3, dst + 3, src + 3, 1);
  }

  method MoveByte(mem: array<Byte>, d: nat, s: nat)
    requires d < mem.Length && s < mem.Length
    modifies mem
    ensures mem[..] == old(mem[..])[d := old(mem[..])[s]]
  {
    mem[d] := mem[s];
  }

  method LoadWord(mem: array<Byte>, a: nat) returns (w: nat)
    requires a % WORD == 0 && a + WORD <= mem.Length
    ensures w == WordAt(mem[..], a) < 0x1_0000_0000
  {
    w := Word(mem[a], mem[a + 1], mem[a + 2], mem[a + 3]);
  }

  method StoreWord(mem: array<Byte>, a: nat, w: nat)
    requires a % WORD == 0 && a + WORD <= mem.Length && w < 0x1_0000_0000
    modifies mem
    ensures mem[..] == Stored(old(mem[..]), a, w)
  {
    mem[a] := w % 256;
    mem[a + 1] := w / 256 % 256;
    mem[a + 2] := w / 0x1_0000 % 256;
    mem[a + 3] := w / 0x100_0000 % 256;
  }

  lemma NextWords(a: nat, k: nat)
    requires a % WORD == 0
    ensures (a + WORD * k) % WORD == 0
  {
  }

  // ----- rt_memset

  lemma FilledWord(m: Memory, s: nat, n: nat, d: Byte, w: nat)
    requires s + n + WORD <= |m| && w == Word(d, d, d, d)
    ensures Stored(Filled(m, s, n, d), s + n, w) == Filled(m, s, n + WORD, d)
  {
    Digits(d, d, d, d);
  }

  /** `*aligned_addr++ = buffer` */
  method FillWord(mem: array<Byte>, a: nat, buffer: nat, ghost before: Memory, ghost s: nat, ghost done: nat, ghost d: Byte)
    requires |before| == mem.Length && s + done + WORD <= |before| && a == s + done && a % WORD == 0 && buffer == Word(d, d, d, d)
    requires mem[..] == Filled(before, s, done, d)
    modifies mem
    ensures mem[..] == Filled(before, s, done + WORD, d)
  {
    FilledWord(before, s, done, d, buffer);
    StoreWord(mem, a, buffer);
  }

  /** The unrolled step. */
  method FillFour(mem: array<Byte>, a: nat, buffer: nat, ghost before: Memory, ghost s: nat, ghost done: nat, ghost d: Byte)
    requires |before| == mem.Length && s + done + 4 * WORD <= |before| && a == s + done && a % WORD == 0 && buffer == Word(d, d, d, d)
    requires mem[..] == Filled(before, s, done, d)
    modifies mem
    ensures mem[..] == Filled(before, s, done + 4 * WORD, d)
  {
    FillWord(mem, a, buffer, before, s, done, d);
    FillWord(mem, a + WORD, buffer, before, s, done + WORD, d);
    FillWord(mem, a + 2 * WORD, buffer, before, s, done + 2 * WORD, d);
    FillWord(mem, a + 3 * WORD, buffer, before, s, done + 3 * WORD, d);
  }

  lemma FilledByte(m: Memory, s: nat, n: nat, d: Byte)
    requires s + n < |m|
    ensures Filled(m, s, n, d)[s + n := d] == Filled(m, s, n + 1, d)
  {
  }

  /** The two word loops; `n` bytes are left. */
  method FillWords(mem: array<Byte>, s: nat, count: nat, d: Byte) returns (n: nat)
    requires s + count <= mem.Length && s % WORD == 0
    modifies mem
    ensures n <= count && mem[..] == Filled(old(mem[..]), s, count - n, d)
  {
    ghost var before := mem[..];
    // the or of a byte with itself one place up, then of both with themselves two places up
    var low: nat := d;
    var buffer: nat := 256 * low + low;
    buffer := buffer + 0x1_0000 * buffer;
    var aligned: nat := s;
    n := count;
    while n >= WORD * 4
      invariant |before| == mem.Length && n <= count && aligned == s + (count - n) && aligned % WORD == 0
      invariant mem[..] == Filled(before, s, count - n, d)
    {
      FillFour(mem, aligned, buffer, before, s, count - n, d);
      NextWords(aligned, 4);
      aligned, n := aligned + 4 * WORD, n - 4 * WORD;
    }
    while n >= WORD
      invariant |before| == mem.Length && n <= count && aligned == s + (count - n) && aligned % WORD == 0
      invariant mem[..] == Filled(before, s, count - n, d)
    {
      FillWord(mem, aligned, buffer, before, s, count - n, d);
      NextWords(aligned, 1);
      aligned, n := aligned + WORD, n - WORD;
    }
  }

  /** The byte loop for the `n` bytes left. */
  method FillBytes(mem: array<Byte>, s: nat, count: nat, left: nat, d: Byte, ghost before: Memory)
    requires |before| == mem.Length && s + count <= mem.Length && left <= count && mem[..] == Filled(before, s, count - left, d)
    modifies mem
    ensures mem[..] == Filled(before, s, count, d)
  {
    var m: nat, n: nat := s + (count - left), left;
    while n > 0
      invariant n <= count && m == s + (count - n)
      invariant mem[..] == Filled(before, s, count - n, d)
    {
      FilledByte(before, s, count - n, d);
      mem[m] := d;
      m, n := m + 1, n - 1;
    }
  }

  method MemSet(mem: array<Byte>, s: nat, c: int, count: nat) returns (r: nat)
    requires s + count <= mem.Length
    modifies mem
    ensures r == s && mem[..] == Filled(old(mem[..]), s, count, c % 256)
  {
    ghost var before := mem[..];
    var n: nat := count;
    var d: Byte := c % 256;
    assert mem[..] == Filled(before, s, 0, d);
    if count >= WORD && s % WORD == 0 { n := FillWords(mem, s, count, d); }
    FillBytes(mem, s, count, n, d, before);
    r := s;
  }

  // ----- rt_memcpy

  /** One more word, then the rest. */
  lemma OneWord(m: Memory, before: Memory, dst: nat, src: nat, done: nat, count: nat)
    requires dst + count <= |before| && src + count <= |before| && done + WORD <= count && m == Forward(before, dst, src, done)
    requires (dst + done) % WORD == 0 && (src + done) % WORD == 0
    ensures Stored(m, dst + done, WordAt(m, src + done)) == Forward(before, dst, src, done + WORD)
  {
    ForwardSplit(before, dst, src, done + WORD, done);
    WordForward(m, dst + done, src + done);
  }

  /** `*aligned_dst++ = *aligned_src++` */
  method MoveWord(mem: array<Byte>, d: nat, s: nat, ghost before: Memory, ghost dst: nat, ghost src: nat, ghost done: nat, ghost count: nat)
    requires |before| == mem.Length && dst + count <= |before| && src + count <= |before| && done + WORD <= count
    requires d == dst + done && s == src + done && d % WORD == 0 && s % WORD == 0
    requires mem[..] == Forward(before, dst, src, done)
    modifies mem
    ensures mem[..] == Forward(before, dst, src, done + WORD)
  {
    OneWord(mem[..], before, dst, src, done, count);
    var w := LoadWord(mem, s);
    StoreWord(mem, d, w);
  }

  /** The unrolled step. */
  method MoveFour(mem: array<Byte>, d: nat, s: nat, ghost before: Memory, ghost dst: nat, ghost src: nat, ghost done: nat, ghost count: nat)
    requires |before| == mem.Length && dst + count <= |before| && src + count <= |before| && done + 4 * WORD <= count
    requires d == dst + done && s == src + done && d % WORD == 0 && s % WORD == 0
    requires mem[..] == Forward(before, dst, src, done)
    modifies mem
    ensures mem[..] == Forward(before, dst, src, done + 4 * WORD)
  {
    MoveWord(mem, d, s, before, dst, src, done, count);
    MoveWord(mem, d + WORD, s + WORD, before, dst, src, done + WORD, count);
    MoveWord(mem, d + 2 * WORD, s + 2 * WORD, before, dst, src, done + 2 * WORD, count);
    MoveWord(mem, d + 3 * WORD, s + 3 * WORD, before, dst, src, done + 3 * WORD, count);
  }

  /** The two word loops; `len` bytes are left. */
  method CopyWords(mem: array<Byte>, dst: nat, src: nat, count: nat) returns (len: nat)
    requires dst + count <= mem.Length && src + count <= mem.Length && dst % WORD == 0 && src % WORD == 0
    modifies mem
    ensures len <= count && mem[..] == Forward(old(mem[..]), dst, src, count - len)
  {
    ghost var before := mem[..];
    var d: nat, s: nat := dst, src;
    len := count;
    while len >= 4 * WORD
      invariant |before| == mem.Length && len <= count && d == dst + (count - len) && s == src + (count - len) && d % WORD == 0 && s % WORD == 0
      invariant mem[..] == Forward(before, dst, src, count - len)
    {
      MoveFour(mem, d, s, before, dst, src, count - len, count);
      NextWords(d, 4);
      NextWords(s, 4);
      d, s, len := d + 4 * WORD, s + 4 * WORD, len - 4 * WORD;
    }
    while len >= WORD
      invariant |before| == mem.Length && len <= count && d == dst + (count - len) && s == src + (count - len) && d % WORD == 0 && s % WORD == 0
      invariant mem[..] == Forward(before, dst, src, count - len)
    {
      MoveWord(mem, d, s, before, dst, src, count - len, count);
      NextWords(d, 1);
      NextWords(s, 1);
      d, s, len := d + WORD, s + WORD, len - WORD;
    }
  }

  lemma OneByte(m: Memory, dst: nat, src: nat, done: nat)
    requires dst + done < |m| && src + done < |m|
    ensures var f := Forward(m, dst, src, done); f[dst + done := f[src + done]] == Forward(m, dst, src, done + 1)
  {
    var f := Forward(m, dst, src, done);
    ForwardSplit(m, dst, src, done + 1, done);
    assert Forward(f[dst + done := f[src + done]], dst + done + 1, src + done + 1, 0) == f[dst + done := f[src + done]];
  }

  /** The unrolled word loops do what the byte loop does, for every alignment, length and overlap. */
  method MemCpy(mem: array<Byte>, dst: nat, src: nat, count: nat) returns (r: nat)
    requires dst + count <= mem.Length && src + count <= mem.Length
    modifies mem
    ensures r == dst && mem[..] == Forward(old(mem[..]), dst, src, count)
  {
    ghost var before := mem[..];
    var len: nat := count;
    if len >= 4 * WORD && src % WORD == 0 && dst % WORD == 0 { len := CopyWords(mem, dst, src, count); }
    var d: nat, s: nat := dst + (count - len), src + (count - len);
    while len > 0
      invariant |before| == mem.Length && len <= count && d == dst + (count - len) && s == src + (count - len)
      invariant mem[..] == Forward(before, dst, src, count - len)
    {
      OneByte(before, dst, src, count - len);
      MoveByte(mem, d, s);
      d, s, len := d + 1, s + 1, len - 1;
    }
    r := dst;
  }

  // ----- rt_memmove

  /** Downwards, the byte below those copied is still the old one. */
  lemma OneDown(m: Memory, dest: nat, src: nat, n: nat, k: nat)
    requires src < dest && dest + n <= |m| && 0 < k <= n
    ensures var c := Copied(m, dest + k, src + k, n - k); c[dest + k - 1 := c[src + k - 1]] == Copied(m, dest + k - 1, src + k - 1, n - k + 1)
  {
    assert m[src + k - 1..src + n] == [m[src + k - 1]] + m[src + k..src + n];
  }

  method StepDown(mem: array<Byte>, tmp: nat, s: nat, ghost before: Memory, ghost dest: nat, ghost src: nat, ghost n: nat, ghost k: nat)
    requires |before| == mem.Length && src < dest && dest + n <= mem.Length && 0 < k <= n && tmp == dest + k - 1 && s == src + k - 1
    requires mem[..] == Copied(before, dest + k, src + k, n - k)
    modifies mem
    ensures mem[..] == Copied(before, dest + (k - 1), src + (k - 1), n - (k - 1))
  {
    OneDown(before, dest, src, n, k);
    MoveByte(mem, tmp, s);
  }

  method MoveDown(mem: array<Byte>, dest: nat, src: nat, n: nat)
    requires src < dest && dest + n <= mem.Length
    modifies mem
    ensures mem[..] == Copied(old(mem[..]), dest, src, n)
  {
    ghost var before := mem[..];
    var tmp: nat, s: nat, k: nat := dest + n, src + n, n;
    NothingMoved(before, dest, src, n);
    while k > 0
      invariant |before| == mem.Length && k <= n && tmp == dest + k && s == src + k
      invariant mem[..] == Copied(before, dest + k, src + k, n - k)
    {
      tmp, s := tmp - 1, s - 1;
      StepDown(mem, tmp, s, before, dest, src, n, k);
      k := k - 1;
    }
  }

  lemma NothingMoved(m: Memory, dest: nat, src: nat, n: nat)
    requires dest + n <= |m| && src + n <= |m|
    ensures Copied(m, dest + n, src + n, 0) == m
  {
  }

  method MoveUp(mem: array<Byte>, dest: nat, src: nat, n: nat)
    requires dest + n <= mem.Length && src + n <= mem.Length
    modifies mem
    ensures mem[..] == Forward(old(mem[..]), dest, src, n)
  {
    ghost var before := mem[..];
    var tmp: nat, s: nat, k: nat := dest, src, n;
    while k > 0
      invariant |before| == mem.Length && k <= n && tmp == dest + (n - k) && s == src + (n - k)
      invariant mem[..] == Forward(before, dest, src, n - k)
    {
      OneByte(before, dest, src, n - k);
      MoveByte(mem, tmp, s);
      tmp, s, k := tmp + 1, s + 1, k - 1;
    }
  }

  /** Whatever the overlap, the target receives the old source. */
  method MemMove(mem: array<Byte>, dest: nat, src: nat, n: nat) returns (r: nat)
    requires dest + n <= mem.Length && src + n <= mem.Length
    modifies mem
    ensures r == dest && mem[..] == Copied(old(mem[..]), dest, src, n)
  {
    if src < dest < src + n {
      MoveDown(mem, dest, src, n);
    } else {
      ForwardCopies(mem[..], dest, src, n);
      MoveUp(mem, dest, src, n);
    }
    r := dest;
  }
}
