/** Sizes in 32-bit words, and the division facts about multiples. */
module Arithmetic {

  const WRAP: nat := 0x1_0000_0000  // unsigned arithmetic of 32 bits

  /** RT_ALIGN to 4 bytes in 32-bit arithmetic, as a number of words. */
  function AlignWords(bytes: nat): nat { (bytes + 3) % WRAP / 4 }

  lemma {:induction false} Beyond(k: nat, q: nat, c: nat)
    requires k > q
    ensures k * c >= q * c + c
    decreases c
  {
    if c > 0 {
      Beyond(k, q, c - 1);
      assert k * c == k * (c - 1) + k && q * c == q * (c - 1) + q;
    }
  }

  lemma DivMod(u: nat, b: nat)
    requires b > 0
    ensures b * (u / b) + u % b == u && u % b < b
  {
  }

  lemma DivisionUnique(x: nat, c: nat, q: nat, r: nat)
    requires c > 0 && x == q * c + r && r < c
    ensures x / c == q && x % c == r
  {
    SameQuotient(x / c, x % c, q, r, c);
  }

  lemma SameQuotient(p: nat, s: nat, q: nat, r: nat, c: nat)
    requires p * c + s == q * c + r && s < c && r < c
    ensures p == q && s == r
  {
    if p < q { Beyond(q, p, c); }
    if q < p { Beyond(p, q, c); }
  }

  lemma Multiple(q: nat, c: nat)
    requires c > 0
    ensures q * c / c == q && q * c % c == 0
  {
    DivisionUnique(q * c, c, q, 0);
  }

  lemma SumOfMultiples(x: nat, y: nat, z: nat, c: nat)
    requires c > 0 && x % c == 0 && y % c == 0 && z % c == 0
    ensures (x + y + z) % c == 0
  {
    WholeParts(x, c);
    WholeParts(y, c);
    WholeParts(z, c);
    SumOfProducts(x / c, y / c, z / c, c);
  }

  lemma WholeParts(x: nat, c: nat)
    requires c > 0 && x % c == 0
    ensures x == x / c * c
  {
  }

  lemma SumOfProducts(x: nat, y: nat, z: nat, c: nat)
    requires c > 0
    ensures (x * c + y * c + z * c) % c == 0
  {
    assert (x + y + z) * c == x * c + y * c + z * c;
    Multiple(x + y + z, c);
  }

  /** Two whole parts or more fit into a room that is that large. */
  lemma PartsFit(room: nat, part: nat)
    requires 2 * part <= room && part > 0
    ensures room / part * part <= room && 2 <= room / part
  {
    var q, r := room / part, room % part;
    assert room == q * part + r;
    if q < 2 { Beyond(2, q, part); }
  }
}
