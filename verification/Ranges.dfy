// IPv4 prefixes as intervals of 32-bit addresses, and the overlap test of the allocator.
module Ranges {
  import opened Net

  const LIMIT := 0x1_0000_0000

  // A prefix: its address as written, and the range it stands for.
  datatype Span = Span(addr: int, base: int, size: int)

  // How every IPv4 prefix lies relative to the aligned blocks of sixteen: whole blocks, or inside one.
  predicate Cidr(p: Span) {
    && 0 <= p.base <= p.addr < p.base + p.size && p.base + p.size <= LIMIT
    && ((p.base % 16 == 0 && p.size % 16 == 0)
        || (p.size < 16 && p.addr / 16 * 16 <= p.base && p.base + p.size <= p.addr / 16 * 16 + 16))
  }

  type Prefix4 = p: Span | Cidr(p) witness Span(0, 0, 1)

  predicate Contains(p: Prefix4, a: int) { p.base <= a < p.base + p.size }

  predicate Overlap(p: Prefix4, q: Prefix4) { p.base < q.base + q.size && q.base < p.base + p.size }

  predicate Inside(p: Prefix4, q: Prefix4) { q.base <= p.base && p.base + p.size <= q.base + q.size }

  function Masked(p: Prefix4): Prefix4 {
    Span(p.base, p.base, p.size)
  }

  // The allocator's test, written with containment of first addresses.
  predicate Clashes(candidate: Prefix4, p: Prefix4) {
    Contains(candidate, p.addr) || Contains(p, candidate.addr)
  }

  /** For an aligned /28, the test with written addresses is exactly intersection of the two ranges, masked or not. */
  lemma ClashIsOverlap(c: Prefix4, p: Prefix4)
    requires c.size == 16 && c.addr == c.base && c.base % 16 == 0
    ensures Clashes(c, p) <==> Overlap(c, p)
  {
    if p.base % 16 == 0 && p.size % 16 == 0 {
      assert Overlap(c, p) ==> p.base <= c.base < p.base + p.size;
    }
  }

  // ---- Prefixes as address and length ----

  type Bits = b: nat | b <= 32

  function Pow2(n: nat): (r: nat)
    ensures r >= 1
  {
    if n == 0 then 1 else 2 * Pow2(n - 1)
  }

  function Size(bits: Bits): (r: nat)
    ensures r >= 1
  {
    Pow2(32 - bits)
  }

  lemma {:induction false} Pow2Adds(a: nat, b: nat)
    ensures Pow2(a + b) == Pow2(a) * Pow2(b)
  {
    if a > 0 {
      Pow2Adds(a - 1, b);
      assert 2 * (Pow2(a - 1) * Pow2(b)) == (2 * Pow2(a - 1)) * Pow2(b);
    }
  }

  lemma SmallPowers()
    ensures Pow2(0) == 1 && Pow2(1) == 2 && Pow2(2) == 4 && Pow2(3) == 8 && Pow2(4) == 16 && Pow2(32) == LIMIT
  {
    assert Pow2(4) == 16;
    Pow2Adds(4, 4);
    Pow2Adds(8, 8);
    Pow2Adds(16, 16);
  }

  // Rounding down to a multiple stays below the number and above it minus the step.
  lemma Rounding(a: int, m: int)
    requires m > 0
    ensures a / m * m <= a < a / m * m + m
  {
  }

  // A multiple of k * 16 is a multiple of 16.
  lemma MultipleOfSixteen(j: int, k: int)
    ensures (j * (16 * k)) % 16 == 0
  {
    assert j * (16 * k) == (j * k) * 16;
  }

  // Of two multiples of m, one below the other's end leaves a whole step.
  lemma WholeStep(x: int, y: int, m: int)
    requires m > 0 && x * m < y * m
    ensures x * m + m <= y * m
  {
    if x >= y {
      Scale(y, x, m);
    }
    Scale(x + 1, y, m);
    assert (x + 1) * m == x * m + m;
  }

  lemma Scale(x: int, y: int, m: int)
    requires x <= y && m >= 0
    ensures x * m <= y * m
  {
    assert (y - x) * m >= 0;
  }

  lemma RoundingBelow(a: int, m: int, n: int)
    requires 0 <= a < n * m && m > 0
    ensures 0 <= a / m * m <= a < a / m * m + m <= n * m
  {
    Rounding(a, m);
    Scale(0, a / m, m);
    WholeStep(a / m, n, m);
  }

  // A step that divides sixteen stays inside one block of sixteen.
  lemma InOneBlock(a: int, m: int, n: int)
    requires m > 0 && n * m == 16
    ensures a / 16 * 16 <= a / m * m && a / m * m + m <= a / 16 * 16 + 16
  {
    var q, x := a / 16, a / m;
    assert q * 16 == (q * n) * m && q * 16 + 16 == (q * n + n) * m by { Blocks(q, n, m); }
    Rounding(a, m);
    Rounding(a, 16);
    if x * m < (q * n) * m {
      WholeStep(x, q * n, m);
    }
    WholeStep(x, q * n + n, m);
  }

  lemma Blocks(q: int, n: int, m: int)
    requires n * m == 16
    ensures q * 16 == (q * n) * m && q * 16 + 16 == (q * n + n) * m
  {
    assert (q * n) * m == q * (n * m);
    assert (q * n + n) * m == (q * n) * m + n * m;
  }

  lemma NarrowSize(bits: Bits)
    requires bits > 28
    ensures var m := Size(bits); m == 1 || m == 2 || m == 4 || m == 8
  {
    SmallPowers();
    if bits == 29 {
    } else if bits == 30 {
    } else if bits == 31 {
    } else {
      assert bits == 32;
    }
  }

  lemma {:induction false} WideSize(bits: Bits)
    requires bits <= 28
    ensures Size(bits) == 16 * Pow2(28 - bits)
  {
    SmallPowers();
    Pow2Adds(4, 28 - bits);
  }

  lemma WideCidr(addr: U32, bits: Bits)
    requires bits <= 28
    ensures (addr / Size(bits) * Size(bits)) % 16 == 0 && Size(bits) % 16 == 0
  {
    WideSize(bits);
    MultipleOfSixteen(addr / Size(bits), Pow2(28 - bits));
  }

  lemma EveryPrefixIsCidr(addr: U32, bits: Bits)
    ensures Cidr(Span(addr, addr / Size(bits) * Size(bits), Size(bits)))
  {
    assert Pow2(bits) * Size(bits) == LIMIT by {
      SmallPowers();
      Pow2Adds(bits, 32 - bits);
    }
    RoundingBelow(addr, Size(bits), Pow2(bits));
    if bits <= 28 {
      WideCidr(addr, bits);
    } else {
      NarrowSize(bits);
      InOneBlock(addr, Size(bits), 16 / Size(bits));
    }
  }

  // The prefix of an address and a length, masked as the standard library masks it.
  function Of(addr: U32, bits: Bits): Prefix4 {
    EveryPrefixIsCidr(addr, bits);
    Span(addr, addr / Size(bits) * Size(bits), Size(bits))
  }

  // Lengths up to 28 are exactly the prefixes of whole /28s, 2 to the (28 - bits) of them.
  lemma {:induction false} LengthIsSize(addr: U32, bits: Bits)
    ensures bits <= 28 <==> Of(addr, bits).size >= 16
    ensures bits == 28 <==> Of(addr, bits).size == 16
    ensures bits <= 28 ==> Of(addr, bits).size / 16 == Pow2(28 - bits)
  {
    if bits <= 28 {
      WideSize(bits);
    } else {
      NarrowSize(bits);
    }
    if bits < 28 {
      assert Pow2(28 - bits) == 2 * Pow2(27 - bits);
    }
  }
}
