// What the IPv4 allocator's positions stand for, said about addresses and lengths: which /28s there are, in which order
// they are tried, which are free, and which owned ranges are refused.
module SubnetBlocks {
  import opened Net
  import opened Ranges
  import opened Allocation
  import S = Subnets

  /** A VPC is wide enough exactly for lengths up to 28, and then has 2 to the (28 - bits) candidates. */
  lemma {:induction false} VPCExactly(addr: U32, bits: Bits)
    ensures S.Wide(Of(addr, bits)) <==> bits <= 28
    ensures bits <= 28 ==> S.Count(Of(addr, bits)) == Pow2(28 - bits)
  {
    LengthIsSize(addr, bits);
  }

  /** An owned range is kept exactly when it parses, is a /28 and its address as written lies in the VPC. */
  lemma {:induction false} OwnedExactly(vpc: Prefix4, addr: U32, bits: Bits)
    ensures S.OwnedOk(vpc, Some(Of(addr, bits))) <==> bits == 28 && vpc.base <= addr < vpc.base + vpc.size
    ensures !S.OwnedOk(vpc, None)
  {
    LengthIsSize(addr, bits);
  }

  // Every aligned /28 of the VPC is the candidate at one position, and there are no others.
  lemma BlockAt(vpc: Prefix4, base: int) returns (position: nat)
    requires S.Wide(vpc) && base % 16 == 0 && vpc.base <= base && base + 16 <= vpc.base + vpc.size
    ensures position < S.Count(vpc) && S.FromEnd(vpc, position) == Span(base, base, 16)
  {
    position := (vpc.base + vpc.size - 16 - base) / 16;
  }

  /** The candidate at a position is the /28 that begins 16 * (position + 1) before the VPC's end; every aligned /28 of
      the VPC is one. */
  lemma CandidatesExactly(vpc: Prefix4, base: int)
    requires S.Wide(vpc)
    ensures forall i: nat :: i < S.Count(vpc) ==> S.FromEnd(vpc, i).base == vpc.base + vpc.size - 16 * (i + 1)
    ensures (exists i: nat :: i < S.Count(vpc) && S.FromEnd(vpc, i) == Span(base, base, 16)) <==>
              base % 16 == 0 && vpc.base <= base && base + 16 <= vpc.base + vpc.size
  {
    if base % 16 == 0 && vpc.base <= base && base + 16 <= vpc.base + vpc.size {
      var _ := BlockAt(vpc, base);
    }
  }

  predicate Has(p: Prefix4, a: int) { p.base <= a < p.base + p.size }

  // No address in common.
  ghost predicate Apart(p: Prefix4, q: Prefix4) {
    forall a :: Has(p, a) ==> !Has(q, a)
  }

  lemma OverlapIsShared(p: Prefix4, q: Prefix4)
    ensures Overlap(p, q) <==> !Apart(p, q)
  {
    if Overlap(p, q) {
      var a := if p.base < q.base then q.base else p.base;
      assert Has(p, a) && Has(q, a);
    }
  }

  /** A position is free exactly when no address of its /28 is in an occupied range or in an owning zone's range. */
  lemma FreeExactly(vpc: Prefix4, occupied: seq<Prefix4>, owned: map<string, Option<Prefix4>>, zones: seq<string>,
                    position: nat)
    requires S.Wide(vpc)
    ensures position in S.Free(vpc, occupied, owned, zones) <==>
              && position < S.Count(vpc)
              && (forall p :: p in occupied ==> Apart(S.FromEnd(vpc, position), p))
              && (forall z :: z in zones && z in owned && owned[z].Some? ==>
                    Apart(S.FromEnd(vpc, position), owned[z].value))
  {
    if position < S.Count(vpc) {
      var c := S.FromEnd(vpc, position);
      forall k | 0 <= k < |occupied|
        ensures Overlap(c, occupied[k]) <==> !Apart(c, occupied[k])
      {
        OverlapIsShared(c, occupied[k]);
      }
      assert (forall p :: p in occupied ==> Apart(c, p)) <==> S.Unused(vpc, occupied, position);
      forall z | z in zones && z in owned && owned[z].Some?
        ensures Overlap(c, Masked(owned[z].value)) <==> !Apart(c, owned[z].value)
      {
        OverlapIsShared(c, Masked(owned[z].value));
        OverlapIsShared(c, owned[z].value);
      }
    }
  }

  // ---- IPv6 ----

  // Membership in the /64 of an address.
  predicate Has64(a: Address, x: Address) {
    forall i :: 0 <= i < 8 ==> x[i] == a[i]
  }

  /** Two /64s meet exactly when they have an address in common. */
  lemma Meets64(a: Address, b: Address)
    ensures S.Overlap6(a, b) <==> exists x: Address :: Has64(a, x) && Has64(b, x)
  {
    if x: Address :| Has64(a, x) && Has64(b, x) {
      assert a[..8] == b[..8];
    }
    if S.Overlap6(a, b) {
      assert forall i :: 0 <= i < 8 ==> a[i] == a[..8][i] == b[..8][i] == b[i];
      assert Has64(a, a) && Has64(b, a);
    }
  }
}
