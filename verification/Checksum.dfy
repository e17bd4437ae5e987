// The incremental Internet checksum of the NAT datapath (equation 3 in section 3 of RFC 1624),
// against a full one's-complement recomputation over pseudo-header and segment.
module Checksum {
  import opened Net

  // The k-th 16-bit group of an address, most significant byte first.
  function WordAt(a: Address, k: nat): Word
    requires k < 8
  {
    (a[2 * k] as int) * 0x100 + a[2 * k + 1] as int
  }

  function AddressWords(a: Address): seq<Word> {
    seq(8, k requires 0 <= k < 8 => WordAt(a, k))
  }

  function Total(words: seq<Word>): nat {
    if words == [] then 0 else Total(words[..|words| - 1]) + words[|words| - 1]
  }

  // Sum of the complements, as the update subtracts old words.
  function Complements(words: seq<Word>): nat {
    if words == [] then 0 else Complements(words[..|words| - 1]) + (0xffff - words[|words| - 1])
  }

  function Fold(sum: nat): nat {
    sum % 0x1_0000 + sum / 0x1_0000
  }

  // What the update computes, before folding.
  function Raw(checksum: Word, oldAddress: Address, newAddress: Address, oldPort: Word, newPort: Word): nat {
    (0xffff - checksum) + Complements(AddressWords(oldAddress)) + Total(AddressWords(newAddress))
    + (0xffff - oldPort) + newPort
  }

  function Replace(checksum: Word, oldAddress: Address, newAddress: Address, oldPort: Word, newPort: Word): (r: Word)
    ensures r != 0
  {
    var raw := Raw(checksum, oldAddress, newAddress, oldPort, newPort);
    TwoFoldsSuffice(checksum, oldAddress, newAddress, oldPort, newPort);
    var folded := Fold(Fold(raw));
    if folded == 0xffff then 0xffff else 0xffff - folded
  }

  lemma TotalStep(words: seq<Word>, k: nat)
    requires k < |words|
    ensures Total(words[..k + 1]) == Total(words[..k]) + words[k]
    ensures Complements(words[..k + 1]) == Complements(words[..k]) + (0xffff - words[k])
  {
    assert words[..k + 1][..k] == words[..k];
  }

  lemma {:induction false} ComplementsTotal(words: seq<Word>)
    ensures Complements(words) + Total(words) == 0xffff * |words|
  {
    if words != [] {
      ComplementsTotal(words[..|words| - 1]);
    }
  }

  lemma {:induction false} TotalBound(words: seq<Word>)
    ensures Total(words) <= 0xffff * |words|
  {
    ComplementsTotal(words);
  }

  // Nineteen 16-bit terms fit in 32 bits, and two folds leave at most 16 bits.
  lemma TwoFoldsSuffice(checksum: Word, oldAddress: Address, newAddress: Address, oldPort: Word, newPort: Word)
    ensures Raw(checksum, oldAddress, newAddress, oldPort, newPort) < 0x1_0000_0000
    ensures Fold(Fold(Raw(checksum, oldAddress, newAddress, oldPort, newPort))) <= 0xffff
  {
    ComplementsTotal(AddressWords(oldAddress));
    TotalBound(AddressWords(newAddress));
    assert Raw(checksum, oldAddress, newAddress, oldPort, newPort) <= 19 * 0xffff;
  }

  // Update of one address and one port, looping over the address two bytes at a time.
  method ChecksumReplace(checksum: Word, oldAddress: Address, newAddress: Address, oldPort: Word, newPort: Word)
    returns (r: Word)
    ensures r == Replace(checksum, oldAddress, newAddress, oldPort, newPort)
  {
    var sum: int := 0xffff - checksum;
    var i := 0;
    ghost var k := 0;
    ghost var olds, news := AddressWords(oldAddress), AddressWords(newAddress);
    while i < 16
      invariant 0 <= k <= 8 && i == 2 * k
      invariant sum == (0xffff - checksum) + Complements(olds[..k]) + Total(news[..k])
    {
      var oldWord: int := (oldAddress[i] as int) * 0x100 + oldAddress[i + 1] as int;
      var newWord: int := (newAddress[i] as int) * 0x100 + newAddress[i + 1] as int;
      TotalStep(olds, k);
      TotalStep(news, k);
      assert oldWord == olds[k] && newWord == news[k];
      sum := sum + (0xffff - oldWord);
      sum := sum + newWord;
      i := i + 2;
      k := k + 1;
    }
    assert olds[..8] == olds && news[..8] == news;
    sum := sum + (0xffff - oldPort);
    sum := sum + newPort;
    assert sum == Raw(checksum, oldAddress, newAddress, oldPort, newPort);
    TwoFoldsSuffice(checksum, oldAddress, newAddress, oldPort, newPort);
    r := FoldAndComplement(sum);
  }

  // The closing steps: fold twice, complement, and send zero as all ones.
  method FoldAndComplement(raw: nat) returns (r: Word)
    requires Fold(Fold(raw)) <= 0xffff
    ensures r == if Fold(Fold(raw)) == 0xffff then 0xffff else 0xffff - Fold(Fold(raw))
  {
    var sum := raw % 0x1_0000 + raw / 0x1_0000;
    sum := sum % 0x1_0000 + sum / 0x1_0000;
    var result := 0xffff - sum;
    r := if result != 0 then result else 0xffff;
  }

  /** Reference: one's-complement addition with end-around carry, one word at a time. */
  function EndAround(a: Word, b: Word): Word {
    if a + b > 0xffff then a + b - 0xffff else a + b
  }

  function OnesSum(words: seq<Word>): Word {
    if words == [] then 0 else EndAround(OnesSum(words[..|words| - 1]), words[|words| - 1])
  }

  // Everything one transport checksum covers; `rest` is length, next header and the other segment words.
  datatype Segment = Segment(source: Address, destination: Address, sourcePort: Word, destinationPort: Word,
                             checksum: Word, rest: seq<Word>)

  function Covered(s: Segment): seq<Word> {
    AddressWords(s.source) + AddressWords(s.destination) + [s.sourcePort, s.destinationPort] + s.rest
  }

  // Full recomputation, with a computed zero sent as 0xffff (section 8.1 of RFC 8200).
  function Recompute(s: Segment): Word {
    var c := 0xffff - OnesSum(Covered(s));
    if c == 0 then 0xffff else c
  }

  // The receiver's test: the covered words and the checksum sum to all ones.
  predicate Verifies(s: Segment) {
    OnesSum(Covered(s) + [s.checksum]) == 0xffff
  }

  // The two successive updates the datapath performs on one translated packet.
  function Translate(s: Segment, source: Address, sourcePort: Word, destination: Address,
                     destinationPort: Word): Segment {
    var first := Replace(s.checksum, s.source, source, s.sourcePort, sourcePort);
    var second := Replace(first, s.destination, destination, s.destinationPort, destinationPort);
    Segment(source, destination, sourcePort, destinationPort, second, s.rest)
  }

  lemma Shift(a: int, b: int, k: int)
    requires a == b + 0xffff * k
    ensures a % 0xffff == b % 0xffff
  {
  }

  lemma {:induction false} OnesSumIsResidue(words: seq<Word>)
    ensures OnesSum(words) % 0xffff == Total(words) % 0xffff
    ensures OnesSum(words) == 0 <==> Total(words) == 0
  {
    if words != [] {
      var front := words[..|words| - 1];
      var last: int := words[|words| - 1];
      OnesSumIsResidue(front);
      var a: int, t: int := OnesSum(front), Total(front);
      var k := t / 0xffff - a / 0xffff;
      assert t == a + 0xffff * k;
      if a + last > 0xffff {
        Shift(t + last, a + last - 0xffff, k + 1);
      } else {
        Shift(t + last, a + last, k);
      }
    }
  }

  lemma {:induction false} TotalConcat(a: seq<Word>, b: seq<Word>)
    ensures Total(a + b) == Total(a) + Total(b)
  {
    if b == [] {
      assert a + b == a;
    } else {
      TotalConcat(a, b[..|b| - 1]);
      assert (a + b)[..|a + b| - 1] == a + b[..|b| - 1];
    }
  }

  lemma FoldIsResidue(n: nat)
    ensures Fold(n) % 0xffff == n % 0xffff
    ensures Fold(n) == 0 <==> n == 0
  {
    Shift(n, Fold(n), n / 0x1_0000);
  }

  // One update keeps checksum + address words + port unchanged modulo 0xffff.
  lemma ReplaceIsResidue(checksum: Word, oldAddress: Address, newAddress: Address, oldPort: Word, newPort: Word)
    ensures (Replace(checksum, oldAddress, newAddress, oldPort, newPort)
             + Total(AddressWords(newAddress)) + newPort) % 0xffff
         == (checksum + Total(AddressWords(oldAddress)) + oldPort) % 0xffff
  {
    var raw := Raw(checksum, oldAddress, newAddress, oldPort, newPort);
    TwoFoldsSuffice(checksum, oldAddress, newAddress, oldPort, newPort);
    FoldIsResidue(raw);
    FoldIsResidue(Fold(raw));
    var folded := Fold(Fold(raw));
    var k: int := raw as int / 0xffff - folded as int / 0xffff;
    assert raw == folded + 0xffff * k;
    ComplementsTotal(AddressWords(oldAddress));
    var r := Replace(checksum, oldAddress, newAddress, oldPort, newPort);
    var left := r + Total(AddressWords(newAddress)) + newPort;
    var right := checksum + Total(AddressWords(oldAddress)) + oldPort;
    assert raw == 10 * 0xffff - right + (left - r);
    if folded == 0xffff {
      Shift(left, right, k - 8);
    } else {
      Shift(left, right, k - 9);
    }
  }

  lemma CoveredTotal(s: Segment)
    ensures Total(Covered(s)) == Total(AddressWords(s.source)) + Total(AddressWords(s.destination))
                                 + s.sourcePort + s.destinationPort + Total(s.rest)
  {
    var a, b, p := AddressWords(s.source), AddressWords(s.destination), [s.sourcePort, s.destinationPort];
    TotalConcat(a + b + p, s.rest);
    TotalConcat(a + b, p);
    TotalConcat(a, b);
    assert p == [s.sourcePort] + [s.destinationPort];
    TotalConcat([s.sourcePort], [s.destinationPort]);
    assert [s.sourcePort][..0] == [] && [s.destinationPort][..0] == [];
  }

  // The sum of an octet string in network order, two octets at a time.
  function Octets(b: seq<Byte>): nat {
    if |b| < 2 then 0 else (b[0] as int) * 256 + b[1] as int + Octets(b[2..])
  }

  lemma {:induction false} OctetsAppend(b: seq<Byte>, x: Byte, y: Byte)
    requires |b| % 2 == 0
    ensures Octets(b + [x, y]) == Octets(b) + (x as int) * 256 + y as int
  {
    if b != [] {
      OctetsAppend(b[2..], x, y);
      assert (b + [x, y])[2..] == b[2..] + [x, y];
    }
  }

  lemma {:induction false} WordsAreOctets(a: Address, k: nat)
    requires k <= 8
    ensures Total(AddressWords(a)[..k]) == Octets(a[..2 * k])
  {
    if k > 0 {
      WordsAreOctets(a, k - 1);
      TotalStep(AddressWords(a), k - 1);
      OctetsAppend(a[..2 * k - 2], a[2 * k - 2], a[2 * k - 1]);
      assert a[..2 * k] == a[..2 * k - 2] + [a[2 * k - 2], a[2 * k - 1]];
    }
  }

  lemma {:induction false} OctetsConcat(a: seq<Byte>, b: seq<Byte>)
    requires |a| % 2 == 0
    ensures Octets(a + b) == Octets(a) + Octets(b)
  {
    if a == [] {
      assert a + b == b;
    } else {
      OctetsConcat(a[2..], b);
      assert (a + b)[2..] == a[2..] + b;
    }
  }

  /** What a checksum covers is the pseudo-header's thirty-two address octets as they are sent, most significant octet
      first, then the two ports and the rest. */
  lemma CoveredIsOctets(s: Segment)
    ensures Total(Covered(s)) == Octets(s.source + s.destination) + s.sourcePort + s.destinationPort + Total(s.rest)
  {
    CoveredTotal(s);
    WordsAreOctets(s.source, 8);
    WordsAreOctets(s.destination, 8);
    assert AddressWords(s.source)[..8] == AddressWords(s.source) && s.source[..16] == s.source;
    assert AddressWords(s.destination)[..8] == AddressWords(s.destination) && s.destination[..16] == s.destination;
    OctetsConcat(s.source, s.destination);
  }

  // Congruent sums stay congruent after adding the same amounts to both.
  lemma AddToBoth(a: int, b: int, c: int)
    requires a % 0xffff == b % 0xffff
    ensures (a + c) % 0xffff == (b + c) % 0xffff
  {
    Shift(a + c, b + c, a / 0xffff - b / 0xffff);
  }

  // For all addresses, ports and checksums the covered sum is unchanged modulo 0xffff.
  lemma TranslateKeepsSum(s: Segment, source: Address, sourcePort: Word, destination: Address, destinationPort: Word)
    ensures var t := Translate(s, source, sourcePort, destination, destinationPort);
            (Total(Covered(t)) + t.checksum) % 0xffff == (Total(Covered(s)) + s.checksum) % 0xffff && t.checksum != 0
  {
    var t := Translate(s, source, sourcePort, destination, destinationPort);
    var first := Replace(s.checksum, s.source, source, s.sourcePort, sourcePort);
    ReplaceIsResidue(s.checksum, s.source, source, s.sourcePort, sourcePort);
    ReplaceIsResidue(first, s.destination, destination, s.destinationPort, destinationPort);
    CoveredTotal(s);
    CoveredTotal(t);
    var oldDestination := Total(AddressWords(s.destination)) + s.destinationPort;
    var newSource := Total(AddressWords(source)) + sourcePort;
    AddToBoth(t.checksum + Total(AddressWords(destination)) + destinationPort, first + oldDestination,
              newSource + Total(s.rest));
    AddToBoth(first + newSource, s.checksum + Total(AddressWords(s.source)) + s.sourcePort,
              oldDestination + Total(s.rest));
  }

  // A checksum verifies exactly when the covered total is a positive multiple of 0xffff.
  lemma VerifiesIsResidue(s: Segment)
    ensures Verifies(s) <==> (Total(Covered(s)) + s.checksum) % 0xffff == 0 && Total(Covered(s)) + s.checksum != 0
  {
    OnesSumIsResidue(Covered(s) + [s.checksum]);
    TotalConcat(Covered(s), [s.checksum]);
    assert [s.checksum][..0] == [];
  }

  // A nonzero checksum that closes the sum is the recomputed one: residues 1..0xffff are distinct.
  lemma ClosingIsRecompute(s: Segment)
    requires (Total(Covered(s)) + s.checksum) % 0xffff == 0 && s.checksum != 0
    ensures s.checksum == Recompute(s)
  {
    OnesSumIsResidue(Covered(s));
    AddToBoth(OnesSum(Covered(s)), Total(Covered(s)), s.checksum);
  }

  // Translation neither repairs nor breaks a checksum, and from a correct one it equals full recomputation.
  lemma TranslatePreservesValidity(s: Segment, source: Address, sourcePort: Word, destination: Address,
                                   destinationPort: Word)
    requires Total(Covered(s)) + s.checksum != 0 // the next header is never zero
    ensures var t := Translate(s, source, sourcePort, destination, destinationPort);
            && (Verifies(t) <==> Verifies(s))
            && (Verifies(s) ==> t.checksum == Recompute(t))
  {
    var t := Translate(s, source, sourcePort, destination, destinationPort);
    TranslateKeepsSum(s, source, sourcePort, destination, destinationPort);
    VerifiesIsResidue(s);
    VerifiesIsResidue(t);
    if Verifies(s) {
      ClosingIsRecompute(t);
    }
  }

  lemma SameResidue(total: nat, a: Word, b: Word)
    requires (total + a) % 0xffff == (total + b) % 0xffff && a != 0 && b != 0
    ensures a == b
  {
    var d: int := total;
    AddToBoth(total + a, total + b, -d);
  }

  // Translating there and back restores every nonzero checksum exactly.
  lemma TranslateRoundTrip(s: Segment, source: Address, sourcePort: Word, destination: Address, destinationPort: Word)
    requires s.checksum != 0
    ensures Translate(Translate(s, source, sourcePort, destination, destinationPort),
                      s.source, s.sourcePort, s.destination, s.destinationPort) == s
  {
    var t := Translate(s, source, sourcePort, destination, destinationPort);
    var back := Translate(t, s.source, s.sourcePort, s.destination, s.destinationPort);
    TranslateKeepsSum(s, source, sourcePort, destination, destinationPort);
    TranslateKeepsSum(t, s.source, s.sourcePort, s.destination, s.destinationPort);
    SameResidue(Total(Covered(s)), back.checksum, s.checksum);
  }
}
