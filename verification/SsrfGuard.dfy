/**
 * lib/webhooks/ssrf-guard.server.ts: the private-range test on IPv4 addresses and the check made
 * before a webhook is dispatched. URL parsing, the recognition of IPv6 texts and the name lookup
 * are arbitrary.
 */
module SsrfGuard {
  import opened Wrappers
  import opened Text
  import opened Words32

  // ---------- Addresses as numbers ----------

  function PartAt(parts: seq<string>, i: nat): nat { if i < |parts| then NumberOf(parts[i]) else 0 }

  function PackOctets(a: int, b: int, c: int, d: int): nat {
    ToUint32(BitOr(BitOr(BitOr(ShiftLeft(a, 24), ShiftLeft(b, 16)), ShiftLeft(c, 8)), d))
  }

  function Ipv4ToInt(ip: string): nat {
    var parts := Split(ip, ".");
    PackOctets(PartAt(parts, 0), PartAt(parts, 1), PartAt(parts, 2), PartAt(parts, 3))
  }

  function MaskOf(prefixLength: nat): nat {
    if prefixLength == 0 then 0 else ToUint32(ShiftLeft(0xffff_ffff, 32 - prefixLength))
  }

  predicate SameMasked(x: nat, y: nat, mask: nat) { BitAnd(x, mask) == BitAnd(y, mask) }

  predicate InIpv4Range(ip: string, base: string, prefixLength: nat) {
    SameMasked(Ipv4ToInt(ip), Ipv4ToInt(base), MaskOf(prefixLength))
  }

  datatype Octets = Octets(a: nat, b: nat, c: nat, d: nat)

  predicate ValidOctets(o: Octets) { o.a < 256 && o.b < 256 && o.c < 256 && o.d < 256 }

  function Value(o: Octets): nat { o.a * 0x100_0000 + o.b * 0x1_0000 + o.c * 0x100 + o.d }

  function Parts(o: Octets): seq<string> { [Decimal(o.a), Decimal(o.b), Decimal(o.c), Decimal(o.d)] }

  function Dotted(o: Octets): string { Join(Parts(o), ".") }

  // ---------- Packing ----------

  lemma ShiftBy(x: nat, n: nat, p: nat, v: nat)
    requires n < 32 && Pow2(n) == p && x < 256 && v == x * p < WORD
    ensures ToUint32(ShiftLeft(x, n)) == v
  {
    assert ToInt32(x) == x && ToUint32(n) % 32 == n;
  }

  lemma OrWords(x: int, y: int, q: nat, s: nat)
    requires s <= 32 && ToUint32(x) == q * Pow2(s) && ToUint32(y) < Pow2(s)
    ensures ToUint32(BitOr(x, y)) == (ToUint32(x) + ToUint32(y)) % WORD
  {
    OrDisjoint(q, ToUint32(y), s, WordBits());
  }

  lemma OrBytes(x: int, y: int, q: nat, s: nat, p: nat)
    requires s <= 32 && Pow2(s) == p && ToUint32(x) == q * p && ToUint32(y) < p && q * p + ToUint32(y) < WORD
    ensures ToUint32(BitOr(x, y)) == q * p + ToUint32(y)
  {
    OrWords(x, y, q, s);
  }

  /** Packing four octets is positional, signed intermediate results notwithstanding. */
  lemma PackIsPositional(o: Octets)
    requires ValidOctets(o)
    ensures PackOctets(o.a, o.b, o.c, o.d) == Value(o)
  {
    PowSmall();
    PowWord();
    ShiftBy(o.a, 24, 0x100_0000, o.a * 0x100_0000);
    ShiftBy(o.b, 16, 0x1_0000, o.b * 0x1_0000);
    ShiftBy(o.c, 8, 0x100, o.c * 0x100);
    PackWords(o, ShiftLeft(o.a, 24), ShiftLeft(o.b, 16), ShiftLeft(o.c, 8));
  }

  lemma PackWords(o: Octets, x1: int, x2: int, x3: int)
    requires ValidOctets(o) && Pow2(24) == 0x100_0000 && Pow2(16) == 0x1_0000 && Pow2(8) == 0x100
    requires ToUint32(x1) == o.a * 0x100_0000 && ToUint32(x2) == o.b * 0x1_0000 && ToUint32(x3) == o.c * 0x100
    ensures ToUint32(BitOr(BitOr(BitOr(x1, x2), x3), o.d)) == Value(o)
  {
    OrBytes(x1, x2, o.a, 24, 0x100_0000);
    var y1 := BitOr(x1, x2);
    OrBytes(y1, x3, o.a * 0x100 + o.b, 16, 0x1_0000);
    var y2 := BitOr(y1, x3);
    OrBytes(y2, o.d, o.a * 0x1_0000 + o.b * 0x100 + o.c, 8, 0x100);
  }

  // ---------- Dotted texts ----------

  lemma DottedReads(o: Octets)
    requires ValidOctets(o)
    ensures Ipv4ToInt(Dotted(o)) == Value(o)
  {
    DecimalReads(o.a);
    DecimalReads(o.b);
    DecimalReads(o.c);
    DecimalReads(o.d);
    SplitJoin(Parts(o), ".");
    PackIsPositional(o);
  }

  predicate IsOctet(s: string) { NumberOf(s) < 256 && s == Decimal(NumberOf(s)) }

  /** net.isIPv4: four decimal numbers below 256, written without leading zeros. */
  predicate IsIpv4(ip: string) {
    var parts := Split(ip, ".");
    |parts| == 4 && IsOctet(parts[0]) && IsOctet(parts[1]) && IsOctet(parts[2]) && IsOctet(parts[3])
  }

  function OctetsOf(ip: string): Octets {
    var parts := Split(ip, ".");
    Octets(PartAt(parts, 0), PartAt(parts, 1), PartAt(parts, 2), PartAt(parts, 3))
  }

  /** An IPv4 text has one reading, and only the dotted form of four octets is one. */
  lemma Ipv4Reads(ip: string)
    requires IsIpv4(ip)
    ensures ValidOctets(OctetsOf(ip)) && Ipv4ToInt(ip) == Value(OctetsOf(ip)) && ip == Dotted(OctetsOf(ip))
  {
    PackIsPositional(OctetsOf(ip));
    JoinSplit(ip, ".");
    assert Split(ip, ".") == Parts(OctetsOf(ip));
  }

  /** The text is the octets in decimal, with a point between each two. */
  ghost predicate IsDotted(o: Octets, ip: string) {
    ValidOctets(o) && ip == Decimal(o.a) + "." + Decimal(o.b) + "." + Decimal(o.c) + "." + Decimal(o.d)
  }

  lemma DottedIs(o: Octets)
    ensures Dotted(o) == Decimal(o.a) + "." + Decimal(o.b) + "." + Decimal(o.c) + "." + Decimal(o.d)
  {
    var parts := Parts(o);
    var b, c, d := Decimal(o.b), Decimal(o.c), Decimal(o.d);
    assert parts[1..][1..][1..] == [d] && parts[1..][1..] == [c, d] && parts[1..] == [b, c, d];
    assert Join([c, d], ".") == c + "." + d;
    assert Join([b, c, d], ".") == b + "." + (c + "." + d);
    Regrouped(Decimal(o.a), b, c, d, ".");
  }

  lemma Regrouped(a: string, b: string, c: string, d: string, p: string)
    ensures a + p + (b + p + (c + p + d)) == a + p + b + p + c + p + d
  {
  }

  /** The IPv4 texts are the dotted forms of octets, each of one. */
  lemma Ipv4Iff(ip: string, o: Octets)
    ensures IsIpv4(ip) ==> IsDotted(OctetsOf(ip), ip)
    ensures IsDotted(o, ip) ==> IsIpv4(ip) && OctetsOf(ip) == o
  {
    if IsIpv4(ip) {
      Ipv4Reads(ip);
      DottedIs(OctetsOf(ip));
    }
    if IsDotted(o, ip) {
      DottedIs(o);
      DecimalReads(o.a);
      DecimalReads(o.b);
      DecimalReads(o.c);
      DecimalReads(o.d);
      SplitJoin(Parts(o), ".");
    }
  }

  // ---------- Prefixes ----------

  lemma MaskIs(prefixLength: nat)
    requires prefixLength <= 32
    ensures MaskOf(prefixLength) + Pow2(32 - prefixLength) == WORD
  {
    PowWord();
    if prefixLength > 0 {
      PowWithin(32 - prefixLength, 32);
      OnesShifted(32 - prefixLength, Pow2(32 - prefixLength));
    }
  }

  lemma {:induction false} PowWithin(m: nat, n: nat)
    requires m <= n
    ensures Pow2(m) <= Pow2(n)
    decreases n
  {
    if m < n {
      PowWithin(m, n - 1);
    }
  }

  lemma OnesShifted(s: nat, p: int)
    requires s < 32 && Pow2(s) == p <= WORD
    ensures ToUint32(ShiftLeft(0xffff_ffff, s)) == WORD - p
  {
    assert ToInt32(0xffff_ffff) == -1 && ToUint32(s) % 32 == s;
    assert ShiftLeft(0xffff_ffff, s) == ToInt32(-1 * p);
    assert (-p) % WORD == WORD - p by {
      assert p > 0;
    }
  }

  lemma SameMultiple(x: nat, y: nat, d: nat)
    requires d > 0
    ensures x * d == y * d <==> x == y
  {
    if x < y {
      assert (y - x) * d > 0;
    } else if y < x {
      assert (x - y) * d > 0;
    }
  }

  ghost predicate Floor(x: int, d: int, q: int) { q * d <= x < q * d + d }

  lemma MaskedIs(x: nat, s: nat, mask: nat, d: nat, q: nat)
    requires s <= 32 && x < WORD && mask + d == WORD && d == Pow2(s) && Floor(x, d, q)
    ensures q * d < WORD && BitAnd(x, mask) == ToInt32(q * d)
  {
    AndMask(x, q, s, WordBits());
  }

  lemma WordsCompare(wx: int, wy: int, p: nat, q: nat, d: nat)
    requires d > 0 && p * d < WORD && q * d < WORD && wx == ToInt32(p * d) && wy == ToInt32(q * d)
    ensures wx == wy <==> p == q
  {
    ToInt32Injective(p * d, q * d);
    SameMultiple(p, q, d);
  }

  lemma MaskCompares(x: nat, y: nat, s: nat, mask: nat, d: nat, p: nat, q: nat)
    requires s <= 32 && x < WORD && y < WORD && mask + d == WORD && d == Pow2(s) && Floor(x, d, p) && Floor(y, d, q)
    ensures SameMasked(x, y, mask) <==> p == q
  {
    var wx, wy := BitAnd(x, mask), BitAnd(y, mask);
    assert p * d < WORD && wx == ToInt32(p * d) by { MaskedIs(x, s, mask, d, p); }
    assert q * d < WORD && wy == ToInt32(q * d) by { MaskedIs(y, s, mask, d, q); }
    WordsCompare(wx, wy, p, q, d);
  }

  lemma FloorExists(x: nat, d: nat) returns (q: nat)
    requires d > 0
    ensures Floor(x, d, q)
  {
    q := x / d;
    FloorIs(x, d);
  }

  lemma FloorUnique(x: nat, d: nat, p: nat, q: nat)
    requires d > 0 && Floor(x, d, p) && Floor(x, d, q)
    ensures p == q
  {
    DivIs(x, d, p);
    DivIs(x, d, q);
  }

  /** x and y lie between the same two multiples of d. */
  ghost predicate SameBlock(x: nat, y: nat, d: nat) { exists q: nat :: Floor(x, d, q) && Floor(y, d, q) }

  lemma SameBlockIff(x: nat, y: nat, d: nat, p: nat, q: nat)
    requires d > 0 && Floor(x, d, p) && Floor(y, d, q)
    ensures SameBlock(x, y, d) <==> p == q
  {
    if SameBlock(x, y, d) {
      var r: nat :| Floor(x, d, r) && Floor(y, d, r);
      FloorUnique(x, d, p, r);
      FloorUnique(y, d, q, r);
    }
  }

  /** A block is what an integer quotient keeps. */
  lemma BlockIsQuotient(x: nat, y: nat, d: nat)
    requires d > 0
    ensures SameBlock(x, y, d) <==> x / d == y / d
  {
    var p := FloorExists(x, d);
    var q := FloorExists(y, d);
    SameBlockIff(x, y, d, p, q);
    DivIs(x, d, p);
    DivIs(y, d, q);
  }

  lemma BlocksCompare(x: nat, y: nat, s: nat, mask: nat, d: nat)
    requires s <= 32 && x < WORD && y < WORD && mask + d == WORD && d == Pow2(s)
    ensures SameMasked(x, y, mask) <==> SameBlock(x, y, d)
  {
    var p := FloorExists(x, d);
    var q := FloorExists(y, d);
    MaskCompares(x, y, s, mask, d, p, q);
    SameBlockIff(x, y, d, p, q);
  }

  /**
   * Main result: for every prefix length the signed shift-and-mask test asks whether the two
   * addresses have the same leading bits, that is, the same block of 2^(32 - prefixLength)
   * addresses, as prefix notation means (section 3.1 of RFC 4632).
   */
  lemma RangeComparesPrefixes(ip: string, base: string, prefixLength: nat)
    requires prefixLength <= 32
    ensures InIpv4Range(ip, base, prefixLength)
       <==> SameBlock(Ipv4ToInt(ip), Ipv4ToInt(base), Pow2(32 - prefixLength))
  {
    PrefixesCompare(Ipv4ToInt(ip), Ipv4ToInt(base), prefixLength);
  }

  lemma PrefixesCompare(x: nat, y: nat, prefixLength: nat)
    requires prefixLength <= 32 && x < WORD && y < WORD
    ensures SameMasked(x, y, MaskOf(prefixLength)) <==> SameBlock(x, y, Pow2(32 - prefixLength))
  {
    MaskIs(prefixLength);
    BlocksCompare(x, y, 32 - prefixLength, MaskOf(prefixLength), Pow2(32 - prefixLength));
  }

  // ---------- The unsafe ranges ----------

  datatype Range = Range(base: Octets, prefixLength: nat)

  const IPV4_UNSAFE_RANGES := 11

  function UnsafeRange(i: nat): Range
    requires i < IPV4_UNSAFE_RANGES
  {
    match i
    case 0 => Range(Octets(0, 0, 0, 0), 8)
    case 1 => Range(Octets(10, 0, 0, 0), 8)
    case 2 => Range(Octets(100, 64, 0, 0), 10)
    case 3 => Range(Octets(127, 0, 0, 0), 8)
    case 4 => Range(Octets(169, 254, 0, 0), 16)
    case 5 => Range(Octets(172, 16, 0, 0), 12)
    case 6 => Range(Octets(192, 0, 0, 0), 24)
    case 7 => Range(Octets(192, 168, 0, 0), 16)
    case 8 => Range(Octets(198, 18, 0, 0), 15)
    case 9 => Range(Octets(224, 0, 0, 0), 4)
    case _ => Range(Octets(240, 0, 0, 0), 4)
  }

  predicate InUnsafeRange(ip: string, i: nat)
    requires i < IPV4_UNSAFE_RANGES
  {
    InIpv4Range(ip, Dotted(UnsafeRange(i).base), UnsafeRange(i).prefixLength)
  }

  predicate IsPrivateOrReservedIpv4(ip: string) {
    exists i :: 0 <= i < IPV4_UNSAFE_RANGES && InUnsafeRange(ip, i)
  }

  /** Whatever its base, a range is the interval of the block its base lies in. */
  lemma RangeIsInterval(ip: string, r: Range, size: nat, q: nat)
    requires ValidOctets(r.base) && r.prefixLength <= 32
    requires size == Pow2(32 - r.prefixLength) && Floor(Value(r.base), size, q)
    ensures InIpv4Range(ip, Dotted(r.base), r.prefixLength) <==> q * size <= Ipv4ToInt(ip) < q * size + size
  {
    DottedReads(r.base);
    RangeComparesPrefixes(ip, Dotted(r.base), r.prefixLength);
    var p := FloorExists(Ipv4ToInt(ip), size);
    SameBlockIff(Ipv4ToInt(ip), Value(r.base), size, p, q);
    if Floor(Ipv4ToInt(ip), size, q) {
      FloorUnique(Ipv4ToInt(ip), size, p, q);
    }
  }

  function SizeOf(r: Range): nat
    requires r.prefixLength <= 32
  {
    Pow2(32 - r.prefixLength)
  }

  /** The greatest multiple of d up to x. */
  function BlockStart(x: nat, d: nat): (start: nat)
    requires d > 0
    ensures start <= x < start + d
  {
    if x < d then 0 else d + BlockStart(x - d, d)
  }

  lemma {:induction false} BlockStartIs(x: nat, d: nat) returns (q: nat)
    requires d > 0
    ensures BlockStart(x, d) == q * d && Floor(x, d, q)
  {
    if x < d {
      q := 0;
    } else {
      var p := BlockStartIs(x - d, d);
      q := p + 1;
      assert q * d == p * d + d;
    }
  }

  ghost predicate InInterval(x: nat, r: Range)
    requires r.prefixLength <= 32
  {
    var first := BlockStart(Value(r.base), SizeOf(r));
    first <= x < first + SizeOf(r)
  }

  predicate InEntry(ip: string, r: Range) { InIpv4Range(ip, Dotted(r.base), r.prefixLength) }

  lemma BlockIsInterval(x: nat, y: nat, size: nat)
    requires size > 0
    ensures SameBlock(x, y, size) <==> BlockStart(y, size) <= x < BlockStart(y, size) + size
  {
    var q := BlockStartIs(y, size);
    var p := FloorExists(x, size);
    SameBlockIff(x, y, size, p, q);
    if Floor(x, size, q) {
      FloorUnique(x, size, p, q);
    }
  }

  lemma EntryIsInterval(ip: string, r: Range)
    requires ValidOctets(r.base) && r.prefixLength <= 32
    ensures InEntry(ip, r) <==> InInterval(Ipv4ToInt(ip), r)
  {
    DottedReads(r.base);
    RangeComparesPrefixes(ip, Dotted(r.base), r.prefixLength);
    BlockIsInterval(Ipv4ToInt(ip), Value(r.base), SizeOf(r));
  }

  /** For any range table, whatever its bases: membership is a union of integer intervals, one for each entry. */
  lemma TableIsUnionOfIntervals(ip: string, table: seq<Range>)
    requires forall i :: 0 <= i < |table| ==> ValidOctets(table[i].base) && table[i].prefixLength <= 32
    ensures (exists i :: 0 <= i < |table| && InEntry(ip, table[i]))
       <==> (exists i :: 0 <= i < |table| && InInterval(Ipv4ToInt(ip), table[i]))
  {
    forall i | 0 <= i < |table| ensures InEntry(ip, table[i]) <==> InInterval(Ipv4ToInt(ip), table[i]) {
      EntryIsInterval(ip, table[i]);
    }
  }

  lemma BlockSizes()
    ensures Pow2(4) == 0x10 && Pow2(8) == 0x100 && Pow2(16) == 0x1_0000 && Pow2(17) == 0x2_0000 && Pow2(20) == 0x10_0000
    ensures Pow2(22) == 0x40_0000 && Pow2(24) == 0x100_0000 && Pow2(28) == 0x1000_0000
  {
    PowSmall();
    PowWord();
    assert Pow2(17) == 2 * Pow2(16);
    PowAdd(16, 4);
    assert Pow2(22) == 2 * Pow2(21) && Pow2(21) == 2 * Pow2(20);
  }

  /** The networks the table's comment names, octet by octet. */
  predicate IsUnsafeNetwork(o: Octets) {
    || o.a == 0 || o.a == 10 || o.a == 127 || o.a >= 224
    || (o.a == 100 && 64 <= o.b < 128)
    || (o.a == 169 && o.b == 254)
    || (o.a == 172 && 16 <= o.b < 32)
    || (o.a == 192 && (o.b == 168 || (o.b == 0 && o.c == 0)))
    || (o.a == 198 && 18 <= o.b < 20)
  }

  /** The size of range i, and how many blocks of that size lie before it. */
  function BlockOf(i: nat): (nat, nat) {
    match i
    case 0 => (0x100_0000, 0)
    case 1 => (0x100_0000, 10)
    case 2 => (0x40_0000, 401)
    case 3 => (0x100_0000, 127)
    case 4 => (0x1_0000, 43518)
    case 5 => (0x10_0000, 2753)
    case 6 => (0x100, 12582912)
    case 7 => (0x1_0000, 49320)
    case 8 => (0x2_0000, 25353)
    case 9 => (0x1000_0000, 14)
    case _ => (0x1000_0000, 15)
  }

  predicate InBlock(x: nat, i: nat) {
    var (size, q) := BlockOf(i);
    q * size <= x < q * size + size
  }

  predicate InNetwork(o: Octets, i: nat) {
    match i
    case 0 => o.a == 0
    case 1 => o.a == 10
    case 2 => o.a == 100 && 64 <= o.b < 128
    case 3 => o.a == 127
    case 4 => o.a == 169 && o.b == 254
    case 5 => o.a == 172 && 16 <= o.b < 32
    case 6 => o.a == 192 && o.b == 0 && o.c == 0
    case 7 => o.a == 192 && o.b == 168
    case 8 => o.a == 198 && 18 <= o.b < 20
    case 9 => 224 <= o.a < 240
    case _ => 240 <= o.a
  }

  lemma TableBlock(i: nat)
    requires i < IPV4_UNSAFE_RANGES
    ensures var (size, q) := BlockOf(i);
      && ValidOctets(UnsafeRange(i).base) && UnsafeRange(i).prefixLength <= 32
      && Pow2(32 - UnsafeRange(i).prefixLength) == size
      && Value(UnsafeRange(i).base) == q * size
  {
    BlockSizes();
  }

  /** Every range of the table is an interval of addresses. */
  lemma UnsafeRangeIsInterval(ip: string, i: nat)
    requires i < IPV4_UNSAFE_RANGES
    ensures InUnsafeRange(ip, i) <==> InBlock(Ipv4ToInt(ip), i)
  {
    TableBlock(i);
    RangeIsInterval(ip, UnsafeRange(i), BlockOf(i).0, BlockOf(i).1);
  }

  lemma IntervalIsNetwork(o: Octets, i: nat)
    requires ValidOctets(o) && i < IPV4_UNSAFE_RANGES
    ensures InBlock(Value(o), i) <==> InNetwork(o, i)
  {
  }

  /** The refused addresses are a union of integer intervals. */
  lemma UnsafeIsUnionOfIntervals(ip: string)
    ensures IsPrivateOrReservedIpv4(ip) <==> exists i :: 0 <= i < IPV4_UNSAFE_RANGES && InBlock(Ipv4ToInt(ip), i)
  {
    forall i | 0 <= i < IPV4_UNSAFE_RANGES ensures InUnsafeRange(ip, i) <==> InBlock(Ipv4ToInt(ip), i) {
      UnsafeRangeIsInterval(ip, i);
    }
  }

  lemma NetworkIndex(o: Octets)
    requires ValidOctets(o)
    ensures IsUnsafeNetwork(o) <==> exists i :: 0 <= i < IPV4_UNSAFE_RANGES && InNetwork(o, i)
  {
    if IsUnsafeNetwork(o) {
      var i := if o.a == 0 then 0 else if o.a == 10 then 1 else if o.a == 100 then 2 else if o.a == 127 then 3
               else if o.a == 169 then 4 else if o.a == 172 then 5 else if o.a == 192 && o.b == 0 then 6
               else if o.a == 192 then 7 else if o.a == 198 then 8 else if o.a < 240 then 9 else 10;
      assert InNetwork(o, i);
    }
  }

  /** Main result: exactly the addresses of the named networks are refused. */
  lemma UnsafeAddressesAre(ip: string)
    requires IsIpv4(ip)
    ensures IsPrivateOrReservedIpv4(ip) <==> IsUnsafeNetwork(OctetsOf(ip))
  {
    Ipv4Reads(ip);
    forall i | 0 <= i < IPV4_UNSAFE_RANGES ensures InUnsafeRange(ip, i) <==> InNetwork(OctetsOf(ip), i) {
      UnsafeRangeIsInterval(ip, i);
      IntervalIsNetwork(OctetsOf(ip), i);
    }
    NetworkIndex(OctetsOf(ip));
  }

  // ---------- The check ----------

  datatype Url = Url(protocol: string, hostname: string)

  datatype Address = Address(address: string, family: int)

  /** URL parsing, IPv6 recognition, and the lookup, whose failure carries a message. */
  datatype World = World(
    parse: string -> Option<Url>,
    isIpv6: string -> bool,
    isLocalIpv6: string -> bool,
    mappedIpv4: string -> Option<string>,
    lookup: string -> Result<seq<Address>, string>)

  datatype Reason =
    | NotParseable
    | NotHttps(protocol: string)
    | LiteralIpv4(hostname: string)
    | LiteralIpv6(hostname: string)
    | ResolutionFailed(hostname: string, message: string)
    | NoAddresses(hostname: string)
    | ResolvesTo(hostname: string, address: string)

  datatype Check = Check(safe: bool, reason: Option<Reason>)

  function Safe(): Check { Check(true, None) }
  function Refused(reason: Reason): Check { Check(false, Some(reason)) }

  predicate IsPrivateOrReservedIpv6(w: World, ip: string) {
    w.isLocalIpv6(ip) || (w.mappedIpv4(ip).Some? && IsPrivateOrReservedIpv4(w.mappedIpv4(ip).value))
  }

  predicate IsUnsafeAddress(w: World, address: string, family: int) {
    if family == 4 then IsPrivateOrReservedIpv4(address) else IsPrivateOrReservedIpv6(w, address)
  }

  type Test = (string, int) -> bool

  /** Entries of another family are passed over. */
  predicate Fails(isUnsafe: Test, a: Address) { (a.family == 4 || a.family == 6) && isUnsafe(a.address, a.family) }

  /** Position of the first unsafe address. */
  function FirstUnsafe(isUnsafe: Test, addresses: seq<Address>, i: nat): Option<nat>
    requires i <= |addresses|
    decreases |addresses| - i
  {
    if i == |addresses| then None
    else if Fails(isUnsafe, addresses[i]) then Some(i)
    else FirstUnsafe(isUnsafe, addresses, i + 1)
  }

  method CheckAddresses(isUnsafe: Test, hostname: string, addresses: seq<Address>) returns (c: Check)
    ensures c == match FirstUnsafe(isUnsafe, addresses, 0)
                 case None => Safe()
                 case Some(k) => if k < |addresses| then Refused(ResolvesTo(hostname, addresses[k].address)) else Safe()
  {
    for i := 0 to |addresses|
      invariant FirstUnsafe(isUnsafe, addresses, 0) == FirstUnsafe(isUnsafe, addresses, i)
    {
      var Address(address, family) := addresses[i];
      if family != 4 && family != 6 {
        continue;
      }
      if isUnsafe(address, family) {
        return Refused(ResolvesTo(hostname, address));
      }
    }
    return Safe();
  }

  lemma {:induction false} FirstUnsafeIs(isUnsafe: Test, addresses: seq<Address>, i: nat)
    requires i <= |addresses|
    ensures match FirstUnsafe(isUnsafe, addresses, i)
            case None => forall j :: i <= j < |addresses| ==> !Fails(isUnsafe, addresses[j])
            case Some(k) => i <= k < |addresses| && Fails(isUnsafe, addresses[k])
                            && forall j :: i <= j < k ==> !Fails(isUnsafe, addresses[j])
    decreases |addresses| - i
  {
    if i < |addresses| && !Fails(isUnsafe, addresses[i]) {
      FirstUnsafeIs(isUnsafe, addresses, i + 1);
    }
  }

  function UnsafeIn(w: World): Test { (address, family) => IsUnsafeAddress(w, address, family) }

  ghost predicate IsAddress(ip: string) { exists o :: IsDotted(o, ip) }

  ghost predicate InNamedNetwork(ip: string) { exists o :: IsDotted(o, ip) && IsUnsafeNetwork(o) }

  /** What the table refuses: an address of the named networks, or another text that is read into one of its intervals. */
  ghost predicate UnsafeIpv4(ip: string) {
    if IsAddress(ip) then InNamedNetwork(ip) else exists i :: 0 <= i < 11 && InBlock(Ipv4ToInt(ip), i)
  }

  ghost predicate UnsafeIpv6(w: World, ip: string) {
    w.isLocalIpv6(ip) || exists mapped: string :: w.mappedIpv4(ip) == Some(mapped) && UnsafeIpv4(mapped)
  }

  /** An entry of another family is never unsafe. */
  ghost predicate UnsafeEntry(w: World, a: Address) {
    (a.family == 4 && UnsafeIpv4(a.address)) || (a.family == 6 && UnsafeIpv6(w, a.address))
  }

  lemma AddressIs(ip: string)
    ensures IsIpv4(ip) <==> IsAddress(ip)
    ensures IsAddress(ip) ==> (IsPrivateOrReservedIpv4(ip) <==> InNamedNetwork(ip))
  {
    Ipv4Iff(ip, OctetsOf(ip));
    if o :| IsDotted(o, ip) {
      Ipv4Iff(ip, o);
    }
    if o :| IsDotted(o, ip) && IsUnsafeNetwork(o) {
      Ipv4Iff(ip, o);
    }
    if IsIpv4(ip) {
      UnsafeAddressesAre(ip);
    }
  }

  lemma UnsafeIpv4Is(ip: string)
    ensures IsPrivateOrReservedIpv4(ip) <==> UnsafeIpv4(ip)
  {
    AddressIs(ip);
    UnsafeIsUnionOfIntervals(ip);
  }

  lemma UnsafeIpv6Is(w: World, ip: string)
    ensures IsPrivateOrReservedIpv6(w, ip) <==> UnsafeIpv6(w, ip)
  {
    if w.mappedIpv4(ip).Some? {
      UnsafeIpv4Is(w.mappedIpv4(ip).value);
      assert w.mappedIpv4(ip) == Some(w.mappedIpv4(ip).value);
    }
  }

  lemma UnsafeEntryIs(w: World, a: Address)
    ensures Fails(UnsafeIn(w), a) <==> UnsafeEntry(w, a)
  {
    UnsafeIpv4Is(a.address);
    UnsafeIpv6Is(w, a.address);
  }

  /** A resolved list is acceptable when it is not empty and holds no unsafe address. */
  ghost predicate SafeAddresses(w: World, addresses: seq<Address>) {
    |addresses| > 0 && forall i :: 0 <= i < |addresses| ==> !UnsafeEntry(w, addresses[i])
  }

  ghost predicate SafeHost(w: World, hostname: string) {
    if IsAddress(hostname) then !InNamedNetwork(hostname)
    else if w.isIpv6(hostname) then !UnsafeIpv6(w, hostname)
    else exists addresses: seq<Address> :: w.lookup(hostname) == Ok(addresses) && SafeAddresses(w, addresses)
  }

  /** Why a host is refused; of several unsafe addresses the first is named. */
  ghost predicate HostJustified(w: World, hostname: string, reason: Reason) {
    if IsAddress(hostname) then reason == LiteralIpv4(hostname)
    else if w.isIpv6(hostname) then reason == LiteralIpv6(hostname)
    else
      match w.lookup(hostname)
      case Thrown(message) => reason == ResolutionFailed(hostname, message)
      case Ok(addresses) =>
        if |addresses| == 0 then reason == NoAddresses(hostname)
        else exists k :: 0 <= k < |addresses| && reason == ResolvesTo(hostname, addresses[k].address)
                         && UnsafeEntry(w, addresses[k]) && forall j :: 0 <= j < k ==> !UnsafeEntry(w, addresses[j])
  }

  /** The reason given is the first that holds. */
  ghost predicate Justified(w: World, parsed: Option<Url>, reason: Reason) {
    match parsed
    case None => reason == NotParseable
    case Some(Url(protocol, hostname)) => if protocol != "https:" then reason == NotHttps(protocol) else HostJustified(w, hostname, reason)
  }

  /** The outcome of the check for a host. */
  ghost predicate HostChecked(w: World, hostname: string, c: Check) {
    (c.safe <==> SafeHost(w, hostname)) && (c.safe <==> c.reason == None) && forall r :: c.reason == Some(r) ==> HostJustified(w, hostname, r)
  }

  lemma Ipv4Host(w: World, hostname: string)
    ensures IsIpv4(hostname) <==> IsAddress(hostname)
    ensures IsIpv4(hostname) ==> HostChecked(w, hostname, if IsPrivateOrReservedIpv4(hostname) then Refused(LiteralIpv4(hostname)) else Safe())
  {
    AddressIs(hostname);
  }

  lemma Ipv6Host(w: World, hostname: string)
    requires !IsAddress(hostname) && w.isIpv6(hostname)
    ensures HostChecked(w, hostname, if IsPrivateOrReservedIpv6(w, hostname) then Refused(LiteralIpv6(hostname)) else Safe())
  {
    UnsafeIpv6Is(w, hostname);
  }

  lemma EntriesAre(w: World, addresses: seq<Address>)
    ensures match FirstUnsafe(UnsafeIn(w), addresses, 0)
            case None => forall j :: 0 <= j < |addresses| ==> !UnsafeEntry(w, addresses[j])
            case Some(k) => k < |addresses| && UnsafeEntry(w, addresses[k]) && forall j :: 0 <= j < k ==> !UnsafeEntry(w, addresses[j])
  {
    FirstUnsafeIs(UnsafeIn(w), addresses, 0);
    forall j | 0 <= j < |addresses| ensures Fails(UnsafeIn(w), addresses[j]) <==> UnsafeEntry(w, addresses[j]) {
      UnsafeEntryIs(w, addresses[j]);
    }
  }

  /** The check of the host itself, a literal address or a name to look up. */
  method CheckHost(w: World, hostname: string) returns (c: Check)
    ensures HostChecked(w, hostname, c)
  {
    Ipv4Host(w, hostname);
    if IsIpv4(hostname) {
      return if IsPrivateOrReservedIpv4(hostname) then Refused(LiteralIpv4(hostname)) else Safe();
    }
    if w.isIpv6(hostname) {
      Ipv6Host(w, hostname);
      return if IsPrivateOrReservedIpv6(w, hostname) then Refused(LiteralIpv6(hostname)) else Safe();
    }
    var resolved := w.lookup(hostname);
    if resolved.Thrown? {
      return Refused(ResolutionFailed(hostname, resolved.error));
    }
    if |resolved.value| == 0 {
      return Refused(NoAddresses(hostname));
    }
    EntriesAre(w, resolved.value);
    assert w.lookup(hostname) == Ok(resolved.value);
    c := CheckAddresses(UnsafeIn(w), hostname, resolved.value);
  }

  method CheckWebhookDispatchUrlIsSafe(w: World, rawUrl: string) returns (c: Check)
    ensures c.safe <==> c.reason.None?
    ensures c.safe <==> w.parse(rawUrl).Some? && w.parse(rawUrl).value.protocol == "https:"
                        && SafeHost(w, w.parse(rawUrl).value.hostname)
    ensures c.reason.Some? ==> Justified(w, w.parse(rawUrl), c.reason.value)
  {
    var parsed := w.parse(rawUrl);
    if parsed.None? {
      return Refused(NotParseable);
    }
    var url := parsed.value;
    if url.protocol != "https:" {
      return Refused(NotHttps(url.protocol));
    }
    c := CheckHost(w, url.hostname);
  }

  ghost predicate SomeUnsafe(w: World, addresses: seq<Address>) {
    exists i :: 0 <= i < |addresses| && UnsafeEntry(w, addresses[i])
  }

  /**
   * Neither the order of the resolved entries nor those of another family matter, as long as both
   * lists are empty or neither is, or an unsafe address refuses both anyway.
   */
  lemma OrderIsIrrelevant(w: World, a: seq<Address>, b: seq<Address>)
    requires forall x :: x in a && (x.family == 4 || x.family == 6) <==> x in b && (x.family == 4 || x.family == 6)
    ensures (SafeAddresses(w, a) <==> SafeAddresses(w, b)) <==> (a == [] <==> b == []) || SomeUnsafe(w, a)
  {
    SameUnsafe(w, a, b);
    SameUnsafe(w, b, a);
  }

  lemma SameUnsafe(w: World, a: seq<Address>, b: seq<Address>)
    requires forall x :: x in a && (x.family == 4 || x.family == 6) ==> x in b
    ensures SomeUnsafe(w, a) ==> SomeUnsafe(w, b)
  {
    if SomeUnsafe(w, a) {
      var i :| 0 <= i < |a| && UnsafeEntry(w, a[i]);
      assert a[i] in a && a[i] in b;
      var j :| 0 <= j < |b| && b[j] == a[i];
      assert UnsafeEntry(w, b[j]);
    }
  }
}
