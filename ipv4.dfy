/** IPv4 addresses and subnets: membership by prefix mask, the two addresses a
    subnet reserves, and the dotted-decimal form used in error messages. */
module IPv4 {
  import opened Text

  /** An IPv4 address as its 32 bits, most significant byte first. */
  type Addr = bv32

  type PrefixLen = p: nat | p <= 32

  /** A CIDR block: a base address and the number of leading network bits. */
  datatype Subnet = Subnet(base: Addr, prefixLen: PrefixLen)

  /** The netmask of a prefix length: `p` one bits followed by zero bits. */
  function Mask(p: PrefixLen): Addr
  {
    if p == 0 then 0 else 0xFFFF_FFFF << (32 - p)
  }

  /** Whether `a` lies in subnet `s`: it agrees with the base on every network bit. */
  predicate Contains(s: Subnet, a: Addr)
  {
    a & Mask(s.prefixLen) == s.base & Mask(s.prefixLen)
  }

  /** The subnet's all-zeros host address. */
  function NetworkOf(s: Subnet): Addr
  {
    s.base & Mask(s.prefixLen)
  }

  /** The subnet's all-ones host address. */
  function BroadcastOf(s: Subnet): Addr
  {
    NetworkOf(s) | !Mask(s.prefixLen)
  }

  /** The network and broadcast addresses both lie in the subnet. */
  lemma ReservedAddressesInSubnet(s: Subnet)
    ensures Contains(s, NetworkOf(s)) && Contains(s, BroadcastOf(s))
  {
  }

  /** Byte `k` of the address as bits, counting from the most significant. */
  function OctetBits(a: Addr, k: nat): (b: bv32)
    requires k < 4
    ensures b <= 0xFF
  {
    if k == 0 then (a >> 24) & 0xFF
    else if k == 1 then (a >> 16) & 0xFF
    else if k == 2 then (a >> 8) & 0xFF
    else a & 0xFF
  }

  /** Byte `k` of the address as a number. */
  function Octet(a: Addr, k: nat): (o: nat)
    requires k < 4
    ensures o < 256
  {
    var b := OctetBits(a, k);
    assert b as int <= 0xFF;
    b as int
  }

  /** The four bytes, shifted back into place, are the address. */
  lemma OctetsRebuild(a: Addr)
    ensures a == (OctetBits(a, 0) << 24) | (OctetBits(a, 1) << 16) | (OctetBits(a, 2) << 8) | OctetBits(a, 3)
  {
  }

  lemma BitsAsIntInjective(x: bv32, y: bv32)
    requires x as int == y as int
    ensures x == y
  {
    assert x == (x as int) as bv32;
    assert y == (y as int) as bv32;
  }

  /** Addresses with the same four bytes are the same address. */
  lemma {:induction false} OctetsDetermine(a: Addr, b: Addr)
    requires Octet(a, 0) == Octet(b, 0) && Octet(a, 1) == Octet(b, 1)
    requires Octet(a, 2) == Octet(b, 2) && Octet(a, 3) == Octet(b, 3)
    ensures a == b
  {
    BitsAsIntInjective(OctetBits(a, 0), OctetBits(b, 0));
    BitsAsIntInjective(OctetBits(a, 1), OctetBits(b, 1));
    BitsAsIntInjective(OctetBits(a, 2), OctetBits(b, 2));
    BitsAsIntInjective(OctetBits(a, 3), OctetBits(b, 3));
    OctetsRebuild(a);
    OctetsRebuild(b);
  }

  /** The dotted-decimal form "b0.b1.b2.b3" in which Go prints an IPv4 address. */
  function Dotted(a: Addr): string
  {
    DecimalString(Octet(a, 0)) + "." + DecimalString(Octet(a, 1)) + "." +
    DecimalString(Octet(a, 2)) + "." + DecimalString(Octet(a, 3))
  }

  /** A printed number holds no dot. */
  lemma NoDotInDecimal(n: nat)
    ensures '.' !in DecimalString(n)
  {
  }

  /** Printing is injective on numbers. */
  lemma DecimalInjective(m: nat, n: nat)
    requires DecimalString(m) == DecimalString(n)
    ensures m == n
  {
    DecimalRoundTrip(m);
    DecimalRoundTrip(n);
  }

  /** A string ending in ".y", with no dot in y, determines what precedes the
      last dot and what follows it. */
  lemma LastDotUnique(x1: string, y1: string, x2: string, y2: string)
    requires '.' !in y1 && '.' !in y2
    requires x1 + "." + y1 == x2 + "." + y2
    ensures x1 == x2 && y1 == y2
  {
    RSplitJoined(x1, '.', y1);
    RSplitJoined(x2, '.', y2);
  }

  /** Different addresses print differently, so the address in an error
      message identifies the address that was rejected. */
  lemma {:induction false} DottedInjective(a: Addr, b: Addr)
    requires Dotted(a) == Dotted(b)
    ensures a == b
  {
    var a0, a1, a2, a3 := DecimalString(Octet(a, 0)), DecimalString(Octet(a, 1)), DecimalString(Octet(a, 2)), DecimalString(Octet(a, 3));
    var b0, b1, b2, b3 := DecimalString(Octet(b, 0)), DecimalString(Octet(b, 1)), DecimalString(Octet(b, 2)), DecimalString(Octet(b, 3));
    NoDotInDecimal(Octet(a, 1)); NoDotInDecimal(Octet(a, 2)); NoDotInDecimal(Octet(a, 3));
    NoDotInDecimal(Octet(b, 1)); NoDotInDecimal(Octet(b, 2)); NoDotInDecimal(Octet(b, 3));
    LastDotUnique(a0 + "." + a1 + "." + a2, a3, b0 + "." + b1 + "." + b2, b3);
    LastDotUnique(a0 + "." + a1, a2, b0 + "." + b1, b2);
    LastDotUnique(a0, a1, b0, b1);
    DecimalInjective(Octet(a, 0), Octet(b, 0));
    DecimalInjective(Octet(a, 1), Octet(b, 1));
    DecimalInjective(Octet(a, 2), Octet(b, 2));
    DecimalInjective(Octet(a, 3), Octet(b, 3));
    OctetsDetermine(a, b);
  }
}
