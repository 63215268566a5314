/**
 IPv4 CIDR arithmetic (hostd/src/net/cidr.rs) and the guest MAC derived from an address
 (hostd/src/net/types.rs). Addresses are 32-bit words; every shift, product and sum is typed
 `u32`, so that a subnet or host address that overflows would not verify.
 */
module Cidr {

  import opened Arith

  type u32 = x: int | 0 <= x < 0x1_0000_0000

  function Pow2(n: nat): (r: nat)
    ensures r > 0
  {
    if n == 0 then 1 else 2 * Pow2(n - 1)
  }

  lemma {:induction false} Pow2Add(a: nat, b: nat)
    ensures Pow2(a + b) == Pow2(a) * Pow2(b)
  {
    if a > 0 {
      Pow2Add(a - 1, b);
      assert Pow2(a + b) == 2 * Pow2(a + b - 1);
      assert 2 * (Pow2(a - 1) * Pow2(b)) == (2 * Pow2(a - 1)) * Pow2(b);
    }
  }

  /** A word has 32 bits, however they are split. */
  lemma WordSplit(a: nat)
    requires a <= 32
    ensures Pow2(a) * Pow2(32 - a) == 0x1_0000_0000
  {
    Pow2Add(a, 32 - a);
    Word();
  }

  lemma Word()
    ensures Pow2(32) == 0x1_0000_0000
  {
    var two := 2;
    assert Pow2(two) == 4;
    Pow2Add(two, two);
    Pow2Add(two + two, two + two);
    Pow2Add(4 * two, 4 * two);
    Pow2Add(8 * two, 8 * two);
  }

  lemma Pow2Mono(a: nat, b: nat)
    requires a <= b
    ensures Pow2(a) <= Pow2(b)
  {
  }

  /** A /`prefix` network, `addr` being its lowest address. */
  datatype Ipv4Net = Ipv4Net(addr: u32, prefix: nat)

  /** `a` is a whole number of blocks. */
  predicate Aligned(a: nat, block: nat) {
    a == 0 || (0 < block <= a && Aligned(a - block, block))
  }

  lemma {:induction false} AlignedIff(a: nat, block: nat)
    requires block > 0
    ensures Aligned(a, block) <==> a % block == 0
  {
    if block <= a {
      AlignedIff(a - block, block);
      AddBlock(a - block, block);
    }
  }

  lemma AddBlock(a: nat, block: nat)
    requires block > 0
    ensures (a + block) % block == a % block
  {
    var q, r := a / block, a % block;
    assert a == block * q + r;
    assert a + block == block * (q + 1) + r;
    DivModUnique(block, q + 1, r);
  }

  predicate Valid(n: Ipv4Net) {
    1 <= n.prefix <= 32 && Aligned(n.addr, Pow2(32 - n.prefix))
  }

  predicate Contains(n: Ipv4Net, ip: u32)
    requires Valid(n)
  {
    n.addr <= ip < n.addr + Size(n)
  }

  /** Clearing the low bits: `addr & (MAX << (32 - prefix))`. */
  function Masked(addr: u32, prefix: nat): (r: Ipv4Net)
    requires 1 <= prefix <= 32
    ensures Valid(r) && Contains(r, addr)
  {
    var block := Pow2(32 - prefix);
    MaskFacts(addr, block);
    Ipv4Net(addr - addr % block, prefix)
  }

  lemma MaskFacts(addr: nat, block: nat)
    requires block > 0
    ensures 0 <= addr % block < block && addr % block <= addr && Aligned(addr - addr % block, block)
  {
    assert addr == block * (addr / block) + addr % block;
    DivModUnique(block, addr / block, 0);
    AlignedIff(addr - addr % block, block);
  }

  /** A multiple of a block size below the end of the word leaves room for the whole block. */
  lemma BlockFits(addr: nat, block: nat, n: nat)
    requires block > 0 && Aligned(addr, block) && addr < block * n
    ensures addr + block <= block * n
  {
    AlignedIff(addr, block);
    var q := addr / block;
    assert addr == block * q;
    MulGap(block, n, q);
    MulGap(block, q, n);
  }

  lemma SizeFits(n: Ipv4Net)
    requires Valid(n)
    ensures Pow2(32 - n.prefix) < 0x1_0000_0000 && n.addr + Pow2(32 - n.prefix) <= 0x1_0000_0000
  {
    Word();
    Pow2Mono(32 - n.prefix, 31);
    WordSplit(32 - n.prefix);
    hide Pow2, Aligned;
    BlockFits(n.addr, Pow2(32 - n.prefix), Pow2(n.prefix));
  }

  function Size(n: Ipv4Net): (r: u32)
    requires Valid(n)
    ensures r == Pow2(32 - n.prefix) && n.addr + r <= 0x1_0000_0000
  {
    SizeFits(n);
    Pow2(32 - n.prefix)
  }

  function Host(n: Ipv4Net, idx: u32): (ip: u32)
    requires Valid(n) && idx < Size(n)
    ensures Contains(n, ip)
  {
    n.addr + idx
  }

  function SubnetCount(n: Ipv4Net, prefix: nat): u32
    requires Valid(n) && n.prefix < prefix <= 32
  {
    Pow2Mono(prefix - n.prefix, 31);
    Word();
    Pow2(prefix - n.prefix)
  }

  /** The subnets fill the network. */
  lemma CountTimesBlock(n: Ipv4Net, prefix: nat)
    requires Valid(n) && n.prefix < prefix <= 32
    ensures Pow2(32 - prefix) * SubnetCount(n, prefix) == Size(n)
  {
    Pow2Add(32 - prefix, prefix - n.prefix);
  }

  /** A product, as repeated addition. */
  function Times(a: nat, k: nat): nat {
    if k == 0 then 0 else Times(a, k - 1) + a
  }

  lemma {:induction false} TimesIs(a: nat, k: nat)
    ensures Times(a, k) == a * k
  {
    if k > 0 {
      TimesIs(a, k - 1);
      assert a * k == a * (k - 1) + a;
    }
  }

  lemma SubnetFits(addr: nat, size: nat, block: nat, count: nat, index: nat)
    requires block > 0 && block * count == size > 0 && Aligned(addr, size) && index < count
    ensures block * index + block <= size && Aligned(addr + block * index, block)
  {
    AlignedIff(addr, size);
    MulGap(block, index, count);
    var q := addr / size;
    assert addr == (block * count) * q;
    MulAssoc(block, count, q);
    assert addr + block * index == block * (count * q + index);
    DivModUnique(block, count * q + index, 0);
    AlignedIff(addr + block * index, block);
  }

  function Subnet(n: Ipv4Net, index: u32, prefix: nat): (r: Ipv4Net)
    requires Valid(n) && n.prefix < prefix <= 32 && index < SubnetCount(n, prefix)
    ensures r.prefix == prefix && Valid(r)
    ensures n.addr <= r.addr && r.addr + Size(r) <= n.addr + Size(n)
  {
    CountTimesBlock(n, prefix);
    TimesIs(Pow2(32 - prefix), index);
    SubnetFits(n.addr, Size(n), Pow2(32 - prefix), SubnetCount(n, prefix), index);
    var offset: u32 := Times(Pow2(32 - prefix), index);
    Ipv4Net(n.addr + offset, prefix)
  }

  lemma SubnetStart(n: Ipv4Net, index: u32, prefix: nat)
    requires Valid(n) && n.prefix < prefix <= 32 && index < SubnetCount(n, prefix)
    ensures Subnet(n, index, prefix).addr == n.addr + Pow2(32 - prefix) * index
  {
    TimesIs(Pow2(32 - prefix), index);
  }

  /** Subnets with different indices are disjoint ranges, in index order. */
  lemma SubnetsDisjoint(n: Ipv4Net, prefix: nat, i: u32, j: u32)
    requires Valid(n) && n.prefix < prefix <= 32 && i < j < SubnetCount(n, prefix)
    ensures Subnet(n, i, prefix).addr + Size(Subnet(n, i, prefix)) <= Subnet(n, j, prefix).addr
  {
    hide Subnet, Valid;
    SubnetStart(n, i, prefix);
    SubnetStart(n, j, prefix);
    MulGap(Pow2(32 - prefix), i, j);
  }

  lemma BlockIndex(offset: nat, block: nat, count: nat)
    requires 0 < block && offset < block * count
    ensures offset / block < count && block * (offset / block) <= offset < block * (offset / block) + block
  {
    assert offset == block * (offset / block) + offset % block;
    MulGap(block, count, offset / block);
  }

  /** Together they are the whole network: every address lies in the subnet its offset names. */
  lemma SubnetsCover(n: Ipv4Net, prefix: nat, ip: u32) returns (index: u32)
    requires Valid(n) && n.prefix < prefix <= 32 && Contains(n, ip)
    ensures index < SubnetCount(n, prefix) && Contains(Subnet(n, index, prefix), ip)
  {
    hide Subnet, SubnetCount, Valid, Pow2, Aligned, Size, Times;
    var block := Pow2(32 - prefix);
    CountTimesBlock(n, prefix);
    BlockIndex(ip - n.addr, block, SubnetCount(n, prefix));
    index := (ip - n.addr) / block;
    SubnetStart(n, index, prefix);
  }

  /**
   An index loaded from elsewhere need not be one of this network's: its subnet's address fits the word
   if and only if the index is below the number of blocks from the network's start to the word's end.
   */
  lemma LoadedIndexFitsIff(n: Ipv4Net, prefix: nat, index: nat)
    requires Valid(n) && n.prefix < prefix <= 32
    ensures n.addr + Pow2(32 - prefix) * index < 0x1_0000_0000
            <==> index < (0x1_0000_0000 - n.addr) / Pow2(32 - prefix)
  {
    var block := Pow2(32 - prefix);
    BlocksLeft(n, prefix);
    hide *;
    FloorIff(block, 0x1_0000_0000 - n.addr, index);
  }

  lemma FloorIff(block: nat, room: nat, index: nat)
    requires block > 0 && room % block == 0
    ensures block * index < room <==> index < room / block
  {
    var q := room / block;
    assert room == block * q;
    MulGap(block, index, q);
    MulGap(block, q, index);
  }

  lemma BlocksLeft(n: Ipv4Net, prefix: nat)
    requires Valid(n) && n.prefix < prefix <= 32
    ensures (0x1_0000_0000 - n.addr) % Pow2(32 - prefix) == 0
  {
    var block, size, q := Pow2(32 - prefix), Pow2(32 - n.prefix), Pow2(prefix - n.prefix);
    AlignedIff(n.addr, size);
    Pow2Add(32 - prefix, prefix - n.prefix);
    WordSplit(32 - n.prefix);
    hide Pow2, Aligned;
    Multiple(n.addr, size, block, q, Pow2(n.prefix));
  }

  lemma Multiple(addr: nat, size: nat, block: nat, q: nat, blocks: nat)
    requires size == block * q > 0 && size * blocks == 0x1_0000_0000 && addr % size == 0 && addr < 0x1_0000_0000
    ensures block > 0 && (0x1_0000_0000 - addr) % block == 0
  {
    var k := addr / size;
    assert addr == size * k;
    MulGap(size, blocks, k);
    var left := blocks - k;
    assert 0x1_0000_0000 - addr == size * left;
    MulAssoc(block, q, left);
    DivModUnique(block, q * left, 0);
  }

  // ----- the guest MAC -----

  function HexDigit(d: int): char
    requires 0 <= d < 16
  {
    "0123456789ABCDEF"[d]
  }

  function Hex2(b: int): (s: string)
    requires 0 <= b < 256
    ensures |s| == 2
  {
    [HexDigit(b / 16), HexDigit(b % 16)]
  }

  /** The low `k` octets of `n`, highest first, each in two digits behind a colon. */
  function Octets(n: nat, k: nat): (s: string)
    ensures |s| == 3 * k
  {
    if k == 0 then "" else Octets(n / 256, k - 1) + ":" + Hex2(n % 256)
  }

  function MacFromIp(ip: u32): string {
    "AA:FC" + Octets(ip, 4)
  }

  /** The digits are `0` to `9` and `A` to `F`. */
  lemma HexDigits(d: nat)
    requires d < 16
    ensures HexDigit(d) as int == if d < 10 then '0' as int + d else 'A' as int + (d - 10)
  {
  }

  /** One octet of the MAC, behind its colon. */
  function Group(b: int): string
    requires 0 <= b < 256
  {
    ":" + Hex2(b)
  }

  /** One octet more appends its two digits. */
  lemma OctetsMore(high: nat, low: nat, k: nat, n: nat)
    requires low < 256 && n == high * 256 + low
    ensures Octets(n, k + 1) == Octets(high, k) + Group(low)
  {
    assert n / 256 == high && n % 256 == low;
    assert Octets(n, k + 1) == Octets(high, k) + ":" + Hex2(low) && Group(low) == ":" + Hex2(low);
    hide *;
    Regroup(Octets(high, k), ":", Hex2(low));
  }

  lemma Regroup(a: string, b: string, c: string)
    ensures a + b + c == a + (b + c)
  {
  }

  lemma OctetsTwo(high: nat, a: nat, b: nat, k: nat, n: nat)
    requires a < 256 && b < 256 && n == (high * 256 + a) * 256 + b
    ensures Octets(n, k + 2) == Octets(high, k) + (Group(a) + Group(b))
  {
    hide *;
    OctetsMore(high, a, k, high * 256 + a);
    OctetsMore(high * 256 + a, b, k + 1, n);
    Regroup(Octets(high, k), Group(a), Group(b));
  }

  /** The MAC holds the address's four octets in order, each in two digits behind a colon. */
  lemma MacOctets(a: nat, b: nat, c: nat, d: nat, ip: u32)
    requires a < 256 && b < 256 && c < 256 && d < 256 && ip == ((a * 256 + b) * 256 + c) * 256 + d
    ensures MacFromIp(ip) == "AA:FC" + (Group(a) + Group(b) + (Group(c) + Group(d)))
  {
    var n := a * 256 + b;
    assert MacFromIp(ip) == "AA:FC" + Octets(ip, 4) && Octets(0, 0) == "";
    hide *;
    OctetsTwo(0, a, b, 0, n);
    OctetsTwo(n, c, d, 2, ip);
    assert "" + (Group(a) + Group(b)) == Group(a) + Group(b);
  }

  /** `172.16.0.2` */
  lemma MacExample()
    ensures MacFromIp(0xAC10_0002) == "AA:FC" + (":AC" + ":10" + (":00" + ":02"))
  {
    MacOctets(172, 16, 0, 2, 0xAC10_0002);
    HexExamples();
    hide Group, MacFromIp;
  }

  lemma HexExamples()
    ensures Group(172) == ":AC" && Group(16) == ":10" && Group(0) == ":00" && Group(2) == ":02"
  {
  }

  predicate FitsOctets(n: nat, k: nat) {
    if k == 0 then n == 0 else FitsOctets(n / 256, k - 1)
  }

  lemma {:induction false} OctetsInjective(a: nat, b: nat, k: nat)
    requires FitsOctets(a, k) && FitsOctets(b, k) && Octets(a, k) == Octets(b, k)
    ensures a == b
  {
    if k > 0 {
      var s, t := Octets(a, k), Octets(b, k);
      assert s[..3 * k - 3] == Octets(a / 256, k - 1) && t[..3 * k - 3] == Octets(b / 256, k - 1);
      assert s[3 * k - 2..] == Hex2(a % 256) && t[3 * k - 2..] == Hex2(b % 256);
      OctetsInjective(a / 256, b / 256, k - 1);
      assert Hex2(a % 256)[0] == Hex2(b % 256)[0] && Hex2(a % 256)[1] == Hex2(b % 256)[1];
      HexInjective(a % 256, b % 256);
    }
  }

  lemma HexInjective(a: int, b: int)
    requires 0 <= a < 256 && 0 <= b < 256
    requires HexDigit(a / 16) == HexDigit(b / 16) && HexDigit(a % 16) == HexDigit(b % 16)
    ensures a == b
  {
    assert forall d, e :: 0 <= d < 16 && 0 <= e < 16 && HexDigit(d) == HexDigit(e) ==> d == e;
  }

  lemma WordFits(ip: u32)
    ensures FitsOctets(ip, 4)
  {
    assert FitsOctets(ip / 256 / 256 / 256 / 256, 0);
    assert FitsOctets(ip / 256 / 256 / 256, 1);
    assert FitsOctets(ip / 256 / 256, 2);
  }

  /** Different addresses have different MACs. */
  lemma MacInjective(a: u32, b: u32)
    requires MacFromIp(a) == MacFromIp(b)
    ensures a == b
  {
    WordFits(a);
    WordFits(b);
    assert MacFromIp(a)[5..] == Octets(a, 4) && MacFromIp(b)[5..] == Octets(b, 4);
    OctetsInjective(a, b, 4);
  }
}
