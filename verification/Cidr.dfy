// IPv4 blocks: overlap, the choice of a free /24, and the two ways the program tests that an
// address is in a subnet (src/hostNetwork/subnetSelection.ts,
// src/guestSetup/windows/isolatedReadiness.ts, src/runHosting/ip.ts).
module Cidr {
  import opened Collections
  import opened Ip
  import opened DhcpLeases

  type Prefix = p: nat | p <= 32

  datatype TakenRange = TakenRange(network: Address, prefixLength: Prefix)

  function PrefixMask(p: Prefix): Address {
    if p == 0 then 0 else ShiftLeft(0xffff_ffff, 32 - p)
  }

  function BlockSize(p: Prefix): (size: nat)
    ensures size > 0
  {
    Pow2(32 - p)
  }

  // --- Masks -----------------------------------------------------------------------------------------

  lemma {:induction false} PowersGrow(j: nat, k: nat)
    requires j <= k
    ensures Pow2(j) <= Pow2(k)
  {
    if j < k { PowersGrow(j, k - 1); }
  }

  lemma SizeBound(p: Prefix)
    ensures BlockSize(p) <= TWO32
  {
    Pow2Of32();
    PowersGrow(32 - p, 32);
  }

  /** A mask has `p` ones and then zeros. */
  lemma MaskIs(p: Prefix)
    ensures PrefixMask(p) == TWO32 - BlockSize(p)
  {
    Pow2Of32();
    SizeBound(p);
    if p > 0 {
      var size := BlockSize(p);
      PowersGrow(32 - p, 31);
      assert 0xffff_ffff * size == (size - 1) * TWO32 + (TWO32 - size);
      DivMod(0xffff_ffff * size, TWO32, size - 1, TWO32 - size);
    }
  }

  lemma HalfMod(x: nat, m: nat)
    requires m > 0
    ensures x % (2 * m) == 2 * (x / 2 % m) + x % 2
  {
    var h := x / 2;
    assert h == h / m * m + h % m;
    assert h / m * (2 * m) == 2 * (h / m * m);
    DivMod(x, 2 * m, h / m, 2 * (h % m) + x % 2);
  }

  lemma AndZero(x: nat)
    ensures And(x, 0) == 0
  {
  }

  function LowBits(x: nat, m: nat): nat
    requires m > 0
  {
    x % m
  }

  lemma AndEven(x: nat, mask: nat, m: nat)
    requires m > 0
    ensures And(x / 2, mask) == x / 2 - LowBits(x / 2, m) ==> And(x, 2 * mask) == x - LowBits(x, 2 * m)
  {
    AndHalves(x, 2 * mask);
    hide And;
    HalfMod(x, m);
  }

  lemma AndOdd(x: nat, mask: nat)
    requires And(x / 2, mask) == x / 2
    ensures And(x, 2 * mask + 1) == x
  {
    AndHalves(x, 2 * mask + 1);
  }

  lemma PowerStep(n: nat)
    ensures n > 0 ==> Pow2(n) == 2 * Pow2(n - 1)
    ensures Pow2(0) == 1
  {
  }

  /** `&` with a mask of `n` bits, the low `k` of them zero, clears the low `k` bits. */
  lemma {:induction false} AndClearsLow(x: nat, n: nat, k: nat)
    requires k <= n && x < Pow2(n)
    ensures Pow2(k) <= Pow2(n) && And(x, Pow2(n) - Pow2(k)) == x - LowBits(x, Pow2(k))
    decreases n
  {
    hide And, Pow2, LowBits;
    PowersGrow(k, n);
    PowerStep(n);
    PowerStep(k);
    if k == 0 {
      AndOnes(x, n);
      NoLowBits(x);
    } else if k == n {
      AndZero(x);
      AllLowBits(x, Pow2(n));
    } else {
      PowersGrow(k - 1, n - 1);
      AndClearsLow(x / 2, n - 1, k - 1);
      AndEven(x, Pow2(n - 1) - Pow2(k - 1), Pow2(k - 1));
    }
  }

  lemma NoLowBits(x: nat)
    ensures LowBits(x, 1) == 0
  {
  }

  lemma AllLowBits(x: nat, m: nat)
    requires x < m
    ensures LowBits(x, m) == x
  {
    DivMod(x, m, 0, x);
  }

  lemma {:induction false} AndOnes(x: nat, n: nat)
    requires x < Pow2(n)
    ensures And(x, Pow2(n) - 1) == x
  {
    hide And, Pow2;
    PowerStep(n);
    if n == 0 {
      AndZero(x);
    } else {
      AndOnes(x / 2, n - 1);
      AndOdd(x, Pow2(n - 1) - 1);
    }
  }

  lemma MaskClearsLow(x: Address, p: Prefix)
    ensures And(x, PrefixMask(p)) == x - x % BlockSize(p)
  {
    hide And, PrefixMask, Pow2, BlockSize;
    Pow2Of32();
    MaskIs(p);
    BlockIsPower(p);
    AndClearsLow(x, 32, 32 - p);
  }

  lemma SameMultiple(a: int, b: int, size: int)
    requires size > 0 && a * size == b * size
    ensures a == b
  {
    assert (a - b) * size == a * size - b * size;
    NoMultiple(a - b, size);
  }

  /** Masking compares what division compares. */
  lemma MaskIsDivision(x: Address, y: Address, p: Prefix)
    ensures And(x, PrefixMask(p)) == And(y, PrefixMask(p)) <==> x / BlockSize(p) == y / BlockSize(p)
  {
    hide And, PrefixMask, BlockSize;
    MaskClearsLow(x, p);
    MaskClearsLow(y, p);
    var size := BlockSize(p);
    var qx, qy := x / size, y / size;
    assert x == qx * size + x % size && y == qy * size + y % size;
    if qx * size == qy * size { SameMultiple(qx, qy, size); }
  }

  // --- Overlap (section 3.1 of RFC 4632) -----------------------------------------------------------------

  /** The address shares the block's prefix. */
  predicate InBlock(x: Address, r: TakenRange) {
    x / BlockSize(r.prefixLength) == r.network / BlockSize(r.prefixLength)
  }

  predicate RangesOverlap(a: TakenRange, b: TakenRange) {
    var mask := PrefixMask(if a.prefixLength <= b.prefixLength then a.prefixLength else b.prefixLength);
    And(a.network, mask) == And(b.network, mask)
  }

  ghost predicate ShareAnAddress(a: TakenRange, b: TakenRange) {
    exists x: Address :: InBlock(x, a) && InBlock(x, b)
  }

  lemma CoarserBlock(x: nat, y: nat, p: Prefix, q: Prefix)
    requires p <= q && x / BlockSize(q) == y / BlockSize(q)
    ensures x / BlockSize(p) == y / BlockSize(p)
  {
    hide Pow2;
    PowersAdd(q - p, 32 - q);
    DivTwice(x, BlockSize(q), Pow2(q - p));
    DivTwice(y, BlockSize(q), Pow2(q - p));
  }

  lemma DivTwice(x: nat, d: nat, e: nat)
    requires d > 0 && e > 0
    ensures e * d > 0 && x / (e * d) == x / d / e
  {
    var q, r := x / d, x % d;
    var h, b := q / e, q % e;
    assert x == q * d + r && q == h * e + b;
    InsideNext(b, e, d, r);
    Regroup(x, h, e, b, d, r);
    DivMod(x, e * d, h, b * d + r);
  }

  lemma Regroup(x: int, h: int, e: int, b: int, d: int, r: int)
    requires x == (h * e + b) * d + r
    ensures x == h * (e * d) + (b * d + r)
  {
    assert h * (e * d) == h * e * d;
    assert (h * e + b) * d == h * e * d + b * d;
  }

  lemma InsideNext(b: nat, e: nat, d: nat, r: nat)
    requires b < e && r < d
    ensures b * d + r < e * d
  {
    NoLess(b + 1, e, d);
    assert (b + 1) * d == b * d + d;
  }

  /** Two blocks overlap exactly when they share an address. */
  lemma OverlapIsSharing(a: TakenRange, b: TakenRange)
    ensures RangesOverlap(a, b) <==> ShareAnAddress(a, b)
  {
    if a.prefixLength <= b.prefixLength { OverlapOrdered(a, b); } else { OverlapOrdered(b, a); }
  }

  lemma OverlapOrdered(a: TakenRange, b: TakenRange)
    requires a.prefixLength <= b.prefixLength
    ensures RangesOverlap(a, b) <==> ShareAnAddress(a, b)
    ensures ShareAnAddress(a, b) <==> ShareAnAddress(b, a)
    ensures RangesOverlap(a, b) <==> RangesOverlap(b, a)
  {
    MaskIsDivision(a.network, b.network, a.prefixLength);
    if RangesOverlap(a, b) {
      assert InBlock(b.network, a) && InBlock(b.network, b);
    }
    if ShareAnAddress(a, b) {
      var x: Address :| InBlock(x, a) && InBlock(x, b);
      CoarserBlock(x, b.network, a.prefixLength, b.prefixLength);
    }
  }

  // --- Choosing a subnet ---------------------------------------------------------------------------------

  /** The block `192.168.n.0/24`. */
  function Candidate(n: nat): TakenRange
    requires n <= 255
  {
    TakenRange(IpToInt([192, 168, n, 0]), 24)
  }

  /** It has the 256 addresses from 192.168.n.0 on. */
  lemma CandidateIs(n: nat, x: Address)
    requires n <= 255
    ensures InBlock(x, Candidate(n)) <==> 0xc0a8_0000 + 256 * n <= x < 0xc0a8_0000 + 256 * (n + 1)
  {
    assert Pow2(8) == 256;
    assert Candidate(n).network == 0xc0a8_0000 + 256 * n;
  }

  /** Some taken range has an address of the candidate. */
  ghost predicate Occupied(n: nat, taken: seq<TakenRange>)
    requires n <= 255
  {
    exists i :: 0 <= i < |taken| && ShareAnAddress(Candidate(n), taken[i])
  }

  method IsSubnetTaken(n: nat, taken: seq<TakenRange>) returns (r: bool)
    requires n <= 255
    ensures r <==> Occupied(n, taken)
  {
    hide RangesOverlap, ShareAnAddress;
    for i := 0 to |taken|
      invariant forall k :: 0 <= k < i ==> !ShareAnAddress(Candidate(n), taken[k])
    {
      OverlapIsSharing(Candidate(n), taken[i]);
      if RangesOverlap(Candidate(n), taken[i]) { return true; }
    }
    return false;
  }

  /** The least free subnet, or none when there is none. */
  method FindFreeSubnet(taken: seq<TakenRange>) returns (r: Option<nat>)
    ensures r.Some? ==> r.value <= 255 && !Occupied(r.value, taken) && forall n :: 0 <= n < r.value ==> Occupied(n, taken)
    ensures r.None? ==> forall n :: 0 <= n <= 255 ==> Occupied(n, taken)
  {
    hide Occupied;
    for n := 0 to 256
      invariant forall k :: 0 <= k < n ==> Occupied(k, taken)
    {
      var isTaken := IsSubnetTaken(n, taken);
      if !isTaken { return Some(n); }
    }
    return None;
  }

  datatype Verdict = Accepted | OutOfRange | Overlapping

  method ValidateSubnet(n: int, taken: seq<TakenRange>) returns (v: Verdict)
    ensures v == OutOfRange <==> !(0 <= n <= 255)
    ensures v == Overlapping <==> 0 <= n <= 255 && Occupied(n, taken)
  {
    if n < 0 || n > 255 { return OutOfRange; }
    var isTaken := IsSubnetTaken(n, taken);
    return if isTaken then Overlapping else Accepted;
  }

  // --- Prefix lengths --------------------------------------------------------------------------------------

  /** The ones in the binary form of a netmask. */
  function Ones(x: nat): nat {
    if x == 0 then 0 else x % 2 + Ones(x / 2)
  }

  lemma {:induction false} OnesOfMask(n: nat, k: nat)
    requires k <= n
    ensures Pow2(k) <= Pow2(n) && Ones(Pow2(n) - Pow2(k)) == n - k
  {
    PowersGrow(k, n);
    if k < n {
      PowersGrow(k, n - 1);
      if k > 0 {
        OnesOfMask(n - 1, k - 1);
        assert Pow2(n) - Pow2(k) == 2 * (Pow2(n - 1) - Pow2(k - 1));
        hide Ones;
        OnesOfDouble(Pow2(n - 1) - Pow2(k - 1));
      } else {
        OnesOfMask(n - 1, 0);
        assert (Pow2(n) - 1) / 2 == Pow2(n - 1) - 1;
      }
    }
  }

  lemma OnesOfDouble(x: nat)
    ensures Ones(2 * x) == Ones(x)
  {
  }

  /** The ranges of the host's own adapters: each address with the prefix its netmask spells. */
  method DetectTakenRanges(adapters: seq<(Address, Address)>) returns (ranges: seq<TakenRange>)
    ensures |ranges| == |adapters|
    ensures forall i :: 0 <= i < |adapters| ==>
              ranges[i].prefixLength == Ones(adapters[i].1) && InBlock(adapters[i].0, ranges[i]) && ranges[i].network <= adapters[i].0
    ensures forall i, p: Prefix :: 0 <= i < |adapters| && adapters[i].1 == PrefixMask(p) ==>
              ranges[i].prefixLength == p && InBlock(adapters[i].0, ranges[i])
  {
    ranges := [];
    for i := 0 to |adapters|
      invariant |ranges| == i
      invariant forall k :: 0 <= k < i ==>
                  ranges[k].prefixLength == Ones(adapters[k].1) && InBlock(adapters[k].0, ranges[k]) && ranges[k].network <= adapters[k].0
      invariant forall k, p: Prefix :: 0 <= k < i && adapters[k].1 == PrefixMask(p) ==>
                  ranges[k].prefixLength == p && InBlock(adapters[k].0, ranges[k])
    {
      var (address, netmask) := adapters[i];
      NetmaskOnes(netmask);
      var prefixLength: Prefix := Ones(netmask);
      var mask := PrefixMask(prefixLength);
      AndBound(address, mask);
      MaskedIsInBlock(address, prefixLength);
      hide Ones, PrefixMask, And, BlockSize;
      ranges := ranges + [TakenRange(And(address, mask), prefixLength)];
    }
  }

  lemma NetmaskOnes(netmask: Address)
    ensures Ones(netmask) <= 32
    ensures forall p: Prefix :: netmask == PrefixMask(p) ==> Ones(netmask) == p
  {
    forall p: Prefix | netmask == PrefixMask(p) ensures Ones(netmask) == p { OnesOfPrefix(p); }
    Pow2Of32();
    OnesBound(netmask, 32);
  }

  lemma {:induction false} OnesBound(x: nat, n: nat)
    requires x < Pow2(n)
    ensures Ones(x) <= n
  {
    if x > 0 { OnesBound(x / 2, n - 1); }
  }

  lemma OnesOfPrefix(p: Prefix)
    ensures Ones(PrefixMask(p)) == p
  {
    MaskIs(p);
    Pow2Of32();
    OnesOfMask(32, 32 - p);
  }

  lemma MaskedIsInBlock(x: Address, p: Prefix)
    ensures And(x, PrefixMask(p)) <= x
    ensures x / BlockSize(p) == And(x, PrefixMask(p)) / BlockSize(p)
  {
    hide And, PrefixMask, BlockSize;
    MaskClearsLow(x, p);
    var size := BlockSize(p);
    var q := x / size;
    assert x == q * size + x % size;
    DivMod(q * size, size, q, 0);
  }

  /** The leading ones of a netmask. */
  method PrefixLength(netmask: Address) returns (bits: nat)
    ensures bits <= 32 && PrefixMask(bits) <= netmask
    ensures bits < 32 ==> netmask < PrefixMask(bits + 1)
  {
    bits := 0;
    var mask: Address := netmask;
    ghost var rest: nat := netmask;
    Pow2Of32();
    MaskIs(0);
    while And(mask, 0x8000_0000) != 0
      invariant bits <= 32 && netmask == PrefixMask(bits) + rest && rest < Pow2(32 - bits)
      invariant mask == rest * Pow2(bits)
      decreases 32 - bits
    {
      TopBit(mask);
      NextBit(rest, bits);
      MaskIs(bits);
      rest := rest - Pow2(31 - bits);
      bits := bits + 1;
      MaskIs(bits);
      mask := ShiftLeft(mask, 1);
    }
    if bits < 32 {
      TopBit(mask);
      LastBit(rest, bits);
      MaskIs(bits);
      MaskIs(bits + 1);
    }
  }

  lemma TopBit(x: Address)
    ensures And(x, 0x8000_0000) != 0 <==> x >= 0x8000_0000
  {
    Pow2Of32();
    AndClearsLow(x, 32, 31);
  }

  lemma NextBit(rest: nat, bits: nat)
    requires bits <= 32 && rest < Pow2(32 - bits) && 0x8000_0000 <= rest * Pow2(bits) < TWO32
    ensures bits < 32 && Pow2(31 - bits) <= rest && rest - Pow2(31 - bits) < Pow2(31 - bits)
    ensures ShiftLeft(rest * Pow2(bits), 1) == (rest - Pow2(31 - bits)) * Pow2(bits + 1)
  {
    Pow2Of32();
    Factor(rest, Pow2(bits));
    NotTheLast(rest, bits);
    PowersAdd(31 - bits, bits);
    var high, low := Pow2(31 - bits), Pow2(bits);
    assert Pow2(32 - bits) == 2 * high && Pow2(bits + 1) == 2 * low && Pow2(1) == 2;
    hide Pow2;
    if rest < high { Below(rest, high, low); }
    var x := rest * low;
    Shifted(rest, high, low);
    DivMod(x * 2, TWO32, 1, 2 * x - TWO32);
  }

  lemma Factor(a: nat, b: nat)
    requires a * b > 0
    ensures a > 0
  {
  }

  lemma NotTheLast(rest: nat, bits: nat)
    requires bits <= 32 && 0 < rest < Pow2(32 - bits)
    ensures bits < 32
  {
  }

  lemma Shifted(a: int, b: int, c: int)
    ensures (a - b) * (2 * c) == 2 * (a * c) - 2 * (b * c)
  {
    assert (a - b) * c == a * c - b * c;
    assert (a - b) * (2 * c) == 2 * ((a - b) * c);
  }

  lemma Below(a: nat, b: nat, c: nat)
    requires a < b && c > 0
    ensures a * c < b * c
  {
    assert (b - a) * c > 0;
    assert (b - a) * c == b * c - a * c;
  }

  lemma LastBit(rest: nat, bits: nat)
    requires bits < 32 && rest * Pow2(bits) < 0x8000_0000
    ensures rest < Pow2(31 - bits)
  {
    Pow2Of32();
    PowersAdd(31 - bits, bits);
    if rest > Pow2(31 - bits) { Below(Pow2(31 - bits), rest, Pow2(bits)); }
  }

  // --- The readiness test ----------------------------------------------------------------------------------

  /** The four parts of a dotted address as a number; none when there are not four, or one is above 255. */
  method Ipv4ToInt(parts: seq<nat>) returns (r: Option<Address>)
    ensures r.Some? <==> |parts| == 4 && forall i :: 0 <= i < 4 ==> parts[i] <= 255
    ensures r.Some? ==> r.value == IpToInt([parts[0], parts[1], parts[2], parts[3]])
  {
    if |parts| != 4 { return None; }
    var value: nat := 0;
    for i := 0 to 4
      invariant forall k :: 0 <= k < i ==> parts[k] <= 255
      invariant i == 0 ==> value == 0
      invariant i == 1 ==> value == parts[0]
      invariant i == 2 ==> value == parts[0] * 256 + parts[1]
      invariant i == 3 ==> value == parts[0] * 0x1_0000 + parts[1] * 256 + parts[2]
      invariant i == 4 ==> value == parts[0] * 0x100_0000 + parts[1] * 0x1_0000 + parts[2] * 0x100 + parts[3]
    {
      if parts[i] > 255 { return None; }
      value := value * 256 + parts[i];
    }
    return Some(value);
  }

  predicate InSameSubnet(a: Option<Address>, b: Option<Address>, prefixLength: int) {
    && a.Some? && b.Some? && 1 <= prefixLength <= 32
    && a.value / Pow2(32 - prefixLength) == b.value / Pow2(32 - prefixLength)
  }

  /** The division form is the mask form. */
  lemma SameSubnetByMask(a: Address, b: Address, prefixLength: int)
    ensures InSameSubnet(Some(a), Some(b), prefixLength) <==>
            1 <= prefixLength <= 32 && And(a, PrefixMask(prefixLength)) == And(b, PrefixMask(prefixLength))
  {
    if 1 <= prefixLength <= 32 { MaskIsDivision(a, b, prefixLength); }
  }

  /** The subnet of a host: its network address, and the end of the block. */
  lemma HostBlock(host: Address, p: Prefix)
    ensures var size := BlockSize(p);
      var q := host / size;
      And(host, PrefixMask(p)) == q * size && q * size + size <= TWO32 && (q + 1) * size == q * size + size
  {
    hide And, PrefixMask, Pow2, BlockSize;
    MaskClearsLow(host, p);
    BlocksOf(p);
    var size := BlockSize(p);
    assert host == host / size * size + host % size;
    Blocks(host / size, Pow2(p), size);
  }

  lemma BlocksOf(p: Prefix)
    ensures Pow2(p) * BlockSize(p) == TWO32
  {
    Pow2Of32();
    PowersAdd(p, 32 - p);
  }

  lemma NoLess(a: nat, b: nat, c: nat)
    requires a <= b
    ensures a * c <= b * c
  {
    assert (b - a) * c >= 0 && (b - a) * c == b * c - a * c;
  }

  lemma Blocks(q: nat, blocks: nat, size: nat)
    requires q * size < blocks * size
    ensures q * size + size <= blocks * size && (q + 1) * size == q * size + size
  {
    assert (blocks - q) * size == blocks * size - q * size;
    if blocks <= q { NoLess(blocks, q, size); }
    assert (blocks - q - 1) * size >= 0;
    assert (blocks - q - 1) * size == blocks * size - q * size - size;
  }

  /** Every address of a pool that fits the host's subnet passes the guest's readiness test. */
  lemma PoolPassesReadiness(p: Pool, prefixLength: Prefix, slot: nat)
    requires prefixLength >= 1 && p.netmask == PrefixMask(prefixLength)
    requires 0 <= p.start && p.end < BlockSize(prefixLength) && slot < p.Size()
    ensures InSameSubnet(Some(p.AddressAt(slot)), Some(p.host), prefixLength)
  {
    hide And, PrefixMask, Pow2, BlockSize;
    HostBlock(p.host, prefixLength);
    BlockIsPower(prefixLength);
    var size := BlockSize(prefixLength);
    var q := p.host / size;
    DivMod(q * size + p.start + slot, size, q, p.start + slot);
  }

  /** The addresses of a pool: the host's block from its start, and on from there by host number and slot. */
  lemma AddressIs(p: Pool, prefixLength: Prefix, slot: nat)
    requires p.netmask == PrefixMask(prefixLength) && 0 <= p.start && p.start + slot < BlockSize(prefixLength)
    ensures p.AddressAt(slot) == p.host - p.host % BlockSize(prefixLength) + p.start + slot
  {
    hide And, PrefixMask, Pow2, BlockSize;
    HostBlock(p.host, prefixLength);
    var size := BlockSize(prefixLength);
    assert p.host == p.host / size * size + p.host % size;
  }

  /** An offset of one block or more, but less than all of them, leads out of the block. */
  lemma PastTheBlock(q: nat, blocks: nat, size: nat, x: nat)
    requires size > 0 && q < blocks && blocks * size == TWO32 && size <= x < TWO32
    ensures (q * size + x) % TWO32 / size != q
  {
    var h, r := x / size, x % size;
    assert x == h * size + r;
    BlockCount(h, blocks, size, r);
    Shares(q, h, blocks, size);
    var whole := q * size + x;
    if q + h < blocks {
      WholeBlocks(whole, q + h, blocks, size, r);
    } else {
      WholeBlocks(whole - TWO32, q + h - blocks, blocks, size, r);
      Wraps(whole);
    }
  }

  lemma Wraps(y: int)
    requires TWO32 <= y < 2 * TWO32
    ensures y % TWO32 == y - TWO32
  {
  }

  lemma WholeBlocks(y: int, k: nat, blocks: nat, size: nat, r: nat)
    requires r < size && k < blocks && blocks * size == TWO32 && y == k * size + r
    ensures 0 <= y < TWO32 && y / size == k
  {
    InsideNext(k, blocks, size, r);
    DivMod(y, size, k, r);
  }

  lemma BlockCount(h: nat, blocks: nat, size: nat, r: nat)
    requires size > 0 && r < size && size <= h * size + r < blocks * size
    ensures 1 <= h < blocks
  {
    if blocks <= h { NoLess(blocks, h, size); }
    ZeroTimes(h, size);
  }

  lemma Shares(q: nat, h: nat, blocks: nat, size: nat)
    ensures (q + h) * size == q * size + h * size
    ensures (q + h - blocks) * size == q * size + h * size - blocks * size
  {
  }

  /**
   * The exact condition for every address of a pool to pass the guest's readiness test: the pool's
   * last host number stays inside the host's block.
   */
  lemma PoolPassesExactly(p: Pool, prefixLength: Prefix)
    requires prefixLength >= 1 && p.netmask == PrefixMask(prefixLength) && 0 <= p.start <= p.end < TWO32
    ensures (forall slot :: 0 <= slot < p.Size() ==> InSameSubnet(Some(p.AddressAt(slot)), Some(p.host), prefixLength))
            <==> p.end < BlockSize(prefixLength)
  {
    hide And, PrefixMask, Pow2, BlockSize, InSameSubnet, Pool.AddressAt;
    if p.end < BlockSize(prefixLength) {
      forall slot | 0 <= slot < p.Size() ensures InSameSubnet(Some(p.AddressAt(slot)), Some(p.host), prefixLength) {
        PoolPassesReadiness(p, prefixLength, slot);
      }
    } else {
      var x := if p.start >= BlockSize(prefixLength) then p.start else BlockSize(prefixLength);
      OutsideFails(p, prefixLength, x - p.start);
    }
  }

  /** A slot one block or more past the network address fails the test. */
  lemma OutsideFails(p: Pool, prefixLength: Prefix, slot: nat)
    requires prefixLength >= 1 && p.netmask == PrefixMask(prefixLength)
    requires BlockSize(prefixLength) <= p.start + slot < TWO32
    ensures !InSameSubnet(Some(p.AddressAt(slot)), Some(p.host), prefixLength)
  {
    HostBlock(p.host, prefixLength);
    BlocksOf(prefixLength);
    BlockIsPower(prefixLength);
    hide And, PrefixMask, Pow2, BlockSize;
    var q, size := p.host / BlockSize(prefixLength), BlockSize(prefixLength);
    InsideAll(q, Pow2(prefixLength), size);
    PastTheBlock(q, Pow2(prefixLength), size, p.start + slot);
  }

  lemma InsideAll(q: nat, blocks: nat, size: nat)
    requires size > 0 && q * size + size <= blocks * size
    ensures q < blocks
  {
    if blocks <= q { NoLess(blocks, q, size); }
  }

  lemma BlockIsPower(p: Prefix)
    ensures BlockSize(p) == Pow2(32 - p)
  {
  }

  lemma ZeroTimes(a: nat, b: nat)
    ensures a == 0 ==> a * b == 0
  {
  }
}
