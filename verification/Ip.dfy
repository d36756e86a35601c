// IPv4 arithmetic as JavaScript does it on unsigned 32-bit numbers (src/runHosting/ip.ts and the
// copies in src/hostNetwork/subnetSelection.ts and src/guestSetup/windows/isolatedReadiness.ts).
// The text `a.b.c.d` is the sequence of its four parts.
module Ip {
  const TWO32 := 0x1_0000_0000

  type Address = a: nat | a < 0x1_0000_0000

  type Byte = b: nat | b < 256

  /** The bitwise `&` of two unsigned numbers. */
  function And(x: nat, y: nat): nat
    decreases x
  {
    if x == 0 || y == 0 then 0 else 2 * And(x / 2, y / 2) + (if x % 2 == 1 && y % 2 == 1 then 1 else 0)
  }

  function Pow2(k: nat): (r: nat)
    ensures r > 0
  {
    if k == 0 then 1 else 2 * Pow2(k - 1)
  }

  /** `(x << k) >>> 0` for a shift count below 32. */
  function ShiftLeft(x: nat, k: nat): Address {
    (x * Pow2(k)) % TWO32
  }

  function IpToInt(parts: seq<Byte>): Address
    requires |parts| == 4
  {
    var a: nat, b: nat, c: nat, d: nat := parts[0], parts[1], parts[2], parts[3];
    a * 0x100_0000 + b * 0x1_0000 + c * 0x100 + d
  }

  function IntToIp(value: Address): (parts: seq<Byte>)
    ensures |parts| == 4
  {
    [value / 0x100_0000 % 256, value / 0x1_0000 % 256, value / 0x100 % 256, value % 256]
  }

  /** Reading back what was printed. */
  lemma PrintedReadsBack(value: Address)
    ensures IpToInt(IntToIp(value)) == value
  {
    var q := value / 0x100;
    assert value == q * 0x100 + value % 256;
    assert value / 0x1_0000 == q / 0x100 && value / 0x100_0000 == q / 0x1_0000;
    assert q == q / 0x100 * 0x100 + q % 256;
  }

  /** Printing back what was read. */
  lemma ReadPrintsBack(parts: seq<Byte>)
    requires |parts| == 4
    ensures IntToIp(IpToInt(parts)) == parts
  {
    var a: nat, b: nat, c: nat := parts[0], parts[1], parts[2];
    var v: nat := IpToInt(parts);
    assert v / 0x100 == a * 0x1_0000 + b * 0x100 + c;
    assert v / 0x1_0000 == a * 0x100 + b;
  }

  function NetworkAddress(ip: Address, netmask: Address): Address {
    AndBound(ip, netmask);
    And(ip, netmask)
  }

  lemma AndHalves(x: nat, y: nat)
    ensures And(x, y) == 2 * And(x / 2, y / 2) + (if x % 2 == 1 && y % 2 == 1 then 1 else 0)
  {
    if x == 0 { assert And(x / 2, y / 2) == 0; }
  }

  lemma {:induction false} AndBound(x: nat, y: nat)
    ensures And(x, y) <= x && And(x, y) <= y
    decreases x
  {
    if x != 0 && y != 0 {
      AndBound(x / 2, y / 2);
    }
  }

  lemma NoMultiple(k: int, d: int)
    requires -d < k * d < d
    ensures k == 0
  {
  }

  lemma DivMod(x: nat, d: nat, q: nat, r: nat)
    requires r < d && x == q * d + r
    ensures x / d == q && x % d == r
  {
    assert (x / d - q) * d == x / d * d - q * d;
    NoMultiple(x / d - q, d);
  }

  lemma {:induction false} PowersAdd(j: nat, k: nat)
    ensures Pow2(j + k) == Pow2(j) * Pow2(k)
  {
    if j > 0 {
      PowersAdd(j - 1, k);
      assert Pow2(j + k) == 2 * Pow2(j - 1 + k);
      assert 2 * (Pow2(j - 1) * Pow2(k)) == 2 * Pow2(j - 1) * Pow2(k);
    }
  }

  lemma Pow2Of32()
    ensures Pow2(32) == TWO32 && Pow2(31) == 0x8000_0000 && Pow2(16) == 0x1_0000
  {
    assert Pow2(8) == 256;
    PowersAdd(8, 8);
    PowersAdd(16, 15);
    PowersAdd(16, 16);
    assert Pow2(15) == 0x8000;
  }
}
