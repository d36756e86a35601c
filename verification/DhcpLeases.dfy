// The DHCP lease table (src/runHosting/dhcpLeases.ts).
module DhcpLeases {
  import opened Collections
  import opened Ip

  /** `leases` is the source's Map: entries in insertion order, one per address. */
  datatype Lease = Lease(address: Address, identity: string, expiresAt: int)

  datatype Table = Table(leases: seq<Lease>, declined: set<Address>)

  /** The options of a lease table; `start` and `end` are host numbers inside the network. */
  datatype Pool = Pool(host: Address, netmask: Address, start: int, end: int, leaseSeconds: int) {
    function Size(): int { end - start + 1 }

    function AddressAt(slot: int): Address {
      (NetworkAddress(host, netmask) + start + slot) % TWO32
    }
  }

  // --- The hash that picks a client's preferred slot (FNV-1a on 32 bits) ----------------------

  function HashStep(h: bv32, c: char): bv32 {
    (h ^ ((c as int % 0x1_0000) as bv32)) * 0x0100_0193
  }

  function HashFrom(h: bv32, s: string): bv32
    decreases |s|
  {
    if s == "" then h else HashFrom(HashStep(h, s[0]), s[1..])
  }

  function Hash32(s: string): nat {
    HashFrom(0x811c_9dc5, s) as nat
  }

  lemma FromNothingByF()
    ensures HashStep(0x811c_9dc5, 'f') == 0xe30c_2799
  {
  }

  lemma FromFByO()
    ensures HashStep(0xe30c_2799, 'o') == 0x6222_e842
  {
  }

  lemma FromFoByO()
    ensures HashStep(0x6222_e842, 'o') == 0xa9f3_7ed7
  {
  }

  lemma HashUnfolds(h: bv32, s: string)
    ensures HashFrom(h, s) == if s == "" then h else HashFrom(HashStep(h, s[0]), s[1..])
  {
  }

  /** Published test vectors of 32-bit FNV-1a. */
  lemma HashVectors()
    ensures Hash32("") == 0x811c_9dc5 && Hash32("foo") == 0xa9f3_7ed7
  {
    hide HashStep, HashFrom;
    FromNothingByF();
    FromFByO();
    FromFoByO();
    assert "foo"[1..] == "oo" && "oo"[1..] == "o" && "o"[1..] == "";
    HashUnfolds(0x811c_9dc5, "");
    HashUnfolds(0x811c_9dc5, "foo");
    HashUnfolds(0xe30c_2799, "oo");
    HashUnfolds(0x6222_e842, "o");
    HashUnfolds(0xa9f3_7ed7, "");
  }

  // --- The table as a value ---------------------------------------------------------------------

  function Find(leases: seq<Lease>, a: Address): Option<Lease> {
    if leases == [] then None else if leases[0].address == a then Some(leases[0]) else Find(leases[1..], a)
  }

  /** `Map.set`: an existing key keeps its place, a new one goes last. */
  function Put(leases: seq<Lease>, lease: Lease): seq<Lease> {
    if leases == [] then [lease]
    else if leases[0].address == lease.address then [lease] + leases[1..]
    else [leases[0]] + Put(leases[1..], lease)
  }

  function Delete(leases: seq<Lease>, a: Address): seq<Lease> {
    if leases == [] then []
    else if leases[0].address == a then leases[1..]
    else [leases[0]] + Delete(leases[1..], a)
  }

  /** The first address, in insertion order, that the client holds a running lease on. */
  function Existing(leases: seq<Lease>, identity: string, now: int): Option<Address> {
    if leases == [] then None
    else if leases[0].identity == identity && leases[0].expiresAt > now then Some(leases[0].address)
    else Existing(leases[1..], identity, now)
  }

  function Assign(p: Pool, t: Table, a: Address, identity: string, now: int): Table {
    t.(leases := Put(t.leases, Lease(a, identity, now + p.leaseSeconds * 1000)))
  }

  predicate Active(t: Table, a: Address, now: int) {
    var l := Find(t.leases, a);
    l.Some? && l.value.expiresAt > now
  }

  predicate Free(p: Pool, t: Table, a: Address, now: int) {
    a != p.host && a !in t.declined && !Active(t, a, now)
  }

  /** The `i`th slot probed from the preferred one. */
  function SlotAt(preferred: nat, i: nat, size: int): (slot: nat)
    requires size > 0
    ensures slot < size
  {
    (preferred + i) % size
  }

  /** The first free address from the `i`th probe on. */
  function Probe(p: Pool, t: Table, preferred: nat, now: int, i: nat): Option<Address>
    requires i <= p.Size()
    decreases p.Size() - i
  {
    if i == p.Size() then None
    else
      var a := p.AddressAt(SlotAt(preferred, i, p.Size()));
      if Free(p, t, a, now) then Some(a) else Probe(p, t, preferred, now, i + 1)
  }

  function Acquired(p: Pool, t: Table, identity: string, now: int): Option<Address> {
    var held := Existing(t.leases, identity, now);
    if held.Some? then held
    else if p.Size() <= 0 then None
    else Probe(p, t, Hash32(identity) % p.Size(), now, 0)
  }

  function Acquire(p: Pool, t: Table, identity: string, now: int): Table {
    var a := Acquired(p, t, identity, now);
    if a.Some? then Assign(p, t, a.value, identity, now) else t
  }

  predicate Acknowledged(p: Pool, t: Table, identity: string, a: Address, now: int) {
    && p.AddressAt(0) <= a <= p.AddressAt(p.Size() - 1)
    && a != p.host && a !in t.declined
    && (Active(t, a, now) ==> Find(t.leases, a).value.identity == identity)
  }

  function Request(p: Pool, t: Table, identity: string, a: Address, now: int): Table {
    if Acknowledged(p, t, identity, a, now) then Assign(p, t, a, identity, now) else t
  }

  function Release(t: Table, identity: string, now: int): Table {
    var a := Existing(t.leases, identity, now);
    if a.Some? then t.(leases := Delete(t.leases, a.value)) else t
  }

  function Decline(t: Table, a: Address): Table {
    Table(Delete(t.leases, a), t.declined + {a})
  }

  // --- The table as the source runs it ----------------------------------------------------------

  method ComputeHash(s: string) returns (h: bv32)
    ensures h == HashFrom(0x811c_9dc5, s)
  {
    h := 0x811c_9dc5;
    for i := 0 to |s|
      invariant HashFrom(0x811c_9dc5, s) == HashFrom(h, s[i..])
    {
      assert s[i..][0] == s[i] && s[i..][1..] == s[i + 1..];
      h := HashStep(h, s[i]);
    }
  }

  class LeaseTable {
    const pool: Pool
    var leases: seq<Lease>
    var declined: set<Address>

    constructor (pool: Pool)
      ensures this.pool == pool && Value() == Table([], {})
    {
      this.pool := pool;
      leases := [];
      declined := {};
    }

    function Value(): Table
      reads this
    {
      Table(leases, declined)
    }

    method AcquireAddress(identity: string, now: int) returns (r: Option<Address>)
      modifies this
      ensures r == Acquired(pool, old(Value()), identity, now)
      ensures Value() == Acquire(pool, old(Value()), identity, now)
    {
      var held := Existing(leases, identity, now);
      if held.Some? {
        leases := Put(leases, Lease(held.value, identity, now + pool.leaseSeconds * 1000));
        return held;
      }
      var size := pool.Size();
      var hash := ComputeHash(identity);
      if size <= 0 { return None; }
      var preferred := (hash as nat) % size;
      for i := 0 to size
        invariant Value() == old(Value())
        invariant Acquired(pool, old(Value()), identity, now) == Probe(pool, Value(), preferred, now, i)
      {
        var a := pool.AddressAt(SlotAt(preferred, i, size));
        var lease := Find(leases, a);
        if a != pool.host && a !in declined && (lease.None? || lease.value.expiresAt <= now) {
          leases := Put(leases, Lease(a, identity, now + pool.leaseSeconds * 1000));
          return Some(a);
        }
      }
      return None;
    }

    method RequestAddress(identity: string, a: Address, now: int) returns (ack: bool)
      modifies this
      ensures ack == Acknowledged(pool, old(Value()), identity, a, now)
      ensures Value() == Request(pool, old(Value()), identity, a, now)
    {
      if a < pool.AddressAt(0) || a > pool.AddressAt(pool.Size() - 1) || a == pool.host || a in declined {
        return false;
      }
      var lease := Find(leases, a);
      if lease.Some? && lease.value.expiresAt > now && lease.value.identity != identity {
        return false;
      }
      leases := Put(leases, Lease(a, identity, now + pool.leaseSeconds * 1000));
      return true;
    }

    method ReleaseLease(identity: string, now: int)
      modifies this
      ensures Value() == Release(old(Value()), identity, now)
    {
      var a := Existing(leases, identity, now);
      if a.Some? {
        leases := Delete(leases, a.value);
      }
    }

    method DeclineAddress(a: Address)
      modifies this
      ensures Value() == Decline(old(Value()), a)
    {
      declined := declined + {a};
      leases := Delete(leases, a);
    }
  }
}
