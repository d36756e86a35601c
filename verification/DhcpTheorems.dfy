// What the DHCP server promises over any run of packets under a clock that never goes back.
module DhcpTheorems {
  import opened Collections
  import opened Ip
  import opened DhcpLeases
  import opened DhcpMessage
  import opened DhcpHandler

  // --- The table's invariant ----------------------------------------------------------------

  /** One lease per address, and none on the host or a declined address. */
  ghost predicate Valid(p: Pool, t: Table) {
    && (forall i, j :: 0 <= i < j < |t.leases| ==> t.leases[i].address != t.leases[j].address)
    && (forall l :: l in t.leases ==> l.address != p.host && l.address !in t.declined)
  }

  lemma {:induction false} FindIs(leases: seq<Lease>, a: Address)
    ensures Find(leases, a).Some? ==> Find(leases, a).value in leases && Find(leases, a).value.address == a
    ensures Find(leases, a).None? <==> forall l :: l in leases ==> l.address != a
  {
    if leases != [] {
      FindIs(leases[1..], a);
      assert forall l :: l in leases <==> l == leases[0] || l in leases[1..];
    }
  }

  lemma {:induction false} PutFinds(leases: seq<Lease>, lease: Lease, a: Address)
    ensures Find(Put(leases, lease), a) == if a == lease.address then Some(lease) else Find(leases, a)
  {
    if leases != [] && leases[0].address != lease.address {
      PutFinds(leases[1..], lease, a);
      assert Put(leases, lease)[1..] == Put(leases[1..], lease);
    }
  }

  lemma {:induction false} PutMembers(leases: seq<Lease>, lease: Lease)
    ensures forall l :: l in Put(leases, lease) ==> l == lease || l in leases
    ensures lease in Put(leases, lease)
  {
    if leases != [] && leases[0].address != lease.address {
      PutMembers(leases[1..], lease);
    }
  }

  ghost predicate OnePerAddress(leases: seq<Lease>) {
    forall i, j :: 0 <= i < j < |leases| ==> leases[i].address != leases[j].address
  }

  lemma {:induction false} PutKeepsOne(leases: seq<Lease>, lease: Lease)
    requires OnePerAddress(leases)
    ensures OnePerAddress(Put(leases, lease))
  {
    if leases != [] && leases[0].address != lease.address {
      PutKeepsOne(leases[1..], lease);
      PutMembers(leases[1..], lease);
      var rest := Put(leases[1..], lease);
      assert forall i :: 0 <= i < |rest| ==> rest[i] in rest;
    }
  }

  lemma TailOnePerAddress(leases: seq<Lease>)
    requires leases != [] && OnePerAddress(leases)
    ensures OnePerAddress(leases[1..])
    ensures forall l :: l in leases[1..] ==> l.address != leases[0].address
    ensures forall l :: l in leases <==> l == leases[0] || l in leases[1..]
  {
    var rest := leases[1..];
    assert forall i :: 0 <= i < |rest| ==> rest[i] == leases[i + 1];
  }

  lemma ConsOnePerAddress(lease: Lease, rest: seq<Lease>)
    requires OnePerAddress(rest) && forall l :: l in rest ==> l.address != lease.address
    ensures OnePerAddress([lease] + rest)
  {
    assert forall i :: 0 <= i < |rest| ==> rest[i] in rest;
  }

  lemma NoneOnePerAddress()
    ensures OnePerAddress([])
  {
  }

  lemma {:induction false} DeleteMembers(leases: seq<Lease>, a: Address)
    requires OnePerAddress(leases)
    ensures forall l :: l in Delete(leases, a) <==> l in leases && l.address != a
  {
    hide OnePerAddress;
    if leases != [] {
      TailOnePerAddress(leases);
      if leases[0].address != a {
        DeleteMembers(leases[1..], a);
      }
    }
  }

  lemma {:induction false} DeleteIs(leases: seq<Lease>, a: Address)
    requires OnePerAddress(leases)
    ensures OnePerAddress(Delete(leases, a))
    ensures forall l :: l in Delete(leases, a) <==> l in leases && l.address != a
  {
    hide OnePerAddress;
    DeleteMembers(leases, a);
    if leases != [] {
      TailOnePerAddress(leases);
      if leases[0].address != a {
        DeleteIs(leases[1..], a);
        ConsOnePerAddress(leases[0], Delete(leases[1..], a));
      }
    } else {
      NoneOnePerAddress();
    }
  }

  lemma {:induction false} DeleteFinds(leases: seq<Lease>, a: Address, b: Address)
    requires a != b
    ensures Find(Delete(leases, a), b) == Find(leases, b)
  {
    if leases != [] && leases[0].address != a {
      DeleteFinds(leases[1..], a, b);
      assert Delete(leases, a)[1..] == Delete(leases[1..], a);
    }
  }

  /** The client's first running lease is the one the Map holds for its address. */
  lemma {:induction false} ExistingIs(leases: seq<Lease>, identity: string, now: int)
    requires OnePerAddress(leases)
    ensures var e := Existing(leases, identity, now);
      && (e.Some? ==>
            var l := Find(leases, e.value);
            l.Some? && l.value.identity == identity && l.value.expiresAt > now)
      && (e.None? <==> forall l :: l in leases && l.identity == identity ==> l.expiresAt <= now)
  {
    if leases != [] {
      ExistingIs(leases[1..], identity, now);
      var e := Existing(leases[1..], identity, now);
      if e.Some? {
        FindIs(leases[1..], e.value);
      }
      assert forall l :: l in leases <==> l == leases[0] || l in leases[1..];
    }
  }

  ghost predicate SlotFree(p: Pool, t: Table, slot: int, now: int) {
    Free(p, t, p.AddressAt(slot), now)
  }

  lemma {:induction false} ProbeIs(p: Pool, t: Table, preferred: nat, now: int, i: nat)
    requires i <= p.Size()
    ensures var r := Probe(p, t, preferred, now, i);
      && (r.Some? ==> Free(p, t, r.value, now))
      && (r.None? <==> forall k :: i <= k < p.Size() ==> !SlotFree(p, t, SlotAt(preferred, k, p.Size()), now))
    decreases p.Size() - i
  {
    hide Free, Pool.AddressAt, SlotAt;
    if i < p.Size() {
      ProbeIs(p, t, preferred, now, i + 1);
      assert SlotFree(p, t, SlotAt(preferred, i, p.Size()), now)
        <==> Free(p, t, p.AddressAt(SlotAt(preferred, i, p.Size())), now);
    }
  }

  /** Probing from any preferred slot visits every slot. */
  lemma ProbingVisitsEverySlot(preferred: nat, size: nat, slot: nat) returns (k: nat)
    requires slot < size && preferred < size
    ensures k < size && SlotAt(preferred, k, size) == slot
  {
    if slot >= preferred {
      k := slot - preferred;
      DivMod(slot, size, 0, slot);
    } else {
      k := slot + size - preferred;
      DivMod(slot + size, size, 1, slot);
    }
  }

  lemma ProbeFailsExactly(p: Pool, t: Table, preferred: nat, now: int)
    requires preferred < p.Size()
    ensures Probe(p, t, preferred, now, 0).None? <==> forall slot :: 0 <= slot < p.Size() ==> !SlotFree(p, t, slot, now)
  {
    hide SlotFree, Probe, SlotAt;
    ProbeIs(p, t, preferred, now, 0);
    if Probe(p, t, preferred, now, 0).None? {
      forall slot | 0 <= slot < p.Size() ensures !SlotFree(p, t, slot, now) {
        var k := ProbingVisitsEverySlot(preferred, p.Size(), slot);
      }
    }
  }

  /** The slot's address is the host, declined, or held by a running lease of another client. */
  ghost predicate Taken(p: Pool, t: Table, slot: int, identity: string, now: int) {
    var a := p.AddressAt(slot);
    a == p.host || a in t.declined || (Active(t, a, now) && Find(t.leases, a).value.identity != identity)
  }

  /**
   * No address is offered exactly when the client holds no running lease and every slot of the
   * pool is the host, declined, or held by a running lease of another client.
   */
  lemma ExhaustedExactlyWhenNothingFree(p: Pool, t: Table, identity: string, now: int)
    requires Valid(p, t)
    ensures Acquired(p, t, identity, now).None? <==>
            && (forall l :: l in t.leases && l.identity == identity ==> l.expiresAt <= now)
            && (forall slot :: 0 <= slot < p.Size() ==> Taken(p, t, slot, identity, now))
  {
    ExistingIs(t.leases, identity, now);
    if Existing(t.leases, identity, now).None? {
      forall slot | 0 <= slot < p.Size()
        ensures Taken(p, t, slot, identity, now) <==> !SlotFree(p, t, slot, now)
      {
        FindIs(t.leases, p.AddressAt(slot));
      }
      hide Probe, Taken, SlotFree, Hash32, Pool.AddressAt;
      if p.Size() > 0 {
        ProbeFailsExactly(p, t, Hash32(identity) % p.Size(), now);
      }
    }
  }

  lemma AssignIsValid(p: Pool, t: Table, a: Address, identity: string, now: int)
    requires Valid(p, t) && a != p.host && a !in t.declined
    ensures Valid(p, Assign(p, t, a, identity, now))
  {
    var lease := Lease(a, identity, now + p.leaseSeconds * 1000);
    PutKeepsOne(t.leases, lease);
    PutMembers(t.leases, lease);
  }

  lemma ReleaseIsValid(p: Pool, t: Table, identity: string, now: int)
    requires Valid(p, t)
    ensures Valid(p, Release(t, identity, now))
  {
    var e := Existing(t.leases, identity, now);
    if e.Some? {
      DeleteIs(t.leases, e.value);
    }
  }

  /** What is acquired is grantable: not the host, not declined. */
  lemma AcquiredIsGrantable(p: Pool, t: Table, identity: string, now: int)
    requires Valid(p, t) && Acquired(p, t, identity, now).Some?
    ensures var a := Acquired(p, t, identity, now).value;
      && a != p.host && a !in t.declined
      && (Active(t, a, now) ==> Find(t.leases, a).value.identity == identity)
  {
    ExistingIs(t.leases, identity, now);
    var e := Existing(t.leases, identity, now);
    if e.Some? {
      FindIs(t.leases, e.value);
    } else {
      ProbeIs(p, t, Hash32(identity) % p.Size(), now, 0);
    }
  }

  lemma HandlingKeepsValid(p: Pool, t: Table, pkt: Packet, now: int)
    requires Valid(p, t)
    ensures Valid(p, TableAfter(p, t, pkt, now))
  {
    hide Acquired, Find, Existing, Assign, Release, ClientIdentity, AddressOption, Put;
    var id := ClientIdentity(pkt);
    if pkt.giaddr == ZERO {
      if pkt.messageType == DISCOVER && Acquired(p, t, id, now).Some? {
        AcquiredIsGrantable(p, t, id, now);
        AssignIsValid(p, t, Acquired(p, t, id, now).value, id, now);
      }
      if pkt.messageType == REQUEST && Wanted(pkt).Some? && Acknowledged(p, t, id, Wanted(pkt).value, now) {
        AssignIsValid(p, t, Wanted(pkt).value, id, now);
      }
      ReleaseIsValid(p, t, id, now);
      var bad := AddressOption(pkt, OPT_REQUESTED);
      if bad.Some? {
        DeleteIs(t.leases, bad.value);
      }
    }
  }

  // --- Runs ------------------------------------------------------------------------------------

  datatype Received = Received(pkt: Packet, now: int)

  /** The table after the first `n` packets. */
  function TableAt(p: Pool, run: seq<Received>, n: nat): Table
    requires n <= |run|
  {
    if n == 0 then Table([], {})
    else TableAfter(p, TableAt(p, run, n - 1), run[n - 1].pkt, run[n - 1].now)
  }

  function AnswerAt(p: Pool, run: seq<Received>, n: nat): Option<Answer>
    requires n < |run|
  {
    AnswerTo(p, TableAt(p, run, n), run[n].pkt, run[n].now)
  }

  ghost predicate Monotone(run: seq<Received>) {
    forall i, j :: 0 <= i <= j < |run| ==> run[i].now <= run[j].now
  }

  /** The `n`th packet is answered by promising `a`: an offer, or the acknowledgement of a request. */
  ghost predicate Grants(p: Pool, run: seq<Received>, n: nat, a: Address)
    requires n < |run|
  {
    var answer := AnswerAt(p, run, n);
    answer.Some? && answer.value.yiaddr == a
    && (run[n].pkt.messageType == 1 || (run[n].pkt.messageType == 3 && answer.value.messageType == 5))
  }

  function Until(p: Pool, r: Received): int {
    r.now + p.leaseSeconds * 1000
  }

  /** The option is there with four bytes that denote `a`. */
  ghost predicate Reads(pkt: Packet, code: Byte, a: Address) {
    code in pkt.options && |pkt.options[code]| == 4 && Number(pkt.options[code]) == a
  }

  /** Option 54 names a server other than this one. */
  ghost predicate ForOther(p: Pool, pkt: Packet) {
    exists server: Address :: Reads(pkt, 54, server) && server != p.host
  }

  lemma OptionIs(pkt: Packet, code: Byte)
    ensures forall a: Address :: AddressOption(pkt, code) == Some(a) <==> Reads(pkt, code, a)
    ensures AddressOption(pkt, code).None? <==> code !in pkt.options || |pkt.options[code]| != 4
  {
    if code in pkt.options && |pkt.options[code]| == 4 {
      var v := pkt.options[code];
      ReadsNumber(v, 0);
      assert v[0..4] == v;
    }
  }

  lemma ForOtherIs(p: Pool, pkt: Packet)
    ensures ForOther(p, pkt) <==> ChoseOther(p, pkt)
  {
    OptionIs(pkt, 54);
  }

  /** A release (7), or a request (3) that chose another server: it ends the client's first running lease. */
  ghost predicate Releases(p: Pool, pkt: Packet, identity: string) {
    && pkt.giaddr == 0 && ClientIdentity(pkt) == identity
    && (pkt.messageType == 7 || (pkt.messageType == 3 && ForOther(p, pkt)))
  }

  /** The packet gives up the client's lease on `a`, and not one it holds on another address. */
  ghost predicate GivesUp(p: Pool, t: Table, r: Received, identity: string, a: Address) {
    Releases(p, r.pkt, identity) && Existing(t.leases, identity, r.now) == Some(a)
  }

  /** A decline (4) of the address in option 50. */
  ghost predicate Declines(pkt: Packet, a: Address) {
    pkt.giaddr == 0 && pkt.messageType == 4 && Reads(pkt, 50, a)
  }

  lemma DeclinesIs(pkt: Packet)
    ensures forall a: Address :: Declines(pkt, a) <==>
              pkt.giaddr == ZERO && pkt.messageType == DECLINE && AddressOption(pkt, OPT_REQUESTED) == Some(a)
  {
    OptionIs(pkt, 50);
  }

  lemma {:induction false} TableAtValid(p: Pool, run: seq<Received>, n: nat)
    requires n <= |run|
    ensures Valid(p, TableAt(p, run, n))
  {
    if n > 0 {
      TableAtValid(p, run, n - 1);
      HandlingKeepsValid(p, TableAt(p, run, n - 1), run[n - 1].pkt, run[n - 1].now);
    }
  }

  /** The address is the client's at least until `until`. */
  ghost predicate Holds(t: Table, a: Address, identity: string, until: int) {
    var l := Find(t.leases, a);
    l.Some? && l.value.identity == identity && l.value.expiresAt >= until
  }

  lemma AssignHolds(p: Pool, t: Table, a: Address, identity: string, now: int, b: Address)
    ensures var t' := Assign(p, t, a, identity, now);
      Find(t'.leases, b) == if b == a then Some(Lease(a, identity, now + p.leaseSeconds * 1000)) else Find(t.leases, b)
  {
    PutFinds(t.leases, Lease(a, identity, now + p.leaseSeconds * 1000), b);
  }

  /** A promise is a lease in the table: the table holds it as soon as it is made. */
  lemma GrantIsHeld(p: Pool, t: Table, pkt: Packet, now: int)
    requires Valid(p, t)
    requires var answer := AnswerTo(p, t, pkt, now);
      && answer.Some?
      && (pkt.messageType == DISCOVER || (pkt.messageType == REQUEST && answer.value.messageType == ACK))
    ensures var a := AnswerTo(p, t, pkt, now).value.yiaddr;
      && a != p.host && a !in t.declined
      && (Active(t, a, now) ==> Find(t.leases, a).value.identity == ClientIdentity(pkt))
      && Holds(TableAfter(p, t, pkt, now), a, ClientIdentity(pkt), now + p.leaseSeconds * 1000)
  {
    hide Acquired, Find, Existing, ClientIdentity, AddressOption, Put;
    var a := AnswerTo(p, t, pkt, now).value.yiaddr;
    var id := ClientIdentity(pkt);
    if pkt.messageType == DISCOVER {
      AcquiredIsGrantable(p, t, id, now);
    }
    AssignHolds(p, t, a, id, now, a);
  }

  /** Until it expires, only the client giving up that address, or a decline of it, ends a held lease. */
  lemma HandlingKeepsHeld(p: Pool, t: Table, r: Received, a: Address, identity: string, until: int)
    requires Valid(p, t) && Holds(t, a, identity, until)
    requires r.now < until && p.leaseSeconds >= 0 && until <= r.now + p.leaseSeconds * 1000
    requires !GivesUp(p, t, r, identity, a) && !Declines(r.pkt, a)
    ensures Holds(TableAfter(p, t, r.pkt, r.now), a, identity, until)
  {
    ForOtherIs(p, r.pkt);
    DeclinesIs(r.pkt);
    hide Acquired, Find, Existing, ClientIdentity, AddressOption, Put, Delete;
    var pkt, now := r.pkt, r.now;
    var id := ClientIdentity(pkt);
    if pkt.giaddr == ZERO {
      if pkt.messageType == DISCOVER && Acquired(p, t, id, now).Some? {
        AcquiredIsGrantable(p, t, id, now);
        AssignHolds(p, t, Acquired(p, t, id, now).value, id, now, a);
      } else if pkt.messageType == REQUEST && !ChoseOther(p, pkt) && Wanted(pkt).Some? {
        AssignHolds(p, t, Wanted(pkt).value, id, now, a);
      } else if pkt.messageType == RELEASE || pkt.messageType == REQUEST {
        ExistingIs(t.leases, id, now);
        var e := Existing(t.leases, id, now);
        if e.Some? && (pkt.messageType == RELEASE || ChoseOther(p, pkt)) {
          DeleteFinds(t.leases, e.value, a);
        }
      } else if pkt.messageType == DECLINE {
        var bad := AddressOption(pkt, OPT_REQUESTED);
        if bad.Some? {
          DeleteFinds(t.leases, bad.value, a);
        }
      }
    }
  }

  /** Giving up the address, or declining it, does end the lease. */
  lemma HandlingEndsHeld(p: Pool, t: Table, r: Received, a: Address, identity: string)
    requires Valid(p, t) && (GivesUp(p, t, r, identity, a) || Declines(r.pkt, a))
    ensures Find(TableAfter(p, t, r.pkt, r.now).leases, a).None?
  {
    ForOtherIs(p, r.pkt);
    DeclinesIs(r.pkt);
    hide Acquired, Find, Existing, ClientIdentity, AddressOption, Put, Delete;
    DeleteIs(t.leases, a);
    FindIs(Delete(t.leases, a), a);
  }

  /** While it runs, a lease outlasts a packet exactly when the packet neither gives it up nor declines it. */
  lemma LeaseEndsExactly(p: Pool, t: Table, r: Received, a: Address, identity: string, until: int)
    requires Valid(p, t) && Holds(t, a, identity, until)
    requires r.now < until && p.leaseSeconds >= 0 && until <= r.now + p.leaseSeconds * 1000
    ensures Holds(TableAfter(p, t, r.pkt, r.now), a, identity, until)
            <==> !GivesUp(p, t, r, identity, a) && !Declines(r.pkt, a)
  {
    hide TableAfter, GivesUp, Declines;
    if GivesUp(p, t, r, identity, a) || Declines(r.pkt, a) {
      HandlingEndsHeld(p, t, r, a, identity);
    } else {
      HandlingKeepsHeld(p, t, r, a, identity, until);
    }
  }

  /** Addresses are declined for good. */
  lemma {:induction false} DeclinedStays(p: Pool, run: seq<Received>, i: nat, j: nat)
    requires i <= j <= |run|
    ensures TableAt(p, run, i).declined <= TableAt(p, run, j).declined
  {
    if i < j {
      DeclinedStays(p, run, i, j - 1);
      hide Acquired, Acknowledged, Release, AddressOption, ClientIdentity, Wanted;
      assert TableAt(p, run, j) == TableAfter(p, TableAt(p, run, j - 1), run[j - 1].pkt, run[j - 1].now);
      assert forall t: Table, id, now :: Release(t, id, now).declined == t.declined by { ReleaseDeclines(); }
    }
  }

  lemma ReleaseDeclines()
    ensures forall t: Table, id, now :: Release(t, id, now).declined == t.declined
  {
    hide Existing, Delete;
  }

  /** A declined address is never promised again. */
  lemma DeclinedIsNeverGranted(p: Pool, run: seq<Received>, i: nat, j: nat, a: Address)
    requires i < j < |run| && Declines(run[i].pkt, a)
    ensures !Grants(p, run, j, a)
  {
    DeclinesIs(run[i].pkt);
    assert a in TableAt(p, run, i + 1).declined by {
      hide AddressOption, ClientIdentity, Delete;
    }
    DeclinedStays(p, run, i + 1, j);
    if Grants(p, run, j, a) {
      TableAtValid(p, run, j);
      GrantIsHeld(p, TableAt(p, run, j), run[j].pkt, run[j].now);
    }
  }

  /** The `k`th packet gives up the lease on `a` that the `i`th packet's client was promised. */
  ghost predicate GivenUpAt(p: Pool, run: seq<Received>, i: nat, k: nat, a: Address)
    requires i < |run| && k < |run|
  {
    GivesUp(p, TableAt(p, run, k), run[k], ClientIdentity(run[i].pkt), a)
  }

  /** A promise stands until it expires, its client gives that address up, or somebody declines it. */
  lemma {:induction false} PromiseStands(p: Pool, run: seq<Received>, i: nat, j: nat, a: Address)
    requires p.leaseSeconds >= 0 && Monotone(run) && i < j <= |run| && Grants(p, run, i, a)
    requires forall k :: i < k < j ==>
      !GivenUpAt(p, run, i, k, a) && !Declines(run[k].pkt, a) && run[k].now < Until(p, run[i])
    ensures Holds(TableAt(p, run, j), a, ClientIdentity(run[i].pkt), Until(p, run[i]))
  {
    hide TableAfter, AnswerTo, Holds, GivesUp, Declines, ClientIdentity;
    if j == i + 1 {
      TableAtValid(p, run, i);
      GrantIsHeld(p, TableAt(p, run, i), run[i].pkt, run[i].now);
    } else {
      PromiseStands(p, run, i, j - 1, a);
      TableAtValid(p, run, j - 1);
      assert !GivenUpAt(p, run, i, j - 1, a);
      HandlingKeepsHeld(p, TableAt(p, run, j - 1), run[j - 1], a, ClientIdentity(run[i].pkt), Until(p, run[i]));
    }
  }

  /**
   * No address is promised to two clients at once: if the second promise is not to the same client,
   * and the first client has not given that very address up in between, the first promise has expired.
   */
  lemma NoDoublePromise(p: Pool, run: seq<Received>, i: nat, j: nat, a: Address)
    requires p.leaseSeconds >= 0 && Monotone(run) && i < j < |run|
    requires Grants(p, run, i, a) && Grants(p, run, j, a)
    requires ClientIdentity(run[i].pkt) != ClientIdentity(run[j].pkt)
    requires forall k :: i < k < j ==> !GivenUpAt(p, run, i, k, a)
    ensures run[j].now >= Until(p, run[i])
  {
    if run[j].now < Until(p, run[i]) {
      forall k | i < k < j ensures !Declines(run[k].pkt, a) {
        if Declines(run[k].pkt, a) { DeclinedIsNeverGranted(p, run, k, j, a); }
      }
      PromiseStands(p, run, i, j, a);
      TableAtValid(p, run, j);
      GrantIsHeld(p, TableAt(p, run, j), run[j].pkt, run[j].now);
    }
  }

  /** The packet names `a`: in option 50, or without one as the address its client has. */
  ghost predicate Names(pkt: Packet, a: Address) {
    if 50 in pkt.options && |pkt.options[50]| == 4 then Reads(pkt, 50, a) else pkt.ciaddr == a && a != 0
  }

  /** A request (3) for `a` that chose no other server and was not relayed. */
  ghost predicate Asks(p: Pool, pkt: Packet, a: Address) {
    pkt.messageType == 3 && pkt.giaddr == 0 && !ForOther(p, pkt) && Names(pkt, a)
  }

  /** What the packet asks for, told through the handler's own readings. */
  lemma AsksIs(p: Pool, pkt: Packet)
    ensures forall a: Address :: Asks(p, pkt, a) <==>
              pkt.messageType == REQUEST && pkt.giaddr == ZERO && !ChoseOther(p, pkt) && Wanted(pkt) == Some(a)
  {
    OptionIs(pkt, 50);
    ForOtherIs(p, pkt);
  }

  /**
   * The `i`th packet's client was promised `a` and asks for it in the `j`th, before the promise
   * expires; in between it has not given that address up, and nobody has declined it.
   */
  ghost predicate Outstanding(p: Pool, run: seq<Received>, i: nat, j: nat, a: Address) {
    && Monotone(run) && i < j < |run| && Grants(p, run, i, a)
    && Asks(p, run[j].pkt, a) && ClientIdentity(run[j].pkt) == ClientIdentity(run[i].pkt)
    && run[j].now < Until(p, run[i])
    && forall k :: i < k < j ==> !GivenUpAt(p, run, i, k, a) && !Declines(run[k].pkt, a)
  }

  /**
   * What was promised is acknowledged when its client asks in time, whatever other clients sent in
   * between, exactly when it lies between the pool's first and last address.
   */
  lemma PromiseHonoured(p: Pool, run: seq<Received>, i: nat, j: nat, a: Address)
    requires p.leaseSeconds >= 0 && Outstanding(p, run, i, j, a)
    ensures AnswerAt(p, run, j).Some?
    ensures AnswerAt(p, run, j).value.messageType ==
            if p.AddressAt(0) <= a <= p.AddressAt(p.Size() - 1) then ACK else NAK
    ensures p.AddressAt(0) <= a <= p.AddressAt(p.Size() - 1) ==> Grants(p, run, j, a)
  {
    AsksIs(p, run[j].pkt);
    PromiseStands(p, run, i, j, a);
    TableAtValid(p, run, j);
    var t := TableAt(p, run, j);
    hide AddressOption, ClientIdentity, Pool.AddressAt, Names, ForOther;
    FindIs(t.leases, a);
  }

  /** The pool has slots, and no more than there are addresses. */
  predicate Sized(p: Pool) {
    1 <= p.Size() <= TWO32
  }

  /** Counting up from the pool's first address does not start over at 0.0.0.0 before its last. */
  predicate Unwrapped(p: Pool) {
    p.AddressAt(0) <= p.AddressAt(p.Size() - 1)
  }

  ghost predicate InRange(p: Pool, a: Address) {
    p.AddressAt(0) <= a <= p.AddressAt(p.Size() - 1)
  }

  /** Every lease of an unwrapped pool is between its first and last address. */
  lemma {:induction false} LeasesAreInRange(p: Pool, run: seq<Received>, n: nat)
    requires Sized(p) && Unwrapped(p) && n <= |run|
    ensures forall l :: l in TableAt(p, run, n).leases ==> InRange(p, l.address)
  {
    if n > 0 {
      LeasesAreInRange(p, run, n - 1);
      TableAtValid(p, run, n - 1);
      HandlingKeepsRange(p, TableAt(p, run, n - 1), run[n - 1].pkt, run[n - 1].now);
    }
  }

  lemma AcquiredIsInRange(p: Pool, t: Table, identity: string, now: int)
    requires Sized(p) && Unwrapped(p) && Valid(p, t) && Acquired(p, t, identity, now).Some?
    requires forall l :: l in t.leases ==> InRange(p, l.address)
    ensures InRange(p, Acquired(p, t, identity, now).value)
  {
    hide InRange, Probe, Pool.AddressAt, Hash32, NetworkAddress;
    var e := Existing(t.leases, identity, now);
    if e.Some? {
      ExistingIs(t.leases, identity, now);
      FindIs(t.leases, e.value);
    } else {
      ProbeIsInRange(p, t, Hash32(identity) % p.Size(), now, 0);
    }
  }

  lemma {:induction false} ProbeIsInRange(p: Pool, t: Table, preferred: nat, now: int, i: nat)
    requires Sized(p) && Unwrapped(p) && i <= p.Size()
    ensures Probe(p, t, preferred, now, i).Some? ==> InRange(p, Probe(p, t, preferred, now, i).value)
    decreases p.Size() - i
  {
    hide Free, InRange, Unwrapped, Pool.AddressAt;
    if i < p.Size() {
      SlotIsInRange(p, SlotAt(preferred, i, p.Size()));
      ProbeIsInRange(p, t, preferred, now, i + 1);
    }
  }

  lemma SlotIsInRange(p: Pool, slot: nat)
    requires Sized(p) && Unwrapped(p) && slot < p.Size()
    ensures InRange(p, p.AddressAt(slot))
  {
  }

  lemma HandlingKeepsRange(p: Pool, t: Table, pkt: Packet, now: int)
    requires Sized(p) && Unwrapped(p) && Valid(p, t)
    requires forall l :: l in t.leases ==> InRange(p, l.address)
    ensures forall l :: l in TableAfter(p, t, pkt, now).leases ==> InRange(p, l.address)
  {
    hide Acquired, Find, Existing, ClientIdentity, AddressOption, Put, Delete, Pool.AddressAt, NetworkAddress;
    var id := ClientIdentity(pkt);
    var lease := (a: Address) => Lease(a, id, now + p.leaseSeconds * 1000);
    if pkt.messageType == DISCOVER && Acquired(p, t, id, now).Some? {
      AcquiredIsInRange(p, t, id, now);
      PutMembers(t.leases, lease(Acquired(p, t, id, now).value));
    } else if pkt.messageType == REQUEST && Wanted(pkt).Some? {
      PutMembers(t.leases, lease(Wanted(pkt).value));
    }
    var e := Existing(t.leases, id, now);
    if e.Some? { DeleteIs(t.leases, e.value); }
    var bad := AddressOption(pkt, OPT_REQUESTED);
    if bad.Some? { DeleteIs(t.leases, bad.value); }
  }

  /** Section 3.1 of RFC 2131: with an unwrapped pool, what was promised is acknowledged. */
  lemma OfferHonoured(p: Pool, run: seq<Received>, i: nat, j: nat, a: Address)
    requires p.leaseSeconds >= 0 && Outstanding(p, run, i, j, a)
    requires Sized(p) && Unwrapped(p)
    ensures AnswerAt(p, run, j) == Some(Answer(ACK, a, Destination(run[j].pkt)))
  {
    PromiseHonoured(p, run, i, j, a);
    PromiseStands(p, run, i, j, a);
    LeasesAreInRange(p, run, j);
    hide AddressOption, ClientIdentity, Pool.AddressAt, InRange;
    FindIs(TableAt(p, run, j).leases, a);
    assert InRange(p, a);
    assert p.AddressAt(0) <= a <= p.AddressAt(p.Size() - 1) by { RangeIs(p, a); }
  }

  lemma RangeIs(p: Pool, a: Address)
    ensures InRange(p, a) <==> p.AddressAt(0) <= a <= p.AddressAt(p.Size() - 1)
  {
  }

  // --- A pool that wraps -------------------------------------------------------------------------

  /** A wrapped pool acknowledges nothing: its first address comes after its last. */
  lemma WrappedPoolRefuses(p: Pool, t: Table, identity: string, a: Address, now: int)
    requires !Unwrapped(p)
    ensures !Acknowledged(p, t, identity, a, now)
  {
  }

  /** A wrapped pool has two addresses at least, so an empty table has one for every client. */
  lemma EmptyTableOffers(p: Pool, identity: string, now: int)
    requires Sized(p) && !Unwrapped(p)
    ensures Acquired(p, Table([], {}), identity, now).Some?
  {
    var t := Table([], {});
    ExhaustedExactlyWhenNothingFree(p, t, identity, now);
    hide Acquired;
    assert !Taken(p, t, 0, identity, now) || !Taken(p, t, p.Size() - 1, identity, now);
  }

  /** A client without an address looks for a server. */
  function Discovery(chaddr: seq<Byte>): Packet {
    var options: Options := map[OPT_TYPE := [DISCOVER]];
    Packet(1, 0, 0, ZERO, ZERO, chaddr, DISCOVER, options)
  }

  /** The same client asking for `a`. */
  function Asking(chaddr: seq<Byte>, a: Address): Packet {
    var options: Options := map[OPT_TYPE := [REQUEST], OPT_REQUESTED := U32(a)];
    Packet(1, 0, 0, ZERO, ZERO, chaddr, REQUEST, options)
  }

  lemma AskingAsks(p: Pool, chaddr: seq<Byte>, a: Address)
    ensures Asks(p, Asking(chaddr, a), a)
    ensures ClientIdentity(Asking(chaddr, a)) == ClientIdentity(Discovery(chaddr))
  {
    AsksIs(p, Asking(chaddr, a));
    ReadWritten(U32(a), 0, a);
    assert U32(a)[0..4] == U32(a);
  }

  /** Whoever comes first to a wrapped pool is offered an address, asks for it at once, and is refused it. */
  lemma WrappedPoolOffersThenRefuses(p: Pool, chaddr: seq<Byte>, now: int) returns (run: seq<Received>, a: Address)
    requires Sized(p) && !Unwrapped(p) && p.leaseSeconds > 0
    ensures |run| == 2 && run[0].pkt == Discovery(chaddr) && run[1].pkt == Asking(chaddr, a) && run[0].now == now
    ensures AnswerAt(p, run, 0) == Some(Answer(OFFER, a, BROADCAST))
    ensures Outstanding(p, run, 0, 1, a)
    ensures AnswerAt(p, run, 1) == Some(Answer(NAK, ZERO, BROADCAST))
  {
    var t, id := Table([], {}), ClientIdentity(Discovery(chaddr));
    EmptyTableOffers(p, id, now);
    a := Acquired(p, t, id, now).value;
    run := [Received(Discovery(chaddr), now), Received(Asking(chaddr, a), now)];
    AskingAsks(p, chaddr, a);
    hide Acquired, ClientIdentity, AddressOption, Unwrapped;
    assert TableAt(p, run, 0) == t;
    WrappedPoolRefuses(p, TableAt(p, run, 1), id, a, now);
  }

  /** Every promise is honoured, in every run. */
  ghost predicate Honours(p: Pool) {
    forall run: seq<Received>, i: nat, j: nat, a: Address ::
      Outstanding(p, run, i, j, a) ==> AnswerAt(p, run, j) == Some(Answer(ACK, a, Destination(run[j].pkt)))
  }

  /** The exact condition under which the server keeps section 3.1 of RFC 2131. */
  lemma HonoursExactlyWhenUnwrapped(p: Pool)
    requires Sized(p) && p.leaseSeconds > 0
    ensures Honours(p) <==> Unwrapped(p)
  {
    hide Unwrapped, Pool.AddressAt, Grants, AnswerAt, Monotone;
    if Unwrapped(p) {
      forall run: seq<Received>, i: nat, j: nat, a: Address | Outstanding(p, run, i, j, a)
        ensures j < |run| && AnswerAt(p, run, j) == Some(Answer(ACK, a, Destination(run[j].pkt)))
      {
        OfferHonoured(p, run, i, j, a);
      }
    } else {
      var run, a := WrappedPoolOffersThenRefuses(p, [0], 0);
    }
  }
}
