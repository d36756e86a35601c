// What the DHCP server answers to each packet and what it then holds, told by the fields of the
// packet and the leases of the table (src/runHosting/dhcpHandler.ts, src/runHosting/dhcpLeases.ts;
// section 4.3 of RFC 2131).
module DhcpAnswers {
  import opened Collections
  import opened Ip
  import opened DhcpLeases
  import opened DhcpMessage
  import opened DhcpHandler
  import opened DhcpTheorems

  // --- The table -------------------------------------------------------------------------------------

  /** The `k`th lease is the first that `identity` has running. */
  ghost predicate FirstRunning(t: Table, k: int, identity: string, now: int) {
    && 0 <= k < |t.leases| && t.leases[k].identity == identity && t.leases[k].expiresAt > now
    && forall j :: 0 <= j < k ==> t.leases[j].identity != identity || t.leases[j].expiresAt <= now
  }

  ghost predicate NoneRunning(t: Table, identity: string, now: int) {
    forall l :: l in t.leases && l.identity == identity ==> l.expiresAt <= now
  }

  /** Not the host's, not declined, and no lease on it is running. */
  ghost predicate Vacant(p: Pool, t: Table, a: Address, now: int) {
    a != p.host && a !in t.declined && forall l :: l in t.leases && l.address == a ==> l.expiresAt <= now
  }

  /** The lease takes the place of the one on its address, or comes last; nothing else changes. */
  ghost predicate Stored(t: Table, lease: Lease, after: Table) {
    && after.declined == t.declined
    && (if exists l :: l in t.leases && l.address == lease.address
        then exists k :: 0 <= k < |t.leases| && t.leases[k].address == lease.address && after.leases == t.leases[k := lease]
        else after.leases == t.leases + [lease])
  }

  /** The lease on `a`, if there is one, is gone. */
  ghost predicate Removed(leases: seq<Lease>, a: Address, after: seq<Lease>) {
    if exists l :: l in leases && l.address == a
    then exists k :: 0 <= k < |leases| && leases[k].address == a && after == leases[..k] + leases[k + 1..]
    else after == leases
  }

  lemma {:induction false} PutStores(leases: seq<Lease>, lease: Lease)
    ensures if exists l :: l in leases && l.address == lease.address
            then exists k :: 0 <= k < |leases| && leases[k].address == lease.address && Put(leases, lease) == leases[k := lease]
            else Put(leases, lease) == leases + [lease]
  {
    if leases != [] && leases[0].address == lease.address {
      assert Put(leases, lease) == leases[0 := lease];
    } else if leases != [] {
      var rest := leases[1..];
      PutStores(rest, lease);
      assert forall l :: l in leases <==> l == leases[0] || l in rest;
      if exists l :: l in rest && l.address == lease.address {
        var k :| 0 <= k < |rest| && rest[k].address == lease.address && Put(rest, lease) == rest[k := lease];
        assert leases[k + 1] == rest[k] && Put(leases, lease) == leases[k + 1 := lease];
      }
    }
  }

  lemma {:induction false} DeleteRemoves(leases: seq<Lease>, a: Address)
    ensures Removed(leases, a, Delete(leases, a))
  {
    if leases != [] && leases[0].address == a {
      assert leases[..0] + leases[1..] == Delete(leases, a);
    } else if leases != [] {
      var rest := leases[1..];
      DeleteRemoves(rest, a);
      assert forall l :: l in leases <==> l == leases[0] || l in rest;
      if exists l :: l in rest && l.address == a {
        var k :| 0 <= k < |rest| && rest[k].address == a && Delete(rest, a) == rest[..k] + rest[k + 1..];
        assert leases[k + 1] == rest[k];
        DeletedLater(leases, k);
        assert Delete(leases, a) == leases[..k + 1] + leases[k + 1 + 1..];
      }
    }
  }

  lemma DeletedLater(leases: seq<Lease>, k: nat)
    requires k + 1 < |leases|
    ensures [leases[0]] + (leases[1..][..k] + leases[1..][k + 1..]) == leases[..k + 1] + leases[k + 1 + 1..]
  {
  }

  lemma {:induction false} ExistingRuns(t: Table, identity: string, now: int)
    ensures NoneRunning(t, identity, now) <==> Existing(t.leases, identity, now).None?
    ensures Existing(t.leases, identity, now).Some? ==>
              exists k :: FirstRunning(t, k, identity, now) && t.leases[k].address == Existing(t.leases, identity, now).value
    decreases |t.leases|
  {
    if t.leases != [] {
      var rest := t.(leases := t.leases[1..]);
      ExistingRuns(rest, identity, now);
      assert forall l :: l in t.leases <==> l == t.leases[0] || l in rest.leases;
      if t.leases[0].identity == identity && t.leases[0].expiresAt > now {
        assert FirstRunning(t, 0, identity, now);
      } else if Existing(rest.leases, identity, now).Some? {
        var k :| FirstRunning(rest, k, identity, now) && rest.leases[k].address == Existing(rest.leases, identity, now).value;
        assert rest.leases[k] == t.leases[k + 1];
        assert FirstRunning(t, k + 1, identity, now);
      }
    }
  }

  lemma FirstRunningIs(t: Table, k: int, identity: string, now: int)
    requires FirstRunning(t, k, identity, now)
    ensures Existing(t.leases, identity, now) == Some(t.leases[k].address)
  {
    ExistingRuns(t, identity, now);
    assert t.leases[k] in t.leases;
  }

  lemma FreeIsVacant(p: Pool, t: Table, a: Address, now: int)
    requires Valid(p, t)
    ensures Free(p, t, a, now) <==> Vacant(p, t, a, now)
  {
    OnlyOneOn(p, t, a);
  }

  /** The lease found for an address is the only one on it. */
  lemma OnlyOneOn(p: Pool, t: Table, a: Address)
    requires Valid(p, t)
    ensures forall l :: l in t.leases && l.address == a ==> Find(t.leases, a) == Some(l)
    ensures Find(t.leases, a).Some? ==> Find(t.leases, a).value in t.leases && Find(t.leases, a).value.address == a
  {
    FindIs(t.leases, a);
  }

  // --- Discovery -------------------------------------------------------------------------------------

  /** The `i`th slot from the client's own, which its identity's hash picks. */
  function Nth(p: Pool, identity: string, i: nat): Address
    requires p.Size() > 0
  {
    p.AddressAt((Hash32(identity) % p.Size() + i) % p.Size())
  }

  lemma {:induction false} ProbeFindsFirst(p: Pool, t: Table, preferred: nat, now: int, i: nat)
    requires i <= p.Size()
    ensures var r := Probe(p, t, preferred, now, i);
      r.Some? ==> exists k :: i <= k < p.Size() && r.value == p.AddressAt(SlotAt(preferred, k, p.Size()))
                    && Free(p, t, r.value, now)
                    && forall j :: i <= j < k ==> !Free(p, t, p.AddressAt(SlotAt(preferred, j, p.Size())), now)
    decreases p.Size() - i
  {
    hide Free, Pool.AddressAt, SlotAt;
    if i < p.Size() {
      ProbeFindsFirst(p, t, preferred, now, i + 1);
    }
  }

  /**
   * What a client acquires is the address of its first running lease, or else the first vacant
   * address from its own slot on; nothing only when it has no running lease and nothing is vacant.
   */
  lemma AcquireMeans(p: Pool, t: Table, identity: string, now: int)
    requires Valid(p, t)
    ensures var r := Acquired(p, t, identity, now);
      && (forall k :: FirstRunning(t, k, identity, now) ==> r == Some(t.leases[k].address))
      && (NoneRunning(t, identity, now) ==>
            && (r.Some? ==> p.Size() > 0 && Vacant(p, t, r.value, now)
                            && exists i: nat :: i < p.Size() && r.value == Nth(p, identity, i) && NoneBefore(p, t, identity, now, i))
            && (r.None? ==> forall slot :: 0 <= slot < p.Size() ==> !Vacant(p, t, p.AddressAt(slot), now)))
      && (r.None? ==> NoneRunning(t, identity, now))
  {
    ExistingRuns(t, identity, now);
    forall k | FirstRunning(t, k, identity, now) { FirstRunningIs(t, k, identity, now); }
    if Existing(t.leases, identity, now).None? && p.Size() > 0 {
      AcquireFresh(p, t, identity, now);
    }
  }

  /** No address between the client's own slot and its `i`th is vacant. */
  ghost predicate NoneBefore(p: Pool, t: Table, identity: string, now: int, i: nat)
    requires p.Size() > 0
  {
    forall j: nat :: j < i ==> !Vacant(p, t, Nth(p, identity, j), now)
  }

  lemma AcquireFresh(p: Pool, t: Table, identity: string, now: int)
    requires Valid(p, t) && p.Size() > 0
    ensures var r := Probe(p, t, Hash32(identity) % p.Size(), now, 0);
      && (r.Some? ==> Vacant(p, t, r.value, now)
                      && exists i: nat :: i < p.Size() && r.value == Nth(p, identity, i) && NoneBefore(p, t, identity, now, i))
      && (r.None? ==> forall slot :: 0 <= slot < p.Size() ==> !Vacant(p, t, p.AddressAt(slot), now))
  {
    var preferred := Hash32(identity) % p.Size();
    var r := Probe(p, t, preferred, now, 0);
    forall a { FreeIsVacant(p, t, a, now); }
    ProbeFindsFirst(p, t, preferred, now, 0);
    ProbeFailsExactly(p, t, preferred, now);
    hide Free, Vacant, Find, Hash32, Pool.AddressAt, Probe;
    if r.Some? {
      var k :| 0 <= k < p.Size() && r.value == p.AddressAt(SlotAt(preferred, k, p.Size())) && Free(p, t, r.value, now)
        && forall j :: 0 <= j < k ==> !Free(p, t, p.AddressAt(SlotAt(preferred, j, p.Size())), now);
      assert r.value == Nth(p, identity, k);
      forall j: nat | j < k ensures !Vacant(p, t, Nth(p, identity, j), now) {
        assert Nth(p, identity, j) == p.AddressAt(SlotAt(preferred, j, p.Size()));
      }
      assert NoneBefore(p, t, identity, now, k);
    } else {
      forall slot | 0 <= slot < p.Size() ensures !Vacant(p, t, p.AddressAt(slot), now) {
        assert !SlotFree(p, t, slot, now);
      }
    }
  }

  /**
   * Discovery (1) is answered with an offer (2) of what the client acquires, which it then holds for
   * the lease time; without an offer nothing changes.
   */
  lemma DiscoverMeans(p: Pool, t: Table, pkt: Packet, now: int)
    requires pkt.giaddr == 0 && pkt.messageType == 1
    ensures var id := ClientIdentity(pkt);
      var r, answer, after := Acquired(p, t, id, now), AnswerTo(p, t, pkt, now), TableAfter(p, t, pkt, now);
      && (r.None? ==> answer.None? && after == t)
      && (r.Some? ==>
            && answer == Some(Answer(2, r.value, if pkt.ciaddr != 0 then pkt.ciaddr else 0xffff_ffff))
            && Stored(t, Lease(r.value, id, now + p.leaseSeconds * 1000), after))
  {
    hide Acquired, ClientIdentity, Put;
    var id := ClientIdentity(pkt);
    var r := Acquired(p, t, id, now);
    if r.Some? { PutStores(t.leases, Lease(r.value, id, now + p.leaseSeconds * 1000)); }
  }

  // --- Requests --------------------------------------------------------------------------------------

  /** `a` is the client's to have: in the pool's range, not the host's, not declined, and not leased to another. */
  ghost predicate Grantable(p: Pool, t: Table, identity: string, a: Address, now: int) {
    && p.AddressAt(0) <= a <= p.AddressAt(p.Size() - 1) && a != p.host && a !in t.declined
    && forall l :: l in t.leases && l.address == a && l.expiresAt > now ==> l.identity == identity
  }

  lemma AcknowledgedIs(p: Pool, t: Table, identity: string, a: Address, now: int)
    requires Valid(p, t)
    ensures Acknowledged(p, t, identity, a, now) <==> Grantable(p, t, identity, a, now)
  {
    OnlyOneOn(p, t, a);
    hide Pool.AddressAt;
  }

  /** What the address fields of a packet mean for where it is answered to. */
  function ReplyTo(pkt: Packet): Address {
    if pkt.ciaddr != 0 then pkt.ciaddr else 0xffff_ffff
  }

  /**
   * A request (3) for an address, in option 50 or else the client's own, is acknowledged (5) exactly
   * when the address is the client's to have, and then held for the lease time from now, renewals
   * included; every other request gets a refusal (6) and changes nothing.
   */
  lemma RequestMeans(p: Pool, t: Table, pkt: Packet, now: int)
    requires Valid(p, t) && pkt.giaddr == 0 && pkt.messageType == 3 && !ForOther(p, pkt)
    ensures var id := ClientIdentity(pkt);
      var answer, after := AnswerTo(p, t, pkt, now), TableAfter(p, t, pkt, now);
      && (forall a: Address :: Asks(p, pkt, a) && Grantable(p, t, id, a, now) ==>
            answer == Some(Answer(5, a, ReplyTo(pkt))) && Stored(t, Lease(a, id, now + p.leaseSeconds * 1000), after))
      && ((forall a: Address :: Asks(p, pkt, a) ==> !Grantable(p, t, id, a, now)) ==>
            answer == Some(Answer(6, 0, ReplyTo(pkt))) && after == t)
  {
    var id := ClientIdentity(pkt);
    AsksIs(p, pkt);
    ForOtherIs(p, pkt);
    var wanted := Wanted(pkt);
    if wanted.Some? {
      AcknowledgedIs(p, t, id, wanted.value, now);
      PutStores(t.leases, Lease(wanted.value, id, now + p.leaseSeconds * 1000));
      assert Asks(p, pkt, wanted.value);
    }
    hide ClientIdentity, Wanted, Grantable, Acknowledged, Asks, ForOther, Put;
  }

  /** A client whose lease runs renews it by asking from its address, with no option at all. */
  lemma RenewalIsAcknowledged(p: Pool, t: Table, pkt: Packet, now: int, l: Lease)
    requires Valid(p, t) && l in t.leases && l.identity == ClientIdentity(pkt)
    requires p.AddressAt(0) <= l.address <= p.AddressAt(p.Size() - 1) && l.address != 0
    requires pkt.giaddr == 0 && pkt.messageType == 3 && pkt.ciaddr == l.address && 50 !in pkt.options && 54 !in pkt.options
    ensures AnswerTo(p, t, pkt, now) == Some(Answer(5, l.address, l.address))
    ensures Stored(t, Lease(l.address, l.identity, now + p.leaseSeconds * 1000), TableAfter(p, t, pkt, now))
  {
    hide ClientIdentity, AnswerTo, TableAfter, Stored, Pool.AddressAt;
    OnlyOneOn(p, t, l.address);
    assert Asks(p, pkt, l.address) && Grantable(p, t, ClientIdentity(pkt), l.address, now);
    RequestMeans(p, t, pkt, now);
  }

  /** A request without any address is refused. */
  lemma NothingAskedIsRefused(p: Pool, t: Table, pkt: Packet, now: int)
    requires Valid(p, t) && pkt.giaddr == 0 && pkt.messageType == 3 && !ForOther(p, pkt)
    requires pkt.ciaddr == 0 && (50 in pkt.options ==> |pkt.options[50]| != 4)
    ensures AnswerTo(p, t, pkt, now) == Some(Answer(6, 0, 0xffff_ffff)) && TableAfter(p, t, pkt, now) == t
  {
    hide ClientIdentity, AnswerTo, TableAfter, Stored;
    RequestMeans(p, t, pkt, now);
  }

  // --- Everything else -------------------------------------------------------------------------------

  /** A release (7), or a request (3) that chose another server, ends the client's first running lease, and is not answered. */
  lemma ReleaseMeans(p: Pool, t: Table, pkt: Packet, now: int)
    requires pkt.giaddr == 0 && (pkt.messageType == 7 || (pkt.messageType == 3 && ForOther(p, pkt)))
    ensures var id := ClientIdentity(pkt);
      var after := TableAfter(p, t, pkt, now);
      && AnswerTo(p, t, pkt, now).None? && after.declined == t.declined
      && (NoneRunning(t, id, now) ==> after == t)
      && forall k :: FirstRunning(t, k, id, now) ==> Removed(t.leases, t.leases[k].address, after.leases)
  {
    var id := ClientIdentity(pkt);
    ForOtherIs(p, pkt);
    ExistingRuns(t, id, now);
    forall k | FirstRunning(t, k, id, now)
      ensures Existing(t.leases, id, now) == Some(t.leases[k].address)
      ensures Removed(t.leases, t.leases[k].address, Delete(t.leases, t.leases[k].address))
    {
      FirstRunningIs(t, k, id, now);
      DeleteRemoves(t.leases, t.leases[k].address);
    }
    hide ClientIdentity, Existing, FirstRunning, NoneRunning, Removed, ForOther, Delete;
  }

  /** A decline (4) of an address marks it and deletes its lease; one without an address does nothing. Neither is answered. */
  lemma DeclineMeans(p: Pool, t: Table, pkt: Packet, now: int)
    requires pkt.giaddr == 0 && pkt.messageType == 4
    ensures var after := TableAfter(p, t, pkt, now);
      && AnswerTo(p, t, pkt, now).None?
      && (forall a: Address :: Reads(pkt, 50, a) ==>
            after.declined == t.declined + {a} && Removed(t.leases, a, after.leases))
      && ((50 in pkt.options ==> |pkt.options[50]| != 4) ==> after == t)
  {
    OptionIs(pkt, 50);
    forall a: Address | Reads(pkt, 50, a) ensures Removed(t.leases, a, Delete(t.leases, a)) { DeleteRemoves(t.leases, a); }
    hide AddressOption, Reads, Removed, Delete;
  }

  /** An inform (8) is acknowledged (5) without an address; relayed packets and all other types are ignored. */
  lemma OthersMean(p: Pool, t: Table, pkt: Packet, now: int)
    ensures pkt.giaddr == 0 && pkt.messageType == 8 ==>
              AnswerTo(p, t, pkt, now) == Some(Answer(5, 0, ReplyTo(pkt))) && TableAfter(p, t, pkt, now) == t
    ensures pkt.giaddr != 0 || pkt.messageType !in {1, 3, 4, 7, 8} ==>
              AnswerTo(p, t, pkt, now).None? && TableAfter(p, t, pkt, now) == t
  {
    hide ClientIdentity, AddressOption;
  }

  /** Two packets are one client's exactly when their option 61, or else their hardware address, is the same. */
  lemma IdentityMeans(p: Packet, q: Packet)
    ensures ClientIdentity(p) == ClientIdentity(q) <==>
            (if 61 in p.options then p.options[61] else p.chaddr) == (if 61 in q.options then q.options[61] else q.chaddr)
  {
    var a := if 61 in p.options then p.options[61] else p.chaddr;
    var b := if 61 in q.options then q.options[61] else q.chaddr;
    if ClientIdentity(p) == ClientIdentity(q) { HexInjective(a, b); }
  }
}
