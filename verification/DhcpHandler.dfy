// The DHCP message handler over the lease table (src/runHosting/dhcpHandler.ts), from the bytes
// of a datagram to the bytes of its reply (src/runHosting/dhcpServer.ts).
module DhcpHandler {
  import opened Collections
  import opened Ip
  import opened DhcpLeases
  import opened DhcpMessage
  import opened DhcpReply

  const ZERO: Address := 0
  const BROADCAST: Address := 0xffff_ffff

  /** What a handled packet is answered with. */
  datatype Answer = Answer(messageType: Byte, yiaddr: Address, destination: Address)

  function Destination(pkt: Packet): Address {
    if pkt.ciaddr != ZERO then pkt.ciaddr else BROADCAST
  }

  /** The client chose another server's offer. */
  predicate ChoseOther(p: Pool, pkt: Packet) {
    var chosen := AddressOption(pkt, OPT_SERVER);
    chosen.Some? && chosen.value != p.host
  }

  function Wanted(pkt: Packet): Option<Address> {
    var o := AddressOption(pkt, OPT_REQUESTED);
    if o.Some? then o else if pkt.ciaddr != ZERO then Some(pkt.ciaddr) else None
  }

  /** The table after a packet. */
  function TableAfter(p: Pool, t: Table, pkt: Packet, now: int): Table {
    var id := ClientIdentity(pkt);
    if pkt.giaddr != ZERO then t
    else if pkt.messageType == DISCOVER then Acquire(p, t, id, now)
    else if pkt.messageType == REQUEST then
      if ChoseOther(p, pkt) then Release(t, id, now)
      else if Wanted(pkt).Some? then Request(p, t, id, Wanted(pkt).value, now)
      else t
    else if pkt.messageType == RELEASE then Release(t, id, now)
    else if pkt.messageType == DECLINE && AddressOption(pkt, OPT_REQUESTED).Some?
    then Decline(t, AddressOption(pkt, OPT_REQUESTED).value)
    else t
  }

  function AnswerTo(p: Pool, t: Table, pkt: Packet, now: int): Option<Answer> {
    var id := ClientIdentity(pkt);
    if pkt.giaddr != ZERO then None
    else if pkt.messageType == DISCOVER then
      var a := Acquired(p, t, id, now);
      if a.Some? then Some(Answer(OFFER, a.value, Destination(pkt))) else None
    else if pkt.messageType == REQUEST then
      if ChoseOther(p, pkt) then None
      else if Wanted(pkt).Some? && Acknowledged(p, t, id, Wanted(pkt).value, now)
      then Some(Answer(ACK, Wanted(pkt).value, Destination(pkt)))
      else Some(Answer(NAK, ZERO, Destination(pkt)))
    else if pkt.messageType == INFORM then Some(Answer(ACK, ZERO, Destination(pkt)))
    else None
  }

  method HandleDhcp(table: LeaseTable, pkt: Packet, now: int) returns (answer: Option<Answer>)
    modifies table
    ensures answer == AnswerTo(table.pool, old(table.Value()), pkt, now)
    ensures table.Value() == TableAfter(table.pool, old(table.Value()), pkt, now)
  {
    hide Acquired, Acquire, Acknowledged, Request, Release, Decline, ClientIdentity, AddressOption;
    if pkt.giaddr != ZERO { return None; }
    var identity := ClientIdentity(pkt);
    if pkt.messageType == DISCOVER {
      var a := table.AcquireAddress(identity, now);
      if a.None? { return None; }
      return Some(Answer(OFFER, a.value, Destination(pkt)));
    }
    if pkt.messageType == REQUEST {
      var chosen := AddressOption(pkt, OPT_SERVER);
      if chosen.Some? && chosen.value != table.pool.host {
        table.ReleaseLease(identity, now);
        return None;
      }
      var wanted := Wanted(pkt);
      if wanted.None? { return Some(Answer(NAK, ZERO, Destination(pkt))); }
      var ack := table.RequestAddress(identity, wanted.value, now);
      return Some(if ack then Answer(ACK, wanted.value, Destination(pkt)) else Answer(NAK, ZERO, Destination(pkt)));
    }
    if pkt.messageType == RELEASE {
      table.ReleaseLease(identity, now);
      return None;
    }
    if pkt.messageType == DECLINE {
      var bad := AddressOption(pkt, OPT_REQUESTED);
      if bad.Some? { table.DeclineAddress(bad.value); }
      return None;
    }
    if pkt.messageType == INFORM { return Some(Answer(ACK, ZERO, Destination(pkt))); }
    return None;
  }

  /** One datagram: parse, handle, and encode the answer. The pool's lease time fits its option. */
  method OnMessage(table: LeaseTable, datagram: array<Byte>, now: int) returns (reply: Option<(seq<Byte>, Address)>)
    requires 0 <= table.pool.leaseSeconds < TWO32
    modifies table
    ensures var packet := Parse(old(datagram[..]));
      var before := old(table.Value());
      && (packet.None? ==> reply.None? && table.Value() == before)
      && (packet.Some? ==>
            && table.Value() == TableAfter(table.pool, before, packet.value, now)
            && (reply.Some? <==> AnswerTo(table.pool, before, packet.value, now).Some?)
            && (reply.Some? ==>
                  var answer := AnswerTo(table.pool, before, packet.value, now).value;
                  && reply.value.1 == answer.destination
                  && Parse(reply.value.0).Some?
                  && Parse(reply.value.0).value.xid == packet.value.xid
                  && Parse(reply.value.0).value.chaddr == packet.value.chaddr
                  && Parse(reply.value.0).value.messageType == answer.messageType
                  && |reply.value.0| >= 20 && ReadU32(reply.value.0, 16) == answer.yiaddr))
  {
    hide TableAfter, AnswerTo, Parse, Reply, ReplyOptions;
    var packet := ParsePacket(datagram);
    if packet.None? { return None; }
    var answer := HandleDhcp(table, packet.value, now);
    if answer.None? { return None; }
    ParsedIsAnswerable(datagram[..]);
    var input := ReplyInput(packet.value, answer.value.messageType, answer.value.yiaddr, table.pool.host,
                            table.pool.netmask, table.pool.leaseSeconds);
    var bytes := BuildReply(input);
    ReplyRoundTrip(input);
    return Some((bytes, answer.value.destination));
  }
}
