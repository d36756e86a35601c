// Building a DHCP reply in its 300-byte buffer (src/runHosting/dhcpMessage.ts, buildReply).
module DhcpReply {
  import opened Collections
  import opened Ip
  import opened DhcpMessage

  datatype ReplyInput = ReplyInput(
    request: Packet,
    messageType: Byte,
    yiaddr: Address,
    hostIp: Address,
    netmask: Address,
    leaseSeconds: Address)

  /** What every parsed packet satisfies, and all that a reply needs of its request. */
  predicate Answerable(p: Packet) {
    1 <= |p.chaddr| <= 16 && p.flags < 0x1_0000
  }

  lemma ParsedIsAnswerable(buf: seq<Byte>)
    requires Parse(buf).Some?
    ensures Answerable(Parse(buf).value)
  {
  }

  function ReplyOptions(i: ReplyInput): seq<Item> {
    [Opt(OPT_TYPE, [i.messageType]), Opt(OPT_SERVER, U32(i.hostIp))]
    + (if i.messageType == NAK then [] else
       [Opt(OPT_MASK, U32(i.netmask)), Opt(OPT_ROUTER, U32(i.hostIp)), Opt(OPT_DNS, U32(i.hostIp)),
        Opt(OPT_LEASE, U32(i.leaseSeconds)), Opt(OPT_T1, U32(i.leaseSeconds / 2)),
        Opt(OPT_T2, U32(i.leaseSeconds * 7 / 8))])
  }

  function Zeros(n: nat): (s: seq<Byte>)
    ensures |s| == n && forall k :: 0 <= k < n ==> s[k] == 0
  {
    seq(n, k => 0)
  }

  /** `s`, then zeros up to offset `o`, then `bytes`. */
  function Then(s: seq<Byte>, o: nat, bytes: seq<Byte>): (r: seq<Byte>)
    requires |s| <= o
    ensures |r| == o + |bytes| && s <= r && r[o..] == bytes
  {
    s + Zeros(o - |s|) + bytes
  }

  /** The fixed fields, in the order the source writes them. */
  function Header(i: ReplyInput): (s: seq<Byte>)
    requires Answerable(i.request)
    ensures |s| == MIN
  {
    var a := Then(Then(Then([], 0, [2]), 1, [1]), 2, [|i.request.chaddr|]);
    var b := Then(Then(a, 4, U32(i.request.xid)), 10, U16(i.request.flags));
    var c := Then(Then(b, 12, U32(i.request.ciaddr)), 16, U32(i.yiaddr));
    var d := Then(Then(c, 20, U32(i.hostIp)), 24, U32(i.request.giaddr));
    Then(Then(d, 28, i.request.chaddr), 236, U32(COOKIE))
  }

  lemma ReplyOptionsWellFormed(i: ReplyInput)
    ensures forall o :: o in ReplyOptions(i) ==> WellFormedItem(o)
  {
  }

  function Reply(i: ReplyInput): seq<Byte>
    requires Answerable(i.request)
  {
    ReplyOptionsWellFormed(i);
    Header(i) + Encode(ReplyOptions(i)) + [END]
  }

  // --- The buffer as the source fills it --------------------------------------------------------

  /** The buffer holds `s` and zeros after it. */
  ghost predicate Filled(b: array<Byte>, s: seq<Byte>)
    reads b
  {
    |s| <= b.Length && b[..|s|] == s && forall k :: |s| <= k < b.Length ==> b[k] == 0
  }

  method Write(b: array<Byte>, o: nat, bytes: seq<Byte>, ghost s: seq<Byte>)
    requires Filled(b, s) && |s| <= o && o + |bytes| <= b.Length
    modifies b
    ensures Filled(b, Then(s, o, bytes))
  {
    for k := 0 to |bytes|
      invariant b[..o] == old(b[..o])
      invariant b[o..o + k] == bytes[..k]
      invariant forall j :: o + k <= j < b.Length ==> b[j] == 0
    {
      b[o + k] := bytes[k];
    }
    assert b[o..o + |bytes|] == bytes;
    assert b[..o] == s + Zeros(o - |s|);
    assert b[..o + |bytes|] == b[..o] + b[o..o + |bytes|];
  }

  method WriteHeader(b: array<Byte>, i: ReplyInput)
    requires Answerable(i.request) && b.Length == 300 && forall k :: 0 <= k < b.Length ==> b[k] == 0
    modifies b
    ensures Filled(b, Header(i))
  {
    hide Then, Filled, U32, U16;
    assert Filled(b, []) by { EmptyFilled(b); }
    ghost var s := [];
    Write(b, 0, [2], s); s := Then(s, 0, [2]);
    Write(b, 1, [1], s); s := Then(s, 1, [1]);
    Write(b, 2, [|i.request.chaddr|], s); s := Then(s, 2, [|i.request.chaddr|]);
    Write(b, 4, U32(i.request.xid), s); s := Then(s, 4, U32(i.request.xid));
    Write(b, 10, U16(i.request.flags), s); s := Then(s, 10, U16(i.request.flags));
    Write(b, 12, U32(i.request.ciaddr), s); s := Then(s, 12, U32(i.request.ciaddr));
    Write(b, 16, U32(i.yiaddr), s); s := Then(s, 16, U32(i.yiaddr));
    Write(b, 20, U32(i.hostIp), s); s := Then(s, 20, U32(i.hostIp));
    Write(b, 24, U32(i.request.giaddr), s); s := Then(s, 24, U32(i.request.giaddr));
    Write(b, 28, i.request.chaddr, s); s := Then(s, 28, i.request.chaddr);
    Write(b, 236, U32(COOKIE), s); s := Then(s, 236, U32(COOKIE));
  }

  lemma EmptyFilled(b: array<Byte>)
    requires forall k :: 0 <= k < b.Length ==> b[k] == 0
    ensures Filled(b, [])
  {
  }

  /** Appends one option at the moving offset. */
  method WriteOption(b: array<Byte>, o: nat, item: Item, ghost s: seq<Byte>) returns (next: nat)
    requires item.Opt? && WellFormedItem(item)
    requires Filled(b, s) && o == |s| && o + 2 + |item.data| <= b.Length
    modifies b
    ensures next == o + 2 + |item.data|
    ensures Filled(b, s + EncodeItem(item))
  {
    Write(b, o, [item.code], s);
    Write(b, o + 1, [|item.data|], s + [item.code]);
    Write(b, o + 2, item.data, s + [item.code] + [|item.data|]);
    assert s + [item.code] + [|item.data|] + item.data == s + EncodeItem(item);
    next := o + 2 + |item.data|;
  }

  lemma {:induction false} EncodeAppend(items: seq<Item>, item: Item)
    requires WellFormedItem(item) && forall i :: i in items ==> WellFormedItem(i)
    ensures Encode(items + [item]) == Encode(items) + EncodeItem(item)
  {
    hide EncodeItem, WellFormedItem;
    if items == [] {
      assert [item][1..] == [];
      assert Encode([item]) == EncodeItem(item) + Encode([]);
      assert [] + [item] == [item];
    } else {
      EncodeAppend(items[1..], item);
      Associative(EncodeItem(items[0]), Encode(items[1..]), EncodeItem(item));
      assert (items + [item])[0] == items[0] && (items + [item])[1..] == items[1..] + [item];
    }
  }

  /** Every option of a reply takes at most six bytes, so the first `k` of them at most `6k`. */
  lemma {:induction false} EncodedLength(items: seq<Item>)
    requires forall i :: i in items ==> WellFormedItem(i) && (i.Opt? ==> |i.data| <= 4)
    ensures |Encode(items)| <= 6 * |items|
  {
    if items != [] {
      EncodedLength(items[1..]);
    }
  }

  lemma ReplyFits(i: ReplyInput)
    requires Answerable(i.request)
    ensures |Reply(i)| <= 289
  {
    ReplyOptionsWellFormed(i);
    EncodedLength(ReplyOptions(i));
  }

  method BuildReply(i: ReplyInput) returns (reply: seq<Byte>)
    requires Answerable(i.request)
    ensures reply == Reply(i)
    ensures |reply| <= 300
  {
    hide Filled, EncodeItem, U32, Header;
    var b: array<Byte> := new Byte[300](_ => 0);
    WriteHeader(b, i);
    var options := ReplyOptions(i);
    ReplyOptionsWellFormed(i);
    var o: nat := MIN;
    ghost var s := Header(i);
    assert Header(i) + Encode(options[..0]) == Header(i);
    for k := 0 to |options|
      invariant Filled(b, Header(i) + Encode(options[..k]))
      invariant o == MIN + |Encode(options[..k])|
      invariant o <= MIN + 6 * k
    {
      assert options[..k + 1] == options[..k] + [options[k]];
      EncodeAppend(options[..k], options[k]);
      EncodedItemLength(options[k]);
      Associative(Header(i), Encode(options[..k]), EncodeItem(options[k]));
      o := WriteOption(b, o, options[k], Header(i) + Encode(options[..k]));
    }
    assert options[..|options|] == options;
    Write(b, o, [END], Header(i) + Encode(options));
    FilledPrefix(b, Header(i) + Encode(options));
    return b[..o + 1];
  }

  lemma EncodedItemLength(item: Item)
    requires WellFormedItem(item) && item.Opt?
    ensures |EncodeItem(item)| == 2 + |item.data|
  {
  }

  lemma FilledPrefix(b: array<Byte>, s: seq<Byte>)
    requires Filled(b, Then(s, |s|, [END]))
    ensures b[..|s| + 1] == s + [END]
  {
    assert Zeros(0) == [];
    assert Then(s, |s|, [END]) == s + [END];
  }

  // --- What a reply reads back as -----------------------------------------------------------------

  /** A field written at the end of `s` is still there in anything `s` is a prefix of. */
  lemma FieldStays(s: seq<Byte>, o: nat, bytes: seq<Byte>, whole: seq<Byte>)
    requires |s| <= o && Then(s, o, bytes) <= whole
    ensures whole[o..o + |bytes|] == bytes
  {
    var t := Then(s, o, bytes);
    assert whole[..|t|] == t;
    assert whole[o..o + |bytes|] == t[o..];
  }

  lemma PrefixTransitive(a: seq<Byte>, b: seq<Byte>, c: seq<Byte>)
    requires a <= b <= c
    ensures a <= c
  {
  }

  lemma HeaderFields(i: ReplyInput, whole: seq<Byte>)
    requires Answerable(i.request) && Header(i) <= whole
    ensures |whole| >= MIN
    ensures whole[0..1] == [2] && whole[1..2] == [1] && whole[2..3] == [|i.request.chaddr|]
    ensures whole[4..8] == U32(i.request.xid) && whole[10..12] == U16(i.request.flags)
    ensures whole[12..16] == U32(i.request.ciaddr) && whole[16..20] == U32(i.yiaddr)
    ensures whole[20..24] == U32(i.hostIp) && whole[24..28] == U32(i.request.giaddr)
    ensures whole[28..28 + |i.request.chaddr|] == i.request.chaddr && whole[236..240] == U32(COOKIE)
  {
    hide Then, U32, U16;
    var n := |i.request.chaddr|;
    var h0 := Then([], 0, [2]);
    var h1 := Then(h0, 1, [1]);
    var h2 := Then(h1, 2, [n]);
    var h3 := Then(h2, 4, U32(i.request.xid));
    var h4 := Then(h3, 10, U16(i.request.flags));
    var h5 := Then(h4, 12, U32(i.request.ciaddr));
    var h6 := Then(h5, 16, U32(i.yiaddr));
    var h7 := Then(h6, 20, U32(i.hostIp));
    var h8 := Then(h7, 24, U32(i.request.giaddr));
    var h9 := Then(h8, 28, i.request.chaddr);
    PrefixTransitive(h9, Header(i), whole);
    PrefixTransitive(h8, h9, whole);
    PrefixTransitive(h7, h8, whole);
    PrefixTransitive(h6, h7, whole);
    PrefixTransitive(h5, h6, whole);
    PrefixTransitive(h4, h5, whole);
    PrefixTransitive(h3, h4, whole);
    PrefixTransitive(h2, h3, whole);
    PrefixTransitive(h1, h2, whole);
    PrefixTransitive(h0, h1, whole);
    FieldStays([], 0, [2], whole);
    FieldStays(h0, 1, [1], whole);
    FieldStays(h1, 2, [n], whole);
    FieldStays(h2, 4, U32(i.request.xid), whole);
    FieldStays(h3, 10, U16(i.request.flags), whole);
    FieldStays(h4, 12, U32(i.request.ciaddr), whole);
    FieldStays(h5, 16, U32(i.yiaddr), whole);
    FieldStays(h6, 20, U32(i.hostIp), whole);
    FieldStays(h7, 24, U32(i.request.giaddr), whole);
    FieldStays(h8, 28, i.request.chaddr, whole);
    FieldStays(h9, 236, U32(COOKIE), whole);
  }

  /** The packet a client reads out of a reply: its own fields, and exactly the written options. */
  function ReadBack(i: ReplyInput): Packet {
    Packet(2, i.request.xid, i.request.flags, i.request.ciaddr, i.request.giaddr, i.request.chaddr,
           i.messageType, Meaning(ReplyOptions(i), map[]))
  }

  function NetworkOptions(i: ReplyInput): seq<Item> {
    [Opt(OPT_MASK, U32(i.netmask)), Opt(OPT_ROUTER, U32(i.hostIp)), Opt(OPT_DNS, U32(i.hostIp)),
     Opt(OPT_LEASE, U32(i.leaseSeconds)), Opt(OPT_T1, U32(i.leaseSeconds / 2)),
     Opt(OPT_T2, U32(i.leaseSeconds * 7 / 8))]
  }

  lemma NetworkOptionsAdd(i: ReplyInput, before: Options)
    requires before.Keys == {OPT_TYPE, OPT_SERVER}
    ensures var m := Meaning(NetworkOptions(i), before);
      && m.Keys == {OPT_TYPE, OPT_SERVER, OPT_MASK, OPT_ROUTER, OPT_DNS, OPT_LEASE, OPT_T1, OPT_T2}
      && m[OPT_TYPE] == before[OPT_TYPE] && m[OPT_SERVER] == before[OPT_SERVER]
  {
    hide U32;
    var options := NetworkOptions(i);
    MeaningTwo(options, before);
    var four: Options := before[OPT_MASK := U32(i.netmask)][OPT_ROUTER := U32(i.hostIp)];
    MeaningTwo(options[2..], four);
    var six: Options := four[OPT_DNS := U32(i.hostIp)][OPT_LEASE := U32(i.leaseSeconds)];
    MeaningTwo(options[2..][2..], six);
  }

  lemma TypeIsWritten(i: ReplyInput)
    ensures var m := Meaning(ReplyOptions(i), map[]);
      && (OPT_TYPE in m && m[OPT_TYPE] == [i.messageType])
      && (OPT_SERVER in m && m[OPT_SERVER] == U32(i.hostIp))
  {
    hide U32;
    var options := ReplyOptions(i);
    MeaningTwo(options, map[]);
    if i.messageType != NAK {
      var two: Options := map[OPT_TYPE := [i.messageType]][OPT_SERVER := U32(i.hostIp)];
      NetworkOptionsAdd(i, two);
      assert options[2..] == NetworkOptions(i);
    }
  }

  lemma MeaningTwo(items: seq<Item>, before: Options)
    requires |items| >= 2 && items[0].Opt? && items[1].Opt?
    ensures Meaning(items, before)
            == Meaning(items[2..], before[items[0].code := items[0].data][items[1].code := items[1].data])
  {
    assert items[1..][1..] == items[2..];
  }

  /**
   * Parsing any reply gives back its transaction, flags, addresses, hardware address, message
   * type and exactly the options that were written; the offered address and the server's stand
   * in the fields the parser does not report.
   */
  lemma ReplyRoundTrip(i: ReplyInput)
    requires Answerable(i.request)
    ensures |Reply(i)| >= MIN && Parse(Reply(i)) == Some(ReadBack(i))
    ensures ReadU32(Reply(i), 16) == i.yiaddr && ReadU32(Reply(i), 20) == i.hostIp
  {
    hide Header, U32, U16, Encode, ReplyOptions, Meaning, ParseOptions;
    var whole := Reply(i);
    ReplyOptionsWellFormed(i);
    HeaderFields(i, whole);
    ReadWritten(whole, 4, i.request.xid);
    ReadWritten16(whole, 10, i.request.flags);
    ReadWritten(whole, 12, i.request.ciaddr);
    ReadWritten(whole, 16, i.yiaddr);
    ReadWritten(whole, 20, i.hostIp);
    ReadWritten(whole, 24, i.request.giaddr);
    ReadWritten(whole, 236, COOKIE);
    assert whole[0] == whole[0..1][0] && whole[2] == whole[2..3][0];
    assert whole[MIN..] == Encode(ReplyOptions(i)) + [END] + [];
    ParseEncoded(ReplyOptions(i), [], map[]);
    TypeIsWritten(i);
  }
}
