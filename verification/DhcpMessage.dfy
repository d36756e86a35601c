// The DHCP wire format (src/runHosting/dhcpMessage.ts; section 2 of RFC 2131 for the fixed
// fields, section 2 of RFC 2132 for the options).
module DhcpMessage {
  import opened Collections
  import opened Ip

  const DISCOVER: Byte := 1
  const OFFER: Byte := 2
  const REQUEST: Byte := 3
  const DECLINE: Byte := 4
  const ACK: Byte := 5
  const NAK: Byte := 6
  const RELEASE: Byte := 7
  const INFORM: Byte := 8

  const COOKIE: Address := 0x6382_5363
  const MIN := 240
  const END: Byte := 255
  const PAD: Byte := 0
  const OPT_MASK: Byte := 1
  const OPT_ROUTER: Byte := 3
  const OPT_DNS: Byte := 6
  const OPT_REQUESTED: Byte := 50
  const OPT_LEASE: Byte := 51
  const OPT_TYPE: Byte := 53
  const OPT_SERVER: Byte := 54
  const OPT_T1: Byte := 58
  const OPT_T2: Byte := 59
  const OPT_CLIENT: Byte := 61

  type Options = map<Byte, seq<Byte>>

  datatype Packet = Packet(
    op: Byte,
    xid: Address,
    flags: nat,
    ciaddr: Address,
    giaddr: Address,
    chaddr: seq<Byte>,
    messageType: Byte,
    options: Options)

  // --- Big-endian numbers -----------------------------------------------------------------

  function U16(n: nat): (s: seq<Byte>)
    requires n < 0x1_0000
    ensures |s| == 2
  {
    [n / 256, n % 256]
  }

  function U32(n: Address): (s: seq<Byte>)
    ensures |s| == 4
  {
    [n / 0x100_0000, n / 0x1_0000 % 256, n / 0x100 % 256, n % 256]
  }

  function ReadU16(s: seq<Byte>, o: nat): (n: nat)
    requires o + 2 <= |s|
    ensures n < 0x1_0000
  {
    var a: nat, b: nat := s[o], s[o + 1];
    a * 256 + b
  }

  function ReadU32(s: seq<Byte>, o: nat): Address
    requires o + 4 <= |s|
  {
    var a: nat, b: nat, c: nat, d: nat := s[o], s[o + 1], s[o + 2], s[o + 3];
    a * 0x100_0000 + b * 0x1_0000 + c * 0x100 + d
  }

  lemma ReadWritten(s: seq<Byte>, o: nat, n: Address)
    requires o + 4 <= |s| && s[o..o + 4] == U32(n)
    ensures ReadU32(s, o) == n
  {
    var w := s[o..o + 4];
    assert w[0] == s[o] && w[1] == s[o + 1] && w[2] == s[o + 2] && w[3] == s[o + 3];
    FourBytes(n);
  }

  lemma FourBytes(n: nat)
    ensures n == n / 0x100_0000 * 0x100_0000 + n / 0x1_0000 % 256 * 0x1_0000 + n / 0x100 % 256 * 0x100 + n % 256
  {
    var a := n / 256;
    var b := a / 256;
    assert b == n / 0x1_0000 && b / 256 == n / 0x100_0000;
    assert n == a * 256 + n % 256;
    assert a == b * 256 + a % 256;
    assert b == b / 256 * 256 + b % 256;
  }

  lemma ReadWritten16(s: seq<Byte>, o: nat, n: nat)
    requires n < 0x1_0000 && o + 2 <= |s| && s[o..o + 2] == U16(n)
    ensures ReadU16(s, o) == n
  {
    var w := s[o..o + 2];
    assert w[0] == s[o] && w[1] == s[o + 1];
  }

  /** The number some bytes denote, the most significant byte first. */
  function Number(s: seq<Byte>): nat {
    if s == [] then 0 else 256 * Number(s[..|s| - 1]) + s[|s| - 1]
  }

  lemma NumberOfTwo(s: seq<Byte>)
    requires |s| == 2
    ensures var a: nat, b: nat := s[0], s[1]; Number(s) == 256 * a + b
  {
    var t := s[..1];
    assert t[..0] == [] && Number(t) == 256 * Number([]) + s[0];
  }

  lemma NumberOfFour(s: seq<Byte>)
    requires |s| == 4
    ensures var a: nat, b: nat, c: nat, d: nat := s[0], s[1], s[2], s[3];
      Number(s) == 256 * (256 * (256 * a + b) + c) + d
  {
    var t := s[..3];
    assert t[..2] == s[..2] && t[2] == s[2];
    NumberOfTwo(s[..2]);
  }

  /** Numbers are written and read in network byte order. */
  lemma ReadsNumber(s: seq<Byte>, o: nat)
    ensures o + 4 <= |s| ==> ReadU32(s, o) == Number(s[o..o + 4])
    ensures o + 2 <= |s| ==> ReadU16(s, o) == Number(s[o..o + 2])
  {
    if o + 4 <= |s| { NumberOfFour(s[o..o + 4]); }
    if o + 2 <= |s| { NumberOfTwo(s[o..o + 2]); }
  }

  lemma WritesNumber(n: Address)
    ensures Number(U32(n)) == n
    ensures n < 0x1_0000 ==> Number(U16(n)) == n
  {
    NumberOfFour(U32(n));
    FourBytes(n);
    if n < 0x1_0000 { NumberOfTwo(U16(n)); }
  }

  // --- Options: what the bytes mean, independent of the parser --------------------------------

  datatype Item = Pad | Opt(code: Byte, data: seq<Byte>)

  predicate WellFormedItem(i: Item) {
    i.Opt? ==> i.code != PAD && i.code != END && |i.data| < 256
  }

  function EncodeItem(i: Item): seq<Byte>
    requires WellFormedItem(i)
  {
    match i
    case Pad => [PAD]
    case Opt(code, data) => [code, |data|] + data
  }

  function Encode(items: seq<Item>): seq<Byte>
    requires forall i :: i in items ==> WellFormedItem(i)
  {
    if items == [] then [] else EncodeItem(items[0]) + Encode(items[1..])
  }

  /** The last occurrence of a code wins. */
  function Meaning(items: seq<Item>, before: Options): Options
    decreases items
  {
    if items == [] then before
    else Meaning(items[1..], if items[0].Opt? then before[items[0].code := items[0].data] else before)
  }

  // --- Parsing ---------------------------------------------------------------------------------

  function ParseOptions(s: seq<Byte>, found: Options): Option<Options>
    decreases |s|
  {
    if |s| == 0 then None
    else if s[0] == END then Some(found)
    else if s[0] == PAD then ParseOptions(s[1..], found)
    else if |s| < 2 then None
    else
      var len: nat := s[1];
      if 2 + len > |s| then None else ParseOptions(s[2 + len..], found[s[0] := s[2..2 + len]])
  }

  function Parse(buf: seq<Byte>): Option<Packet> {
    if |buf| < MIN || ReadU32(buf, 236) != COOKIE then None
    else
      var hlen: nat := buf[2];
      if hlen < 1 || hlen > 16 then None
      else
        var options := ParseOptions(buf[MIN..], map[]);
        if options.None? || OPT_TYPE !in options.value || |options.value[OPT_TYPE]| != 1 then None
        else Some(Packet(buf[0], ReadU32(buf, 4), ReadU16(buf, 10), ReadU32(buf, 12), ReadU32(buf, 24),
                         buf[28..28 + hlen], options.value[OPT_TYPE][0], options.value))
  }

  /** The parser over the buffer: every read is within it, whatever it holds. */
  method ParsePacket(buf: array<Byte>) returns (packet: Option<Packet>)
    ensures packet == Parse(buf[..])
  {
    if buf.Length < MIN || ReadU32(buf[..], 236) != COOKIE { return None; }
    var hlen: nat := buf[2];
    if hlen < 1 || hlen > 16 { return None; }
    var options: Options := map[];
    var off := MIN;
    while true
      invariant MIN <= off <= buf.Length
      invariant ParseOptions(buf[MIN..], map[]) == ParseOptions(buf[off..], options)
      decreases buf.Length - off
    {
      if off >= buf.Length { return None; }
      var code := buf[off];
      if code == END { break; }
      if code == PAD {
        assert buf[off..][1..] == buf[off + 1..];
        off := off + 1;
        continue;
      }
      if off + 1 >= buf.Length { return None; }
      var len: nat := buf[off + 1];
      if off + 2 + len > buf.Length { return None; }
      assert buf[off..][2..2 + len] == buf[off + 2..off + 2 + len];
      assert buf[off..][2 + len..] == buf[off + 2 + len..];
      options := options[code := buf[off + 2..off + 2 + len]];
      off := off + 2 + len;
    }
    assert buf[MIN..] == buf[..][MIN..];
    if OPT_TYPE !in options || |options[OPT_TYPE]| != 1 { return None; }
    return Some(Packet(buf[0], ReadU32(buf[..], 4), ReadU16(buf[..], 10), ReadU32(buf[..], 12), ReadU32(buf[..], 24),
                       buf[28..28 + hlen], options[OPT_TYPE][0], options));
  }

  lemma ParsePad(tail: seq<Byte>, found: Options)
    ensures ParseOptions([PAD] + tail, found) == ParseOptions(tail, found)
  {
    assert ([PAD] + tail)[1..] == tail;
  }

  lemma ParseOne(code: Byte, data: seq<Byte>, tail: seq<Byte>, found: Options)
    requires code != PAD && code != END && |data| < 256
    ensures ParseOptions([code, |data|] + (data + tail), found) == ParseOptions(tail, found[code := data])
  {
    var s := [code, |data|] + (data + tail);
    assert s[2..2 + |data|] == data && s[2 + |data|..] == tail;
  }

  lemma EncodeMore(item: Item, more: seq<Item>, rest: seq<Byte>)
    requires WellFormedItem(item) && forall i :: i in more ==> WellFormedItem(i)
    ensures Encode([item] + more) + [END] + rest == EncodeItem(item) + (Encode(more) + [END] + rest)
  {
    assert ([item] + more)[1..] == more;
  }

  /** Any encoded list of options, ended and followed by anything, parses to what it means. */
  lemma {:induction false} ParseEncoded(items: seq<Item>, rest: seq<Byte>, found: Options)
    requires forall i :: i in items ==> WellFormedItem(i)
    ensures ParseOptions(Encode(items) + [END] + rest, found) == Some(Meaning(items, found))
    decreases items
  {
    if items == [] {
      assert (Encode(items) + [END] + rest)[0] == END;
    } else {
      var more := items[1..];
      var tail := Encode(more) + [END] + rest;
      assert items == [items[0]] + more;
      EncodeMore(items[0], more, rest);
      hide ParseOptions, Encode;
      match items[0] {
        case Pad =>
          ParsePad(tail, found);
          ParseEncoded(more, rest, found);
        case Opt(code, data) =>
          assert [code, |data|] + (data + tail) == EncodeItem(items[0]) + tail;
          ParseOne(code, data, tail, found);
          ParseEncoded(more, rest, found[code := data]);
      }
    }
  }

  /** Whatever parses is such an encoding. */
  lemma {:induction false} ParsedIsEncoded(s: seq<Byte>, found: Options) returns (items: seq<Item>, rest: seq<Byte>)
    requires ParseOptions(s, found).Some?
    ensures forall i :: i in items ==> WellFormedItem(i)
    ensures s == Encode(items) + [END] + rest
    ensures ParseOptions(s, found) == Some(Meaning(items, found))
    decreases |s|
  {
    var more;
    if s[0] == END {
      items, rest := [], s[1..];
    } else if s[0] == PAD {
      more, rest := ParsedIsEncoded(s[1..], found);
      items := [Pad] + more;
      assert items[1..] == more;
      EncodeMore(Pad, more, rest);
      assert s == EncodeItem(Pad) + s[1..];
      hide Encode;
    } else {
      var data := s[2..2 + s[1]];
      more, rest := ParsedIsEncoded(s[2 + |data|..], found[s[0] := data]);
      items := [Opt(s[0], data)] + more;
      assert items[1..] == more;
      EncodeMore(Opt(s[0], data), more, rest);
      assert s == EncodeItem(Opt(s[0], data)) + s[2 + |data|..];
      hide Encode;
    }
  }

  // --- Accessors ---------------------------------------------------------------------------------

  function HexDigit(d: nat): char
    requires d < 16
  {
    if d < 10 then (48 + d) as char else (87 + d) as char
  }

  function Hex(s: seq<Byte>): string {
    if s == [] then "" else [HexDigit(s[0] / 16), HexDigit(s[0] % 16)] + Hex(s[1..])
  }

  function ClientIdentity(p: Packet): string {
    Hex(if OPT_CLIENT in p.options then p.options[OPT_CLIENT] else p.chaddr)
  }

  function AddressOption(p: Packet, code: Byte): Option<Address> {
    if code in p.options && |p.options[code]| == 4 then Some(ReadU32(p.options[code], 0)) else None
  }

  /** Different clients have different identities: the text loses no byte. */
  lemma {:induction false} HexInjective(s: seq<Byte>, t: seq<Byte>)
    requires Hex(s) == Hex(t)
    ensures s == t
  {
    if s != [] && t != [] {
      var a, b := Hex(s), Hex(t);
      assert a[2..] == Hex(s[1..]) && b[2..] == Hex(t[1..]);
      HexInjective(s[1..], t[1..]);
      HexDigitInjective(s[0] / 16, t[0] / 16);
      HexDigitInjective(s[0] % 16, t[0] % 16);
      assert a[0] == HexDigit(s[0] / 16) && a[1] == HexDigit(s[0] % 16);
      assert b[0] == HexDigit(t[0] / 16) && b[1] == HexDigit(t[0] % 16);
      hide Hex, HexDigit;
      assert s == [s[0]] + s[1..] && t == [t[0]] + t[1..];
    }
  }

  lemma HexDigitInjective(d: nat, e: nat)
    requires d < 16 && e < 16
    ensures HexDigit(d) == HexDigit(e) <==> d == e
  {
    assert (HexDigit(d) as int) == if d < 10 then 48 + d else 87 + d;
    assert (HexDigit(e) as int) == if e < 10 then 48 + e else 87 + e;
  }
}
