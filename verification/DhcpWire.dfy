// The bytes of DHCP packets at their offsets (src/runHosting/dhcpMessage.ts; section 2 of RFC 2131
// for the fixed fields, sections 2 and 9 of RFC 2132 for the options).
module DhcpWire {
  import opened Collections
  import opened Ip
  import opened DhcpMessage
  import opened DhcpReply

  // --- Options ---------------------------------------------------------------------------------------

  function Length(i: Item): nat {
    match i case Pad => 1 case Opt(_, data) => 2 + |data|
  }

  /** The bytes begin with the option: a pad is a single 0, any other its code, its length and its data. */
  predicate Begins(i: Item, s: seq<Byte>) {
    match i
    case Pad => |s| >= 1 && s[0] == 0
    case Opt(code, data) =>
      && 0 < code < 255 && |data| < 256
      && |s| >= 2 + |data| && s[0] == code && s[1] == |data| && s[2..2 + |data|] == data
  }

  /** The bytes are the options, one after the other. */
  predicate Spells(items: seq<Item>, s: seq<Byte>)
    decreases items
  {
    if items == [] then s == []
    else Begins(items[0], s) && |s| >= Length(items[0]) && Spells(items[1..], s[Length(items[0])..])
  }

  lemma BeginsIs(i: Item, s: seq<Byte>)
    ensures Begins(i, s) <==> WellFormedItem(i) && |s| >= Length(i) && s[..Length(i)] == EncodeItem(i)
    ensures WellFormedItem(i) ==> |EncodeItem(i)| == Length(i)
  {
    if i.Opt? && |s| >= Length(i) {
      assert s[..Length(i)] == [s[0], s[1]] + s[2..2 + |i.data|];
      if WellFormedItem(i) && s[..Length(i)] == EncodeItem(i) {
        var e := EncodeItem(i);
        assert e[0] == i.code && e[1] == |i.data| && e[2..] == i.data;
        assert s[2..2 + |i.data|] == s[..Length(i)][2..];
      }
    }
  }

  lemma {:induction false} SpelledIsEncoded(items: seq<Item>, s: seq<Byte>)
    requires Spells(items, s)
    ensures (forall i :: i in items ==> WellFormedItem(i)) && s == Encode(items)
    decreases items
  {
    hide Begins, EncodeItem, WellFormedItem, Length;
    if items != [] {
      assert forall i :: i in items <==> i == items[0] || i in items[1..];
      BeginsIs(items[0], s);
      var n := Length(items[0]);
      SpelledIsEncoded(items[1..], s[n..]);
      assert s == s[..n] + s[n..];
    }
  }

  lemma {:induction false} EncodedSpells(items: seq<Item>)
    requires forall i :: i in items ==> WellFormedItem(i)
    ensures Spells(items, Encode(items))
    decreases items
  {
    hide Begins, EncodeItem, WellFormedItem, Length;
    if items != [] {
      var s, first, rest := Encode(items), EncodeItem(items[0]), Encode(items[1..]);
      EncodedSpells(items[1..]);
      BeginsIs(items[0], s);
      assert s == first + rest;
      assert s[..|first|] == first && s[|first|..] == rest;
    }
  }

  /** An option has the data of its last occurrence. */
  ghost predicate LastOf(items: seq<Item>, code: Byte, data: seq<Byte>) {
    exists k :: 0 <= k < |items| && items[k] == Opt(code, data)
      && forall j :: k < j < |items| ==> items[j].Pad? || items[j].code != code
  }

  lemma {:induction false} MeaningIs(items: seq<Item>, before: Options, code: Byte)
    ensures var m := Meaning(items, before);
      && (forall data :: LastOf(items, code, data) ==> code in m && m[code] == data)
      && ((forall data :: !LastOf(items, code, data)) ==> (code in m <==> code in before) && (code in m ==> m[code] == before[code]))
    decreases items
  {
    if items != [] {
      var rest := items[1..];
      var next := if items[0].Opt? then before[items[0].code := items[0].data] else before;
      MeaningIs(rest, next, code);
      forall data ensures LastOf(rest, code, data) ==> LastOf(items, code, data) {
        if LastOf(rest, code, data) {
          var k :| 0 <= k < |rest| && rest[k] == Opt(code, data)
            && forall j :: k < j < |rest| ==> rest[j].Pad? || rest[j].code != code;
          assert items[k + 1] == rest[k];
        }
      }
      forall data | LastOf(items, code, data) && !LastOf(rest, code, data)
        ensures items[0] == Opt(code, data) && forall other :: !LastOf(rest, code, other)
      {
        var k :| 0 <= k < |items| && items[k] == Opt(code, data)
          && forall j :: k < j < |items| ==> items[j].Pad? || items[j].code != code;
        assert forall j :: 0 <= j < |rest| ==> rest[j] == items[j + 1];
        assert k > 0 ==> rest[k - 1] == items[k];
        assert k > 0 ==> LastOf(rest, code, data);
      }
      if items[0].Opt? && items[0].code == code && forall data :: !LastOf(rest, code, data) {
        NoneLater(rest, code);
        assert LastOf(items, code, items[0].data);
      }
    }
  }

  lemma {:induction false} NoneLater(items: seq<Item>, code: Byte)
    requires forall data :: !LastOf(items, code, data)
    ensures forall j :: 0 <= j < |items| ==> items[j].Pad? || items[j].code != code
  {
    if items != [] {
      var n := |items| - 1;
      if items[n].Opt? && items[n].code == code {
        assert LastOf(items, code, items[n].data);
      } else {
        forall data ensures !LastOf(items[..n], code, data) { LastOfGrows(items, code, data); }
        NoneLater(items[..n], code);
        assert forall j :: 0 <= j < n ==> items[..n][j] == items[j];
      }
    }
  }

  lemma LastOfGrows(items: seq<Item>, code: Byte, data: seq<Byte>)
    requires items != [] && (items[|items| - 1].Pad? || items[|items| - 1].code != code)
    ensures LastOf(items[..|items| - 1], code, data) ==> LastOf(items, code, data)
  {
    var n := |items| - 1;
    if LastOf(items[..n], code, data) {
      var k :| 0 <= k < n && items[..n][k] == Opt(code, data)
        && forall j :: k < j < n ==> items[..n][j].Pad? || items[..n][j].code != code;
      assert items[k] == Opt(code, data);
      assert forall j :: k < j < n ==> items[..n][j] == items[j];
    }
  }

  // --- Parsing ---------------------------------------------------------------------------------------

  /** The options area spells `items`, ends with 255, and goes on with anything. */
  ghost predicate Area(s: seq<Byte>, items: seq<Item>, n: nat) {
    n < |s| && s[n] == 255 && Spells(items, s[..n])
  }

  /**
   * Exactly the packets with 240 bytes, the cookie, a hardware address of 1 to 16 bytes, a well-formed
   * options area and a one-byte message type parse; each field is read from its place.
   */
  lemma ParsedExactly(s: seq<Byte>, items: seq<Item>, n: nat)
    ensures (|s| >= 240 && Area(s[240..], items, n)) ==>
              var m := Meaning(items, map[]);
              && (Parse(s).Some? <==> Number(s[236..240]) == 0x6382_5363 && 1 <= s[2] <= 16 && 53 in m && |m[53]| == 1)
              && (Parse(s).Some? ==>
                    var p := Parse(s).value;
                    && p.op == s[0] && p.xid == Number(s[4..8]) && p.flags == Number(s[10..12])
                    && p.ciaddr == Number(s[12..16]) && p.giaddr == Number(s[24..28])
                    && p.chaddr == s[28..28 + s[2]] && p.messageType == m[53][0] && p.options == m)
  {
    if |s| >= 240 && Area(s[240..], items, n) {
      AreaParses(s[240..], items, n);
      ReadsNumber(s, 236);
      ReadsNumber(s, 4);
      ReadsNumber(s, 10);
      ReadsNumber(s, 12);
      ReadsNumber(s, 24);
      hide ReadU32, ReadU16, Number, ParseOptions, Area, Meaning;
    }
  }

  lemma AreaParses(area: seq<Byte>, items: seq<Item>, n: nat)
    requires Area(area, items, n)
    ensures ParseOptions(area, map[]) == Some(Meaning(items, map[]))
  {
    hide Spells, Encode, ParseOptions, Meaning, WellFormedItem;
    SpelledIsEncoded(items, area[..n]);
    var rest := area[n + 1..];
    ParseEncoded(items, rest, map[]);
    assert area == area[..n] + [END] + rest;
  }

  lemma ParsedHasArea(s: seq<Byte>) returns (items: seq<Item>, n: nat)
    requires Parse(s).Some?
    ensures |s| >= 240 && Area(s[240..], items, n)
  {
    var rest;
    items, rest := ParsedIsEncoded(s[240..], map[]);
    n := |Encode(items)|;
    assert s[240..][..n] == Encode(items);
    EncodedSpells(items);
  }

  // --- Replies ---------------------------------------------------------------------------------------

  /** Between what was written before and a field there are zeros. */
  lemma GapStays(s: seq<Byte>, o: nat, bytes: seq<Byte>, whole: seq<Byte>)
    requires |s| <= o && Then(s, o, bytes) <= whole
    ensures s <= whole && forall k :: |s| <= k < o ==> whole[k] == 0
  {
    var t := Then(s, o, bytes);
    assert t == s + Zeros(o - |s|) + bytes && whole[..|t|] == t;
    forall k | |s| <= k < o ensures whole[k] == 0 {
      assert whole[k] == whole[..|t|][k] == t[k] == Zeros(o - |s|)[k - |s|];
    }
    assert whole[..|s|] == whole[..|t|][..|s|] == s;
  }

  /** The bytes of the header that hold no field. */
  lemma HeaderGaps(i: ReplyInput, whole: seq<Byte>)
    requires Answerable(i.request) && Header(i) <= whole
    ensures whole[3] == 0 && whole[8] == 0 && whole[9] == 0
    ensures forall k :: 28 + |i.request.chaddr| <= k < 236 ==> whole[k] == 0
  {
    hide Then, U32, U16;
    var n := |i.request.chaddr|;
    var h2 := Then(Then(Then([], 0, [2]), 1, [1]), 2, [n]);
    var h3 := Then(h2, 4, U32(i.request.xid));
    var h4 := Then(h3, 10, U16(i.request.flags));
    var h7 := Then(Then(Then(h4, 12, U32(i.request.ciaddr)), 16, U32(i.yiaddr)), 20, U32(i.hostIp));
    var h9 := Then(Then(h7, 24, U32(i.request.giaddr)), 28, i.request.chaddr);
    GapStays(h9, 236, U32(COOKIE), whole);
    GapStays(Then(h7, 24, U32(i.request.giaddr)), 28, i.request.chaddr, whole);
    GapStays(h7, 24, U32(i.request.giaddr), whole);
    GapStays(Then(Then(h4, 12, U32(i.request.ciaddr)), 16, U32(i.yiaddr)), 20, U32(i.hostIp), whole);
    GapStays(Then(h4, 12, U32(i.request.ciaddr)), 16, U32(i.yiaddr), whole);
    GapStays(h4, 12, U32(i.request.ciaddr), whole);
    GapStays(h3, 10, U16(i.request.flags), whole);
    GapStays(h2, 4, U32(i.request.xid), whole);
  }

  /** Every field of a reply at its offset, zeros elsewhere, and 255 at its end. */
  lemma ReplyFields(i: ReplyInput)
    requires Answerable(i.request)
    ensures var w, n := Reply(i), |i.request.chaddr|;
      && |w| >= 241 && w[|w| - 1] == 255
      && w[0] == 2 && w[1] == 1 && w[2] == n && w[28..28 + n] == i.request.chaddr
      && Number(w[4..8]) == i.request.xid && Number(w[10..12]) == i.request.flags
      && Number(w[12..16]) == i.request.ciaddr && Number(w[16..20]) == i.yiaddr
      && Number(w[20..24]) == i.hostIp && Number(w[24..28]) == i.request.giaddr
      && Number(w[236..240]) == 0x6382_5363
      && w[3] == 0 && w[8] == 0 && w[9] == 0 && forall k :: 28 + n <= k < 236 ==> w[k] == 0
  {
    hide Header, U32, U16, Number;
    var w := Reply(i);
    HeaderFields(i, w);
    HeaderGaps(i, w);
    assert w[0] == w[0..1][0] && w[1] == w[1..2][0] && w[2] == w[2..3][0];
    WritesNumber(i.request.xid);
    WritesNumber(i.request.flags);
    WritesNumber(i.request.ciaddr);
    WritesNumber(i.yiaddr);
    WritesNumber(i.hostIp);
    WritesNumber(i.request.giaddr);
    WritesNumber(COOKIE);
  }

  ghost predicate Carries(m: Options, code: Byte, n: nat) {
    code in m && |m[code]| == 4 && Number(m[code]) == n
  }

  /**
   * The type and the server always; unless the reply is a refusal (6) also the netmask, the host as
   * router and name server, the lease time, and the renewal and rebinding times, which are a half
   * and seven eighths of it rounded down.
   */
  ghost predicate Settings(i: ReplyInput, m: Options) {
    && 53 in m && m[53] == [i.messageType] && Carries(m, 54, i.hostIp)
    && (i.messageType == 6 ==> m.Keys == {53, 54})
    && (i.messageType != 6 ==>
          && m.Keys == {53, 54, 1, 3, 6, 51, 58, 59}
          && Carries(m, 1, i.netmask) && Carries(m, 3, i.hostIp) && Carries(m, 6, i.hostIp)
          && Carries(m, 51, i.leaseSeconds)
          && (exists t: nat :: Carries(m, 58, t) && 2 * t <= i.leaseSeconds < 2 * (t + 1))
          && (exists t: nat :: Carries(m, 59, t) && 8 * t <= 7 * i.leaseSeconds < 8 * (t + 1)))
  }

  /** The options a client reads out of a reply. */
  lemma ReplyOptionsAre(i: ReplyInput)
    requires Answerable(i.request)
    ensures Parse(Reply(i)).Some? && Settings(i, Parse(Reply(i)).value.options)
  {
    hide Settings, Meaning, ReplyOptions, Reply, Parse;
    ReplyRoundTrip(i);
    SettingsHold(i, Meaning(ReplyOptions(i), map[]));
  }

  lemma SettingsHold(i: ReplyInput, m: Options)
    requires m == Meaning(ReplyOptions(i), map[])
    ensures Settings(i, m)
  {
    hide U32, Number, Meaning, ReplyOptions, Carries;
    WrittenOptions(i);
    OptionCarries(m, 54, i.hostIp);
    if i.messageType != 6 {
      var t1: Address, t2: Address := i.leaseSeconds / 2, i.leaseSeconds * 7 / 8;
      OptionCarries(m, 1, i.netmask);
      OptionCarries(m, 3, i.hostIp);
      OptionCarries(m, 6, i.hostIp);
      OptionCarries(m, 51, i.leaseSeconds);
      OptionCarries(m, 58, t1);
      OptionCarries(m, 59, t2);
    }
  }

  lemma OptionCarries(m: Options, code: Byte, n: Address)
    requires code in m && m[code] == U32(n)
    ensures Carries(m, code, n)
  {
    WritesNumber(n);
  }

  lemma WrittenOptions(i: ReplyInput)
    ensures Meaning(ReplyOptions(i), map[]) ==
            (if i.messageType == 6 then map[53 := [i.messageType], 54 := U32(i.hostIp)]
             else map[53 := [i.messageType], 54 := U32(i.hostIp), 1 := U32(i.netmask), 3 := U32(i.hostIp), 6 := U32(i.hostIp),
                      51 := U32(i.leaseSeconds), 58 := U32(i.leaseSeconds / 2), 59 := U32(i.leaseSeconds * 7 / 8)])
  {
    hide U32;
    var options := ReplyOptions(i);
    MeaningTwo(options, map[]);
    if i.messageType != NAK {
      var two: Options := map[53 := [i.messageType], 54 := U32(i.hostIp)];
      MeaningTwo(options[2..], two);
      var four: Options := two[1 := U32(i.netmask)][3 := U32(i.hostIp)];
      MeaningTwo(options[2..][2..], four);
      var six: Options := four[6 := U32(i.hostIp)][51 := U32(i.leaseSeconds)];
      MeaningTwo(options[2..][2..][2..], six);
    }
  }
}
