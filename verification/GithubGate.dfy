// The request gate in front of github.com: a Base64 decoder on bit strings, and the test of the
// password half of a Basic credential (the Lua text in src/envoyConfig.ts).
module GithubGate {
  import opened Collections
  import opened Ip

  /** Lua strings are byte strings. */
  type LuaByte = c: char | c as int < 256 witness 'A'

  type Bytes = seq<LuaByte>

  /** `A` to `Z`, `a` to `z`, `0` to `9`, `+` and `/`. */
  function Alphabet(): (s: Bytes)
    ensures |s| == 64 && forall f :: 0 <= f < 64 ==> s[f] == Letter(f)
  {
    LettersFrom(0)
  }

  function LettersFrom(f: nat): (s: Bytes)
    requires f <= 64
    ensures |s| == 64 - f && forall i :: 0 <= i < |s| ==> s[i] == Letter(f + i)
    decreases 64 - f
  {
    if f == 64 then [] else [Letter(f)] + LettersFrom(f + 1)
  }

  const PLACEHOLDER: Bytes := "ghp-susentorno-PLACEHOLDER"

  // --- Bits ----------------------------------------------------------------------------------------

  /** The low `k` bits of `x`, most significant first. */
  function Bits(k: nat, x: nat): (bits: seq<bool>)
    ensures |bits| == k
  {
    if k == 0 then [] else Bits(k - 1, x / 2) + [x % 2 == 1]
  }

  function Value(bits: seq<bool>): nat {
    if bits == [] then 0 else 2 * Value(bits[..|bits| - 1]) + (if bits[|bits| - 1] then 1 else 0)
  }

  lemma {:induction false} ValueOfBits(k: nat, x: nat)
    requires x < Pow2(k)
    ensures Value(Bits(k, x)) == x
  {
    if k > 0 {
      ValueOfBits(k - 1, x / 2);
      assert Bits(k, x)[..k - 1] == Bits(k - 1, x / 2);
    }
  }

  /** Cutting a number's bits in two. */
  lemma {:induction false} BitsSplit(k: nat, m: nat, high: nat, low: nat)
    requires low < Pow2(m)
    ensures Bits(k + m, high * Pow2(m) + low) == Bits(k, high) + Bits(m, low)
    decreases m
  {
    if m > 0 {
      var x := high * Pow2(m) + low;
      var half := high * Pow2(m - 1);
      assert high * Pow2(m) == 2 * half;
      assert x / 2 == half + low / 2 && x % 2 == low % 2;
      BitsSplit(k, m - 1, high, low / 2);
      Associative(Bits(k, high), Bits(m - 1, low / 2), [low % 2 == 1]);
    } else {
      assert Bits(k, high) + [] == Bits(k, high);
    }
  }

  // --- Encoding (section 4 of RFC 4648) ----------------------------------------------------------------

  function Letter(f: nat): (c: LuaByte)
    requires f < 64
    ensures c != '='
  {
    if f < 26 then ('A' as int + f) as char
    else if f < 52 then ('a' as int + f - 26) as char
    else if f < 62 then ('0' as int + f - 52) as char
    else if f == 62 then '+'
    else '/'
  }

  function Four(v: nat): (s: Bytes)
    requires v < 0x100_0000
    ensures |s| == 4
  {
    [Letter(v / 0x4_0000), Letter(v / 0x1000 % 64), Letter(v / 64 % 64), Letter(v % 64)]
  }

  /** Groups of three bytes as four letters; a short last group is padded with zero bits and `=`. */
  function Encode(b: Bytes): Bytes {
    if b == [] then []
    else if |b| == 1 then Four(b[0] as int * 0x1_0000)[..2] + ['=', '=']
    else if |b| == 2 then Four(b[0] as int * 0x1_0000 + b[1] as int * 0x100)[..3] + ['=']
    else Four(b[0] as int * 0x1_0000 + b[1] as int * 0x100 + b[2] as int) + Encode(b[3..])
  }

  /** The alphabet runs from `A` to `Z`, from `a` to `z` and from `0` to `9`, and ends with `+` and `/`. */
  lemma AlphabetIs()
    ensures var s := Alphabet();
      && s[0] == 'A' && s[25] == 'Z' && s[26] == 'a' && s[51] == 'z' && s[52] == '0' && s[61] == '9' && s[62] == '+' && s[63] == '/'
      && forall f :: 0 <= f < 61 && f != 25 && f != 51 ==> s[f + 1] as int == s[f] as int + 1
  {
    hide LettersFrom;
    forall f | 0 <= f < 61 && f != 25 && f != 51 ensures Letter(f + 1) as int == Letter(f) as int + 1 {
    }
  }

  /** The test vectors of section 10 of RFC 4648. */
  lemma EncodeVectors()
    ensures Encode("f") == "Zg==" && Encode("fo") == "Zm8=" && Encode("foo") == "Zm9v" && Encode("foobar") == "Zm9vYmFy"
  {
    assert "foobar"[3..] == "bar" && "foo"[3..] == "" && "bar"[3..] == "";
    FourVectors();
    hide Four;
  }

  lemma FourVectors()
    ensures Four(0x66_6f6f) == "Zm9v" && Four(0x62_6172) == "YmFy"
    ensures Four(0x66_0000)[..2] == "Zg" && Four(0x66_6f00)[..3] == "Zm8"
  {
    assert Four(0x66_6f6f) == [Letter(25), Letter(38), Letter(61), Letter(47)];
    assert Four(0x62_6172) == [Letter(24), Letter(38), Letter(5), Letter(50)];
  }

  // --- Decoding, as the gate does it ---------------------------------------------------------------------

  predicate InAlphabet(c: char) {
    c in Alphabet()
  }

  /** `#data % 4 == 0`, and no byte outside the alphabet and `=`. */
  predicate LooksEncoded(data: Bytes) {
    |data| % 4 == 0 && forall i :: 0 <= i < |data| ==> InAlphabet(data[i]) || data[i] == '='
  }

  function Unpadded(data: Bytes): Bytes {
    if data == [] then [] else (if data[0] == '=' then [] else [data[0]]) + Unpadded(data[1..])
  }

  /** The position of the first occurrence of `c` in `s`, `|s|` when there is none. */
  function Find(s: Bytes, c: char): (i: nat)
    ensures i <= |s| && (c in s ==> i < |s| && s[i] == c)
  {
    if s == [] then 0 else if s[0] == c then 0 else 1 + Find(s[1..], c)
  }

  function BitString(data: Bytes): seq<bool> {
    if data == [] then [] else Bits(6, Find(Alphabet(), data[0])) + BitString(data[1..])
  }

  function Digit(bit: bool): LuaByte {
    if bit then '1' else '0'
  }

  /** Eight bits make a byte; a shorter rest of two bits or more is dropped, a single bit stays a digit. */
  function Bytewise(bits: seq<bool>): Bytes {
    if |bits| >= 8 then
      ValueBound(bits[..8]);
      [Value(bits[..8]) as char] + Bytewise(bits[8..])
    else if |bits| == 1 then [Digit(bits[0])]
    else []
  }

  lemma {:induction false} ValueBound(bits: seq<bool>)
    ensures Value(bits) < Pow2(|bits|)
    ensures |bits| == 8 ==> Value(bits) < 256
  {
    if bits != [] { ValueBound(bits[..|bits| - 1]); }
    assert Pow2(8) == 256;
  }

  function Decode(data: Bytes): Option<Bytes> {
    if LooksEncoded(data) then Some(Bytewise(BitString(Unpadded(data)))) else None
  }

  // --- Decoding what was encoded -----------------------------------------------------------------------

  lemma LettersDiffer(f: nat, g: nat)
    requires f < g < 64
    ensures Letter(f) != Letter(g)
  {
  }

  lemma {:induction false} FindLetter(from: nat, f: nat)
    requires from <= f < 64
    ensures Find(Alphabet()[from..], Letter(f)) == f - from
    decreases f - from
  {
    hide Letter;
    assert Alphabet()[from..][0] == Letter(from) && Alphabet()[from..][1..] == Alphabet()[from + 1..];
    if from < f {
      LettersDiffer(from, f);
      FindLetter(from + 1, f);
    }
  }

  /** A string of letters, none of them padding. */
  ghost predicate Letters(s: Bytes) {
    forall i :: 0 <= i < |s| ==> IsLetter(s[i])
  }

  ghost predicate IsLetter(c: char) {
    exists f: nat :: f < 64 && c == Letter(f)
  }

  lemma FourLetters(v: nat)
    requires v < 0x100_0000
    ensures Letters(Four(v))
  {
    var s := Four(v);
    assert s[0] == Letter(v / 0x4_0000) && s[1] == Letter(v / 0x1000 % 64);
    assert s[2] == Letter(v / 64 % 64) && s[3] == Letter(v % 64);
  }

  lemma {:induction false} UnpaddedLetters(s: Bytes, rest: Bytes)
    requires Letters(s)
    ensures Unpadded(s + rest) == s + Unpadded(rest)
  {
    if s == [] {
      assert s + rest == rest;
    } else {
      assert (s + rest)[1..] == s[1..] + rest;
      assert forall i :: 0 <= i < |s[1..]| ==> s[1..][i] == s[i + 1];
      UnpaddedLetters(s[1..], rest);
      Associative([s[0]], s[1..], Unpadded(rest));
    }
  }

  lemma {:induction false} BitStringAppends(s: Bytes, t: Bytes)
    ensures BitString(s + t) == BitString(s) + BitString(t)
  {
    if s == [] {
      assert s + t == t;
    } else {
      assert (s + t)[1..] == s[1..] + t;
      BitStringAppends(s[1..], t);
      Associative(Bits(6, Find(Alphabet(), s[0])), BitString(s[1..]), BitString(t));
    }
  }

  lemma LetterBits(f: nat)
    requires f < 64
    ensures BitString([Letter(f)]) == Bits(6, f)
  {
    FindLetter(0, f);
    assert Alphabet()[0..] == Alphabet();
    assert BitString([Letter(f)]) == Bits(6, f) + BitString([]);
  }

  /** The four letters of a group carry its 24 bits in order. */
  lemma FourBits(v: nat)
    requires v < 0x100_0000
    ensures BitString(Four(v)) == Bits(24, v)
    ensures BitString(Four(v)[..2]) == Bits(24, v)[..12]
    ensures BitString(Four(v)[..3]) == Bits(24, v)[..18]
  {
    hide BitString, Bits, Letter;
    var a, b, c, d: nat := v / 0x4_0000, v / 0x1000 % 64, v / 64 % 64, v % 64;
    PowersAre();
    Sextets(v);
    LetterBits(a); LetterBits(b); LetterBits(c); LetterBits(d);
    BitsSplit(6, 6, a, b);
    BitsSplit(12, 6, a * 64 + b, c);
    BitsSplit(18, 6, a * 0x1000 + b * 64 + c, d);
    var s := Four(v);
    assert s[..1] == [Letter(a)] && s[..2] == s[..1] + [Letter(b)];
    assert s[..3] == s[..2] + [Letter(c)] && s == s[..3] + [Letter(d)];
    BitStringAppends(s[..1], [Letter(b)]);
    BitStringAppends(s[..2], [Letter(c)]);
    BitStringAppends(s[..3], [Letter(d)]);
  }

  lemma PowersAre()
    ensures Pow2(6) == 64 && Pow2(8) == 256
  {
  }

  lemma Sextets(v: nat)
    ensures v == ((v / 0x4_0000 * 64 + v / 0x1000 % 64) * 64 + v / 64 % 64) * 64 + v % 64
  {
    assert v / 64 / 64 == v / 0x1000 && v / 0x1000 / 64 == v / 0x4_0000;
  }

  /** The 24 bits of a group are its three bytes. */
  lemma GroupBits(x: nat, y: nat, z: nat)
    requires x < 256 && y < 256 && z < 256
    ensures Bits(24, x * 0x1_0000 + y * 0x100 + z) == Bits(8, x) + Bits(8, y) + Bits(8, z)
  {
    hide Bits, Pow2;
    PowersAre();
    BitsSplit(8, 8, x, y);
    BitsSplit(16, 8, x * 256 + y, z);
    assert (x * 256 + y) * 256 + z == x * 0x1_0000 + y * 0x100 + z;
  }

  lemma BytewiseNext(x: LuaByte, rest: seq<bool>)
    ensures Bytewise(Bits(8, x as int) + rest) == [x] + Bytewise(rest)
  {
    PowersAre();
    ValueOfBits(8, x as int);
    var bits := Bits(8, x as int) + rest;
    assert bits[..8] == Bits(8, x as int) && bits[8..] == rest;
  }

  lemma LettersInAlphabet(s: Bytes)
    requires Letters(s)
    ensures forall i :: 0 <= i < |s| ==> InAlphabet(s[i])
  {
    forall i | 0 <= i < |s| ensures InAlphabet(s[i]) {
      assert IsLetter(s[i]);
      var f: nat :| f < 64 && s[i] == Letter(f);
      assert Alphabet()[f] == Letter(f);
    }
  }

  lemma GroupLooksEncoded(v: nat, n: nat, padding: Bytes)
    requires v < 0x100_0000 && n + |padding| == 4 && forall i :: 0 <= i < |padding| ==> padding[i] == '='
    ensures LooksEncoded(Four(v)[..n] + padding)
  {
    hide Four, InAlphabet;
    FourLetters(v);
    LettersInAlphabet(Four(v));
  }

  lemma {:induction false} EncodedLooksEncoded(b: Bytes)
    ensures LooksEncoded(Encode(b))
  {
    hide Four, InAlphabet;
    if |b| == 1 {
      GroupLooksEncoded(b[0] as int * 0x1_0000, 2, ['=', '=']);
    } else if |b| == 2 {
      GroupLooksEncoded(b[0] as int * 0x1_0000 + b[1] as int * 0x100, 3, ['=']);
    } else if |b| >= 3 {
      var v := b[0] as int * 0x1_0000 + b[1] as int * 0x100 + b[2] as int;
      GroupLooksEncoded(v, 4, []);
      assert Four(v)[..4] + [] == Four(v);
      EncodedLooksEncoded(b[3..]);
    }
  }

  lemma OneDecodes(x: LuaByte)
    ensures Bytewise(BitString(Unpadded(Encode([x])))) == [x]
  {
    hide Bits, Four, Bytewise, BitString, Unpadded;
    ShortGroup(x as int * 0x1_0000, 2, ['=', '=']);
    GroupBits(x as int, 0, 0);
    var rest := (Bits(8, x as int) + Bits(8, 0) + Bits(8, 0))[..12];
    assert rest == Bits(8, x as int) + rest[8..];
    BytewiseNext(x, rest[8..]);
    BytewiseRest(rest[8..]);
  }

  lemma TwoDecode(x: LuaByte, y: LuaByte)
    ensures Bytewise(BitString(Unpadded(Encode([x, y])))) == [x, y]
  {
    hide Bits, Four, Bytewise, BitString, Unpadded;
    ShortGroup(x as int * 0x1_0000 + y as int * 0x100, 3, ['=']);
    GroupBits(x as int, y as int, 0);
    var rest := (Bits(8, x as int) + Bits(8, y as int) + Bits(8, 0))[..18];
    assert rest == Bits(8, x as int) + (Bits(8, y as int) + rest[16..]);
    BytewiseNext(x, Bits(8, y as int) + rest[16..]);
    BytewiseNext(y, rest[16..]);
    BytewiseRest(rest[16..]);
  }

  lemma ThreeDecode(x: LuaByte, y: LuaByte, z: LuaByte, more: Bytes)
    ensures var v := x as int * 0x1_0000 + y as int * 0x100 + z as int;
      Bytewise(BitString(Unpadded(Four(v) + more))) == [x, y, z] + Bytewise(BitString(Unpadded(more)))
  {
    hide Bits, Four, Bytewise, BitString, Unpadded, Letters, LooksEncoded;
    var v := x as int * 0x1_0000 + y as int * 0x100 + z as int;
    FourLetters(v);
    UnpaddedLetters(Four(v), more);
    BitStringAppends(Four(v), Unpadded(more));
    FourBits(v);
    GroupBits(x as int, y as int, z as int);
    var rest := BitString(Unpadded(more));
    var a, b, c := Bits(8, x as int), Bits(8, y as int), Bits(8, z as int);
    Associative(a + b, c, rest);
    Associative(a, b, c + rest);
    BytewiseNext(x, b + (c + rest));
    BytewiseNext(y, c + rest);
    BytewiseNext(z, rest);
  }

  lemma {:induction false} EncodedDecodes(b: Bytes)
    ensures Bytewise(BitString(Unpadded(Encode(b)))) == b
  {
    hide Four, Bytewise, BitString, Unpadded;
    if b == [] {
      assert Bytewise(BitString(Unpadded([]))) == [] by { NothingDecodes(); }
    } else if |b| == 1 {
      OneDecodes(b[0]);
      assert b == [b[0]];
    } else if |b| == 2 {
      TwoDecode(b[0], b[1]);
      assert b == [b[0], b[1]];
    } else {
      ThreeDecode(b[0], b[1], b[2], Encode(b[3..]));
      EncodedDecodes(b[3..]);
      assert b == [b[0], b[1], b[2]] + b[3..];
    }
  }

  lemma NothingDecodes()
    ensures Bytewise(BitString(Unpadded([]))) == []
  {
  }

  lemma BytewiseRest(bits: seq<bool>)
    requires |bits| < 8 && |bits| != 1
    ensures Bytewise(bits) == []
  {
  }

  lemma ShortGroup(v: nat, n: nat, padding: Bytes)
    requires v < 0x100_0000 && n in {2, 3} && forall i :: 0 <= i < |padding| ==> padding[i] == '='
    ensures BitString(Unpadded(Four(v)[..n] + padding)) == Bits(24, v)[..6 * n]
  {
    hide Four, Bits, BitString;
    FourLetters(v);
    UnpaddedLetters(Four(v)[..n], padding);
    PaddingGoes(padding);
    assert Four(v)[..n] + [] == Four(v)[..n];
    FourBits(v);
  }

  lemma {:induction false} PaddingGoes(padding: Bytes)
    requires forall i :: 0 <= i < |padding| ==> padding[i] == '='
    ensures Unpadded(padding) == []
  {
    if padding != [] { PaddingGoes(padding[1..]); }
  }

  /** The gate decodes every RFC 4648 encoding to the bytes it encodes. */
  lemma DecodesEncoded(b: Bytes)
    ensures Decode(Encode(b)) == Some(b)
  {
    EncodedLooksEncoded(b);
    EncodedDecodes(b);
  }

  // --- The decoder as the gate runs it -------------------------------------------------------------------

  /** `f % 2m - f % m > 0` asks for the bit of weight `m`. */
  lemma BitTest(f: nat, m: nat)
    requires m > 0
    ensures f % (2 * m) - f % m > 0 <==> f / m % 2 == 1
    ensures f / m / 2 == f / (2 * m)
  {
    var q, r := f / m, f % m;
    var h, b := q / 2, q % 2;
    assert f == q * m + r;
    assert q * m == h * (2 * m) + b * m by { assert (2 * h + b) * m == h * (2 * m) + b * m; }
    assert b * m == if b == 1 then m else 0;
    DivMod(f, 2 * m, h, b * m + r);
  }

  method SextetBits(f: nat) returns (r: seq<bool>)
    requires f < 64
    ensures r == Bits(6, f)
  {
    r := [];
    assert f / Pow2(6) == 0 by { PowersAre(); }
    var i := 6;
    while i > 0
      invariant 0 <= i <= 6 && r == Bits(6 - i, f / Pow2(i))
    {
      BitTest(f, Pow2(i - 1));
      r := r + [f % Pow2(i) - f % Pow2(i - 1) > 0];
      i := i - 1;
    }
    assert f / Pow2(0) == f;
  }

  method OctetValue(x: seq<bool>) returns (c: nat)
    requires |x| == 8
    ensures c == Value(x)
  {
    c := 0;
    for i := 0 to 8
      invariant c == Value(x[..i]) * Pow2(8 - i)
    {
      assert x[..i + 1][..i] == x[..i];
      Doubled(Value(x[..i]), Pow2(7 - i));
      c := c + if x[i] then Pow2(7 - i) else 0;
    }
    assert x[..8] == x;
  }

  lemma Doubled(v: nat, p: nat)
    ensures v * (2 * p) == 2 * v * p && (2 * v + 1) * p == 2 * v * p + p
  {
  }

  method StripPadding(data: Bytes) returns (letters: Bytes)
    ensures letters == Unpadded(data)
  {
    letters := [];
    for i := 0 to |data|
      invariant Unpadded(data) == letters + Unpadded(data[i..])
    {
      assert data[i..][0] == data[i] && data[i..][1..] == data[i + 1..];
      if data[i] != '=' { letters := letters + [data[i]]; }
    }
  }

  lemma NextLetter(letters: Bytes, i: nat)
    requires i < |letters|
    ensures BitString(letters[i..]) == Bits(6, Find(Alphabet(), letters[i])) + BitString(letters[i + 1..])
  {
    hide Bits, Find, Alphabet;
    assert letters[i..][0] == letters[i] && letters[i..][1..] == letters[i + 1..];
  }

  method ToBits(letters: Bytes) returns (bits: seq<bool>)
    requires forall i :: 0 <= i < |letters| ==> Find(Alphabet(), letters[i]) < 64
    ensures bits == BitString(letters)
  {
    hide Bits, Find, Alphabet;
    bits := [];
    for i := 0 to |letters|
      invariant BitString(letters) == bits + BitString(letters[i..])
    {
      NextLetter(letters, i);
      var sextet := SextetBits(Find(Alphabet(), letters[i]));
      Associative(bits, sextet, BitString(letters[i + 1..]));
      bits := bits + sextet;
    }
  }

  method ToBytes(bits: seq<bool>) returns (bytes: Bytes)
    ensures bytes == Bytewise(bits)
  {
    hide Value;
    bytes := [];
    var at := 0;
    while |bits| - at >= 8
      invariant 0 <= at <= |bits| && Bytewise(bits) == bytes + Bytewise(bits[at..])
    {
      assert bits[at..][..8] == bits[at..at + 8] && bits[at..][8..] == bits[at + 8..];
      ValueBound(bits[at..at + 8]);
      var c := OctetValue(bits[at..at + 8]);
      Associative(bytes, [c as char], Bytewise(bits[at + 8..]));
      bytes := bytes + [c as char];
      at := at + 8;
    }
    if |bits| - at == 1 { bytes := bytes + [Digit(bits[at])]; }
  }

  method B64Decode(data: Bytes) returns (r: Option<Bytes>)
    ensures r == Decode(data)
  {
    if !LooksEncoded(data) { return None; }
    UnpaddedInAlphabet(data);
    var letters := StripPadding(data);
    var bits := ToBits(letters);
    var bytes := ToBytes(bits);
    return Some(bytes);
  }

  lemma {:induction false} UnpaddedInAlphabet(data: Bytes)
    requires forall i :: 0 <= i < |data| ==> InAlphabet(data[i]) || data[i] == '='
    ensures forall i :: 0 <= i < |Unpadded(data)| ==> Find(Alphabet(), Unpadded(data)[i]) < 64
  {
    if data != [] {
      UnpaddedInAlphabet(data[1..]);
    }
  }

  // --- Anything that decodes ----------------------------------------------------------------------------

  predicate Base64Letter(c: char) {
    'A' <= c <= 'Z' || 'a' <= c <= 'z' || '0' <= c <= '9' || c == '+' || c == '/'
  }

  lemma LetterIsOne(f: nat)
    requires f < 64
    ensures Base64Letter(Letter(f))
  {
  }

  lemma LettersAre(c: LuaByte)
    ensures InAlphabet(c) <==> Base64Letter(c)
  {
    hide LettersFrom, Letter, Base64Letter;
    if InAlphabet(c) {
      var f :| 0 <= f < 64 && Alphabet()[f] == c;
      LetterIsOne(f);
    }
    if Base64Letter(c) {
      var f := PlaceOf(c);
      assert Alphabet()[f] == c;
    }
  }

  lemma PlaceOf(c: LuaByte) returns (f: nat)
    requires Base64Letter(c)
    ensures f < 64 && Letter(f) == c
  {
    var n := c as int;
    f := if 'A' <= c <= 'Z' then n - 65 else if 'a' <= c <= 'z' then n - 71 else if '0' <= c <= '9' then n + 4
         else if c == '+' then 62 else 63;
  }

  /** Bytes decode exactly when their number is a multiple of four and all are letters of the alphabet or `=`. */
  lemma DecodesExactly(data: Bytes)
    ensures Decode(data).Some? <==> |data| % 4 == 0 && forall i :: 0 <= i < |data| ==> Base64Letter(data[i]) || data[i] == '='
  {
    hide InAlphabet, Base64Letter, Bytewise, BitString, Unpadded;
    forall i | 0 <= i < |data| ensures InAlphabet(data[i]) <==> Base64Letter(data[i]) { LettersAre(data[i]); }
  }

  /** The eight bits from the `k`th eight on are the byte's. */
  predicate EightOf(bits: seq<bool>, k: nat, c: LuaByte) {
    8 * k + 8 <= |bits| && c as int == Value(bits[8 * k..8 * k + 8])
  }

  lemma {:induction false} BytewiseIs(bits: seq<bool>)
    requires |bits| % 2 == 0
    ensures |Bytewise(bits)| == |bits| / 8
    ensures forall k :: 0 <= k < |bits| / 8 ==> EightOf(bits, k, Bytewise(bits)[k])
    decreases |bits|
  {
    if |bits| >= 8 {
      var rest := bits[8..];
      BytewiseIs(rest);
      ValueBound(bits[..8]);
      hide Value, Pow2;
      forall k | 0 <= k < |bits| / 8 ensures EightOf(bits, k, Bytewise(bits)[k]) {
        if k == 0 {
          assert bits[0..8] == bits[..8];
        } else {
          assert EightOf(rest, k - 1, Bytewise(rest)[k - 1]);
          EightMoves(bits, k);
        }
      }
    }
  }

  lemma EightMoves(bits: seq<bool>, k: nat)
    requires k > 0 && 8 * k + 8 <= |bits|
    ensures bits[8..][8 * (k - 1)..8 * (k - 1) + 8] == bits[8 * k..8 * k + 8]
  {
  }

  /** The six bits from the `j`th six on are those of the letter. */
  ghost predicate SixOf(bits: seq<bool>, j: nat, c: char) {
    6 * j + 6 <= |bits| && exists f :: 0 <= f < 64 && Letter(f) == c && bits[6 * j..6 * j + 6] == Bits(6, f)
  }

  lemma {:induction false} BitStringIs(letters: Bytes)
    requires forall i :: 0 <= i < |letters| ==> InAlphabet(letters[i])
    ensures |BitString(letters)| == 6 * |letters| && |BitString(letters)| % 2 == 0
    ensures forall j :: 0 <= j < |letters| ==> SixOf(BitString(letters), j, letters[j])
  {
    hide LettersFrom, Letter, Bits;
    if letters != [] {
      var f, rest := Find(Alphabet(), letters[0]), letters[1..];
      assert forall i :: 0 <= i < |rest| ==> rest[i] == letters[i + 1];
      BitStringIs(rest);
      assert Alphabet()[f] == Letter(f) == letters[0];
      var bits := BitString(letters);
      assert bits == Bits(6, f) + BitString(rest);
      forall j | 0 <= j < |letters| ensures SixOf(bits, j, letters[j]) {
        if j == 0 {
          assert bits[0..6] == Bits(6, f);
        } else {
          SixMoves(Bits(6, f), BitString(rest), j - 1, rest[j - 1]);
        }
      }
    }
  }

  lemma SixMoves(first: seq<bool>, rest: seq<bool>, j: nat, c: char)
    requires |first| == 6 && SixOf(rest, j, c)
    ensures SixOf(first + rest, j + 1, c)
  {
    hide Letter, Bits;
    assert (first + rest)[6 * (j + 1)..6 * (j + 1) + 6] == rest[6 * j..6 * j + 6];
  }

  /** The bits hold the letters, six each, and the bytes, eight each. */
  ghost predicate Holds(bits: seq<bool>, letters: Bytes, bytes: Bytes) {
    && |bits| == 6 * |letters| && |bytes| == |bits| / 8
    && (forall j :: 0 <= j < |letters| ==> SixOf(bits, j, letters[j]))
    && (forall k :: 0 <= k < |bytes| ==> EightOf(bits, k, bytes[k]))
  }

  /**
   * What decodes: the letters without the padding, six bits each, and of the bits in a row each
   * full eight as a byte.
   */
  lemma DecodedIs(data: Bytes)
    requires Decode(data).Some?
    ensures exists bits :: Holds(bits, Unpadded(data), Decode(data).value)
  {
    hide InAlphabet, Bytewise, BitString, Bits, Value, Letter, SixOf, EightOf, Unpadded;
    UnpaddedLettersOnly(data);
    LettersHold(Unpadded(data));
  }

  lemma LettersHold(letters: Bytes)
    requires forall i :: 0 <= i < |letters| ==> InAlphabet(letters[i])
    ensures Holds(BitString(letters), letters, Bytewise(BitString(letters)))
  {
    hide InAlphabet, Bytewise, BitString, SixOf, EightOf;
    BitStringIs(letters);
    BytewiseIs(BitString(letters));
  }

  lemma {:induction false} UnpaddedLettersOnly(data: Bytes)
    requires forall i :: 0 <= i < |data| ==> InAlphabet(data[i]) || data[i] == '='
    ensures forall i :: 0 <= i < |Unpadded(data)| ==> InAlphabet(Unpadded(data)[i])
    ensures forall c :: c in Unpadded(data) <==> c in data && c != '='
  {
    hide InAlphabet;
    if data != [] {
      UnpaddedLettersOnly(data[1..]);
      assert forall c :: c in data <==> c == data[0] || c in data[1..];
    }
  }

  // --- The gate ------------------------------------------------------------------------------------------

  function Authorization(): string { "authorization" }

  function NoAuthMarker(): string { "x-susentorno-no-auth" }

  function NoAccountIdMarker(): string { "x-susentorno-no-account-id" }

  const NO_AUTH_SENTINEL: Bytes := "susentorno-no-credential"
  const BASIC: Bytes := "Basic "

  /** What follows the first colon. */
  function AfterColon(s: Bytes): Option<Bytes> {
    if s == [] then None else if s[0] == ':' then Some(s[1..]) else AfterColon(s[1..])
  }

  /** The password half of a Basic credential, when the header carries one that decodes. */
  function Password(auth: Bytes): Option<Bytes> {
    if |auth| > |BASIC| && auth[..|BASIC|] == BASIC then
      var decoded := Decode(auth[|BASIC|..]);
      if decoded.Some? then AfterColon(decoded.value) else None
    else None
  }

  class Headers {
    var fields: map<string, Bytes>

    constructor (fields: map<string, Bytes>)
      ensures this.fields == fields
    {
      this.fields := fields;
    }

    /**
     * The request's headers after the gate: no marker of the client's survives, a request without
     * authorization is marked, and the placeholder credential is taken off so that the real one goes in.
     */
    method OnRequest()
      modifies this
      ensures var cleaned := old(fields) - {NoAuthMarker(), NoAccountIdMarker()};
        fields ==
          if Authorization() !in old(fields) then cleaned[Authorization() := NO_AUTH_SENTINEL][NoAuthMarker() := "1"]
          else if Password(old(fields)[Authorization()]) == Some(PLACEHOLDER) then cleaned - {Authorization()}
          else cleaned
    {
      hide Authorization, NoAuthMarker, NoAccountIdMarker, Decode, AfterColon;
      fields := fields - {NoAuthMarker()};
      fields := fields - {NoAccountIdMarker()};
      NamesDiffer();
      if Authorization() !in fields {
        fields := fields[Authorization() := NO_AUTH_SENTINEL];
        fields := fields[NoAuthMarker() := "1"];
        return;
      }
      var auth := fields[Authorization()];
      if |auth| <= |BASIC| || auth[..|BASIC|] != BASIC { return; }
      var decoded := B64Decode(auth[|BASIC|..]);
      if decoded.None? { return; }
      var password := AfterColon(decoded.value);
      if password == Some(PLACEHOLDER) {
        fields := fields - {Authorization()};
      }
    }
  }

  lemma NamesDiffer()
    ensures Authorization() != NoAuthMarker() && Authorization() != NoAccountIdMarker()
  {
    assert Authorization()[0] == 'a' && NoAuthMarker()[0] == 'x' && NoAccountIdMarker()[0] == 'x';
  }

  lemma {:induction false} AfterColonIs(s: Bytes, rest: Bytes)
    ensures AfterColon(s) == Some(rest) <==> exists user: Bytes :: ':' !in user && s == user + [':'] + rest
  {
    if s != [] {
      AfterColonIs(s[1..], rest);
      if s[0] == ':' {
        assert s[1..] == rest ==> s == [] + [':'] + rest;
      } else if user: Bytes :| ':' !in user && s[1..] == user + [':'] + rest {
        assert s == ([s[0]] + user) + [':'] + rest;
      }
      if user: Bytes :| ':' !in user && s == user + [':'] + rest {
        if user == [] {
          assert s[1..] == rest;
        } else {
          assert s[1..] == user[1..] + [':'] + rest;
        }
      }
    }
  }

  /** A header carries a password exactly when it is `Basic `, and more that decodes to a user name, a colon and the password. */
  lemma PasswordExactly(auth: Bytes, password: Bytes)
    ensures Password(auth) == Some(password) <==>
            exists user: Bytes :: ':' !in user && CarriesCredential(auth, user + [':'] + password)
  {
    hide Decode, AfterColon;
    if |auth| > |BASIC| && auth[..|BASIC|] == BASIC {
      var encoded := auth[|BASIC|..];
      assert auth == BASIC + encoded;
      if Decode(encoded).Some? { AfterColonIs(Decode(encoded).value, password); }
      forall bytes: Bytes | CarriesCredential(auth, bytes) ensures Decode(encoded) == Some(bytes) { CarriedOnce(auth, bytes); }
    }
    forall bytes: Bytes | CarriesCredential(auth, bytes) ensures |auth| > |BASIC| && auth[..|BASIC|] == BASIC { CarriedOnce(auth, bytes); }
  }

  ghost predicate CarriesCredential(auth: Bytes, bytes: Bytes) {
    exists encoded: Bytes :: encoded != [] && auth == "Basic " + encoded && Decode(encoded) == Some(bytes)
  }

  lemma CarriedOnce(auth: Bytes, bytes: Bytes)
    requires CarriesCredential(auth, bytes)
    ensures |auth| > |BASIC| && auth[..|BASIC|] == BASIC && Decode(auth[|BASIC|..]) == Some(bytes)
  {
    hide Decode;
    var encoded: Bytes :| encoded != [] && auth == "Basic " + encoded && Decode(encoded) == Some(bytes);
    assert auth[|BASIC|..] == encoded;
  }

  lemma {:induction false} AfterUserName(user: Bytes, password: Bytes)
    requires ':' !in user
    ensures AfterColon(user + [':'] + password) == Some(password)
  {
    if user == [] {
      assert [] + [':'] + password == [':'] + password;
    } else {
      assert (user + [':'] + password)[1..] == user[1..] + [':'] + password;
      AfterUserName(user[1..], password);
    }
  }

  /**
   * A credential encoded as section 2 of RFC 7617 says is stripped exactly when its password is the
   * placeholder, whatever the user name.
   */
  lemma GateStripsPlaceholder(user: Bytes, password: Bytes)
    requires ':' !in user
    ensures Password(BASIC + Encode(user + [':'] + password)) == Some(password)
  {
    var credential := user + [':'] + password;
    var auth := BASIC + Encode(credential);
    assert auth[..|BASIC|] == BASIC && auth[|BASIC|..] == Encode(credential);
    EncodedIsLonger(credential);
    DecodesEncoded(credential);
    AfterUserName(user, password);
  }

  /** Any encoded bytes without a colon are left alone. */
  lemma GateKeepsOthers(bytes: Bytes)
    requires ':' !in bytes
    ensures Password(BASIC + Encode(bytes)) == None
  {
    var auth := BASIC + Encode(bytes);
    assert auth[..|BASIC|] == BASIC && auth[|BASIC|..] == Encode(bytes);
    DecodesEncoded(bytes);
    NoColon(bytes);
  }

  lemma {:induction false} NoColon(s: Bytes)
    requires ':' !in s
    ensures AfterColon(s) == None
  {
    if s != [] { NoColon(s[1..]); }
  }

  lemma EncodedIsLonger(b: Bytes)
    requires b != []
    ensures Encode(b) != []
  {
  }
}
