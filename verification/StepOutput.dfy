// Keeping the head and the tail of a step's output without cutting a UTF-8 character
// (src/guestSetup/windows/stepRunner.ts). The marker text between them is not part of this model.
module StepOutput {
  import opened Ip

  // --- UTF-8 (the syntax of section 4 of RFC 3629) -----------------------------------------------------

  predicate IsTail(b: Byte) {
    0x80 <= b <= 0xbf
  }

  predicate TailsAt(s: seq<Byte>, from: nat, to: nat) {
    to <= |s| && forall i :: from <= i < to ==> IsTail(s[i])
  }

  /** The length of the character `s` starts with, 0 when it starts with none. */
  function First(s: seq<Byte>): (n: nat)
    ensures n <= |s|
  {
    if s == [] then 0
    else if s[0] <= 0x7f then 1
    else if 0xc2 <= s[0] <= 0xdf && TailsAt(s, 1, 2) then 2
    else if 0xe0 <= s[0] <= 0xef && TailsAt(s, 1, 3)
      && (s[0] == 0xe0 ==> 0xa0 <= s[1]) && (s[0] == 0xed ==> s[1] <= 0x9f) then 3
    else if 0xf0 <= s[0] <= 0xf4 && TailsAt(s, 1, 4)
      && (s[0] == 0xf0 ==> 0x90 <= s[1]) && (s[0] == 0xf4 ==> s[1] <= 0x8f) then 4
    else 0
  }

  predicate Utf8(s: seq<Byte>)
    decreases |s|
  {
    s == [] || (First(s) > 0 && Utf8(s[First(s)..]))
  }

  // --- The characters themselves (section 3 of RFC 3629) -----------------------------------------------

  predicate Scalar(c: nat) {
    c < 0xd800 || 0xdfff < c < 0x11_0000
  }

  function EncodeScalar(c: nat): (s: seq<Byte>)
    requires Scalar(c)
    ensures 1 <= |s| <= 4
  {
    if c < 0x80 then [c]
    else if c < 0x800 then [0xc0 + c / 0x40, 0x80 + c % 0x40]
    else if c < 0x1_0000 then [0xe0 + c / 0x1000, 0x80 + c / 0x40 % 0x40, 0x80 + c % 0x40]
    else [0xf0 + c / 0x4_0000, 0x80 + c / 0x1000 % 0x40, 0x80 + c / 0x40 % 0x40, 0x80 + c % 0x40]
  }

  function EncodeAll(cs: seq<nat>): seq<Byte>
    requires forall c :: c in cs ==> Scalar(c)
  {
    if cs == [] then [] else EncodeScalar(cs[0]) + EncodeAll(cs[1..])
  }

  /** The character `s` starts with. */
  function Decoded(s: seq<Byte>): nat
    requires First(s) > 0
  {
    var a: nat := s[0];
    if First(s) == 1 then a
    else
      var b: nat := s[1];
      if First(s) == 2 then (a - 0xc0) * 0x40 + (b - 0x80)
      else
        var c: nat := s[2];
        if First(s) == 3 then (a - 0xe0) * 0x1000 + (b - 0x80) * 0x40 + (c - 0x80)
        else
          var d: nat := s[3];
          (a - 0xf0) * 0x4_0000 + (b - 0x80) * 0x1000 + (c - 0x80) * 0x40 + (d - 0x80)
  }

  /** Bytes that start with a character start with the encoding of a scalar value. */
  lemma FirstIsEncoded(s: seq<Byte>)
    requires First(s) > 0
    ensures Scalar(Decoded(s)) && s[..First(s)] == EncodeScalar(Decoded(s))
  {
    FirstIsOneCharacter(s);
    if First(s) == 4 {
      FourAreEncoded(s);
    } else if First(s) == 3 {
      ThreeAreEncoded(s);
    } else if First(s) == 2 {
      assert IsTail(s[1]);
    }
  }

  lemma ThreeAreEncoded(s: seq<Byte>)
    requires First(s) == 3 && TailsAt(s, 1, 3)
    ensures Scalar(Decoded(s)) && s[..3] == EncodeScalar(Decoded(s))
  {
    var a: nat, b: nat, c: nat, v := s[0], s[1], s[2], Decoded(s);
    assert IsTail(s[1]) && IsTail(s[2]);
    var q := (a - 0xe0) * 0x40 + (b - 0x80);
    assert v == q * 0x40 + (c - 0x80);
    assert v / 0x40 == q && v % 0x40 == c - 0x80;
    assert v / 0x1000 == q / 0x40;
  }

  lemma FourAreEncoded(s: seq<Byte>)
    requires First(s) == 4 && TailsAt(s, 1, 4)
    ensures Scalar(Decoded(s)) && s[..4] == EncodeScalar(Decoded(s))
  {
    var a: nat, b: nat, c: nat, d: nat, v := s[0], s[1], s[2], s[3], Decoded(s);
    assert IsTail(s[1]) && IsTail(s[2]) && IsTail(s[3]);
    var p := (a - 0xf0) * 0x40 + (b - 0x80);
    var q := p * 0x40 + (c - 0x80);
    assert v == q * 0x40 + (d - 0x80);
    assert v / 0x40 == q && v % 0x40 == d - 0x80;
    assert v / 0x1000 == q / 0x40 == p && q % 0x40 == c - 0x80;
    assert v / 0x4_0000 == p / 0x40;
  }

  /** Bytes that start with the encoding of a scalar value start with that character. */
  lemma EncodedIsFirst(c: nat, rest: seq<Byte>)
    requires Scalar(c)
    ensures First(EncodeScalar(c) + rest) == |EncodeScalar(c)|
  {
    var s := EncodeScalar(c) + rest;
    if c >= 0x1_0000 {
      FourBytes(c, s);
    } else if c >= 0x800 {
      ThreeBytes(c, s);
    } else if c >= 0x80 {
      assert TailsAt(s, 1, 2);
    }
  }

  lemma ThreeBytes(c: nat, s: seq<Byte>)
    requires Scalar(c) && 0x800 <= c < 0x1_0000 && EncodeScalar(c) <= s
    ensures First(s) == 3
  {
    assert s[0] == 0xe0 + c / 0x1000 && s[1] == 0x80 + c / 0x40 % 0x40 && s[2] == 0x80 + c % 0x40;
    assert c / 0x40 == 0x40 * (c / 0x1000) + c / 0x40 % 0x40;
    assert TailsAt(s, 1, 3);
  }

  lemma FourBytes(c: nat, s: seq<Byte>)
    requires 0x1_0000 <= c < 0x11_0000 && EncodeScalar(c) <= s
    ensures First(s) == 4
  {
    assert s[0] == 0xf0 + c / 0x4_0000 && s[1] == 0x80 + c / 0x1000 % 0x40;
    assert s[2] == 0x80 + c / 0x40 % 0x40 && s[3] == 0x80 + c % 0x40;
    assert c / 0x1000 == 0x40 * (c / 0x4_0000) + c / 0x1000 % 0x40;
    assert TailsAt(s, 1, 4);
  }

  /** A text is valid exactly when it is the encoding of some scalar values, one after the other. */
  lemma {:induction false} ValidIsEncoded(s: seq<Byte>) returns (cs: seq<nat>)
    requires Utf8(s)
    ensures (forall c :: c in cs ==> Scalar(c)) && s == EncodeAll(cs)
    decreases |s|
  {
    cs := [];
    if s != [] {
      FirstIsEncoded(s);
      var more := ValidIsEncoded(s[First(s)..]);
      cs := [Decoded(s)] + more;
      assert cs[1..] == more;
      assert s == s[..First(s)] + s[First(s)..];
    }
  }

  lemma {:induction false} EncodedIsValid(cs: seq<nat>)
    requires forall c :: c in cs ==> Scalar(c)
    ensures Utf8(EncodeAll(cs))
  {
    if cs != [] {
      var rest := EncodeAll(cs[1..]);
      EncodedIsFirst(cs[0], rest);
      EncodedIsValid(cs[1..]);
      assert EncodeAll(cs)[|EncodeScalar(cs[0])|..] == rest;
    }
  }

  /** Where a character starts, or the end. */
  predicate Boundary(s: seq<Byte>, i: nat) {
    i == |s| || (i < |s| && !IsTail(s[i]))
  }

  lemma FirstIsOneCharacter(s: seq<Byte>)
    requires First(s) > 0
    ensures !IsTail(s[0]) && TailsAt(s, 1, First(s)) && First(s) <= 4
  {
  }

  lemma FirstOfPrefix(s: seq<Byte>, i: nat)
    requires First(s) > 0 && First(s) <= i <= |s|
    ensures First(s[..i]) == First(s)
  {
    var p := s[..i];
    assert forall k :: 0 <= k < i ==> p[k] == s[k];
    if First(s) == 2 { assert IsTail(s[1]); }
    if First(s) == 3 { assert IsTail(s[1]) && IsTail(s[2]); }
    if First(s) == 4 { assert IsTail(s[1]) && IsTail(s[2]) && IsTail(s[3]); }
  }

  /** Cutting at a boundary leaves two valid halves. */
  lemma {:induction false} CutAtBoundary(s: seq<Byte>, i: nat)
    requires Utf8(s) && i <= |s| && Boundary(s, i)
    ensures Utf8(s[..i]) && Utf8(s[i..])
    decreases |s|
  {
    if i == 0 {
      assert s[0..] == s;
    } else {
      var n := First(s);
      FirstIsOneCharacter(s);
      assert n <= i;
      var rest := s[n..];
      assert Boundary(rest, i - n);
      CutAtBoundary(rest, i - n);
      FirstOfPrefix(s, i);
      assert s[..i][n..] == rest[..i - n] && s[i..] == rest[i - n..];
    }
  }

  /** No more than three tail bytes follow each other. */
  lemma {:induction false} BoundaryWithinFour(s: seq<Byte>, i: nat)
    requires Utf8(s) && i + 4 <= |s|
    ensures exists k: nat :: i <= k < i + 4 && !IsTail(s[k])
    decreases |s|
  {
    var n := First(s);
    FirstIsOneCharacter(s);
    if i == 0 {
    } else if i < n {
      var rest := s[n..];
      if rest != [] {
        FirstIsOneCharacter(rest);
        assert !IsTail(s[n]);
      }
    } else {
      BoundaryWithinFour(s[n..], i - n);
      var k: nat :| i - n <= k < i - n + 4 && !IsTail(s[n..][k]);
      assert !IsTail(s[n + k]);
    }
  }

  lemma StartsAtBoundary(s: seq<Byte>)
    requires Utf8(s)
    ensures Boundary(s, 0)
  {
    if s != [] { FirstIsOneCharacter(s); }
  }

  lemma AndDouble(x: nat, m: nat)
    ensures And(x, 2 * m) == 2 * And(x / 2, m)
  {
    hide And;
    AndHalves(x, 2 * m);
  }

  lemma AndThree(q: nat)
    requires q < 4
    ensures And(q, 3) == q
  {
    assert And(q / 2, 1) == q / 2;
  }

  /** The source's test `(b & 0xc0) === 0x80`. */
  lemma MaskIsTail(b: Byte)
    ensures And(b, 0xc0) == 0x80 <==> IsTail(b)
  {
    hide And;
    AndDouble(b, 96);
    AndDouble(b / 2, 48);
    AndDouble(b / 2 / 2, 24);
    AndDouble(b / 2 / 2 / 2, 12);
    AndDouble(b / 2 / 2 / 2 / 2, 6);
    AndDouble(b / 2 / 2 / 2 / 2 / 2, 3);
    AndThree(b / 64);
  }

  // --- The truncation ----------------------------------------------------------------------------------

  datatype Bounded = Bounded(head: seq<Byte>, tail: seq<Byte>, truncated: bool, totalBytes: nat, omittedBytes: nat)

  /** The last boundary at or before `half`. */
  method HeadEnd(bytes: seq<Byte>, half: nat) returns (headEnd: nat)
    requires Utf8(bytes) && half < |bytes|
    ensures half - 3 <= headEnd <= half && Boundary(bytes, headEnd)
  {
    hide Utf8, IsTail, And;
    headEnd := half;
    MaskIsTail(bytes[headEnd]);
    while headEnd > 0 && And(bytes[headEnd], 0xc0) == 0x80
      invariant 0 <= headEnd <= half
      invariant And(bytes[headEnd], 0xc0) == 0x80 <==> IsTail(bytes[headEnd])
      invariant forall k :: headEnd < k <= half ==> IsTail(bytes[k])
    {
      headEnd := headEnd - 1;
      MaskIsTail(bytes[headEnd]);
    }
    StartsAtBoundary(bytes);
    if headEnd + 4 <= half { BoundaryWithinFour(bytes, headEnd + 1); }
  }

  /** The first boundary at or after `start`. */
  method TailStart(bytes: seq<Byte>, start: nat) returns (tailStart: nat)
    requires Utf8(bytes) && start <= |bytes|
    ensures start <= tailStart <= start + 3 && tailStart <= |bytes| && Boundary(bytes, tailStart)
  {
    hide Utf8, IsTail, And;
    tailStart := start;
    while tailStart < |bytes| && And(bytes[tailStart], 0xc0) == 0x80
      invariant start <= tailStart <= |bytes|
      invariant forall k :: start <= k < tailStart ==> IsTail(bytes[k])
    {
      MaskIsTail(bytes[tailStart]);
      tailStart := tailStart + 1;
    }
    if tailStart < |bytes| { MaskIsTail(bytes[tailStart]); }
    if tailStart >= start + 4 { BoundaryWithinFour(bytes, start); }
  }

  method BoundStepOutput(bytes: seq<Byte>, ceilingBytes: nat) returns (r: Bounded)
    requires Utf8(bytes)
    ensures r.truncated <==> |bytes| > ceilingBytes
    ensures r.totalBytes == |bytes| && |r.head| + r.omittedBytes + |r.tail| == |bytes|
    ensures r.head <= bytes && |r.tail| <= |bytes| && r.tail == bytes[|bytes| - |r.tail|..]
    ensures Utf8(r.head) && Utf8(r.tail)
    ensures !r.truncated ==> r.head == bytes && r.tail == []
    ensures r.truncated ==> ceilingBytes - 7 <= |r.head| + |r.tail| <= ceilingBytes
    ensures r.truncated ==> Utf8(bytes[|r.head|..|r.head| + r.omittedBytes])
  {
    hide Utf8, Boundary;
    if |bytes| <= ceilingBytes {
      NothingIsValid();
      return Bounded(bytes, [], false, |bytes|, 0);
    }
    var half := ceilingBytes / 2;
    var headEnd := HeadEnd(bytes, half);
    var tailStart := TailStart(bytes, |bytes| - half);
    CutAtBoundary(bytes, headEnd);
    CutAtBoundary(bytes, tailStart);
    MiddleIsValid(bytes, headEnd, tailStart);
    var head, tail := bytes[..headEnd], bytes[tailStart..];
    assert |bytes| - |tail| == tailStart && headEnd <= tailStart;
    return Bounded(head, tail, true, |bytes|, tailStart - headEnd);
  }

  lemma NothingIsValid()
    ensures Utf8([])
  {
  }

  /** What is left out between two boundaries is whole characters too. */
  lemma MiddleIsValid(s: seq<Byte>, i: nat, j: nat)
    requires Utf8(s) && i <= j <= |s| && Boundary(s, i) && Boundary(s, j)
    ensures Utf8(s[i..j])
  {
    CutAtBoundary(s, j);
    var front := s[..j];
    if i < j { assert front[i] == s[i]; }
    assert Boundary(front, i);
    CutAtBoundary(front, i);
    assert front[i..] == s[i..j];
  }
}
