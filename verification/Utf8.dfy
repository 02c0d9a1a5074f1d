/** UTF-8 as defined in section 3 of RFC 3629, on whole strings of Unicode scalar values. */
module Utf8 {
  import opened Wrappers

  predicate IsContinuation(b: Byte) { 0x80 <= b < 0xC0 }

  function EncodeChar(c: char): (b: seq<Byte>)
    ensures 1 <= |b| <= 4 && !IsContinuation(b[0])
    ensures forall i :: 1 <= i < |b| ==> IsContinuation(b[i])
  {
    var n := c as int;
    if n < 0x80 then [n]
    else if n < 0x800 then [0xC0 + n / 0x40, 0x80 + n % 0x40]
    else if n < 0x1_0000 then [0xE0 + n / 0x1000, 0x80 + n / 0x40 % 0x40, 0x80 + n % 0x40]
    else [0xF0 + n / 0x4_0000, 0x80 + n / 0x1000 % 0x40, 0x80 + n / 0x40 % 0x40, 0x80 + n % 0x40]
  }

  function Bits(b: Byte, marker: int): int { b - marker }

  /** The table of section 3 of RFC 3629: the length by range, the marker of the first byte, and the bits of
      the character in the rest, most significant first. */
  lemma {:induction false} EncodeCharIsUtf8(c: char)
    ensures
      var n, b := c as int, EncodeChar(c);
      && (n <= 0x7F ==> b == [n])
      && (0x80 <= n <= 0x7FF ==> |b| == 2 && 0xC0 <= b[0] < 0xE0 && n == Bits(b[0], 0xC0) * 0x40 + Bits(b[1], 0x80))
      && (0x800 <= n <= 0xFFFF ==>
            |b| == 3 && 0xE0 <= b[0] < 0xF0 && n == Bits(b[0], 0xE0) * 0x1000 + Bits(b[1], 0x80) * 0x40 + Bits(b[2], 0x80))
      && (0x1_0000 <= n ==>
            && |b| == 4 && 0xF0 <= b[0] < 0xF8
            && n == Bits(b[0], 0xF0) * 0x4_0000 + Bits(b[1], 0x80) * 0x1000 + Bits(b[2], 0x80) * 0x40 + Bits(b[3], 0x80))
  {
    PositionalDigits(c as int);
  }

  lemma PositionalDigits(n: nat)
    ensures n == n / 0x40 * 0x40 + n % 0x40
    ensures n == n / 0x1000 * 0x1000 + n / 0x40 % 0x40 * 0x40 + n % 0x40
    ensures n == n / 0x4_0000 * 0x4_0000 + n / 0x1000 % 0x40 * 0x1000 + n / 0x40 % 0x40 * 0x40 + n % 0x40
  {
    var q := n / 0x40;
    assert n / 0x1000 == q / 0x40 && n / 0x4_0000 == q / 0x40 / 0x40;
    assert q == q / 0x40 * 0x40 + q % 0x40 && q / 0x40 == q / 0x40 / 0x40 * 0x40 + q / 0x40 % 0x40;
  }

  function Encode(s: string): seq<Byte> {
    if s == [] then [] else EncodeChar(s[0]) + Encode(s[1..])
  }

  lemma {:induction false} EncodeAppend(s: string, t: string)
    ensures Encode(s + t) == Encode(s) + Encode(t)
  {
    if s == [] {
      assert s + t == t;
    } else {
      assert (s + t)[1..] == s[1..] + t;
      EncodeAppend(s[1..], t);
    }
  }

  /** A position where a character starts, or the end. */
  predicate IsBoundary(b: seq<Byte>, i: nat) {
    i == 0 || i == |b| || (i < |b| && !IsContinuation(b[i]))
  }

  lemma EncodeStartsOnBoundary(s: string)
    ensures s != [] ==> Encode(s) != [] && !IsContinuation(Encode(s)[0])
  {}

  lemma BoundaryIsAfterHead(head: seq<Byte>, rest: seq<Byte>, i: nat)
    requires 0 < i <= |head + rest| && IsBoundary(head + rest, i)
    requires forall j :: 1 <= j < |head| ==> IsContinuation(head[j])
    ensures |head| <= i && (i == |head| || IsBoundary(rest, i - |head|))
  {
    forall j | 0 <= j < |head + rest|
      ensures (head + rest)[j] == if j < |head| then head[j] else rest[j - |head|]
    {}
  }

  /** Every boundary of an encoding separates the encodings of two parts of the string. */
  lemma {:induction false} BoundarySplits(s: string, i: nat) returns (k: nat)
    requires i <= |Encode(s)| && IsBoundary(Encode(s), i)
    ensures k <= |s| && Encode(s)[..i] == Encode(s[..k]) && Encode(s)[i..] == Encode(s[k..])
  {
    if i == 0 {
      k := 0;
    } else {
      hide EncodeChar;
      var head, rest := EncodeChar(s[0]), Encode(s[1..]);
      BoundaryIsAfterHead(head, rest, i);
      EncodeStartsOnBoundary(s[1..]);
      var j := BoundarySplits(s[1..], i - |head|);
      k := j + 1;
      assert s[..k][0] == s[0] && s[..k][1..] == s[1..][..j] && s[k..] == s[1..][j..];
      assert (head + rest)[..i] == head + rest[..i - |head|];
      assert (head + rest)[i..] == rest[i - |head|..];
    }
  }

  /** From any position, a boundary is at most three bytes ahead. */
  lemma {:induction false} BoundaryNear(s: string, i: nat) returns (j: nat)
    requires i <= |Encode(s)|
    ensures i <= j <= i + 3 && j <= |Encode(s)| && IsBoundary(Encode(s), j)
  {
    if i == 0 {
      j := 0;
    } else {
      var head, rest := EncodeChar(s[0]), Encode(s[1..]);
      EncodeStartsOnBoundary(s[1..]);
      if i <= |head| {
        j := |head|;
        assert |rest| > 0 ==> Encode(s)[|head|] == rest[0];
        assert s[1..] == [] ==> rest == [];
      } else {
        var r := BoundaryNear(s[1..], i - |head|);
        j := |head| + r;
        assert r < |rest| ==> Encode(s)[j] == rest[r];
      }
    }
  }

  // ----- decoding

  datatype Head = Head(c: char, size: nat)

  predicate IsScalar(n: int) { 0 <= n < 0xD800 || 0xE000 <= n < 0x11_0000 }

  /** Base-64 positional notation. */
  function Join(hi: int, lo: int): int { hi * 0x40 + lo }

  /** The well-formed byte sequence of one character at the front of `b`, if there is one. */
  function DecodeHead(b: seq<Byte>): (h: Option<Head>)
    ensures h.Some? ==> 1 <= h.value.size <= |b|
  {
    if b == [] then None
    else
      var b0: int := b[0];
      if b0 < 0x80 then Some(Head(b0 as char, 1))
      else if 0xC0 <= b0 < 0xE0 && |b| >= 2 && IsContinuation(b[1]) then
        var n := Join(b0 - 0xC0, b[1] - 0x80);
        if n >= 0x80 && IsScalar(n) then Some(Head(n as char, 2)) else None
      else if 0xE0 <= b0 < 0xF0 && |b| >= 3 && IsContinuation(b[1]) && IsContinuation(b[2]) then
        var n := Join(Join(b0 - 0xE0, b[1] - 0x80), b[2] - 0x80);
        if n >= 0x800 && IsScalar(n) then Some(Head(n as char, 3)) else None
      else if 0xF0 <= b0 < 0xF8 && |b| >= 4 && IsContinuation(b[1]) && IsContinuation(b[2]) && IsContinuation(b[3]) then
        var n := Join(Join(Join(b0 - 0xF0, b[1] - 0x80), b[2] - 0x80), b[3] - 0x80);
        if n >= 0x1_0000 && IsScalar(n) then Some(Head(n as char, 4)) else None
      else None
  }

  /** `String::from_utf8`. */
  function Decode(b: seq<Byte>): Option<string> {
    if b == [] then Some([])
    else
      match DecodeHead(b)
      case None => None
      case Some(h) =>
        match Decode(b[h.size..])
        case None => None
        case Some(rest) => Some([h.c] + rest)
  }

  lemma JoinDigits(n: nat)
    ensures Join(n / 0x40, n % 0x40) == n && n / 0x1000 == n / 0x40 / 0x40 && n / 0x4_0000 == n / 0x1000 / 0x40
  {}

  lemma DecodeEncodedChar(c: char, rest: seq<Byte>)
    ensures DecodeHead(EncodeChar(c) + rest) == Some(Head(c, |EncodeChar(c)|))
  {
    hide Join;
    var n := c as int;
    var e := EncodeChar(c);
    forall i | 0 <= i < |e| ensures (e + rest)[i] == e[i] {}
    JoinDigits(n);
    if n >= 0x800 {
      JoinDigits(n / 0x40);
    }
    if n >= 0x1_0000 {
      JoinDigits(n / 0x1000);
    }
  }

  lemma {:induction false} DecodeEncode(s: string)
    ensures Decode(Encode(s)) == Some(s)
  {
    if s != [] {
      var head, rest := EncodeChar(s[0]), Encode(s[1..]);
      DecodeEncodedChar(s[0], rest);
      assert (head + rest)[|head|..] == rest;
      DecodeEncode(s[1..]);
      assert s == [s[0]] + s[1..];
    }
  }

  lemma EncodeDecodedChar(b: seq<Byte>)
    requires DecodeHead(b).Some?
    ensures b[..DecodeHead(b).value.size] == EncodeChar(DecodeHead(b).value.c)
  {
    hide Join;
    var h := DecodeHead(b).value;
    if h.size == 2 {
      SplitJoin(b[0] - 0xC0, b[1] - 0x80);
      assert b[..2] == [b[0], b[1]];
    } else if h.size == 3 {
      SplitTwice(b[0] - 0xE0, b[1] - 0x80, b[2] - 0x80);
      assert b[..3] == [b[0], b[1], b[2]];
    } else if h.size == 4 {
      SplitThrice(b[0] - 0xF0, b[1] - 0x80, b[2] - 0x80, b[3] - 0x80);
      assert b[..4] == [b[0], b[1], b[2], b[3]];
    }
  }

  lemma SplitTwice(d2: int, d1: int, d0: int)
    requires 0 <= d2 && 0 <= d1 < 0x40 && 0 <= d0 < 0x40
    ensures
      var n := Join(Join(d2, d1), d0);
      n >= 0 && n / 0x1000 == d2 && n / 0x40 % 0x40 == d1 && n % 0x40 == d0
  {
    hide Join;
    SplitJoin(d2, d1);
    SplitJoin(Join(d2, d1), d0);
    JoinDigits(Join(Join(d2, d1), d0));
  }

  lemma SplitThrice(d3: int, d2: int, d1: int, d0: int)
    requires 0 <= d3 && 0 <= d2 < 0x40 && 0 <= d1 < 0x40 && 0 <= d0 < 0x40
    ensures
      var n := Join(Join(Join(d3, d2), d1), d0);
      n >= 0 && n / 0x4_0000 == d3 && n / 0x1000 % 0x40 == d2 && n / 0x40 % 0x40 == d1 && n % 0x40 == d0
  {
    hide Join;
    SplitJoin(d3, d2);
    SplitTwice(Join(d3, d2), d1, d0);
    JoinDigits(Join(Join(Join(d3, d2), d1), d0));
  }

  lemma SplitJoin(hi: int, lo: int)
    requires 0 <= hi && 0 <= lo < 0x40
    ensures Join(hi, lo) / 0x40 == hi && Join(hi, lo) % 0x40 == lo && Join(hi, lo) >= 0
  {}

  lemma {:induction false} EncodeDecode(b: seq<Byte>)
    requires Decode(b).Some?
    ensures Encode(Decode(b).value) == b
  {
    hide DecodeHead, EncodeChar;
    if b != [] {
      var h := DecodeHead(b).value;
      EncodeDecodedChar(b);
      EncodeDecode(b[h.size..]);
      var s := Decode(b).value;
      assert s[1..] == Decode(b[h.size..]).value;
    }
  }
}
