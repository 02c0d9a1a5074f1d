/** URL-safe base64 without padding: section 5 of RFC 4648, padding omitted as in its section 3.2.
    Decoding is strict: no padding characters, and unused trailing bits must be zero. */
module Base64Url {
  import opened Wrappers
  import opened Text

  type Digit = v: int | 0 <= v < 64

  function CharOf(v: Digit): char {
    if v < 26 then (v + 65) as char
    else if v < 52 then (v + 71) as char
    else if v < 62 then (v - 4) as char
    else if v == 62 then '-' else '_'
  }

  function ValueOf(c: char): Option<Digit> {
    var n := c as int;
    if 65 <= n <= 90 then Some(n - 65)
    else if 97 <= n <= 122 then Some(n - 71)
    else if 48 <= n <= 57 then Some(n + 4)
    else if c == '-' then Some(62)
    else if c == '_' then Some(63)
    else None
  }

  lemma CharRoundTrip(v: Digit)
    ensures ValueOf(CharOf(v)) == Some(v) && !IsWhitespace(CharOf(v))
  {}

  lemma ValueRoundTrip(c: char)
    ensures ValueOf(c).Some? ==> CharOf(ValueOf(c).value) == c
  {}

  function Encode64(b: seq<Byte>): string {
    if |b| == 0 then ""
    else if |b| == 1 then [CharOf(b[0] / 4), CharOf(b[0] % 4 * 16)]
    else if |b| == 2 then [CharOf(b[0] / 4), CharOf(b[0] % 4 * 16 + b[1] / 16), CharOf(b[1] % 16 * 4)]
    else
      [CharOf(b[0] / 4), CharOf(b[0] % 4 * 16 + b[1] / 16), CharOf(b[1] % 16 * 4 + b[2] / 64), CharOf(b[2] % 64)]
      + Encode64(b[3..])
  }

  function Byte0(v0: Digit, v1: Digit): Byte {
    v0 * 4 + v1 / 16
  }

  function Byte1(v1: Digit, v2: Digit): Byte {
    v1 % 16 * 16 + v2 / 4
  }

  function Byte2(v2: Digit, v3: Digit): Byte {
    v2 % 4 * 64 + v3
  }

  function Decode64(s: string): Option<seq<Byte>> {
    if |s| == 0 then Some([])
    else if |s| == 1 || ValueOf(s[0]).None? || ValueOf(s[1]).None? then None
    else
      var v0, v1 := ValueOf(s[0]).value, ValueOf(s[1]).value;
      if |s| == 2 then if v1 % 16 == 0 then Some([Byte0(v0, v1)]) else None
      else if ValueOf(s[2]).None? then None
      else
        var v2 := ValueOf(s[2]).value;
        if |s| == 3 then if v2 % 4 == 0 then Some([Byte0(v0, v1), Byte1(v1, v2)]) else None
        else if ValueOf(s[3]).None? || Decode64(s[4..]).None? then None
        else Some([Byte0(v0, v1), Byte1(v1, v2), Byte2(v2, ValueOf(s[3]).value)] + Decode64(s[4..]).value)
  }

  const UPPER := "ABCDEFGHIJKLMNOPQRSTUVWXYZ"
  const LOWER := "abcdefghijklmnopqrstuvwxyz"
  const OTHERS := "0123456789-_"

  /** The alphabet of table 2 in section 5 of RFC 4648. */
  lemma {:induction false} AlphabetIsUrlSafe(v: Digit)
    ensures |UPPER + LOWER + OTHERS| == 64 && CharOf(v) == (UPPER + LOWER + OTHERS)[v]
  {
    if v < 26 {
      assert (UPPER + LOWER + OTHERS)[v] == UPPER[v];
    } else if v < 52 {
      assert (UPPER + LOWER + OTHERS)[v] == LOWER[v - 26];
    } else {
      assert (UPPER + LOWER + OTHERS)[v] == OTHERS[v - 52];
    }
  }

  function ByteAt(b: seq<Byte>, i: nat): Byte { if i < |b| then b[i] else 0 }

  function DigitAt(s: string, i: nat): Digit {
    if i < |s| && ValueOf(s[i]).Some? then ValueOf(s[i]).value else 0
  }

  function BytesNumber(b0: Byte, b1: Byte, b2: Byte): int { b0 * 0x1_0000 + b1 * 0x100 + b2 }

  function DigitsNumber(v0: Digit, v1: Digit, v2: Digit, v3: Digit): int { v0 * 0x4_0000 + v1 * 0x1000 + v2 * 0x40 + v3 }

  lemma GroupIsOneNumber(b0: Byte, b1: Byte, b2: Byte)
    ensures BytesNumber(b0, b1, b2)
         == DigitsNumber(b0 / 4, b0 % 4 * 16 + b1 / 16, b1 % 16 * 4 + b2 / 64, b2 % 64)
  {}

  lemma FirstGroup(b: seq<Byte>)
    requires b != []
    ensures
      var s := Encode64(b);
      && |s| >= 2 && (|b| >= 3 ==> |s| >= 4 && s[4..] == Encode64(b[3..]))
      && BytesNumber(ByteAt(b, 0), ByteAt(b, 1), ByteAt(b, 2))
         == DigitsNumber(DigitAt(s, 0), DigitAt(s, 1), DigitAt(s, 2), DigitAt(s, 3))
  {
    hide CharOf, ValueOf, BytesNumber, DigitsNumber;
    var b0, b1, b2 := b[0], ByteAt(b, 1), ByteAt(b, 2);
    GroupIsOneNumber(b0, b1, b2);
    ShortGroups(b0, b1);
    CharRoundTrip(b0 / 4);
    CharRoundTrip(b0 % 4 * 16 + b1 / 16);
    CharRoundTrip(b1 % 16 * 4 + b2 / 64);
    CharRoundTrip(b2 % 64);
  }

  /** Each group of three bytes and its four digits are the same 24-bit number, with zeros for what is
      missing at the end. */
  lemma {:induction false} Encode64IsPositional(b: seq<Byte>, k: nat)
    requires 3 * k < |b|
    ensures
      var s := Encode64(b);
      BytesNumber(ByteAt(b, 3 * k), ByteAt(b, 3 * k + 1), ByteAt(b, 3 * k + 2))
      == DigitsNumber(DigitAt(s, 4 * k), DigitAt(s, 4 * k + 1), DigitAt(s, 4 * k + 2), DigitAt(s, 4 * k + 3))
    decreases |b|
  {
    hide Encode64, ByteAt, DigitAt, BytesNumber, DigitsNumber;
    FirstGroup(b);
    if k > 0 {
      var s := Encode64(b);
      Encode64IsPositional(b[3..], k - 1);
      ByteShifts(b, 3 * k);
      ByteShifts(b, 3 * k + 1);
      ByteShifts(b, 3 * k + 2);
      DigitShifts(s, 4 * k);
      DigitShifts(s, 4 * k + 1);
      DigitShifts(s, 4 * k + 2);
      DigitShifts(s, 4 * k + 3);
    }
  }

  lemma ByteShifts(b: seq<Byte>, i: nat)
    requires |b| >= 3 && i >= 3
    ensures ByteAt(b[3..], i - 3) == ByteAt(b, i)
  {}

  lemma DigitShifts(s: string, i: nat)
    requires |s| >= 4 && i >= 4
    ensures DigitAt(s[4..], i - 4) == DigitAt(s, i)
  {
    hide ValueOf;
  }

  /** Two characters for one byte at the end, three for two, and four for every full group. */
  lemma {:induction false} Encode64Length(b: seq<Byte>)
    ensures |Encode64(b)| == |b| / 3 * 4 + if |b| % 3 == 0 then 0 else |b| % 3 + 1
  {
    hide CharOf;
    if |b| >= 3 {
      Encode64Length(b[3..]);
    }
  }

  /** Three bytes to four digits and back. */
  lemma BytesSurvive(b0: Byte, b1: Byte, b2: Byte)
    ensures Byte0(b0 / 4, b0 % 4 * 16 + b1 / 16) == b0
    ensures Byte1(b0 % 4 * 16 + b1 / 16, b1 % 16 * 4 + b2 / 64) == b1
    ensures Byte2(b1 % 16 * 4 + b2 / 64, b2 % 64) == b2
  {}

  /** Four digits to three bytes and back. */
  lemma DigitsSurvive(v0: Digit, v1: Digit, v2: Digit, v3: Digit)
    ensures Byte0(v0, v1) / 4 == v0 && Byte0(v0, v1) % 4 * 16 + Byte1(v1, v2) / 16 == v1
    ensures Byte1(v1, v2) % 16 * 4 + Byte2(v2, v3) / 64 == v2 && Byte2(v2, v3) % 64 == v3
  {}

  /** Decoding undoes encoding, for every number of bytes. */
  lemma {:induction false} Decode64Encode64(b: seq<Byte>)
    ensures Decode64(Encode64(b)) == Some(b)
  {
    hide CharOf, ValueOf, Byte0, Byte1, Byte2;
    var s := Encode64(b);
    if |b| > 0 {
      var b0, b1, b2 := b[0], if |b| > 1 then b[1] else 0, if |b| > 2 then b[2] else 0;
      BytesSurvive(b0, b1, b2);
      CharRoundTrip(b0 / 4);
      CharRoundTrip(b0 % 4 * 16 + b1 / 16);
      CharRoundTrip(b1 % 16 * 4 + b2 / 64);
      CharRoundTrip(b2 % 64);
      if |b| >= 3 {
        Decode64Encode64(b[3..]);
        assert s == [s[0], s[1], s[2], s[3]] + Encode64(b[3..]);
        assert s[4..] == Encode64(b[3..]);
        assert b == [b0, b1, b2] + b[3..];
      } else {
        ShortGroups(b0, b1);
        assert |b| == 1 ==> b == [b0];
        assert |b| == 2 ==> b == [b0, b1];
      }
    }
  }

  lemma ShortGroups(b0: Byte, b1: Byte)
    ensures b0 % 4 * 16 + 0 / 16 == b0 % 4 * 16 && (b0 % 4 * 16) % 16 == 0
    ensures b1 % 16 * 4 + 0 / 64 == b1 % 16 * 4 && (b1 % 16 * 4) % 4 == 0
  {}

  /** Only canonical encodings decode, so decoding is injective. */
  lemma {:induction false} Encode64Decode64(s: string)
    requires Decode64(s).Some?
    ensures Encode64(Decode64(s).value) == s
  {
    hide CharOf, ValueOf, Byte0, Byte1, Byte2;
    if |s| >= 2 {
      var b := Decode64(s).value;
      var v0, v1 := ValueOf(s[0]).value, ValueOf(s[1]).value;
      var v2, v3 := if |s| > 2 then ValueOf(s[2]).value else 0, if |s| > 3 then ValueOf(s[3]).value else 0;
      ValueRoundTrip(s[0]);
      ValueRoundTrip(s[1]);
      if |s| > 2 {
        ValueRoundTrip(s[2]);
      }
      if |s| > 3 {
        ValueRoundTrip(s[3]);
      }
      DigitsSurvive(v0, v1, v2, v3);
      if |s| >= 4 {
        Encode64Decode64(s[4..]);
        assert b[3..] == Decode64(s[4..]).value;
        assert s == [s[0], s[1], s[2], s[3]] + s[4..];
      } else {
        ShortDigits(v0, v1, v2);
        assert |s| == 2 ==> s == [s[0], s[1]];
        assert |s| == 3 ==> s == [s[0], s[1], s[2]];
      }
    }
  }

  lemma ShortDigits(v0: Digit, v1: Digit, v2: Digit)
    ensures v1 % 16 == 0 ==> Byte0(v0, v1) % 4 * 16 == v1
    ensures v2 % 4 == 0 ==> Byte1(v1, v2) % 16 * 4 == v2
  {}

  lemma {:induction false} Encode64HasNoSpace(b: seq<Byte>)
    ensures forall i :: 0 <= i < |Encode64(b)| ==> !IsWhitespace(Encode64(b)[i])
    ensures b != [] ==> Encode64(b) != []
  {
    hide CharOf, ValueOf;
    forall v: Digit ensures !IsWhitespace(CharOf(v)) {
      CharRoundTrip(v);
    }
    if |b| >= 3 {
      Encode64HasNoSpace(b[3..]);
    }
  }
}
