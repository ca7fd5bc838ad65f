/**
 * Request ids: sixteen random bytes, stamped as version 4 of RFC 4122 and written in hexadecimal
 * with dashes.
 */
module Uuid {
  type Byte = bv8

  // ----- the form ----------------------------------------------------------------------------

  predicate IsHex(c: char) {
    '0' <= c <= '9' || 'a' <= c <= 'f' || 'A' <= c <= 'F'
  }

  /** The five groups, as section 3 of RFC 4122 writes them, with a version and a variant digit. */
  predicate IsUuid(text: string) {
    && |text| == 36
    && (forall i :: 0 <= i < 36 ==> if i in {8, 13, 18, 23} then text[i] == '-' else IsHex(text[i]))
    && '1' <= text[14] <= '8'
    && text[19] in "89abAB"
  }

  lemma UuidHasNoColon(text: string)
    requires IsUuid(text)
    ensures ':' !in text
  {
  }

  /** Digits, a version from one to eight, a variant from eight to eleven. */
  lemma UuidDigits(text: string, i: nat)
    requires IsUuid(text) && i < 36
    ensures if i in {8, 13, 18, 23} then text[i] == '-'
            else if i == 14 then text[i] in "12345678"
            else if i == 19 then text[i] in "89abAB"
            else text[i] in "0123456789abcdefABCDEF"
  {
    HexDigitsAre(text[i]);
  }

  lemma HexDigitsAre(c: char)
    ensures IsHex(c) <==> c in "0123456789abcdefABCDEF"
  {
  }

  // ----- writing one -------------------------------------------------------------------------

  function HexDigit(n: Byte): (c: char)
    requires n < 16
    ensures IsHex(c) && !('A' <= c <= 'F')
  {
    if n < 10 then '0' + (n as char) else 'a' + ((n - 10) as char)
  }

  function HexByte(b: Byte): string {
    [HexDigit(b >> 4), HexDigit(b & 15)]
  }

  function Hex(bytes: seq<Byte>): (text: string)
    ensures |text| == 2 * |bytes|
  {
    if |bytes| == 0 then "" else Hex(bytes[..|bytes| - 1]) + HexByte(bytes[|bytes| - 1])
  }

  function TextOf(bytes: seq<Byte>): string
    requires |bytes| == 16
  {
    Hex(bytes[..4]) + "-" + Hex(bytes[4..6]) + "-" + Hex(bytes[6..8]) + "-" + Hex(bytes[8..10]) + "-" + Hex(bytes[10..])
  }

  /** Other values for the two bytes that are stamped on. */
  function With(bytes: seq<Byte>, six: Byte, eight: Byte): (r: seq<Byte>)
    requires |bytes| == 16
    ensures |r| == 16
  {
    bytes[6 := six][8 := eight]
  }

  function Versioned(b: Byte): Byte { (b & 0x0f) | 0x40 }

  function Varied(b: Byte): Byte { (b & 0x3f) | 0x80 }

  /** Version and variant take six bits of the two bytes they are stamped on. */
  function Stamped(bytes: seq<Byte>): seq<Byte>
    requires |bytes| == 16
  {
    With(bytes, Versioned(bytes[6]), Varied(bytes[8]))
  }

  lemma {:induction false} HexAt(bytes: seq<Byte>, k: nat)
    requires k < |bytes|
    ensures Hex(bytes)[2 * k..2 * k + 2] == HexByte(bytes[k])
  {
    var n := |bytes| - 1;
    if k < n {
      HexAt(bytes[..n], k);
      assert Hex(bytes)[2 * k..2 * k + 2] == Hex(bytes[..n])[2 * k..2 * k + 2];
    }
  }

  /** Where a byte's two digits stand. */
  function Place(k: nat): nat {
    2 * k + if k < 4 then 0 else if k < 6 then 1 else if k < 8 then 2 else if k < 10 then 3 else 4
  }

  predicate IsGroup(from: nat, to: nat) {
    (from, to) in {(0, 4), (4, 6), (6, 8), (8, 10), (10, 16)}
  }

  /** A group's digits stand together in the text. */
  lemma GroupAt(bytes: seq<Byte>, from: nat, to: nat)
    requires |bytes| == 16 && IsGroup(from, to)
    ensures |TextOf(bytes)| == 36
    ensures TextOf(bytes)[Place(from)..Place(from) + 2 * (to - from)] == Hex(bytes[from..to])
  {
    var a, b, c, d, e := Hex(bytes[0..4]), Hex(bytes[4..6]), Hex(bytes[6..8]), Hex(bytes[8..10]), Hex(bytes[10..16]);
    assert bytes[10..16] == bytes[10..] && bytes[..4] == bytes[0..4];
    var text := a + "-" + b + "-" + c + "-" + d + "-" + e;
    assert text[0..8] == a && text[9..13] == b && text[14..18] == c && text[19..23] == d && text[24..36] == e;
    assert text == TextOf(bytes);
  }

  lemma SliceOfSlice(text: string, at: nat, group: string, i: nat)
    requires at + |group| <= |text| && i + 2 <= |group| && text[at..at + |group|] == group
    ensures text[at + i..at + i + 2] == group[i..i + 2]
  {
    var whole := text[at..at + |group|];
    assert whole[i] == text[at + i] && whole[i + 1] == text[at + i + 1];
    assert group[i..i + 2] == [whole[i], whole[i + 1]];
  }

  lemma PlaceInGroup(from: nat, to: nat, k: nat)
    requires IsGroup(from, to) && from <= k < to
    ensures Place(k) == Place(from) + 2 * (k - from) && Place(from) + 2 * (to - from) <= 36
  {
  }

  lemma InGroup(bytes: seq<Byte>, from: nat, to: nat, k: nat)
    requires |bytes| == 16 && IsGroup(from, to) && from <= k < to
    ensures |TextOf(bytes)| == 36 && TextOf(bytes)[Place(k)..Place(k) + 2] == HexByte(bytes[k])
  {
    var group := bytes[from..to];
    GroupAt(bytes, from, to);
    PlaceInGroup(from, to, k);
    ByteInGroup(bytes, from, to, k);
    SliceOfSlice(TextOf(bytes), Place(from), Hex(group), 2 * (k - from));
  }

  lemma ByteInGroup(bytes: seq<Byte>, from: nat, to: nat, k: nat)
    requires from <= k < to <= |bytes|
    ensures var i := 2 * (k - from); Hex(bytes[from..to])[i..i + 2] == HexByte(bytes[k])
  {
    HexAt(bytes[from..to], k - from);
    assert bytes[from..to][k - from] == bytes[k];
  }

  lemma TextAt(bytes: seq<Byte>, k: nat)
    requires |bytes| == 16 && k < 16
    ensures |TextOf(bytes)| == 36 && TextOf(bytes)[Place(k)..Place(k) + 2] == HexByte(bytes[k])
  {
    if k < 4 {
      InGroup(bytes, 0, 4, k);
    } else if k < 6 {
      InGroup(bytes, 4, 6, k);
    } else if k < 8 {
      InGroup(bytes, 6, 8, k);
    } else if k < 10 {
      InGroup(bytes, 8, 10, k);
    } else {
      InGroup(bytes, 10, 16, k);
    }
  }

  /** Everything else is a dash. */
  lemma DashAt(bytes: seq<Byte>)
    requires |bytes| == 16
    ensures |TextOf(bytes)| == 36
    ensures forall i <- {8, 13, 18, 23} :: TextOf(bytes)[i] == '-'
  {
  }

  lemma StampedDigits(bytes: seq<Byte>)
    requires |bytes| == 16
    ensures HexDigit(Stamped(bytes)[6] >> 4) == '4'
    ensures HexDigit(Stamped(bytes)[8] >> 4) in "89ab"
  {
    assert Versioned(bytes[6]) >> 4 == 4;
    var v := Varied(bytes[8]) >> 4;
    assert v == 8 || v == 9 || v == 10 || v == 11;
  }

  /** The byte a digit belongs to. */
  lemma DigitOfByte(i: nat) returns (k: nat)
    requires i < 36 && i !in {8, 13, 18, 23}
    ensures k < 16 && (i == Place(k) || i == Place(k) + 1)
  {
    k := (i - if i < 8 then 0 else if i < 13 then 1 else if i < 18 then 2 else if i < 23 then 3 else 4) / 2;
  }

  /** Whatever the bytes, the text has the form. */
  lemma TextIsUuid(bytes: seq<Byte>)
    requires |bytes| == 16
    ensures IsUuid(TextOf(Stamped(bytes)))
  {
    var text := TextOf(Stamped(bytes));
    DashAt(Stamped(bytes));
    forall i: nat | i < 36 && i !in {8, 13, 18, 23} ensures IsHex(text[i]) {
      var k := DigitOfByte(i);
      TextAt(Stamped(bytes), k);
      assert text[Place(k)..Place(k) + 2][0] == text[Place(k)] && text[Place(k)..Place(k) + 2][1] == text[Place(k) + 1];
    }
    StampedDigits(bytes);
    TextAt(Stamped(bytes), 6);
    TextAt(Stamped(bytes), 8);
    assert text[14] == text[14..16][0] && text[19] == text[19..21][0];
  }

  // ----- what of the bytes it keeps ----------------------------------------------------------

  lemma DigitTells(a: Byte, b: Byte)
    requires a < 16 && b < 16 && HexDigit(a) == HexDigit(b)
    ensures a == b
  {
  }

  lemma HexByteTells(a: Byte, b: Byte)
    requires HexByte(a) == HexByte(b)
    ensures a == b
  {
    assert HexByte(a)[0] == HexByte(b)[0] && HexByte(a)[1] == HexByte(b)[1];
    DigitTells(a >> 4, b >> 4);
    DigitTells(a & 15, b & 15);
    assert a == ((a >> 4) << 4) | (a & 15);
    assert b == ((b >> 4) << 4) | (b & 15);
  }

  /** The text of sixteen bytes is theirs alone. */
  lemma TextTells(a: seq<Byte>, b: seq<Byte>)
    requires |a| == |b| == 16 && TextOf(a) == TextOf(b)
    ensures a == b
  {
    forall k: nat | k < 16 ensures a[k] == b[k] {
      TextAt(a, k);
      TextAt(b, k);
      HexByteTells(a[k], b[k]);
    }
  }

  /** The bytes without the six bits that are stamped over. */
  function FreeBits(bytes: seq<Byte>): seq<Byte>
    requires |bytes| == 16
  {
    With(bytes, bytes[6] & 0x0f, bytes[8] & 0x3f)
  }

  lemma VersionKeepsRest(b: Byte)
    ensures Versioned(b) & 0x0f == b & 0x0f && Versioned(b & 0x0f) == Versioned(b)
  {
  }

  lemma VariantKeepsRest(b: Byte)
    ensures Varied(b) & 0x3f == b & 0x3f && Varied(b & 0x3f) == Varied(b)
  {
  }

  lemma WithTwice(bytes: seq<Byte>, a: Byte, b: Byte, c: Byte, d: Byte)
    requires |bytes| == 16
    ensures var once := With(bytes, a, b); once[6] == a && once[8] == b && With(once, c, d) == With(bytes, c, d)
  {
  }

  lemma StampKeepsFreeBits(bytes: seq<Byte>)
    requires |bytes| == 16
    ensures FreeBits(Stamped(bytes)) == FreeBits(bytes) && Stamped(FreeBits(bytes)) == Stamped(bytes)
  {
    var b, c := bytes[6], bytes[8];
    VersionKeepsRest(b);
    VariantKeepsRest(c);
    WithTwice(bytes, Versioned(b), Varied(c), b & 0x0f, c & 0x3f);
    WithTwice(bytes, b & 0x0f, c & 0x3f, Versioned(b), Varied(c));
  }

  /** Two draws give one id exactly when all their other 122 bits agree. */
  lemma SameIdIffSameBits(a: seq<Byte>, b: seq<Byte>)
    requires |a| == |b| == 16
    ensures TextOf(Stamped(a)) == TextOf(Stamped(b)) <==> FreeBits(a) == FreeBits(b)
  {
    StampKeepsFreeBits(a);
    StampKeepsFreeBits(b);
    if TextOf(Stamped(a)) == TextOf(Stamped(b)) {
      TextTells(Stamped(a), Stamped(b));
    }
  }

  /** Draws an id from sixteen random bytes. */
  method Draw(b: array<Byte>) returns (text: string)
    requires b.Length == 16
    modifies b
    ensures b[..] == Stamped(old(b[..])) && text == TextOf(b[..]) && IsUuid(text)
  {
    TextIsUuid(b[..]);
    b[6] := (b[6] & 0x0f) | 0x40;
    b[8] := (b[8] & 0x3f) | 0x80;
    text := Hex(b[..4]) + "-" + Hex(b[4..6]) + "-" + Hex(b[6..8]) + "-" + Hex(b[8..10]) + "-" + Hex(b[10..]);
    assert b[..][..4] == b[..4] && b[..][4..6] == b[4..6] && b[..][6..8] == b[6..8] && b[..][8..10] == b[8..10];
  }
}
