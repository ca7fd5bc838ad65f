/**
 * Base32 as authenticator secrets use it (section 6 of RFC 4648, no padding). The reference
 * definitions work on bit strings; the methods keep the source's 32-bit shift register, which is
 * never masked, so bits already written out stay in it and are shifted off the top.
 */
module Base32 {
  import opened Options

  type Byte = n: int | 0 <= n < 256
  type Symbol = n: int | 0 <= n < 32
  const WORD := 0x1_0000_0000

  // ----- bit strings, most significant bit first ------------------------------------------

  function Pow2(n: nat): (p: int)
    ensures p > 0
  {
    if n == 0 then 1 else 2 * Pow2(n - 1)
  }

  function FromBits(bits: seq<bool>): (n: nat) {
    if |bits| == 0 then 0
    else 2 * FromBits(bits[..|bits| - 1]) + if bits[|bits| - 1] then 1 else 0
  }

  function ToBits(n: nat, width: nat): (bits: seq<bool>)
    ensures |bits| == width
  {
    if width == 0 then [] else ToBits(n / 2, width - 1) + [n % 2 == 1]
  }

  lemma {:induction false} FromBitsBound(bits: seq<bool>)
    ensures FromBits(bits) < Pow2(|bits|)
  {
    if |bits| > 0 {
      FromBitsBound(bits[..|bits| - 1]);
    }
  }

  lemma {:induction false} FromBitsToBits(n: nat, width: nat)
    requires n < Pow2(width)
    ensures FromBits(ToBits(n, width)) == n
  {
    if width > 0 {
      FromBitsToBits(n / 2, width - 1);
      assert ToBits(n, width)[..width - 1] == ToBits(n / 2, width - 1);
    }
  }

  lemma {:induction false} ToBitsFromBits(bits: seq<bool>)
    ensures ToBits(FromBits(bits), |bits|) == bits
  {
    if |bits| > 0 {
      ToBitsFromBits(bits[..|bits| - 1]);
    }
  }

  lemma {:induction false} FromBitsConcat(a: seq<bool>, b: seq<bool>)
    ensures FromBits(a + b) == FromBits(a) * Pow2(|b|) + FromBits(b)
  {
    if |b| == 0 {
      assert a + b == a;
    } else {
      var front, last := b[..|b| - 1], if b[|b| - 1] then 1 else 0;
      FromBitsConcat(a, front);
      Doubled(FromBits(a), Pow2(|front|));
      assert FromBits(a + b) == 2 * FromBits(a + front) + last by {
        assert (a + b)[..|a + b| - 1] == a + front;
      }
      assert FromBits(b) == 2 * FromBits(front) + last;
    }
  }

  lemma Doubled(x: int, p: int)
    ensures 2 * (x * p) == x * (2 * p)
  {
  }

  function Zeros(n: nat): (zeros: seq<bool>)
    ensures |zeros| == n
  {
    if n == 0 then [] else Zeros(n - 1) + [false]
  }

  predicate AllZero(bits: seq<bool>) {
    forall i :: 0 <= i < |bits| ==> !bits[i]
  }

  lemma {:induction false} ZerosAreZero(n: nat)
    ensures AllZero(Zeros(n))
  {
    if n > 0 {
      ZerosAreZero(n - 1);
    }
  }

  lemma ZerosUnique(bits: seq<bool>)
    ensures AllZero(bits) <==> bits == Zeros(|bits|)
  {
    ZerosAreZero(|bits|);
  }

  lemma {:induction false} FromZeros(n: nat)
    ensures FromBits(Zeros(n)) == 0
  {
    if n > 0 {
      FromZeros(n - 1);
      assert Zeros(n)[..n - 1] == Zeros(n - 1);
    }
  }

  lemma SmallPowers()
    ensures Pow2(0) == 1 && Pow2(1) == 2 && Pow2(2) == 4 && Pow2(3) == 8 && Pow2(4) == 16
    ensures Pow2(5) == 32 && Pow2(6) == 64 && Pow2(7) == 128 && Pow2(8) == 256 && Pow2(9) == 512
    ensures Pow2(10) == 1024 && Pow2(11) == 2048 && Pow2(12) == 4096
  {
    assert Pow2(4) == 16;
    assert Pow2(8) == 256;
  }

  lemma FiveBits(bits: seq<bool>)
    requires |bits| == 5
    ensures FromBits(bits) < 32
  {
    SmallPowers();
    FromBitsBound(bits);
  }

  lemma EightBits(bits: seq<bool>)
    requires |bits| == 8
    ensures FromBits(bits) < 256
  {
    SmallPowers();
    FromBitsBound(bits);
  }

  // ----- reference definitions --------------------------------------------------------------

  function BytesToBits(buf: seq<Byte>): seq<bool> {
    if |buf| == 0 then [] else ToBits(buf[0], 8) + BytesToBits(buf[1..])
  }

  /** Quintets become symbols; a last short group is filled up with zero bits. */
  function BitsToText(bits: seq<bool>): string
    decreases |bits|
  {
    if |bits| == 0 then ""
    else if |bits| < 5 then [SymbolAt(bits + Zeros(5 - |bits|))]
    else [SymbolAt(bits[..5])] + BitsToText(bits[5..])
  }

  /** The alphabet: A-Z, then 2-7. */
  function SymbolChar(i: Symbol): char {
    if i < 26 then (i + 'A' as int) as char else (i - 26 + '2' as int) as char
  }

  lemma Alphabet(i: Symbol)
    ensures SymbolChar(i) == "ABCDEFGHIJKLMNOPQRSTUVWXYZ234567"[i]
  {
  }

  function SymbolAt(bits: seq<bool>): char
    requires |bits| == 5
  {
    FiveBits(bits);
    SymbolChar(FromBits(bits))
  }

  function Encoded(buf: seq<Byte>): string {
    BitsToText(BytesToBits(buf))
  }

  predicate IsSymbol(c: char) {
    'A' <= c <= 'Z' || '2' <= c <= '7'
  }

  predicate AllSymbols(text: string) {
    forall c <- text :: IsSymbol(c)
  }

  function IndexOf(c: char): (i: int)
    requires IsSymbol(c)
    ensures 0 <= i < 32 && SymbolChar(i) == c
  {
    if 'A' <= c <= 'Z' then c as int - 'A' as int else c as int - '2' as int + 26
  }

  function TextToBits(text: string): seq<bool>
    requires AllSymbols(text)
  {
    if |text| == 0 then [] else ToBits(IndexOf(text[0]), 5) + TextToBits(text[1..])
  }

  /** Octets; a last short group is dropped. */
  function BitsToBytes(bits: seq<bool>): seq<Byte>
    decreases |bits|
  {
    if |bits| < 8 then [] else EightBits(bits[..8]); [FromBits(bits[..8])] + BitsToBytes(bits[8..])
  }

  predicate IsFiller(c: char) {
    c == ' ' || 9 <= c as int <= 13 || c == '=' || c == '-'
  }

  function UpperChar(c: char): char {
    if 'a' <= c <= 'z' then 'A' + (c - 'a') else c
  }

  /** ASCII white space (tab to carriage return, and space), padding and dashes are dropped, letters made upper-case. */
  function Clean(text: string): string {
    if |text| == 0 then ""
    else (if IsFiller(text[0]) then "" else [UpperChar(text[0])]) + Clean(text[1..])
  }

  function Decoded(text: string): Option<seq<Byte>> {
    var clean := Clean(text);
    if AllSymbols(clean) then Some(BitsToBytes(TextToBits(clean))) else None
  }

  // ----- the register ----------------------------------------------------------------------

  /** value << width in a 32-bit word: what leaves at the top is gone. */
  function Shl(value: int, width: nat): (r: int)
    requires 0 <= value < WORD
    ensures 0 <= r < WORD
  {
    if width == 0 then value else Shl(value, width - 1) * 2 % WORD
  }

  /** value >>> width */
  function Shr(value: nat, width: nat): nat {
    if width == 0 then value else Shr(value / 2, width - 1)
  }

  /** The low `|pending|` bits of the register are the bits not written out yet. */
  ghost predicate Holds(value: int, pending: seq<bool>) {
    0 <= value < WORD && ToBits(value, |pending|) == pending
  }

  /** Anything added above the low m bits leaves them alone. */
  lemma {:induction false} AddHigh(u: nat, m: nat, c: nat)
    ensures ToBits(u + c * Pow2(m), m) == ToBits(u, m)
  {
    if m > 0 {
      Doubled(c, Pow2(m - 1));
      assert (u + c * Pow2(m)) / 2 == u / 2 + c * Pow2(m - 1);
      AddHigh(u / 2, m - 1, c);
    }
  }

  lemma {:induction false} Pow2Adds(a: nat, b: nat)
    ensures Pow2(a + b) == Pow2(a) * Pow2(b)
  {
    if b > 0 {
      Pow2Adds(a, b - 1);
      Doubled(Pow2(a), Pow2(b - 1));
    }
  }

  lemma HalfWord()
    ensures Pow2(31) == WORD / 2
  {
    SmallPowers();
    Pow2Adds(8, 8);
    Pow2Adds(16, 12);
    Pow2Adds(28, 3);
  }

  lemma DoubleInWord(a: int, x: nat)
    requires 0 <= a < WORD
    ensures (a * 2 % WORD + x) % 2 == x % 2
    ensures var half := (a * 2 % WORD + x) / 2; half == a + x / 2 || half == a + x / 2 - WORD / 2
  {
    assert a * 2 % WORD == a * 2 || a * 2 % WORD == a * 2 - WORD;
  }

  /** Shifting left and or-ing x in appends x's bits: (value << width) | x. */
  lemma {:induction false} ShiftBitsIn(value: int, pending: seq<bool>, x: nat, width: nat)
    requires Holds(value, pending) && |pending| + width <= 32 && x < Pow2(width)
    ensures ToBits(Shl(value, width) + x, |pending| + width) == pending + ToBits(x, width)
  {
    if width > 0 {
      var m := |pending| + width - 1;
      var a, y := Shl(value, width - 1), Shl(value, width) + x;
      ShiftBitsIn(value, pending, x / 2, width - 1);
      DoubleInWord(a, x);
      if y / 2 != a + x / 2 {
        WordMultiple(m);
        AddHigh(y / 2, m, Pow2(31 - m));
      }
      LastBit(y, m);
      LastBit(x, width - 1);
    }
  }

  lemma LastBit(n: nat, width: nat)
    ensures ToBits(n, width + 1) == ToBits(n / 2, width) + [n % 2 == 1]
  {
  }

  lemma WordMultiple(m: nat)
    requires m <= 31
    ensures Pow2(31 - m) * Pow2(m) == WORD / 2
  {
    HalfWord();
    Pow2Adds(31 - m, m);
  }

  /** The low bits a shift leaves free are zero, so or-ing is adding and stays in the word. */
  lemma {:induction false} RoomBelow(value: int, width: nat) returns (k: int)
    requires 0 <= value < WORD && width <= 31
    ensures Shl(value, width) == k * Pow2(width)
    ensures Shl(value, width) + Pow2(width) <= WORD
  {
    if width == 0 {
      k := value;
    } else {
      var j := RoomBelow(value, width - 1);
      Doubled(j, Pow2(width - 1));
      WordMultiple(width);
      k := NextRoom(Shl(value, width - 1), j, Pow2(31 - width), Pow2(width));
    }
  }

  lemma NextRoom(a: int, j: int, q: int, p: int) returns (k: int)
    requires 0 <= a < WORD && a * 2 == j * p && q * p == WORD / 2 && p > 0
    ensures a * 2 % WORD == k * p && k * p + p <= WORD
  {
    k := if a * 2 < WORD then j else j - 2 * q;
    assert (j - 2 * q) * p == j * p - 2 * (q * p);
    FitsBelow(k, 2 * q, p);
  }

  lemma {:induction false} FitsBelow(k: int, c: int, p: int)
    requires p > 0 && 0 <= k * p < c * p
    ensures 0 <= k && k * p + p <= c * p
  {
    TimesOrder(k, c, p);
    TimesOrder(-1, k, p);
    NonNegativeTimes(c - k - 1, p);
    Spread(c, k, p);
  }

  lemma NonNegativeTimes(a: int, p: int)
    requires a >= 0 && p >= 0
    ensures a * p >= 0
  {
  }

  lemma Spread(c: int, k: int, p: int)
    ensures (c - k - 1) * p == c * p - k * p - p
  {
  }

  lemma TimesOrder(a: int, b: int, p: int)
    requires p > 0 && a * p < b * p
    ensures a < b
  {
    assert (b - a) * p > 0;
  }

  lemma ShiftIn(value: int, pending: seq<bool>, x: nat, width: nat)
    requires Holds(value, pending) && |pending| + width <= 32 && width <= 31 && x < Pow2(width)
    ensures Holds(Shl(value, width) + x, pending + ToBits(x, width))
  {
    ShiftBitsIn(value, pending, x, width);
    var k := RoomBelow(value, width);
  }

  /** Shifting right drops low bits. */
  lemma {:induction false} ShrBits(value: nat, n: nat, k: nat)
    requires k <= n
    ensures ToBits(Shr(value, k), n - k) == ToBits(value, n)[..n - k]
  {
    if k > 0 {
      ShrBits(value / 2, n - 1, k - 1);
      assert ToBits(value, n)[..n - k] == ToBits(value / 2, n - 1)[..n - k];
    }
  }

  /** Forgetting the high bits keeps the low ones. */
  lemma {:induction false} KeepLow(value: nat, n: nat, k: nat)
    requires k <= n
    ensures ToBits(value, k) == ToBits(value, n)[n - k..]
  {
    if k > 0 {
      KeepLow(value / 2, n - 1, k - 1);
    }
  }

  lemma LowFive(value: nat)
    ensures FromBits(ToBits(value, 5)) == value % 32
  {
    SmallPowers();
    AddHigh(value % 32, 5, value / 32);
    FromBitsToBits(value % 32, 5);
  }

  lemma LowEight(value: nat)
    ensures FromBits(ToBits(value, 8)) == value % 256
  {
    SmallPowers();
    AddHigh(value % 256, 8, value / 256);
    FromBitsToBits(value % 256, 8);
  }

  /** The first k pending bits, read off by a shift right; the rest stays pending. */
  lemma TakeTop(value: nat, pending: seq<bool>, k: nat)
    requires Holds(value, pending) && k <= |pending|
    ensures ToBits(Shr(value, |pending| - k), k) == pending[..k]
    ensures Holds(value, pending[k..])
  {
    ShrBits(value, |pending|, |pending| - k);
    KeepLow(value, |pending|, |pending| - k);
  }

  /** (value << (5 - bits)) & 31: the last bits filled up with zeros. */
  lemma FillUp(value: int, pending: seq<bool>)
    requires Holds(value, pending) && |pending| <= 5
    ensures Shl(value, 5 - |pending|) % 32 == FromBits(pending + Zeros(5 - |pending|))
  {
    var n := 5 - |pending|;
    FromZeros(n);
    ToBitsFromBits(Zeros(n));
    ShiftIn(value, pending, 0, n);
    LowFive(Shl(value, n));
  }

  lemma FirstSymbol(value: nat, pending: seq<bool>, rest: seq<bool>)
    requires Holds(value, pending) && |pending| >= 5
    ensures Holds(value, pending[5..])
    ensures BitsToText(pending + rest)
            == [SymbolChar(Shr(value, |pending| - 5) % 32)] + BitsToText(pending[5..] + rest)
  {
    TakeTop(value, pending, 5);
    LowFive(Shr(value, |pending| - 5));
    assert (pending + rest)[..5] == pending[..5] && (pending + rest)[5..] == pending[5..] + rest;
  }

  lemma NextByte(pending: seq<bool>, buf: seq<Byte>, i: nat)
    requires i < |buf|
    ensures Pow2(8) == 256
    ensures pending + BytesToBits(buf[i..]) == pending + ToBits(buf[i], 8) + BytesToBits(buf[i + 1..])
  {
    SmallPowers();
    assert buf[i..][1..] == buf[i + 1..];
  }

  /** value = (value << width) | x; the ghost part is what the register then holds. */
  method ShiftLeftOr(value: int, x: nat, width: nat, ghost pending: seq<bool>)
    returns (r: int, ghost after: seq<bool>)
    requires Holds(value, pending) && |pending| + width <= 32 && width <= 31 && x < Pow2(width)
    ensures r == Shl(value, width) + x && after == pending + ToBits(x, width) && Holds(r, after)
  {
    ShiftIn(value, pending, x, width);
    r, after := Shl(value, width) + x, pending + ToBits(x, width);
  }

  /** What is written out and what is pending, with the bytes still to come, give the result. */
  ghost predicate Encoding(buf: seq<Byte>, i: nat, out: string, pending: seq<bool>)
    requires i <= |buf|
  {
    out + BitsToText(pending + BytesToBits(buf[i..])) == Encoded(buf)
  }

  lemma ByteIn(buf: seq<Byte>, i: nat, out: string, pending: seq<bool>)
    requires i < |buf| && Encoding(buf, i, out, pending)
    ensures Pow2(8) == 256
    ensures Encoding(buf, i + 1, out, pending + ToBits(buf[i], 8))
  {
    NextByte(pending, buf, i);
  }

  lemma SymbolOut(buf: seq<Byte>, i: nat, out: string, value: nat, pending: seq<bool>)
    requires i <= |buf| && Encoding(buf, i, out, pending)
    requires Holds(value, pending) && |pending| >= 5
    ensures Holds(value, pending[5..])
    ensures Encoding(buf, i, out + [SymbolChar(Shr(value, |pending| - 5) % 32)], pending[5..])
  {
    FirstSymbol(value, pending, BytesToBits(buf[i..]));
  }

  lemma LastSymbol(buf: seq<Byte>, out: string, value: nat, pending: seq<bool>)
    requires Encoding(buf, |buf|, out, pending) && Holds(value, pending) && |pending| < 5
    ensures Encoded(buf)
            == out + if |pending| > 0 then [SymbolChar(Shl(value, 5 - |pending|) % 32)] else ""
  {
    assert pending + BytesToBits(buf[|buf|..]) == pending;
    FillUp(value, pending);
  }

  method Base32Encode(buf: seq<Byte>) returns (out: string)
    ensures out == Encoded(buf)
  {
    var bits, value := 0, 0;
    out := "";
    ghost var pending: seq<bool> := [];
    assert buf[0..] == buf && pending + BytesToBits(buf) == BytesToBits(buf);
    for i := 0 to |buf|
      invariant bits == |pending| < 5 && Holds(value, pending)
      invariant Encoding(buf, i, out, pending)
    {
      ByteIn(buf, i, out, pending);
      value, pending := ShiftLeftOr(value, buf[i], 8, pending);
      bits := bits + 8;
      while bits >= 5
        invariant bits == |pending| <= 12 && Holds(value, pending)
        invariant Encoding(buf, i + 1, out, pending)
      {
        SymbolOut(buf, i + 1, out, value, pending);
        out := out + [SymbolChar(Shr(value, bits - 5) % 32)];
        bits, pending := bits - 5, pending[5..];
      }
    }
    LastSymbol(buf, out, value, pending);
    if bits > 0 {
      out := out + [SymbolChar(Shl(value, 5 - bits) % 32)];
    }
  }

  lemma FirstByte(value: nat, pending: seq<bool>, rest: seq<bool>)
    requires Holds(value, pending) && |pending| >= 8
    ensures Holds(value, pending[8..])
    ensures BitsToBytes(pending + rest) == [Shr(value, |pending| - 8) % 256] + BitsToBytes(pending[8..] + rest)
  {
    TakeTop(value, pending, 8);
    LowEight(Shr(value, |pending| - 8));
    assert (pending + rest)[..8] == pending[..8] && (pending + rest)[8..] == pending[8..] + rest;
  }

  /** What is written out and what is pending, with the symbols still to come, give the result. */
  ghost predicate Decoding(clean: string, i: nat, out: seq<Byte>, pending: seq<bool>)
    requires i <= |clean|
  {
    AllSymbols(clean) ==> out + BitsToBytes(pending + TextToBits(clean[i..])) == BitsToBytes(TextToBits(clean))
  }

  lemma NextSymbol(clean: string, i: nat, out: seq<Byte>, pending: seq<bool>)
    requires i < |clean| && Decoding(clean, i, out, pending) && IsSymbol(clean[i])
    ensures Decoding(clean, i + 1, out, pending + ToBits(IndexOf(clean[i]), 5))
  {
    if AllSymbols(clean) {
      assert clean[i..][1..] == clean[i + 1..];
      assert pending + TextToBits(clean[i..])
             == pending + ToBits(IndexOf(clean[i]), 5) + TextToBits(clean[i + 1..]);
    }
  }

  lemma ByteOut(clean: string, i: nat, out: seq<Byte>, value: nat, pending: seq<bool>)
    requires i <= |clean| && Decoding(clean, i, out, pending)
    requires Holds(value, pending) && |pending| >= 8
    ensures Holds(value, pending[8..])
    ensures Decoding(clean, i, out + [Shr(value, |pending| - 8) % 256], pending[8..])
  {
    FirstByte(value, pending, if AllSymbols(clean) then TextToBits(clean[i..]) else []);
  }

  lemma DecodingEnds(text: string, out: seq<Byte>, pending: seq<bool>)
    requires var clean := Clean(text); Decoding(clean, |clean|, out, pending)
                                       && forall k :: 0 <= k < |clean| ==> IsSymbol(clean[k])
    requires |pending| < 8
    ensures Decoded(text) == Some(out)
  {
    var clean := Clean(text);
    assert AllSymbols(clean);
    assert pending + TextToBits(clean[|clean|..]) == pending;
    assert out + BitsToBytes(pending) == out;
  }

  lemma StrangeIsRefused(text: string, i: nat)
    requires i < |Clean(text)| && !IsSymbol(Clean(text)[i])
    ensures Decoded(text) == None
  {
    assert Clean(text)[i] in Clean(text);
  }

  lemma DecodingStarts(clean: string)
    ensures Decoding(clean, 0, [], [])
  {
    if AllSymbols(clean) {
      assert clean[0..] == clean;
      assert [] + TextToBits(clean) == TextToBits(clean);
      assert [] + BitsToBytes(TextToBits(clean)) == BitsToBytes(TextToBits(clean));
    }
  }

  /** A symbol is shifted in; when that makes a byte, it is written out. */
  method TakeSymbol(clean: string, i: nat, value0: int, bits0: nat, out0: seq<Byte>, ghost pending0: seq<bool>)
    returns (value: int, bits: nat, out: seq<Byte>, ghost pending: seq<bool>)
    requires i < |clean| && IsSymbol(clean[i]) && bits0 == |pending0| < 8 && Holds(value0, pending0)
    requires Decoding(clean, i, out0, pending0)
    ensures bits == |pending| < 8 && Holds(value, pending) && Decoding(clean, i + 1, out, pending)
  {
    NextSymbol(clean, i, out0, pending0);
    value, pending := ShiftLeftOr(value0, IndexOf(clean[i]), 5, pending0);
    bits, out := bits0 + 5, out0;
    if bits >= 8 {
      ByteOut(clean, i + 1, out, value, pending);
      out := out + [Shr(value, bits - 8) % 256];
      bits, pending := bits - 8, pending[8..];
    }
  }

  /** Stops at the first character that is no symbol; bits short of a byte at the end are dropped. */
  method Base32Decode(text: string) returns (r: Option<seq<Byte>>)
    ensures r == Decoded(text)
  {
    var clean := Clean(text);
    var bits, value := 0, 0;
    var out: seq<Byte> := [];
    ghost var pending: seq<bool> := [];
    DecodingStarts(clean);
    for i := 0 to |clean|
      invariant bits == |pending| < 8 && Holds(value, pending)
      invariant Decoding(clean, i, out, pending)
      invariant forall k :: 0 <= k < i ==> IsSymbol(clean[k])
    {
      if !IsSymbol(clean[i]) {
        StrangeIsRefused(text, i);
        return None;
      }
      value, bits, out, pending := TakeSymbol(clean, i, value, bits, out, pending);
    }
    DecodingEnds(text, out, pending);
    r := Some(out);
  }

  // ----- round trips -------------------------------------------------------------------------

  lemma {:induction false} CleanSymbols(text: string)
    requires AllSymbols(text)
    ensures Clean(text) == text
  {
    if |text| > 0 {
      assert IsSymbol(text[0]);
      CleanSymbols(text[1..]);
    }
  }

  /** Text made from bits reads back as those bits, filled up to a whole number of symbols. */
  lemma {:induction false} TextRoundTrip(bits: seq<bool>)
    ensures AllSymbols(BitsToText(bits))
    ensures TextToBits(BitsToText(bits)) == bits + Zeros(Fill(|bits|))
    decreases |bits|
  {
    FillValue(|bits|);
    if 0 < |bits| < 5 {
      SymbolRoundTrip(bits + Zeros(5 - |bits|));
    } else if |bits| >= 5 {
      SymbolRoundTrip(bits[..5]);
      TextRoundTrip(bits[5..]);
      ConsText(SymbolAt(bits[..5]), BitsToText(bits[5..]));
      Rejoin(bits, 5, Zeros(Fill(|bits|)));
    }
  }

  lemma Rejoin(bits: seq<bool>, cut: nat, tail: seq<bool>)
    requires cut <= |bits|
    ensures bits[..cut] + (bits[cut..] + tail) == bits + tail
    ensures bits[..cut] + bits[cut..] == bits
  {
  }

  lemma ConsText(c: char, rest: string)
    requires IsSymbol(c) && AllSymbols(rest)
    ensures AllSymbols([c] + rest)
    ensures TextToBits([c] + rest) == ToBits(IndexOf(c), 5) + TextToBits(rest)
  {
    assert ([c] + rest)[1..] == rest;
  }

  lemma FillValue(n: nat)
    ensures n < 5 ==> Fill(n) == if n == 0 then 0 else 5 - n
    ensures n >= 5 ==> Fill(n) == Fill(n - 5)
  {
  }

  /** Zero bits needed to reach a whole number of symbols. */
  function Fill(n: nat): (f: nat)
    ensures f < 5 && (n + f) % 5 == 0
  {
    if n % 5 == 0 then 0 else 5 - n % 5
  }

  lemma SymbolRoundTrip(bits: seq<bool>)
    requires |bits| == 5
    ensures IsSymbol(SymbolAt(bits)) && TextToBits([SymbolAt(bits)]) == bits
    ensures ToBits(IndexOf(SymbolAt(bits)), 5) == bits
  {
    ToBitsFromBits(bits);
    FiveBits(bits);
    assert IndexOf(SymbolAt(bits)) == FromBits(bits);
    var text := [SymbolAt(bits)];
    assert text[1..] == "";
    assert TextToBits(text) == ToBits(IndexOf(text[0]), 5) + TextToBits("");
  }

  lemma {:induction false} BytesRoundTrip(buf: seq<Byte>, tail: seq<bool>)
    requires |tail| < 8
    ensures BitsToBytes(BytesToBits(buf) + tail) == buf
  {
    if |buf| == 0 {
      assert BytesToBits(buf) + tail == tail;
    } else {
      var first, rest := ToBits(buf[0], 8), BytesToBits(buf[1..]) + tail;
      assert BytesToBits(buf) + tail == first + rest;
      assert (first + rest)[..8] == first && (first + rest)[8..] == rest;
      assert FromBits(first) == buf[0] by {
        SmallPowers();
        FromBitsToBits(buf[0], 8);
      }
      BytesRoundTrip(buf[1..], tail);
    }
  }

  /** Decoding undoes encoding, for every byte string. */
  lemma DecodeInvertsEncode(buf: seq<Byte>)
    ensures Decoded(Encoded(buf)) == Some(buf)
  {
    var bits := BytesToBits(buf);
    TextRoundTrip(bits);
    CleanSymbols(Encoded(buf));
    BytesRoundTrip(buf, Zeros(Fill(|bits|)));
  }

  /** Two byte strings never share a text. */
  lemma EncodeInjective(a: seq<Byte>, b: seq<Byte>)
    requires Encoded(a) == Encoded(b)
    ensures a == b
  {
    DecodeInvertsEncode(a);
    DecodeInvertsEncode(b);
  }

  /** Symbols only, a length some byte string has, and no one bits in what is left over. */
  predicate Canonical(text: string) {
    AllSymbols(text) &&
    var left := LeftOver(TextToBits(text));
    |left| < 5 && AllZero(left)
  }

  /** The bits of the whole octets, and the bits after them. */
  function WholeBits(bits: seq<bool>): seq<bool> {
    bits[..|bits| - |bits| % 8]
  }

  function LeftOver(bits: seq<bool>): seq<bool> {
    bits[|bits| - |bits| % 8..]
  }

  lemma WholeAndLeftOver(bits: seq<bool>)
    ensures WholeBits(bits) + LeftOver(bits) == bits
  {
  }

  lemma {:induction false} TextBitsLength(text: string)
    requires AllSymbols(text)
    ensures |TextToBits(text)| == 5 * |text|
  {
    if |text| > 0 {
      TextBitsLength(text[1..]);
    }
  }

  lemma {:induction false} BytesBitsLength(buf: seq<Byte>)
    ensures |BytesToBits(buf)| == 8 * |buf|
  {
    if |buf| > 0 {
      BytesBitsLength(buf[1..]);
    }
  }

  lemma ConsBytes(b: Byte, rest: seq<Byte>)
    ensures BytesToBits([b] + rest) == ToBits(b, 8) + BytesToBits(rest)
  {
    assert ([b] + rest)[1..] == rest;
  }

  lemma {:induction false} BytesToBitsConcat(a: seq<Byte>, b: seq<Byte>)
    ensures BytesToBits(a + b) == BytesToBits(a) + BytesToBits(b)
  {
    if |a| == 0 {
      assert a + b == b;
    } else {
      BytesToBitsConcat(a[1..], b);
      assert (a + b)[1..] == a[1..] + b;
    }
  }

  /** Octets read off a bit string give the whole octets back. */
  lemma {:induction false} BitsRoundTrip(bits: seq<bool>)
    ensures BytesToBits(BitsToBytes(bits)) == WholeBits(bits)
    decreases |bits|
  {
    if |bits| >= 8 {
      var first, rest := bits[..8], bits[8..];
      var whole := |bits| - |bits| % 8;
      EightBits(first);
      ToBitsFromBits(first);
      BitsRoundTrip(rest);
      ConsBytes(FromBits(first), BitsToBytes(rest));
      assert |rest| - |rest| % 8 == whole - 8;
      assert first + rest[..whole - 8] == bits[..whole];
    }
  }

  lemma {:induction false} TextInjective(a: string, b: string)
    requires AllSymbols(a) && AllSymbols(b) && TextToBits(a) == TextToBits(b)
    ensures a == b
  {
    TextBitsLength(a);
    TextBitsLength(b);
    if |a| > 0 {
      var ia, ib := IndexOf(a[0]), IndexOf(b[0]);
      assert ToBits(ia, 5) == TextToBits(a)[..5] && ToBits(ib, 5) == TextToBits(b)[..5];
      SmallPowers();
      FromBitsToBits(ia, 5);
      FromBitsToBits(ib, 5);
      assert TextToBits(a[1..]) == TextToBits(a)[5..] && TextToBits(b[1..]) == TextToBits(b)[5..];
      TextInjective(a[1..], b[1..]);
      assert a == [a[0]] + a[1..] && b == [b[0]] + b[1..];
    }
  }

  /** Decoding symbols and encoding again keeps the whole octets and fills up with zeros. */
  lemma ReencodedBits(text: string)
    requires AllSymbols(text)
    ensures Decoded(text) == Some(BitsToBytes(TextToBits(text)))
    ensures var again := Encoded(BitsToBytes(TextToBits(text)));
            AllSymbols(again) && TextToBits(again) == WholeBits(TextToBits(text)) + Zeros(Fill(|WholeBits(TextToBits(text))|))
  {
    CleanSymbols(text);
    BitsRoundTrip(TextToBits(text));
    TextRoundTrip(WholeBits(TextToBits(text)));
  }

  lemma FillIsLeftOver(n: nat, whole: nat, left: nat)
    requires n % 5 == 0 && whole + left == n
    ensures left == Fill(whole) <==> left < 5
  {
    var s, t := (whole + Fill(whole)) / 5, n / 5;
    assert whole + Fill(whole) == 5 * s && whole + left == 5 * t;
  }

  lemma FiveTimes(n: nat, k: nat)
    requires n == 5 * k
    ensures n % 5 == 0
  {
  }

  /** Of canonical text what is left over is as long as the filling. */
  lemma LeftOverFills(text: string)
    requires AllSymbols(text) && |LeftOver(TextToBits(text))| < 5
    ensures |LeftOver(TextToBits(text))| == Fill(|WholeBits(TextToBits(text))|)
  {
    var bits := TextToBits(text);
    var whole, left := |WholeBits(bits)|, |LeftOver(bits)|;
    assert whole + left == |bits|;
    TextBitsLength(text);
    FiveTimes(|bits|, |text|);
    FillIsLeftOver(|bits|, whole, left);
  }

  lemma CanonicalFill(text: string)
    requires Canonical(text)
    ensures LeftOver(TextToBits(text)) == Zeros(Fill(|WholeBits(TextToBits(text))|))
  {
    LeftOverFills(text);
    ZerosUnique(LeftOver(TextToBits(text)));
  }

  lemma CanonicalReencodes(text: string)
    requires Canonical(text)
    ensures Encoded(BitsToBytes(TextToBits(text))) == text
  {
    ReencodedBits(text);
    CanonicalFill(text);
    WholeAndLeftOver(TextToBits(text));
    TextInjective(Encoded(BitsToBytes(TextToBits(text))), text);
  }

  lemma ReencodesOnlyCanonical(text: string)
    requires AllSymbols(text) && Encoded(BitsToBytes(TextToBits(text))) == text
    ensures Canonical(text)
  {
    ReencodedBits(text);
    WholeAndLeftOver(TextToBits(text));
    SameTail(WholeBits(TextToBits(text)), LeftOver(TextToBits(text)), Zeros(Fill(|WholeBits(TextToBits(text))|)));
    ZerosUnique(LeftOver(TextToBits(text)));
  }

  lemma SameTail(front: seq<bool>, a: seq<bool>, b: seq<bool>)
    requires front + a == front + b
    ensures a == b
  {
    assert a == (front + a)[|front|..] && b == (front + b)[|front|..];
  }

  /** Encoding undoes decoding exactly on canonical text. */
  lemma EncodeInvertsDecode(text: string)
    ensures Decoded(text).Some? && Encoded(Decoded(text).value) == text <==> Canonical(text)
  {
    if AllSymbols(text) {
      ReencodedBits(text);
      if Canonical(text) {
        CanonicalReencodes(text);
      } else if Encoded(BitsToBytes(TextToBits(text))) == text {
        ReencodesOnlyCanonical(text);
      }
    } else if Decoded(text).Some? {
      TextRoundTrip(BytesToBits(Decoded(text).value));
    }
  }

  // ----- what a typed secret may look like ---------------------------------------------------

  const DROPPED := " \t\n\r=-\U{000b}\U{000c}"
  const LETTERS := "ABCDEFGHIJKLMNOPQRSTUVWXYZ"
  const SMALL_LETTERS := "abcdefghijklmnopqrstuvwxyz"

  lemma FillersAre(c: char)
    ensures IsFiller(c) <==> c in DROPPED
  {
    assert DROPPED == [' ', 9 as char, 10 as char, 13 as char, '=', '-', 11 as char, 12 as char];
  }

  lemma LettersAre(c: char, i: nat)
    requires i < 26
    ensures LETTERS[i] == 'A' + i as char && SMALL_LETTERS[i] == 'a' + i as char
  {
  }

  lemma {:induction false} CleanConcat(a: string, b: string)
    ensures Clean(a + b) == Clean(a) + Clean(b)
  {
    if |a| == 0 {
      assert a + b == b;
    } else {
      CleanConcat(a[1..], b);
      assert (a + b)[1..] == a[1..] + b;
    }
  }

  lemma CleanOne(c: char)
    ensures Clean([c]) == if IsFiller(c) then "" else [UpperChar(c)]
  {
  }

  /** White space, padding and dashes may stand anywhere. */
  lemma FillerIsDropped(a: string, c: char, b: string)
    requires c in DROPPED
    ensures Decoded(a + [c] + b) == Decoded(a + b)
  {
    FillersAre(c);
    CleanOne(c);
    CleanConcat(a, [c]);
    CleanConcat(a + [c], b);
    CleanConcat(a, b);
    assert Clean(a) + "" == Clean(a);
    assert Clean(a + [c] + b) == Clean(a + b);
  }

  /** A small letter stands for its capital. */
  lemma CaseIsIgnored(a: string, i: nat, b: string)
    requires i < 26
    ensures Decoded(a + [SMALL_LETTERS[i]] + b) == Decoded(a + [LETTERS[i]] + b)
  {
    LettersAre(LETTERS[i], i);
    CleanOne(SMALL_LETTERS[i]);
    CleanOne(LETTERS[i]);
    CleanConcat(a, [SMALL_LETTERS[i]]);
    CleanConcat(a, [LETTERS[i]]);
    CleanConcat(a + [SMALL_LETTERS[i]], b);
    CleanConcat(a + [LETTERS[i]], b);
  }

  /** May stand in a secret as it is typed. */
  predicate MayStand(c: char) {
    c in DROPPED || 'A' <= c <= 'Z' || 'a' <= c <= 'z' || '2' <= c <= '7'
  }

  lemma {:induction false} CleanIsSymbols(text: string)
    ensures AllSymbols(Clean(text)) <==> forall c <- text :: MayStand(c)
  {
    if |text| > 0 {
      OneMayStand(text[0]);
      CleanIsSymbols(text[1..]);
      assert text == [text[0]] + text[1..];
      CleanConcat([text[0]], text[1..]);
      BothSymbols(Clean([text[0]]), Clean(text[1..]));
      assert (forall c <- text :: MayStand(c)) <==> MayStand(text[0]) && forall c <- text[1..] :: MayStand(c);
    }
  }

  lemma OneMayStand(c: char)
    ensures AllSymbols(Clean([c])) <==> MayStand(c)
  {
    FillersAre(c);
    CleanOne(c);
    OneSymbol(UpperChar(c));
  }

  lemma OneSymbol(c: char)
    ensures AllSymbols([c]) <==> IsSymbol(c)
  {
    assert c in [c];
  }

  lemma BothSymbols(a: string, b: string)
    ensures AllSymbols(a + b) <==> AllSymbols(a) && AllSymbols(b)
  {
    if AllSymbols(a + b) {
      forall c | c in a || c in b ensures IsSymbol(c) {
        assert c in a + b;
      }
    }
  }

  /** A secret is refused exactly for a character that is none of these. */
  lemma RefusedIffStrange(text: string)
    ensures Decoded(text).None? <==> exists c <- text :: !MayStand(c)
  {
    CleanIsSymbols(text);
  }
}
