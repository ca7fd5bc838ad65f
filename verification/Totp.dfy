/** One-time codes: the truncation of a keyed hash, and the steps a code is good for. */
module Totp {
  import opened Options
  import Base32

  /** HMAC-SHA1 gives twenty bytes; nothing more is used of it. */
  type Digest = d: seq<Base32.Byte> | |d| == 20 witness seq(20, _ => 0)

  /** Of a secret and a message. */
  type Mac = (seq<Base32.Byte>, seq<Base32.Byte>) -> Digest

  /** What fits into the eight bytes of a message. */
  type Counter = n: int | 0 <= n < COUNTERS
  const COUNTERS := 0x1_0000_0000_0000_0000

  const STEP_MS := 30_000

  // ----- six digits --------------------------------------------------------------------------

  predicate IsDigit(c: char) {
    '0' <= c <= '9'
  }

  predicate SixDigits(code: string) {
    |code| == 6 && forall c <- code :: IsDigit(c)
  }

  function Decimal(n: nat): (s: string)
    ensures |s| > 0 && forall c <- s :: IsDigit(c)
  {
    if n < 10 then [(n + '0' as int) as char] else Decimal(n / 10) + [(n % 10 + '0' as int) as char]
  }

  function PadStart(s: string, width: nat, c: char): string
    decreases width - |s|
  {
    if |s| >= width then s else PadStart([c] + s, width, c)
  }

  function DigitValue(c: char): nat
    requires IsDigit(c)
  {
    c as int - '0' as int
  }

  function ToNumber(digits: string): (n: nat)
    requires forall c <- digits :: IsDigit(c)
  {
    if |digits| == 0 then 0
    else
      var last := digits[|digits| - 1];
      assert IsDigit(last);
      10 * ToNumber(digits[..|digits| - 1]) + DigitValue(last)
  }

  function PowerOfTen(k: nat): (p: nat)
    ensures p > 0
  {
    if k == 0 then 1 else 10 * PowerOfTen(k - 1)
  }

  lemma {:induction false} DecimalRoundTrip(n: nat)
    ensures ToNumber(Decimal(n)) == n
  {
    if n >= 10 {
      DecimalRoundTrip(n / 10);
      assert Decimal(n)[..|Decimal(n)| - 1] == Decimal(n / 10);
    } else {
      assert Decimal(n)[..0] == [];
    }
  }

  lemma {:induction false} DecimalLength(n: nat, k: nat)
    requires k > 0 && n < PowerOfTen(k)
    ensures |Decimal(n)| <= k
  {
    if n >= 10 {
      assert k > 1;
      DecimalLength(n / 10, k - 1);
    }
  }

  lemma {:induction false} LeadingZero(digits: string)
    requires forall c <- digits :: IsDigit(c)
    ensures (forall c <- ['0'] + digits :: IsDigit(c)) && ToNumber(['0'] + digits) == ToNumber(digits)
  {
    var padded := ['0'] + digits;
    if |digits| > 0 {
      LeadingZero(digits[..|digits| - 1]);
      assert padded[..|padded| - 1] == ['0'] + digits[..|digits| - 1];
    } else {
      assert padded[..0] == [];
    }
  }

  lemma {:induction false} PaddedNumber(digits: string, width: nat)
    requires (forall c <- digits :: IsDigit(c)) && |digits| <= width
    ensures var padded := PadStart(digits, width, '0');
            |padded| == width && (forall c <- padded :: IsDigit(c)) && ToNumber(padded) == ToNumber(digits)
    decreases width - |digits|
  {
    if |digits| < width {
      LeadingZero(digits);
      PaddedNumber(['0'] + digits, width);
    }
  }

  /** Two codes of one length are the same exactly when they are the same number. */
  lemma {:induction false} SameDigitsSameNumber(a: string, b: string)
    requires |a| == |b| && (forall c <- a :: IsDigit(c)) && (forall c <- b :: IsDigit(c))
    ensures a == b <==> ToNumber(a) == ToNumber(b)
  {
    if |a| > 0 {
      var n := |a| - 1;
      SameDigitsSameNumber(a[..n], b[..n]);
      assert a[n] in a && b[n] in b;
      assert a == a[..n] + [a[n]] && b == b[..n] + [b[n]];
    }
  }

  // ----- codes -------------------------------------------------------------------------------

  /** The counter in so many bytes, the most significant first. */
  function BigEndian(n: nat, width: nat): (bytes: seq<Base32.Byte>)
    ensures |bytes| == width
  {
    if width == 0 then [] else BigEndian(n / 256, width - 1) + [n % 256]
  }

  /** Thirty-one bits of the digest, from where its last four bits point. */
  function Truncated(d: Digest): (code: nat)
    ensures code < 0x8000_0000
  {
    var offset: int := d[19] as int % 16;
    var b0: int, b1: int, b2: int, b3: int := d[offset] as int % 128, d[offset + 1], d[offset + 2], d[offset + 3];
    b0 * 0x100_0000 + b1 * 0x1_0000 + b2 * 0x100 + b3
  }

  function Hotp(mac: Mac, secret: seq<Base32.Byte>, counter: Counter): string {
    PadStart(Decimal(Truncated(mac(secret, BigEndian(counter, 8))) % 1_000_000), 6, '0')
  }

  // ----- the same in bits --------------------------------------------------------------------

  /** The number in the last four bits of the digest. */
  function Offset(d: Digest): nat {
    Base32.FromBits(Base32.ToBits(d[19], 8)[4..])
  }

  lemma OffsetInDigest(d: Digest)
    ensures Offset(d) == d[19] as int % 16
  {
    LowBits(d[19], 4, 4);
    Base32.SmallPowers();
    LowNumber(d[19], 4, 16);
  }

  /** The four bytes from there on, as bits, but for the first. */
  function DynamicBits(d: Digest): seq<bool> {
    OffsetInDigest(d);
    Base32.BytesToBits(d[Offset(d)..Offset(d) + 4])[1..]
  }

  lemma {:induction false} LowBits(n: nat, high: nat, low: nat)
    ensures Base32.ToBits(n, high + low)[high..] == Base32.ToBits(n, low)
  {
    if low > 0 {
      LowBits(n / 2, high, low - 1);
    }
  }

  lemma LowNumber(n: nat, width: nat, p: nat)
    requires p == Base32.Pow2(width)
    ensures Base32.FromBits(Base32.ToBits(n, width)) == n % p
  {
    Division(n, p);
    LowNumberIs(n, width, n / p, n % p);
  }

  lemma LowNumberIs(n: nat, width: nat, high: nat, low: nat)
    requires n == low + high * Base32.Pow2(width) && low < Base32.Pow2(width)
    ensures Base32.FromBits(Base32.ToBits(n, width)) == low
  {
    Base32.AddHigh(low, width, high);
    Base32.FromBitsToBits(low, width);
  }

  lemma Division(n: nat, p: nat)
    requires p > 0
    ensures n == n % p + n / p * p && 0 <= n / p
  {
  }

  lemma FourBytesBits(b: seq<Base32.Byte>)
    requires |b| == 4
    ensures Base32.BytesToBits(b)
            == Base32.ToBits(b[0], 8) + Base32.ToBits(b[1], 8) + Base32.ToBits(b[2], 8) + Base32.ToBits(b[3], 8)
  {
    assert b[1..][1..] == b[2..] && b[2..][1..] == b[3..] && b[3..][1..] == [];
    assert Base32.BytesToBits(b[3..]) == Base32.ToBits(b[3], 8) + [];
    assert Base32.BytesToBits(b[2..]) == Base32.ToBits(b[2], 8) + Base32.BytesToBits(b[3..]);
    assert Base32.BytesToBits(b[1..]) == Base32.ToBits(b[1], 8) + Base32.BytesToBits(b[2..]);
  }

  lemma Powers()
    ensures Base32.Pow2(7) == 0x80 && Base32.Pow2(8) == 0x100
  {
    Base32.SmallPowers();
  }

  /** The truncated digest, bit for bit, is the last thirty-one bits of those four bytes. */
  lemma TruncatedIsItsBits(d: Digest)
    ensures |DynamicBits(d)| == 31 && Truncated(d) == Base32.FromBits(DynamicBits(d))
    ensures Base32.ToBits(Truncated(d), 31) == DynamicBits(d)
  {
    OffsetInDigest(d);
    BitsOfFour(d[Offset(d)..Offset(d) + 4]);
    Base32.ToBitsFromBits(DynamicBits(d));
  }

  lemma BitsOfFour(b: seq<Base32.Byte>)
    requires |b| == 4
    ensures var bits := Base32.BytesToBits(b);
            |bits| == 32 && Base32.FromBits(bits[1..]) == ((b[0] as int % 128 * 0x100 + b[1]) * 0x100 + b[2]) * 0x100 + b[3]
  {
    var b0, b1, b2, b3 := Base32.ToBits(b[0], 8), Base32.ToBits(b[1], 8), Base32.ToBits(b[2], 8), Base32.ToBits(b[3], 8);
    FourBytesBits(b);
    assert Base32.BytesToBits(b)[1..] == b0[1..] + b1 + b2 + b3;
    FourGroups(b0[1..], b1, b2, b3);
    LowBits(b[0], 1, 7);
    NumbersOfFour(b);
  }

  lemma NumbersOfFour(b: seq<Base32.Byte>)
    requires |b| == 4
    ensures Base32.FromBits(Base32.ToBits(b[0], 7)) == b[0] as int % 128
    ensures forall k :: 1 <= k < 4 ==> Base32.FromBits(Base32.ToBits(b[k], 8)) == b[k]
  {
    Powers();
    LowNumber(b[0], 7, 128);
    forall k | 1 <= k < 4 ensures Base32.FromBits(Base32.ToBits(b[k], 8)) == b[k] {
      Base32.FromBitsToBits(b[k], 8);
    }
  }

  lemma TwoGroups(a: seq<bool>, b: seq<bool>)
    requires |b| == 8
    ensures Base32.FromBits(a + b) == Base32.FromBits(a) * 0x100 + Base32.FromBits(b)
  {
    Powers();
    Base32.FromBitsConcat(a, b);
  }

  lemma FourGroups(a: seq<bool>, b: seq<bool>, c: seq<bool>, d: seq<bool>)
    requires |b| == |c| == |d| == 8
    ensures Base32.FromBits(a + b + c + d)
            == ((Base32.FromBits(a) * 0x100 + Base32.FromBits(b)) * 0x100 + Base32.FromBits(c)) * 0x100 + Base32.FromBits(d)
  {
    TwoGroups(a, b);
    TwoGroups(a + b, c);
    TwoGroups(a + b + c, d);
  }

  lemma {:induction false} BigEndianBits(n: nat, width: nat)
    ensures Base32.BytesToBits(BigEndian(n, width)) == Base32.ToBits(n, 8 * width)
  {
    if width > 0 {
      BigEndianBits(n / 256, width - 1);
      Base32.BytesToBitsConcat(BigEndian(n / 256, width - 1), [n % 256]);
      assert Base32.BytesToBits([n % 256]) == Base32.ToBits(n % 256, 8) + [];
      ByteLast(n, 8 * width - 8);
    }
  }

  /** The last eight bits of a number, and the rest. */
  lemma ByteLast(n: nat, high: nat)
    ensures Base32.ToBits(n, high + 8) == Base32.ToBits(n / 256, high) + Base32.ToBits(n % 256, 8)
  {
    HighBits(n, high, 8);
    HalvedEightTimes(n);
    LowBits(n, high, 8);
    Powers();
    Division(n, 256);
    Base32.AddHigh(n % 256, 8, n / 256);
  }

  function Halved(n: nat, times: nat): nat {
    if times == 0 then n else Halved(n / 2, times - 1)
  }

  lemma FourHalves(n: nat, times: nat)
    ensures Halved(n, times + 4) == Halved(n / 16, times)
  {
    assert Halved(n, times + 4) == Halved(n / 2 / 2, times + 2);
    assert Halved(n / 2 / 2, times + 2) == Halved(n / 2 / 2 / 2 / 2, times);
  }

  lemma HalvedEightTimes(n: nat)
    ensures Halved(n, 8) == n / 256
  {
    FourHalves(n, 4);
    FourHalves(n / 16, 0);
  }

  lemma {:induction false} HighBits(n: nat, high: nat, low: nat)
    ensures Base32.ToBits(n, high + low)[..high] == Base32.ToBits(Halved(n, low), high)
  {
    if low > 0 {
      HighBits(n / 2, high, low - 1);
      assert Base32.ToBits(n, high + low)[..high] == Base32.ToBits(n / 2, high + low - 1)[..high];
    }
  }

  /** The code of a step: six digits whose number is that of the digest's bits, modulo a million. */
  predicate IsCodeOf(mac: Mac, secret: seq<Base32.Byte>, step: Counter, code: string) {
    SixDigits(code) &&
    ToNumber(code) == Base32.FromBits(DynamicBits(mac(secret, Message(step)))) % 1_000_000
  }

  /** Sixty-four bits of the step, in eight bytes. */
  function Message(step: Counter): seq<Base32.Byte> {
    Base32.BitsToBytes(Base32.ToBits(step, 64))
  }

  lemma MessageIsBigEndian(step: Counter)
    ensures BigEndian(step, 8) == Message(step)
  {
    BigEndianBits(step, 8);
    Base32.BytesRoundTrip(BigEndian(step, 8), []);
    assert Base32.BytesToBits(BigEndian(step, 8)) + [] == Base32.BytesToBits(BigEndian(step, 8));
  }

  /** A code is always six digits, and no other six digits are that step's. */
  lemma HotpIsSixDigits(mac: Mac, secret: seq<Base32.Byte>, counter: Counter, code: string)
    ensures SixDigits(Hotp(mac, secret, counter))
    ensures Hotp(mac, secret, counter) == code <==> IsCodeOf(mac, secret, counter, code)
  {
    var d := mac(secret, BigEndian(counter, 8));
    var n := Truncated(d) % 1_000_000;
    assert PowerOfTen(6) == 1_000_000;
    DecimalLength(n, 6);
    PaddedNumber(Decimal(n), 6);
    DecimalRoundTrip(n);
    MessageIsBigEndian(counter);
    TruncatedIsItsBits(d);
    if SixDigits(code) {
      SameDigitsSameNumber(Hotp(mac, secret, counter), code);
    }
  }

  function StepAt(ms: int): int {
    ms / STEP_MS
  }

  /** A step lasts half a minute. */
  predicate IsStepAt(step: int, ms: int) {
    30_000 * step <= ms < 30_000 * step + 30_000
  }

  lemma StepAtIsStep(ms: int, step: int)
    ensures StepAt(ms) == step <==> IsStepAt(step, ms)
  {
  }

  /** The first step of the window whose code this is, no step before it being out of range. */
  ghost predicate FirstMatch(mac: Mac, secret: seq<Base32.Byte>, code: string, low: int, high: int, step: int) {
    && low <= step <= high && NoneBefore(mac, secret, code, low, step)
    && 0 <= step < COUNTERS && IsCodeOf(mac, secret, step, code)
  }

  ghost predicate NoneBefore(mac: Mac, secret: seq<Base32.Byte>, code: string, low: int, end: int) {
    forall step :: low <= step < end ==> Misses(mac, secret, code, step)
  }

  predicate Misses(mac: Mac, secret: seq<Base32.Byte>, code: string, step: int) {
    0 <= step < COUNTERS && !IsCodeOf(mac, secret, step, code)
  }

  /** Just one of the three: a match, a step out of range before any, or neither. */
  lemma OneOutcome(mac: Mac, secret: seq<Base32.Byte>, code: string, low: int, high: int, at: int)
    requires low <= at <= high + 1 && NoneBefore(mac, secret, code, low, at)
    ensures at == high + 1 ==>
              AllInRange(mac, secret, code, low, high) && forall step :: low <= step <= high ==> Misses(mac, secret, code, step)
    ensures at <= high && 0 <= at < COUNTERS && IsCodeOf(mac, secret, at, code) ==>
              && !NoneBefore(mac, secret, code, low, high + 1)
              && AllInRange(mac, secret, code, low, high)
    ensures at <= high && !(0 <= at < COUNTERS) ==> !NoneBefore(mac, secret, code, low, high + 1)
  {
    assert at <= high && NoneBefore(mac, secret, code, low, high + 1) ==> Misses(mac, secret, code, at);
    forall bad | low <= bad <= high && !(0 <= bad < COUNTERS) && NoneBefore(mac, secret, code, low, bad)
      ensures !Misses(mac, secret, code, bad)
      ensures (at < bad ==> Misses(mac, secret, code, at)) && (bad < at ==> Misses(mac, secret, code, bad))
    {
    }
  }

  /** Nowhere in the window is a step out of range, before any match. */
  ghost predicate AllInRange(mac: Mac, secret: seq<Base32.Byte>, code: string, low: int, high: int) {
    forall bad :: low <= bad <= high && !(0 <= bad < COUNTERS) ==> !NoneBefore(mac, secret, code, low, bad)
  }

  datatype Check = BadSecret | BadCounter | NoStep | Step(n: int)

  /** What comparing a code with a window of steps must say: the earliest match, a step out of
      range before any, or neither. */
  ghost predicate Outcome(mac: Mac, secret: seq<Base32.Byte>, code: string, low: int, high: int, r: Check) {
    && !r.BadSecret?
    && (r.Step? ==> FirstMatch(mac, secret, code, low, high, r.n))
    && (r.NoStep? <==> NoneBefore(mac, secret, code, low, high + 1))
    && (r.BadCounter? <==> !AllInRange(mac, secret, code, low, high))
  }

  /** Wherever the loop stops, what it says is the outcome. */
  lemma StopsRightly(mac: Mac, secret: seq<Base32.Byte>, code: string, low: int, high: int, at: int)
    requires low <= at <= high + 1 && NoneBefore(mac, secret, code, low, at)
    ensures at == high + 1 ==> Outcome(mac, secret, code, low, high, NoStep)
    ensures at <= high && 0 <= at < COUNTERS && IsCodeOf(mac, secret, at, code) ==>
              Outcome(mac, secret, code, low, high, Step(at))
    ensures at <= high && !(0 <= at < COUNTERS) ==> Outcome(mac, secret, code, low, high, BadCounter)
  {
    OneOutcome(mac, secret, code, low, high, at);
  }

  lemma OneMissMore(mac: Mac, secret: seq<Base32.Byte>, code: string, low: int, at: int)
    requires NoneBefore(mac, secret, code, low, at) && Misses(mac, secret, code, at)
    ensures NoneBefore(mac, secret, code, low, at + 1)
  {
  }

  method Compare(mac: Mac, secret: seq<Base32.Byte>, step: Counter, code: string) returns (same: bool)
    ensures same <==> IsCodeOf(mac, secret, step, code)
  {
    var expected := Hotp(mac, secret, step);
    HotpIsSixDigits(mac, secret, step, code);
    same := expected == code;
  }

  /** The loop over the window, up to the first step that matches or is out of range. */
  method FirstToStop(mac: Mac, secret: seq<Base32.Byte>, code: string, current: int, window: nat) returns (w: int)
    ensures 0 - window <= w <= window + 1 && NoneBefore(mac, secret, code, current - window, current + w)
    ensures w <= window && 0 <= current + w < COUNTERS ==> IsCodeOf(mac, secret, current + w, code)
  {
    w := 0 - window;
    while w <= window
      invariant 0 - window <= w <= window + 1
      invariant NoneBefore(mac, secret, code, current - window, current + w)
    {
      if !(0 <= current + w < COUNTERS) {
        return;
      }
      var same := Compare(mac, secret, current + w, code);
      if same {
        return;
      }
      OneMissMore(mac, secret, code, current - window, current + w);
      w := w + 1;
    }
  }

  method CompareWindow(mac: Mac, secret: seq<Base32.Byte>, code: string, current: int, window: nat) returns (r: Check)
    ensures Outcome(mac, secret, code, current - window, current + window, r)
  {
    var w := FirstToStop(mac, secret, code, current, window);
    StopsRightly(mac, secret, code, current - window, current + window, current + w);
    r := if w > window then NoStep else if 0 <= current + w < COUNTERS then Step(current + w) else BadCounter;
  }

  /**
   * Compares a code with the codes of the steps around now: the earliest step it matches, if it
   * matches any; a step that fits no message is an error.
   */
  method VerifyTotp(mac: Mac, secretBase32: string, code: string, nowMs: int, window: nat) returns (r: Check)
    ensures !SixDigits(code) ==> r.NoStep?
    ensures r.BadSecret? <==> SixDigits(code) && Base32.Decoded(secretBase32).None?
    ensures Base32.Decoded(secretBase32).Some? && SixDigits(code) ==>
              forall now | IsStepAt(now, nowMs) ::
                Outcome(mac, Base32.Decoded(secretBase32).value, code, now - window, now + window, r)
  {
    if !(|code| == 6 && forall c <- code :: IsDigit(c)) {
      return NoStep;
    }
    var decoded := Base32.Base32Decode(secretBase32);
    if decoded.None? {
      return BadSecret;
    }
    StepIsUnique(nowMs);
    r := CompareWindow(mac, decoded.value, code, StepAt(nowMs), window);
  }

  lemma StepIsUnique(ms: int)
    ensures forall step :: IsStepAt(step, ms) <==> step == StepAt(ms)
  {
    forall step {
      StepAtIsStep(ms, step);
    }
  }

  /**
   * With a window of one, the code an authenticator shows at one instant is accepted, for its own
   * step or an earlier one with the same code, up to half a minute before and after.
   */
  lemma ShownCodeIsAccepted(mac: Mac, secret: seq<Base32.Byte>, code: string, shown: Counter, shownMs: int, now: int, nowMs: int)
    returns (step: int)
    requires IsStepAt(shown, shownMs) && IsStepAt(now, nowMs) && -30_000 <= nowMs - shownMs <= 30_000
    requires 1 <= now && IsCodeOf(mac, secret, shown, code)
    ensures step <= shown && FirstMatch(mac, secret, code, now - 1, now + 1, step)
  {
    step := now - 1;
    while !IsCodeOf(mac, secret, step, code)
      invariant now - 1 <= step <= shown && NoneBefore(mac, secret, code, now - 1, step)
      decreases shown - step
    {
      step := step + 1;
    }
  }

  /** And no accepted code was shown more than a minute ago, or will be more than a minute on. */
  lemma AcceptedCodeIsRecent(mac: Mac, secret: seq<Base32.Byte>, code: string, now: int, nowMs: int, step: int, shownMs: int)
    requires IsStepAt(now, nowMs) && IsStepAt(step, shownMs)
    requires FirstMatch(mac, secret, code, now - 1, now + 1, step)
    ensures -60_000 < nowMs - shownMs < 60_000
  {
  }
}
