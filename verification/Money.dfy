/**
 * A provider counts in whole smallest units of a currency, an order in figures with two decimal
 * places. Figures are exact reals here.
 */
module Money {
  const ZERO_DECIMAL := {"JPY", "KRW", "VND", "CLP", "ISK", "UGX", "XAF", "XOF"}
  const THREE_DECIMAL := {"BHD", "JOD", "KWD", "OMR", "TND"}

  /** JavaScript's Math.round: the nearest integer, halves upwards. */
  function MathRound(x: real): (n: int)
    ensures x - 0.5 < n as real <= x + 0.5
  {
    (x + 0.5).Floor
  }

  /** The contract of MathRound leaves no choice. */
  lemma MathRoundUnique(x: real, n: int)
    requires x - 0.5 < n as real <= x + 0.5
    ensures MathRound(x) == n
  {
  }

  function UpperChar(c: char): char {
    if 'a' <= c <= 'z' then 'A' + (c - 'a') else c
  }

  function Upper(s: string): string {
    seq(|s|, i requires 0 <= i < |s| => UpperChar(s[i]))
  }

  function CurrencyExponent(currency: string): (e: nat)
    ensures e == 0 || e == 2 || e == 3
  {
    var c := Upper(currency);
    if c in ZERO_DECIMAL then 0 else if c in THREE_DECIMAL then 3 else 2
  }

  function ToMinor(amount: real, currency: string): int {
    var cents := MathRound(amount * 100.0);
    match CurrencyExponent(currency)
    case 2 => cents
    case 0 => MathRound(cents as real / 100.0)
    case _ => cents * 10
  }

  /** The currencies without decimals, those with three, and every other; in either case of letters. */
  lemma DecimalsOf(currency: string)
    ensures Upper(currency) in ["JPY", "KRW", "VND", "CLP", "ISK", "UGX", "XAF", "XOF"] ==> CurrencyExponent(currency) == 0
    ensures Upper(currency) in ["BHD", "JOD", "KWD", "OMR", "TND"] ==> CurrencyExponent(currency) == 3
    ensures CurrencyExponent(currency) != 2 ==>
              Upper(currency) in ["JPY", "KRW", "VND", "CLP", "ISK", "UGX", "XAF", "XOF", "BHD", "JOD", "KWD", "OMR", "TND"]
  {
  }

  /** Upper case, letter by letter. */
  lemma UpperLetters(currency: string, i: nat, k: nat)
    requires i < |currency| && k < 26
    ensures |Upper(currency)| == |currency|
    ensures currency[i] == "abcdefghijklmnopqrstuvwxyz"[k] ==> Upper(currency)[i] == "ABCDEFGHIJKLMNOPQRSTUVWXYZ"[k]
    ensures !('a' <= currency[i] <= 'z') ==> Upper(currency)[i] == currency[i]
  {
  }

  /** Ten to that power many units make one of the currency. */
  lemma UnitsOfOne(minor: int, currency: string)
    ensures CurrencyExponent(currency) == 0 ==> FromMinor(minor, currency) * 1.0 == minor as real
    ensures CurrencyExponent(currency) == 2 ==> FromMinor(minor, currency) * 100.0 == minor as real
    ensures CurrencyExponent(currency) == 3 ==> FromMinor(minor, currency) * 1000.0 == minor as real
  {
  }

  /** The same from whole cents, in integers. */
  function MinorOfCents(cents: int, exponent: nat): int {
    if exponent == 2 then cents else if exponent == 0 then (cents + 50) / 100 else cents * 10
  }

  /** The least figure in cents that gives so many units, where any does. */
  function CentsFor(minor: int, exponent: nat): int {
    if exponent == 2 then minor else if exponent == 0 then minor * 100 - 50 else minor / 10
  }

  lemma CentsForGives(minor: int, exponent: nat)
    requires exponent != 2 && exponent != 0 ==> minor % 10 == 0
    ensures MinorOfCents(CentsFor(minor, exponent), exponent) == minor
    ensures minor > 0 ==> CentsFor(minor, exponent) > 0
  {
  }

  /** Every figure goes through its cents on the way to the provider's units. */
  lemma ToMinorOfCents(amount: real, currency: string)
    ensures ToMinor(amount, currency) == MinorOfCents(MathRound(amount * 100.0), CurrencyExponent(currency))
  {
    var cents := MathRound(amount * 100.0);
    if CurrencyExponent(currency) == 0 {
      MathRoundUnique(cents as real / 100.0, (cents + 50) / 100);
    }
  }

  function FromMinor(minor: int, currency: string): real {
    match CurrencyExponent(currency)
    case 2 => minor as real / 100.0
    case 0 => minor as real
    case _ => minor as real / 1000.0
  }

  /** A currency's case does not matter. */
  lemma UpperSameCurrency(amount: real, minor: int, currency: string)
    ensures Upper(Upper(currency)) == Upper(currency)
    ensures ToMinor(amount, Upper(currency)) == ToMinor(amount, currency)
    ensures FromMinor(minor, Upper(currency)) == FromMinor(minor, currency)
  {
    assert Upper(Upper(currency)) == Upper(currency);
  }

  /** An order total: a figure with two decimal places. */
  function TwoDecimal(cents: int): real {
    cents as real / 100.0
  }

  /**
   * A two-decimal total survives the trip to the provider's units and back exactly when the
   * currency has decimals, or the total is a whole number of units.
   */
  lemma {:induction false} TotalRoundTrip(cents: int, currency: string)
    ensures FromMinor(ToMinor(TwoDecimal(cents), currency), currency) == TwoDecimal(cents)
            <==> CurrencyExponent(currency) != 0 || cents % 100 == 0
  {
    MathRoundUnique(TwoDecimal(cents) * 100.0, cents);
    if CurrencyExponent(currency) == 0 {
      if cents % 100 == 0 {
        MathRoundUnique(cents as real / 100.0, cents / 100);
      } else {
        NotWhole(ToMinor(TwoDecimal(cents), currency), cents);
      }
    }
  }

  lemma NotWhole(m: int, cents: int)
    requires cents % 100 != 0
    ensures m as real != TwoDecimal(cents)
  {
    assert m * 100 != cents;
  }

  /** In a currency without decimals the figure moves by at most half a unit. */
  lemma {:induction false} ZeroDecimalWithinHalf(cents: int, currency: string)
    requires CurrencyExponent(currency) == 0
    ensures var back := FromMinor(ToMinor(TwoDecimal(cents), currency), currency);
            TwoDecimal(cents) - 0.5 < back <= TwoDecimal(cents) + 0.5
  {
    MathRoundUnique(TwoDecimal(cents) * 100.0, cents);
  }

  /** The other way round: only a third decimal is lost. */
  lemma MinorRoundTrip(minor: int, currency: string)
    ensures ToMinor(FromMinor(minor, currency), currency) == minor
            <==> CurrencyExponent(currency) != 3 || minor % 10 == 0
  {
    match CurrencyExponent(currency)
    case 2 => MathRoundUnique(minor as real / 100.0 * 100.0, minor);
    case 0 =>
      MathRoundUnique(minor as real * 100.0, minor * 100);
      MathRoundUnique((minor * 100) as real / 100.0, minor);
    case _ =>
      if minor % 10 == 0 {
        MathRoundUnique(minor as real / 1000.0 * 100.0, minor / 10);
      }
  }
}
