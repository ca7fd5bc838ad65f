/**
 * Tax-exclusive menus gross a price up to the nearest cent; the till backs the tax out of the
 * grossed-up line again. Money is in whole cents, the tax rate is any non-negative real.
 */
module TaxRounding {
  import opened Money

  datatype TaxMode = Inclusive | Exclusive

  /** The price a customer pays for one unit. `rate` is the fraction, 0.18 for 18 %. */
  function ToInclusiveUnitPrice(rawCents: int, rate: real, mode: TaxMode): int {
    if mode == Exclusive && rate > 0.0 then MathRound(rawCents as real * (1.0 + rate)) else rawCents
  }

  datatype PricedLine = PricedLine(lineTotal: int, taxAmount: int) {
    function Net(): int { lineTotal - taxAmount }
  }

  function PriceLine(quantity: int, unitPriceInclusive: int, rate: real): PricedLine
    requires rate >= 0.0
  {
    var lineTotal := unitPriceInclusive * quantity;
    PricedLine(lineTotal,
               if rate > 0.0 then MathRound(lineTotal as real - lineTotal as real / (1.0 + rate)) else 0)
  }

  /** So many units bought at their grossed-up price, with the tax backed out of the line. */
  function NetOf(quantity: nat, rawCents: int, rate: real): int
    requires rate >= 0.0
  {
    PriceLine(quantity, ToInclusiveUnitPrice(rawCents, rate, Exclusive), rate).Net()
  }

  /** How far the grossed-up cents of one unit are from the exact price with tax. */
  function UnitError(rawCents: int, rate: real): (e: real)
    ensures -0.5 < e <= 0.5
  {
    ToInclusiveUnitPrice(rawCents, rate, Exclusive) as real
    - if rate > 0.0 then rawCents as real * (1.0 + rate) else rawCents as real
  }

  /** What the unit's rounding error comes to over several units, the tax taken out again. */
  function Drift(quantity: nat, rawCents: int, rate: real): real
    requires rate >= 0.0
  {
    Spread(quantity as real, UnitError(rawCents, rate), 1.0 + rate)
  }

  function Spread(q: real, e: real, y: real): real
    requires y > 0.0
  {
    q * e / y
  }

  // ----- arithmetic --------------------------------------------------------------------------

  lemma Cancel(a: real, y: real)
    requires y > 0.0 && a * y >= 0.0
    ensures a >= 0.0
  {
  }

  /** Dividing keeps a bound on both sides. */
  lemma DivideBounds(x: real, y: real, lo: real, hi: real)
    requires y > 0.0 && lo * y <= x <= hi * y
    ensures lo <= x / y <= hi
  {
    var d := x / y;
    assert d * y == x;
    Cancel(d - lo, y);
    Cancel(hi - d, y);
  }

  lemma HalfTimes(q: real, e: real)
    requires q >= 0.0 && -0.5 <= e <= 0.5
    ensures -0.5 * q <= q * e <= 0.5 * q
  {
    assert q * (0.5 - e) >= 0.0;
    assert q * (0.5 + e) >= 0.0;
  }

  lemma Distributes(q: real, a: real, b: real)
    ensures q * (a + b) == q * a + q * b
  {
  }

  lemma DividesBack(x: real, y: real, d: real)
    requires y > 0.0 && x == d * y
    ensures x / y == d
  {
    assert x / y * y == x;
    Cancel(x / y - d, y);
    Cancel(d - x / y, y);
  }

  lemma BelowHalf(back: real, rate: real)
    requires rate >= 0.0 && -0.5 < back * (1.0 + rate) <= 0.5
    ensures -0.5 < back <= 0.5
  {
    assert back * (1.0 + rate) == back + back * rate;
    if back >= 0.0 {
      assert back * rate >= 0.0;
    } else {
      assert back * rate <= 0.0;
    }
  }

  /** Where the tax is in the price, or there is none, the price shown is the price; elsewhere it
      is the price and its tax to the nearest cent, half a cent upwards. */
  lemma PriceShown(rawCents: int, rate: real, mode: TaxMode)
    ensures mode == Inclusive || rate <= 0.0 ==> ToInclusiveUnitPrice(rawCents, rate, mode) == rawCents
    ensures mode == Exclusive && rate > 0.0 ==>
              var exact := rawCents as real + rawCents as real * rate;
              exact - 0.5 < ToInclusiveUnitPrice(rawCents, rate, mode) as real <= exact + 0.5
  {
    assert rawCents as real * (1.0 + rate) == rawCents as real + rawCents as real * rate;
  }

  /** A line is its units' prices, and its tax is to the nearest cent what is over the net. */
  lemma LineIsPriced(quantity: int, unitPrice: int, rate: real)
    requires rate >= 0.0
    ensures var line := PriceLine(quantity, unitPrice, rate);
            && line.lineTotal == quantity * unitPrice && line.Net() + line.taxAmount == quantity * unitPrice
            && (rate == 0.0 ==> line.taxAmount == 0)
            && (rate > 0.0 ==>
                  var tax := (quantity * unitPrice) as real - (quantity * unitPrice) as real / (1.0 + rate);
                  tax - 0.5 < line.taxAmount as real <= tax + 0.5)
  {
    assert unitPrice * quantity == quantity * unitPrice;
  }

  // ----- what comes back ---------------------------------------------------------------------

  lemma ProductOfCasts(a: int, b: int)
    ensures (a * b) as real == a as real * b as real
  {
  }

  lemma SplitTotal(q: real, p: real, e: real, y: real, g: real)
    requires y > 0.0 && g == p * y + e
    ensures q * g / y == q * p + Spread(q, e, y)
  {
    var drift := Spread(q, e, y);
    Distributes(q, p * y, e);
    assert drift * y == q * e;
    Distributes(y, q * p, drift);
    Associates(q, p, y);
    DividesBack(q * g, y, q * p + drift);
  }

  /** The line without its tax is the price and the drift. */
  lemma TotalSplits(quantity: nat, rawCents: int, rate: real)
    requires rate > 0.0
    ensures var total := ToInclusiveUnitPrice(rawCents, rate, Exclusive) * quantity;
            total as real / (1.0 + rate) == (quantity * rawCents) as real + Drift(quantity, rawCents, rate)
  {
    var g := ToInclusiveUnitPrice(rawCents, rate, Exclusive);
    ProductOfCasts(g, quantity);
    ProductOfCasts(quantity, rawCents);
    SplitTotal(quantity as real, rawCents as real, UnitError(rawCents, rate), 1.0 + rate, g as real);
  }

  lemma Associates(a: real, b: real, c: real)
    ensures a * (b * c) == c * (a * b)
  {
  }

  /** The net of several units misses their price by the rounded drift, whatever the figures. */
  lemma {:induction false} NetMissesByDrift(quantity: nat, rawCents: int, rate: real)
    requires rate >= 0.0
    ensures NetOf(quantity, rawCents, rate) == quantity * rawCents - MathRound(-Drift(quantity, rawCents, rate))
  {
    var total := ToInclusiveUnitPrice(rawCents, rate, Exclusive) * quantity;
    var drift := Drift(quantity, rawCents, rate);
    if rate > 0.0 {
      TotalSplits(quantity, rawCents, rate);
      MathRoundUnique(total as real - total as real / (1.0 + rate), total - quantity * rawCents + MathRound(-drift));
    } else {
      assert drift == 0.0;
      MathRoundUnique(-drift, 0);
    }
  }

  /** Several units come back exactly if and only if the drift is within half a cent. */
  lemma {:induction false} ManyUnitsExactIff(quantity: nat, rawCents: int, rate: real)
    requires rate >= 0.0
    ensures NetOf(quantity, rawCents, rate) == quantity * rawCents <==> -0.5 < Drift(quantity, rawCents, rate) <= 0.5
  {
    NetMissesByDrift(quantity, rawCents, rate);
    if -0.5 < Drift(quantity, rawCents, rate) <= 0.5 {
      MathRoundUnique(-Drift(quantity, rawCents, rate), 0);
    }
  }

  /** One unit: the original price comes back exactly, whatever the rate and the price. */
  lemma OneUnitNetIsExact(rawCents: int, rate: real)
    requires rate >= 0.0
    ensures NetOf(1, rawCents, rate) == rawCents
  {
    var drift := Drift(1, rawCents, rate);
    assert drift * (1.0 + rate) == UnitError(rawCents, rate);
    BelowHalf(drift, rate);
    ManyUnitsExactIff(1, rawCents, rate);
  }

  lemma HalfOver(q: real, y: real) returns (bound: real)
    requires y > 0.0
    ensures bound == q / (2.0 * y) && bound * y == 0.5 * q
  {
    bound := q / (2.0 * y);
    assert bound * (2.0 * y) == q;
    Associates(bound, 2.0, y);
  }

  lemma SpreadWithin(q: real, e: real, y: real)
    requires q >= 0.0 && y > 0.0 && -0.5 <= e <= 0.5
    ensures -(q / (2.0 * y)) <= Spread(q, e, y) <= q / (2.0 * y)
  {
    var bound := HalfOver(q, y);
    HalfTimes(q, e);
    assert (-bound) * y == -0.5 * q;
    DivideBounds(q * e, y, -bound, bound);
  }

  lemma RoundWithin(d: real, bound: real)
    requires -bound <= d <= bound
    ensures -(bound + 0.5) <= MathRound(-d) as real <= bound + 0.5
  {
  }

  /** Several units: the net is within q/(2(1+t)) + 1/2 cents of q times the price. */
  lemma {:induction false} ManyUnitsNetWithin(quantity: nat, rawCents: int, rate: real)
    requires rate >= 0.0
    ensures var slack := quantity as real / (2.0 * (1.0 + rate)) + 0.5;
            -slack <= (NetOf(quantity, rawCents, rate) - quantity * rawCents) as real <= slack
  {
    NetMissesByDrift(quantity, rawCents, rate);
    SpreadWithin(quantity as real, UnitError(rawCents, rate), 1.0 + rate);
    RoundWithin(Drift(quantity, rawCents, rate), quantity as real / (2.0 * (1.0 + rate)));
  }

  /** It is not always exact: two units of 3 cents at 10 % come back as 5 cents, not 6. */
  lemma SeveralUnitsCanDrift()
    ensures NetOf(2, 3, 0.1) == 5
  {
    MathRoundUnique(3.0 * 1.1, 3);
    assert ToInclusiveUnitPrice(3, 0.1, Exclusive) == 3;
    MathRoundUnique(6.0 - 6.0 / 1.1, 1);
  }
}
