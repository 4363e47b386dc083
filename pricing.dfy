/**
 * The pricing engine of src/utils/pricing.ts: the extra-person fee above a
 * base occupancy of two, the nightly subtotal with Quebec sales tax, and the
 * deposit. Every amount is rounded to the cent at every step, half-up, as
 * Math.round(amount * 100) / 100 does. Money is exact (`real`), so the model
 * states the rounding of the formula and not the artefacts of binary doubles.
 */
module Pricing {

  const TaxRate: real := 0.14975
  const DepositRate: real := 0.25
  const BaseOccupancy: real := 2.0
  const ExtraPersonFee: real := 6.0

  /** A whole number of cents. */
  predicate IsCents(x: real) {
    (x * 100.0).Floor as real == x * 100.0
  }

  /** Math.round(amount * 100) / 100: the whole number of cents nearest to
      `amount`, a half cent rounding up. */
  function RoundCurrency(amount: real): (r: real)
    ensures IsCents(r)
    ensures r - 0.005 <= amount < r + 0.005
  {
    var k := (amount * 100.0 + 0.5).Floor;
    assert (k as real / 100.0) * 100.0 == k as real;
    k as real / 100.0
  }

  function Max(a: real, b: real): real {
    if a >= b then a else b
  }

  /** The fee before rounding: six dollars per night for every adult beyond
      the first two. */
  function ExtraPersonAmount(adultsCount: real, nights: real): real {
    Max(0.0, adultsCount - BaseOccupancy) * ExtraPersonFee * nights
  }

  /** computeExtraPersonFee: the extra-person amount rounded to the cent. */
  function ComputeExtraPersonFee(adultsCount: real, nights: real): (fee: real)
    ensures IsCents(fee)
    ensures adultsCount <= BaseOccupancy ==> fee == 0.0
  {
    RoundCurrency(ExtraPersonAmount(adultsCount, nights))
  }

  /** computeTotalWithTax: the nightly subtotal plus the extra-person fee,
      then the tax on that, each step rounded to the cent. The adult count
      defaults to 0; children are not a parameter. */
  function ComputeTotalWithTax(pricePerNight: real, nights: real, adultsCount: real := 0.0): (total: real)
    ensures IsCents(total)
  {
    var baseSubtotal := RoundCurrency(pricePerNight * nights);
    var extraFee := ComputeExtraPersonFee(adultsCount, nights);
    var subtotal := RoundCurrency(baseSubtotal + extraFee);
    var taxAmount := RoundCurrency(subtotal * TaxRate);
    RoundCurrency(subtotal + taxAmount)
  }

  /** computeDeposit: a quarter of the total, rounded to the cent. */
  function ComputeDeposit(totalPrice: real): (deposit: real)
    ensures IsCents(deposit)
    ensures deposit - 0.005 <= totalPrice * DepositRate < deposit + 0.005
  {
    RoundCurrency(totalPrice * DepositRate)
  }

  // ---------------------------------------------------------------------
  // Rounding
  // ---------------------------------------------------------------------

  /** The two properties RoundCurrency promises determine its result: the
      cents value within half a cent below and strictly less than half a
      cent above the amount is unique. */
  lemma RoundCurrencyUnique(amount: real, c: real)
    requires IsCents(c)
    requires c - 0.005 <= amount < c + 0.005
    ensures RoundCurrency(amount) == c
  {
    var r := RoundCurrency(amount);
    var kc, kr := (c * 100.0).Floor, (r * 100.0).Floor;
    assert kc as real - 0.5 <= amount * 100.0 < kc as real + 0.5;
    assert kr as real - 0.5 <= amount * 100.0 < kr as real + 0.5;
    assert kc == kr;
  }

  /** Rounding an amount that already is whole cents changes nothing. */
  lemma RoundCurrencyOfCents(x: real)
    requires IsCents(x)
    ensures RoundCurrency(x) == x
  {
    RoundCurrencyUnique(x, x);
  }

  lemma RoundCurrencyIdempotent(x: real)
    ensures RoundCurrency(RoundCurrency(x)) == RoundCurrency(x)
  {
    RoundCurrencyOfCents(RoundCurrency(x));
  }

  /** Rounding never reverses the order of two amounts. */
  lemma RoundCurrencyMonotone(x: real, y: real)
    requires x <= y
    ensures RoundCurrency(x) <= RoundCurrency(y)
  {
    var kx, ky := (x * 100.0 + 0.5).Floor, (y * 100.0 + 0.5).Floor;
    assert kx <= ky;
  }

  /** Adding a whole number of cents before rounding adds it after. */
  lemma RoundCurrencyShift(x: real, c: real)
    requires IsCents(c)
    ensures RoundCurrency(x + c) == RoundCurrency(x) + c
  {
    var r := RoundCurrency(x);
    SumOfCents(r, c);
    RoundCurrencyUnique(x + c, r + c);
  }

  lemma SumOfCents(a: real, b: real)
    requires IsCents(a) && IsCents(b)
    ensures IsCents(a + b)
  {
    assert ((a * 100.0).Floor + (b * 100.0).Floor) as real == (a + b) * 100.0;
  }

  lemma IntegerIsCents(n: int)
    ensures IsCents(n as real)
  {
    assert (n as real) * 100.0 == (n * 100) as real;
  }

  // ---------------------------------------------------------------------
  // The extra-person fee
  // ---------------------------------------------------------------------

  /** With whole numbers of adults and nights, the fee is exactly six dollars
      per extra adult per night. */
  lemma ExtraPersonFeeExact(adults: int, nights: int)
    requires adults > 2
    ensures ComputeExtraPersonFee(adults as real, nights as real) == ((adults - 2) * 6 * nights) as real
  {
    var d := adults - 2;
    var x := d * 6 * nights;
    assert (d as real) * 6.0 == (d * 6) as real;
    assert ((d * 6) as real) * (nights as real) == x as real;
    assert ExtraPersonAmount(adults as real, nights as real) == x as real;
    IntegerIsCents(x);
    RoundCurrencyOfCents(x as real);
  }

  /** For any number of adults above two the fee is within half a cent of
      (adults - 2) * 6 * nights. */
  lemma ExtraPersonFeeNear(adultsCount: real, nights: real)
    requires adultsCount > BaseOccupancy
    ensures var exact := (adultsCount - BaseOccupancy) * ExtraPersonFee * nights;
            var fee := ComputeExtraPersonFee(adultsCount, nights);
            fee - 0.005 <= exact < fee + 0.005
  {
  }

  lemma ExtraPersonFeeExamples()
    ensures ComputeExtraPersonFee(0.0, 1.0) == 0.0
    ensures ComputeExtraPersonFee(1.0, 3.0) == 0.0
    ensures ComputeExtraPersonFee(2.0, 5.0) == 0.0
    ensures ComputeExtraPersonFee(3.0, 2.0) == 12.0
    ensures ComputeExtraPersonFee(4.0, 3.0) == 36.0
    ensures ComputeExtraPersonFee(5.0, 1.0) == 18.0
  {
    ExtraPersonFeeExact(3, 2);
    ExtraPersonFeeExact(4, 3);
    ExtraPersonFeeExact(5, 1);
  }

  // ---------------------------------------------------------------------
  // The total with tax
  // ---------------------------------------------------------------------

  /** The subtotal before tax: the rounded nightly price plus the fee. The
      rounding that the source applies to this sum is exact, because both
      terms are whole cents. */
  function Subtotal(pricePerNight: real, nights: real, adultsCount: real): (s: real)
    ensures IsCents(s)
  {
    var base := RoundCurrency(pricePerNight * nights);
    var fee := ComputeExtraPersonFee(adultsCount, nights);
    SumOfCents(base, fee);
    base + fee
  }

  /** The total is the subtotal plus the tax on the subtotal, the tax being
      rounded to the cent on its own; the final rounding changes nothing. */
  lemma TotalIsSubtotalPlusTax(pricePerNight: real, nights: real, adultsCount: real)
    ensures var s := Subtotal(pricePerNight, nights, adultsCount);
            ComputeTotalWithTax(pricePerNight, nights, adultsCount) == s + RoundCurrency(s * TaxRate)
  {
    var base := RoundCurrency(pricePerNight * nights);
    var fee := ComputeExtraPersonFee(adultsCount, nights);
    var s := base + fee;
    SumOfCents(base, fee);
    RoundCurrencyOfCents(s);
    var tax := RoundCurrency(s * TaxRate);
    SumOfCents(s, tax);
    RoundCurrencyOfCents(s + tax);
  }

  /** Rounding at every step keeps the total within about a cent of the
      taxed amount with the fee as charged: the error is the nightly
      rounding error carried through the tax plus the tax's own rounding
      error. */
  lemma TotalNearExact(pricePerNight: real, nights: real, adultsCount: real)
    ensures var taxed := (pricePerNight * nights + ComputeExtraPersonFee(adultsCount, nights)) * (1.0 + TaxRate);
            var total := ComputeTotalWithTax(pricePerNight, nights, adultsCount);
            taxed - 0.005 * (2.0 + TaxRate) < total <= taxed + 0.005 * (2.0 + TaxRate)
  {
    TotalIsSubtotalPlusTax(pricePerNight, nights, adultsCount);
  }

  /** No nights, no charge, whatever the price and the occupancy. */
  lemma NoNightsNoCharge(pricePerNight: real, adultsCount: real)
    ensures ComputeTotalWithTax(pricePerNight, 0.0, adultsCount) == 0.0
  {
    IntegerIsCents(0);
    RoundCurrencyOfCents(0.0);
  }

  /** Up to the base occupancy the number of adults does not matter, and an
      omitted adult count is one of those. */
  lemma BaseOccupancyNoFee(pricePerNight: real, nights: real, adultsCount: real)
    requires adultsCount <= BaseOccupancy
    ensures ComputeTotalWithTax(pricePerNight, nights, adultsCount) == ComputeTotalWithTax(pricePerNight, nights)
    ensures ComputeTotalWithTax(pricePerNight, nights) == RoundCurrency(RoundCurrency(pricePerNight * nights) + RoundCurrency(RoundCurrency(pricePerNight * nights) * TaxRate))
  {
    TotalIsSubtotalPlusTax(pricePerNight, nights, adultsCount);
    TotalIsSubtotalPlusTax(pricePerNight, nights, 0.0);
    var base := RoundCurrency(pricePerNight * nights);
    RoundCurrencyOfCents(base);
  }

  /** Rounding two amounts at least six dollars apart keeps them at least
      six dollars apart. */
  lemma RoundCurrencyGap(u: real, v: real)
    requires v >= u + 6.0
    ensures RoundCurrency(v) >= RoundCurrency(u) + 6.0
  {
    RoundCurrencyMonotone(u + 6.0, v);
    IntegerIsCents(6);
    RoundCurrencyShift(u, 6.0);
  }

  /** From the base occupancy on, each further adult adds at least six
      dollars to the fee for a stay of at least one night. */
  lemma ExtraAdultFeeStep(nights: real, adultsCount: real)
    requires nights >= 1.0 && adultsCount >= BaseOccupancy
    ensures ComputeExtraPersonFee(adultsCount + 1.0, nights) >= ComputeExtraPersonFee(adultsCount, nights) + 6.0
  {
    var x0 := ExtraPersonAmount(adultsCount, nights);
    var x1 := ExtraPersonAmount(adultsCount + 1.0, nights);
    assert x1 == x0 + 6.0 * nights by {
      var m0 := Max(0.0, adultsCount - BaseOccupancy);
      assert Max(0.0, adultsCount + 1.0 - BaseOccupancy) == m0 + 1.0;
      assert (m0 + 1.0) * ExtraPersonFee * nights == m0 * ExtraPersonFee * nights + 6.0 * nights;
    }
    RoundCurrencyGap(x0, x1);
  }

  /** From the base occupancy on, one more adult costs strictly more for a
      stay of at least one night. */
  lemma ExtraAdultCostsMore(pricePerNight: real, nights: real, adultsCount: real)
    requires nights >= 1.0 && adultsCount >= BaseOccupancy
    ensures ComputeTotalWithTax(pricePerNight, nights, adultsCount + 1.0) > ComputeTotalWithTax(pricePerNight, nights, adultsCount)
  {
    ExtraAdultFeeStep(nights, adultsCount);
    var s0 := Subtotal(pricePerNight, nights, adultsCount);
    var s1 := Subtotal(pricePerNight, nights, adultsCount + 1.0);
    assert s1 >= s0 + 6.0;
    assert s0 * TaxRate <= s1 * TaxRate;
    RoundCurrencyMonotone(s0 * TaxRate, s1 * TaxRate);
    TotalIsSubtotalPlusTax(pricePerNight, nights, adultsCount);
    TotalIsSubtotalPlusTax(pricePerNight, nights, adultsCount + 1.0);
  }

  /** The worked example: three nights at $50 for two adults. */
  lemma TotalExamples()
    ensures ComputeTotalWithTax(50.0, 3.0, 2.0) == 172.46
    ensures ComputeTotalWithTax(40.0, 2.0, 4.0) == 119.57
    ensures ComputeTotalWithTax(60.0, 1.0) == 68.99
    ensures ComputeTotalWithTax(50.0, 0.0, 2.0) == 0.0
  {
    TotalIsSubtotalPlusTax(50.0, 3.0, 2.0);
    RoundCurrencyUnique(150.0, 150.0);
    RoundCurrencyUnique(150.0 * TaxRate, 22.46);
    TotalIsSubtotalPlusTax(40.0, 2.0, 4.0);
    RoundCurrencyUnique(80.0, 80.0);
    ExtraPersonFeeExact(4, 2);
    RoundCurrencyUnique(104.0 * TaxRate, 15.57);
    TotalIsSubtotalPlusTax(60.0, 1.0, 0.0);
    RoundCurrencyUnique(60.0, 60.0);
    RoundCurrencyUnique(60.0 * TaxRate, 8.99);
    NoNightsNoCharge(50.0, 2.0);
  }

  // ---------------------------------------------------------------------
  // The deposit
  // ---------------------------------------------------------------------

  lemma DepositExamples()
    ensures ComputeDeposit(200.0) == 50.0
    ensures ComputeDeposit(33.33) == 8.33
    ensures ComputeDeposit(0.0) == 0.0
    ensures ComputeDeposit(172.46) == 43.12
  {
    RoundCurrencyUnique(50.0, 50.0);
    RoundCurrencyUnique(33.33 * DepositRate, 8.33);
    RoundCurrencyUnique(0.0, 0.0);
    RoundCurrencyUnique(172.46 * DepositRate, 43.12);
  }

  /** The deposit never exceeds the total it is taken from, and is never
      negative when the total is not. */
  lemma DepositWithinTotal(totalPrice: real)
    requires IsCents(totalPrice) && totalPrice >= 0.0
    ensures 0.0 <= ComputeDeposit(totalPrice) <= totalPrice
  {
    RoundCurrencyOfCents(0.0);
    RoundCurrencyMonotone(0.0, totalPrice * DepositRate);
    RoundCurrencyOfCents(totalPrice);
    RoundCurrencyMonotone(totalPrice * DepositRate, totalPrice);
  }
}
