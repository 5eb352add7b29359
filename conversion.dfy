/**
  Display-currency conversion between Hong Kong dollars (the currency every
  amount is stored in) and Kazakhstani tenge: an amount is shown scaled by
  the exchange rate when the display currency is "KZT" and as it is for any
  other currency code, and an amount typed in the display currency is
  scaled back. Amounts are exact reals here, so the round trip that the
  conversion script checks to within 0.01 holds with equality.
 */
module Conversion {
  import RealArith

  /** `toDisplayCurrency(hkdAmount, currency, exchangeRate)`. */
  function ToDisplayCurrency(hkdAmount: real, currency: string, exchangeRate: real): (r: real)
    ensures currency == "KZT" ==> r == hkdAmount * exchangeRate
    ensures currency != "KZT" ==> r == hkdAmount
  {
    if currency == "KZT" then hkdAmount * exchangeRate else hkdAmount
  }

  /** `toHKD(displayAmount, currency, exchangeRate)`; a zero rate in KZT mode has no real quotient. */
  function ToHkd(displayAmount: real, currency: string, exchangeRate: real): (r: real)
    requires currency == "KZT" ==> exchangeRate != 0.0
    ensures currency == "KZT" ==> r * exchangeRate == displayAmount
    ensures currency != "KZT" ==> r == displayAmount
  {
    if currency == "KZT" then displayAmount / exchangeRate else displayAmount
  }

  /** Storing what is displayed gives back the stored amount, in every currency. */
  lemma RoundTrip(hkdAmount: real, currency: string, exchangeRate: real)
    requires exchangeRate != 0.0
    ensures ToHkd(ToDisplayCurrency(hkdAmount, currency, exchangeRate), currency, exchangeRate) == hkdAmount
  {
  }

  /** Displaying what was stored from a typed amount shows that amount again. */
  lemma RoundTripFromDisplay(displayAmount: real, currency: string, exchangeRate: real)
    requires exchangeRate != 0.0
    ensures ToDisplayCurrency(ToHkd(displayAmount, currency, exchangeRate), currency, exchangeRate) == displayAmount
  {
  }

  /** Conversion is linear in the amount: it maps sums to sums, multiples to multiples and 0 to 0. */
  lemma DisplayIsLinear(a: real, b: real, k: real, currency: string, exchangeRate: real)
    ensures ToDisplayCurrency(a + b, currency, exchangeRate)
         == ToDisplayCurrency(a, currency, exchangeRate) + ToDisplayCurrency(b, currency, exchangeRate)
    ensures ToDisplayCurrency(k * a, currency, exchangeRate) == k * ToDisplayCurrency(a, currency, exchangeRate)
    ensures ToDisplayCurrency(0.0, currency, exchangeRate) == 0.0
  {
    if currency == "KZT" {
      assert (a + b) * exchangeRate == a * exchangeRate + b * exchangeRate;
      assert (k * a) * exchangeRate == k * (a * exchangeRate);
    }
  }

  /** Conversion is monotone for a positive rate: a larger price is displayed as a larger price. */
  lemma DisplayIsMonotone(a: real, b: real, currency: string, exchangeRate: real)
    requires exchangeRate > 0.0 && a <= b
    ensures ToDisplayCurrency(a, currency, exchangeRate) <= ToDisplayCurrency(b, currency, exchangeRate)
  {
    if currency == "KZT" {
      RealArith.MulMonotone(exchangeRate, a, b);
    }
  }

  /** The cases the conversion script asserts, at its rate of 59 tenge per dollar. */
  lemma ScriptCases()
    ensures ToDisplayCurrency(8903.0, "KZT", 59.0) == 8903.0 * 59.0
    ensures ToHkd(600000.0, "KZT", 59.0) - 10169.49 < 0.01
    ensures 10169.49 - ToHkd(600000.0, "KZT", 59.0) < 0.01
    ensures ToDisplayCurrency(ToHkd(600000.0, "KZT", 59.0), "HKD", 59.0) == ToHkd(600000.0, "KZT", 59.0)
    ensures ToHkd(ToDisplayCurrency(8903.0, "KZT", 59.0), "KZT", 59.0) == 8903.0
    ensures ToDisplayCurrency(3876.0, "KZT", 59.0) == 3876.0 * 59.0
    ensures ToDisplayCurrency(182.0, "KZT", 59.0) == 182.0 * 59.0
    ensures ToDisplayCurrency(100.0, "KZT", 59.0) == 100.0 * 59.0
    ensures ToDisplayCurrency(0.0, "KZT", 59.0) == 0.0
  {
    RoundTrip(8903.0, "KZT", 59.0);
  }
}
