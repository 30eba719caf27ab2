/** The GST calculator applied to every fee payment before a receipt is issued. */
module Gst {
  import opened Money

  /**
   * `calc_gst(amount, gst_percent)`: the tax is the percentage of the amount
   * rounded to paise, the total is amount plus tax rounded to paise.
   * Returns the pair (gst, total).
   */
  function CalcGst(amount: real, gstPercent: real): (r: (real, real))
    ensures IsCents(r.0) && IsCents(r.1)
    ensures -0.005 <= r.0 - amount * gstPercent / 100.0 <= 0.005
    ensures -0.005 <= r.1 - (amount + r.0) <= 0.005
  {
    var gst := Round2(amount * gstPercent / 100.0);
    var total := Round2(amount + gst);
    (gst, total)
  }

  /** On a whole-paise amount the total is exactly amount plus tax. */
  lemma TotalIsAmountPlusGst(amount: real, gstPercent: real)
    requires IsCents(amount)
    ensures CalcGst(amount, gstPercent).1 == amount + CalcGst(amount, gstPercent).0
  {
    var gst := CalcGst(amount, gstPercent).0;
    CentsSum(amount, gst);
    RoundCents(amount + gst);
  }

  /** Non-negative inputs give a non-negative tax and a total no smaller than the rounded amount. */
  lemma GstNonNegative(amount: real, gstPercent: real)
    requires amount >= 0.0 && gstPercent >= 0.0
    ensures CalcGst(amount, gstPercent).0 >= 0.0
    ensures CalcGst(amount, gstPercent).1 >= Round2(amount)
    ensures IsCents(amount) ==> CalcGst(amount, gstPercent).1 >= amount
  {
    var (gst, total) := CalcGst(amount, gstPercent);
    assert amount * gstPercent >= 0.0;
    RoundMonotone(0.0, amount * gstPercent / 100.0);
    RoundCents(0.0);
    RoundMonotone(amount, amount + gst);
    if IsCents(amount) {
      RoundCents(amount);
    }
  }

  /** A zero amount or a zero rate means no tax; the total is then the rounded amount. */
  lemma NoTaxOnZero(amount: real, gstPercent: real)
    requires amount == 0.0 || gstPercent == 0.0
    ensures CalcGst(amount, gstPercent).0 == 0.0
    ensures CalcGst(amount, gstPercent).1 == Round2(amount)
  {
    RoundCents(0.0);
  }

  /** The two worked cases: 18% on 100 and 18% on 0. */
  lemma GstExamples()
    ensures CalcGst(100.0, 18.0) == (18.0, 118.0)
    ensures CalcGst(0.0, 18.0) == (0.0, 0.0)
  {
    RoundCents(18.0);
    RoundCents(118.0);
    RoundCents(0.0);
  }
}
