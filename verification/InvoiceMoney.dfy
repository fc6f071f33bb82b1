/** Cent arithmetic of the invoice mapper (factus-invoice.mapper.ts). Amounts are integer cents and
    tax rates are hundredths of a percent, so SCALE stands for 100 %. Rounding is exact half-up. */
module InvoiceMoney {
  import opened Sequences

  const SCALE: int := 10_000

  /** `factusRound2`: the nearest integer to n/d, halves going up. */
  function Round(n: int, d: int): int
    requires d > 0
  {
    (2 * n + d) / (2 * d)
  }

  lemma RoundNearest(n: int, d: int, r: int)
    requires d > 0
    ensures r == Round(n, d) <==> 2 * d * r <= 2 * n + d < 2 * d * r + 2 * d
  {
    var q, m := (2 * n + d) / (2 * d), (2 * n + d) % (2 * d);
    assert 2 * n + d == 2 * d * q + m;
    if 2 * d * r <= 2 * n + d < 2 * d * r + 2 * d {
      SameQuotient(2 * d, q, m, r, 2 * n + d - 2 * d * r);
    }
  }

  lemma SameQuotient(d: int, q: int, m: int, r: int, k: int)
    requires d > 0 && 0 <= m < d && 0 <= k < d && d * q + m == d * r + k
    ensures q == r
  {
    if q < r {
      ProductNonNegative(d, r - q - 1);
    } else if r < q {
      ProductNonNegative(d, q - r - 1);
    }
  }

  lemma ProductNonNegative(a: int, b: int)
    requires a >= 0 && b >= 0
    ensures a * b >= 0
  {
  }

  datatype Tax = Tax(code: string, rate: int, isExcluded: bool)
  datatype TaxConfig = TaxConfig(pricesIncludeTax: bool, taxes: seq<Tax>)

  predicate Applies(t: Tax) { !t.isExcluded && t.rate > 0 }

  /** `combinedTaxRatePercent` */
  function CombinedRate(taxes: seq<Tax>): nat {
    if taxes == [] then 0
    else CombinedRate(taxes[..|taxes| - 1]) + var t := taxes[|taxes| - 1]; if Applies(t) then t.rate else 0
  }

  /** A tax adds its rate, unless it is excluded or not positive: then it adds nothing. */
  lemma {:induction false} TaxAddsItsRate(taxes: seq<Tax>, k: nat)
    requires k < |taxes|
    ensures CombinedRate(taxes) == CombinedRate(RemoveAt(taxes, k)) +
        if taxes[k].isExcluded || taxes[k].rate <= 0 then 0 else taxes[k].rate
    decreases |taxes|
  {
    var n := |taxes| - 1;
    if k < n {
      TaxAddsItsRate(taxes[..n], k);
      RemoveBeforeLast(taxes, k);
      assert RemoveAt(taxes, k)[..n - 1] == RemoveAt(taxes[..n], k);
    } else {
      assert RemoveAt(taxes, k) == taxes[..n];
    }
  }

  /** So such a tax changes no net price. */
  lemma IdleTaxKeepsNetPrice(gross: int, config: TaxConfig, k: nat)
    requires k < |config.taxes| && (config.taxes[k].isExcluded || config.taxes[k].rate <= 0)
    ensures NetPrice(gross, config) == NetPrice(gross, config.(taxes := RemoveAt(config.taxes, k)))
  {
    TaxAddsItsRate(config.taxes, k);
  }

  // ---------- Inverting the tax ----------

  /** What an invoice shows for one unit at net price `net`. */
  function WithTax(net: int, rate: nat): int {
    net + Round(net * rate, SCALE)
  }

  /** Round(gross / (1 + rate)) */
  function FirstGuess(gross: int, rate: nat): int {
    Round(gross * SCALE, SCALE + rate)
  }

  ghost predicate Closes(gross: int, rate: nat) {
    exists net :: WithTax(net, rate) == gross
  }

  lemma WithTaxBounds(net: int, rate: nat)
    ensures var gross := WithTax(net, rate);
            2 * SCALE * gross <= 2 * net * (SCALE + rate) + SCALE < 2 * SCALE * gross + 2 * SCALE
  {
    RoundNearest(net * rate, SCALE, Round(net * rate, SCALE));
    assert net * (SCALE + rate) == net * SCALE + net * rate;
  }

  /** Two nets never show the same gross. */
  lemma StrictlyMonotone(a: int, b: int, rate: nat)
    requires a < b
    ensures WithTax(a, rate) < WithTax(b, rate)
  {
    RoundNearest(a * rate, SCALE, Round(a * rate, SCALE));
    RoundNearest(b * rate, SCALE, Round(b * rate, SCALE));
    assert b * rate - a * rate == (b - a) * rate >= 0;
  }

  /** A net that closes is the first guess: the one-cent correction has nothing left to find. */
  lemma SolutionIsFirstGuess(net: int, gross: int, rate: nat)
    requires rate > 0 && WithTax(net, rate) == gross
    ensures net == FirstGuess(gross, rate)
  {
    WithTaxBounds(net, rate);
    var d := SCALE + rate;
    assert 2 * d * net == 2 * net * d;
    RoundNearest(gross * SCALE, d, net);
  }

  /** A gross can be shown exactly when this remainder is small; on the unlucky share rate/(100 % + rate)
      of amounts no net price at all adds up to it. */
  predicate Representable(gross: int, rate: nat) {
    (2 * SCALE * gross + SCALE - 1) % (2 * (SCALE + rate)) < 2 * SCALE
  }

  lemma ClosesExactlyWhen(gross: int, rate: nat)
    requires rate > 0
    ensures Closes(gross, rate) <==> Representable(gross, rate)
    ensures Closes(gross, rate) <==> WithTax(FirstGuess(gross, rate), rate) == gross
  {
    if Representable(gross, rate) {
      RepresentableCloses(gross, rate);
    }
    if net :| WithTax(net, rate) == gross {
      SolutionIsFirstGuess(net, gross, rate);
      ClosingIsRepresentable(net, gross, rate);
    }
  }

  lemma RepresentableCloses(gross: int, rate: nat)
    requires Representable(gross, rate)
    ensures Closes(gross, rate)
  {
    var d, x := 2 * (SCALE + rate), 2 * SCALE * gross + SCALE - 1;
    var net := x / d;
    assert x == d * net + x % d;
    assert d * net == 2 * net * (SCALE + rate);
    WithTaxBounds(net, rate);
    assert WithTax(net, rate) == gross;
  }

  lemma ClosingIsRepresentable(net: int, gross: int, rate: nat)
    requires rate > 0 && WithTax(net, rate) == gross
    ensures Representable(gross, rate)
  {
    var d, x := 2 * (SCALE + rate), 2 * SCALE * gross + SCALE - 1;
    WithTaxBounds(net, rate);
    assert d * net == 2 * net * (SCALE + rate);
    assert x == d * (x / d) + x % d;
    SameQuotient(d, x / d, x % d, net, x - d * net);
  }

  /** The guess recomputes to within 1 + rate/2 cents, so up to 100 % a miss is by exactly one cent. */
  lemma GuessMisses(gross: int, rate: nat)
    requires 0 < rate
    ensures var got := WithTax(FirstGuess(gross, rate), rate);
            && 2 * SCALE * (got - gross) <= 2 * SCALE + rate && 2 * SCALE * (gross - got) <= 2 * SCALE + rate
            && (rate <= SCALE ==> -1 <= got - gross <= 1)
  {
    var net := FirstGuess(gross, rate);
    RoundNearest(gross * SCALE, SCALE + rate, net);
    WithTaxBounds(net, rate);
    assert 2 * (SCALE + rate) * net == 2 * net * (SCALE + rate);
  }

  /** `netUnitPrice`: the net that closes whenever one exists, and otherwise the first guess. */
  method NetUnitPrice(grossUnit: int, taxConfig: TaxConfig) returns (net: int)
    ensures net == NetPrice(grossUnit, taxConfig)
    ensures !taxConfig.pricesIncludeTax || CombinedRate(taxConfig.taxes) == 0 ==> net == grossUnit
    ensures var rate := CombinedRate(taxConfig.taxes);
            taxConfig.pricesIncludeTax && rate > 0 ==>
              && (Representable(grossUnit, rate) <==> WithTax(net, rate) == grossUnit)
              && (forall n :: WithTax(n, rate) == grossUnit ==> n == net)
              && (!Representable(grossUnit, rate) && rate <= SCALE ==>
                    WithTax(net, rate) == grossUnit + 1 || WithTax(net, rate) == grossUnit - 1)
  {
    var totalRate := 0;
    for i := 0 to |taxConfig.taxes|
      invariant totalRate == CombinedRate(taxConfig.taxes[..i])
    {
      assert taxConfig.taxes[..i + 1][..i] == taxConfig.taxes[..i];
      if Applies(taxConfig.taxes[i]) { totalRate := totalRate + taxConfig.taxes[i].rate; }
    }
    assert taxConfig.taxes[..|taxConfig.taxes|] == taxConfig.taxes;
    if taxConfig.pricesIncludeTax && totalRate > 0 {
      var gross := grossUnit;
      net := Round(gross * SCALE, SCALE + totalRate);
      var tax := Round(net * totalRate, SCALE);
      var got := net + tax;
      ghost var guess := net;
      ClosesExactlyWhen(gross, totalRate);
      GuessMisses(gross, totalRate);
      if got != gross {
        net := net + (gross - got);
        tax := Round(net * totalRate, SCALE);
        got := net + tax;
        assert got != gross by { assert WithTax(net, totalRate) == got; }
        if got != gross {
          net := Round(gross * SCALE, SCALE + totalRate);
        }
      }
      forall n | WithTax(n, totalRate) == gross ensures n == net {
        SolutionIsFirstGuess(n, gross, totalRate);
      }
      return;
    }
    return grossUnit;
  }

  /** The value `netUnitPrice` returns. */
  function NetPrice(grossUnit: int, taxConfig: TaxConfig): int {
    var rate := CombinedRate(taxConfig.taxes);
    if taxConfig.pricesIncludeTax && rate > 0 then FirstGuess(grossUnit, rate) else grossUnit
  }

  /** The correction branch of `netUnitPrice` can never succeed: an adjusted net still does not close. */
  lemma CorrectionNeverCloses(gross: int, rate: nat)
    requires rate > 0
    ensures var got := WithTax(FirstGuess(gross, rate), rate);
            got != gross ==> WithTax(FirstGuess(gross, rate) + (gross - got), rate) != gross
  {
    var got := WithTax(FirstGuess(gross, rate), rate);
    if got != gross && WithTax(FirstGuess(gross, rate) + (gross - got), rate) == gross {
      SolutionIsFirstGuess(FirstGuess(gross, rate) + (gross - got), gross, rate);
    }
  }

  /** 2,500 pesos at the 8 % consumption tax cannot be shown exactly; 5,000 pesos at 19 % can. */
  lemma SomeMenuPricesNeverClose()
    ensures !Closes(250_000, 800) && Closes(500_000, 1900)
  {
    ClosesExactlyWhen(250_000, 800);
    ClosesExactlyWhen(500_000, 1900);
  }

  /** Over a whole unit price, before and after tax: |net (1 + rate) - gross| <= (1 + rate) / 2. */
  lemma NetPriceError(gross: int, rate: nat)
    ensures -(SCALE + rate) <= 2 * (FirstGuess(gross, rate) * (SCALE + rate) - gross * SCALE) <= SCALE + rate
  {
    RoundNearest(gross * SCALE, SCALE + rate, FirstGuess(gross, rate));
    assert 2 * (SCALE + rate) * FirstGuess(gross, rate) == 2 * (FirstGuess(gross, rate) * (SCALE + rate));
  }
}
