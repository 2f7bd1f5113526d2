/** The portfolio metrics hook: one pass over the user's holdings that adds
    up what was paid, what the holdings are worth at the latest close, and the
    dividend income they yield, followed by the return on investment derived
    from the first two.

    Each holding triggers two lookups, the latest price record and then the
    latest fundamentals record. Their outcomes are inputs here (`Observed`):
    a lookup throws, or returns its latest record if there is one. */
module PortfolioMetrics {
  import opened Wrappers

  /** A holding as stored; a missing cost basis is `None`. */
  datatype Holding = Holding(ticker: string, shares: real, costBasis: Option<real>)

  datatype PriceRecord = PriceRecord(close: Option<real>)

  datatype FundamentalRecord = FundamentalRecord(dividendYield: Option<real>)

  /** The outcome of one "latest record" query: it throws, or it returns the
      newest record, None when the result list is empty or missing. */
  datatype Lookup<T> = Throws | Found(latest: Option<T>)

  /** A holding together with the outcomes of its two lookups. */
  datatype Observed = Observed(
    holding: Holding,
    price: Lookup<PriceRecord>,
    fundamentals: Lookup<FundamentalRecord>)

  /** The three running totals of the pass. */
  datatype Totals = Totals(cost: real, market: real, income: real)

  const Zero := Totals(0.0, 0.0, 0.0)

  function Plus(a: Totals, b: Totals): Totals
  {
    Totals(a.cost + b.cost, a.market + b.market, a.income + b.income)
  }

  /** `v || 0` for an optional amount: a missing amount and zero both give
      zero. */
  function OrZero(v: Option<real>): real
  {
    match v
    case None => 0.0
    case Some(x) => x
  }

  /** What the holding cost: shares times cost basis (or 0). */
  function HoldingCost(h: Holding): real
  {
    h.shares * OrZero(h.costBasis)
  }

  /** The price the pass values a holding at once its price lookup returned:
      the latest close when there is a record with a non-zero close, otherwise
      the cost basis (or 0). */
  function CurrentPrice(h: Holding, latest: Option<PriceRecord>): (p: real)
    ensures latest.Some? && latest.value.close.Some? && latest.value.close.value != 0.0 ==> p == latest.value.close.value
    ensures latest.None? || latest.value.close.None? || latest.value.close.value == 0.0 ==> p == OrZero(h.costBasis)
  {
    var fallback := OrZero(h.costBasis);
    match latest
    case None => fallback
    case Some(rec) => if rec.close.Some? && rec.close.value != 0.0 then rec.close.value else fallback
  }

  /** The try block for one holding, statement by statement: the totals it
      has updated when it finishes or throws, and whether it threw. Market value
      is added before the fundamentals lookup, so a throw there keeps it. */
  function TryBlock(o: Observed, t: Totals): (Totals, bool)
  {
    match o.price
    case Throws => (t, true)
    case Found(latest) =>
      var currentPrice := CurrentPrice(o.holding, latest);
      var t1 := t.(market := t.market + o.holding.shares * currentPrice);
      match o.fundamentals
      case Throws => (t1, true)
      case Found(None) => (t1, false)
      case Found(Some(f)) =>
        (t1.(income := t1.income + (o.holding.shares * currentPrice) * OrZero(f.dividendYield)), false)
  }

  /** One iteration of the loop: add the holding's cost, run the try block,
      and on a throw add the holding's cost to market value as well. */
  function Step(t: Totals, o: Observed): Totals
  {
    var holdingCost := HoldingCost(o.holding);
    var t0 := t.(cost := t.cost + holdingCost);
    var (t1, threw) := TryBlock(o, t0);
    if threw then t1.(market := t1.market + holdingCost) else t1
  }

  /** The totals after the first `|obs|` iterations. */
  function Fold(obs: seq<Observed>): Totals
    decreases |obs|
  {
    if |obs| == 0 then Zero else Step(Fold(obs[..|obs| - 1]), obs[|obs| - 1])
  }

  /** What one holding adds to the totals, by lookup outcome:
      its cost always; at a price-lookup throw, its cost to market value and
      nothing to income; at a fundamentals throw, shares times price plus its
      cost to market value (the cost is counted twice) and nothing to income;
      otherwise shares times price to market value, and shares times price
      times the yield (or 0) to income when a fundamentals record exists. */
  lemma StepAdds(t: Totals, o: Observed)
    ensures Step(t, o).cost == t.cost + HoldingCost(o.holding)
    ensures o.price.Throws? ==>
              Step(t, o).market == t.market + HoldingCost(o.holding) && Step(t, o).income == t.income
    ensures o.price.Found? && o.fundamentals.Throws? ==>
              && Step(t, o).market == t.market + o.holding.shares * CurrentPrice(o.holding, o.price.latest) + HoldingCost(o.holding)
              && Step(t, o).income == t.income
    ensures o.price.Found? && o.fundamentals.Found? ==>
              && Step(t, o).market == t.market + o.holding.shares * CurrentPrice(o.holding, o.price.latest)
              && Step(t, o).income == t.income +
                   (if o.fundamentals.latest.None? then 0.0
                    else o.holding.shares * CurrentPrice(o.holding, o.price.latest) * OrZero(o.fundamentals.latest.value.dividendYield))
  {
  }

  /** A holding's contribution does not depend on the totals it is added to. */
  lemma StepIsTranslation(t: Totals, o: Observed)
    ensures Step(t, o) == Plus(t, Step(Zero, o))
  {
  }

  /** The totals over two runs of holdings are the sum of the totals over
      each run: no holding's contribution depends on its neighbours. */
  lemma {:induction false} FoldConcat(a: seq<Observed>, b: seq<Observed>)
    ensures Fold(a + b) == Plus(Fold(a), Fold(b))
    decreases |b|
  {
    if |b| == 0 {
      assert a + b == a;
    } else {
      var b' := b[..|b| - 1];
      var x := b[|b| - 1];
      assert (a + b)[..|a + b| - 1] == a + b';
      assert (a + b)[|a + b| - 1] == x;
      FoldConcat(a, b');
      StepIsTranslation(Fold(a + b'), x);
      StepIsTranslation(Fold(b'), x);
    }
  }

  /** The totals do not depend on the order the holdings are listed in:
      swapping two runs of holdings gives the same totals. */
  lemma FoldSwap(a: seq<Observed>, b: seq<Observed>)
    ensures Fold(a + b) == Fold(b + a)
  {
    FoldConcat(a, b);
    FoldConcat(b, a);
  }

  /** Taking `b[j]`, the first element of `a`, out of both sequences keeps
      them permutations of each other. */
  lemma RemoveMatching(a: seq<Observed>, b: seq<Observed>, j: nat)
    requires multiset(a) == multiset(b) && |a| > 0 && j < |b| && b[j] == a[0]
    ensures multiset(a[1..]) == multiset(b[..j] + b[j + 1..])
  {
    var x := a[0];
    var rest := b[..j] + b[j + 1..];
    assert b == b[..j] + ([x] + b[j + 1..]);
    assert a == [x] + a[1..];
    assert multiset(b) == multiset(b[..j]) + multiset([x] + b[j + 1..]);
    assert multiset([x] + b[j + 1..]) == multiset{x} + multiset(b[j + 1..]);
    assert multiset(rest) == multiset(b[..j]) + multiset(b[j + 1..]);
    assert multiset(a) == multiset{x} + multiset(a[1..]);
    forall y ensures multiset(a[1..])[y] == multiset(rest)[y] {
      assert multiset(a)[y] == multiset{x}[y] + multiset(a[1..])[y];
      assert multiset(b)[y] == multiset{x}[y] + multiset(rest)[y];
    }
  }

  /** The totals are those of any one holding plus those of the others. */
  lemma FoldExtract(b: seq<Observed>, j: nat)
    requires j < |b|
    ensures Fold(b) == Plus(Fold([b[j]]), Fold(b[..j] + b[j + 1..]))
  {
    assert b == b[..j] + ([b[j]] + b[j + 1..]);
    FoldConcat(b[..j], [b[j]] + b[j + 1..]);
    FoldConcat([b[j]], b[j + 1..]);
    FoldConcat(b[..j], b[j + 1..]);
  }

  /** The totals do not depend on the order of the holdings at all: any
      permutation of them gives the same totals. */
  lemma {:induction false} FoldPermutation(a: seq<Observed>, b: seq<Observed>)
    requires multiset(a) == multiset(b)
    ensures Fold(a) == Fold(b)
    decreases |a|
  {
    if |a| > 0 {
      assert a[0] in multiset(b);
      var j :| 0 <= j < |b| && b[j] == a[0];
      RemoveMatching(a, b, j);
      FoldPermutation(a[1..], b[..j] + b[j + 1..]);
      FoldExtract(b, j);
      assert a == [a[0]] + a[1..];
      FoldConcat([a[0]], a[1..]);
    }
  }

  /** Sum of the holdings' costs, a definition independent of the loop. */
  function SumCost(obs: seq<Observed>): real
  {
    if |obs| == 0 then 0.0 else HoldingCost(obs[0].holding) + SumCost(obs[1..])
  }

  /** Total invested is the sum of shares times cost basis (or 0) over all
      holdings, whatever their lookups did. */
  lemma {:induction false} TotalInvestedIsSumOfCosts(obs: seq<Observed>)
    ensures Fold(obs).cost == SumCost(obs)
    decreases |obs|
  {
    if |obs| > 0 {
      assert obs == [obs[0]] + obs[1..];
      FoldConcat([obs[0]], obs[1..]);
      assert [obs[0]][..0] == [];
      TotalInvestedIsSumOfCosts(obs[1..]);
    }
  }

  // ----- The double count, and the evidently intended pass -----

  /** The recorded example with the fundamentals lookup throwing: the holding
      is worth 3500 at its latest close, yet the pass adds 3500 and then its
      cost of 3000, so market value reads 6500. */
  lemma DoubleCountExample()
    ensures var o := Observed(Holding("MSFT", 10.0, Some(300.0)),
                              Found(Some(PriceRecord(Some(350.0)))),
                              Throws);
            && Fold([o]) == Totals(3000.0, 6500.0, 0.0)
            && FoldIntended([o]) == Totals(3000.0, 3500.0, 0.0)
  {
    var o := Observed(Holding("MSFT", 10.0, Some(300.0)),
                      Found(Some(PriceRecord(Some(350.0)))),
                      Throws);
    assert [o][..0] == [];
  }

  /** The value a holding should add to market value, once: shares times
      price when the price lookup returned, its cost when it threw. */
  function Valuation(o: Observed): real
  {
    match o.price
    case Throws => HoldingCost(o.holding)
    case Found(latest) => o.holding.shares * CurrentPrice(o.holding, latest)
  }

  /** One iteration with the fallback to cost taken only when no price was
      added, so a failing fundamentals lookup loses the income and nothing
      else. */
  function IntendedStep(t: Totals, o: Observed): Totals
  {
    var holdingCost := HoldingCost(o.holding);
    var t0 := t.(cost := t.cost + holdingCost);
    var (t1, _) := TryBlock(o, t0);
    if o.price.Throws? then t1.(market := t1.market + holdingCost) else t1
  }

  function FoldIntended(obs: seq<Observed>): Totals
    decreases |obs|
  {
    if |obs| == 0 then Zero else IntendedStep(FoldIntended(obs[..|obs| - 1]), obs[|obs| - 1])
  }

  /** Sum of the holdings' valuations. */
  function SumValuation(obs: seq<Observed>): real
    decreases |obs|
  {
    if |obs| == 0 then 0.0 else SumValuation(obs[..|obs| - 1]) + Valuation(obs[|obs| - 1])
  }

  /** Sum of the costs of the holdings whose price lookup returned and whose
      fundamentals lookup then threw. */
  function SumDoubleCounted(obs: seq<Observed>): real
    decreases |obs|
  {
    if |obs| == 0 then 0.0
    else
      var o := obs[|obs| - 1];
      SumDoubleCounted(obs[..|obs| - 1])
      + (if o.price.Found? && o.fundamentals.Throws? then HoldingCost(o.holding) else 0.0)
  }

  /** The intended pass values every holding exactly once, and has the same
      cost and income totals as the pass as written. */
  lemma {:induction false} IntendedMarketIsSumOfValuations(obs: seq<Observed>)
    ensures FoldIntended(obs).market == SumValuation(obs)
    ensures FoldIntended(obs).cost == Fold(obs).cost
    ensures FoldIntended(obs).income == Fold(obs).income
    decreases |obs|
  {
    if |obs| > 0 {
      IntendedMarketIsSumOfValuations(obs[..|obs| - 1]);
    }
  }

  /** The market value of the pass as written: every holding's valuation,
      plus, for each holding whose fundamentals lookup threw after its price
      was added, its cost a second time. */
  lemma {:induction false} AsWrittenMarket(obs: seq<Observed>)
    ensures Fold(obs).market == SumValuation(obs) + SumDoubleCounted(obs)
    decreases |obs|
  {
    if |obs| > 0 {
      var init, o := obs[..|obs| - 1], obs[|obs| - 1];
      AsWrittenMarket(init);
      assert Fold(obs) == Step(Fold(init), o);
      assert SumValuation(obs) == SumValuation(init) + Valuation(o);
      StepAdds(Fold(init), o);
    }
  }

  /** The pass as written overstates market value by exactly the costs of
      the holdings whose fundamentals lookup threw after their price was
      added. */
  lemma AsWrittenOverstatesMarket(obs: seq<Observed>)
    ensures Fold(obs).market == FoldIntended(obs).market + SumDoubleCounted(obs)
  {
    AsWrittenMarket(obs);
    IntendedMarketIsSumOfValuations(obs);
  }

  /** The hook's state after a pass. */
  datatype Metrics = Metrics(
    totalInvested: real,
    marketValue: real,
    annualIncome: real,
    holdingsTickers: seq<string>)

  /** `calculateMetrics`: the loop over the holdings. Its totals are the fold
      of the per-holding steps: total invested is the sum of the costs, and
      market value is the sum of the valuations plus the costs the catch block
      counts a second time. The ticker list holds every holding's ticker in
      input order, duplicates and failed lookups included. */
  method CalculateMetrics(holdings: seq<Observed>) returns (m: Metrics)
    ensures Totals(m.totalInvested, m.marketValue, m.annualIncome) == Fold(holdings)
    ensures m.totalInvested == SumCost(holdings)
    ensures m.marketValue == SumValuation(holdings) + SumDoubleCounted(holdings)
    ensures |m.holdingsTickers| == |holdings|
    ensures forall i :: 0 <= i < |holdings| ==> m.holdingsTickers[i] == holdings[i].holding.ticker
  {
    var costTotal, marketTotal, incomeTotal := 0.0, 0.0, 0.0;
    var tickers: seq<string> := [];
    var i := 0;
    while i < |holdings|
      invariant 0 <= i <= |holdings|
      invariant Totals(costTotal, marketTotal, incomeTotal) == Fold(holdings[..i])
      invariant |tickers| == i
      invariant forall k :: 0 <= k < i ==> tickers[k] == holdings[k].holding.ticker
    {
      ghost var before := Totals(costTotal, marketTotal, incomeTotal);
      var holding := holdings[i].holding;
      tickers := tickers + [holding.ticker];
      var holdingCost := holding.shares * OrZero(holding.costBasis);
      costTotal := costTotal + holdingCost;
      var threw := false;
      match holdings[i].price {
        case Throws =>
          threw := true;
        case Found(latest) =>
          var currentPrice := CurrentPrice(holding, latest);
          marketTotal := marketTotal + holding.shares * currentPrice;
          match holdings[i].fundamentals {
            case Throws =>
              threw := true;
            case Found(fundamentals) =>
              if fundamentals.Some? {
                var yieldPct := OrZero(fundamentals.value.dividendYield);
                incomeTotal := incomeTotal + (holding.shares * currentPrice) * yieldPct;
              }
          }
      }
      if threw {
        marketTotal := marketTotal + holdingCost;
      }
      assert Totals(costTotal, marketTotal, incomeTotal) == Step(before, holdings[i]);
      assert holdings[..i + 1][..i] == holdings[..i];
      i := i + 1;
    }
    assert holdings[..i] == holdings;
    TotalInvestedIsSumOfCosts(holdings);
    AsWrittenMarket(holdings);
    m := Metrics(costTotal, marketTotal, incomeTotal, tickers);
  }

  /** `roiPercentage`: zero when nothing was invested, otherwise the gain as a
      percentage of the amount invested. */
  function RoiPercentage(totalInvested: real, marketValue: real): (r: real)
    ensures totalInvested <= 0.0 ==> r == 0.0
    ensures totalInvested > 0.0 ==> r * totalInvested == (marketValue - totalInvested) * 100.0
  {
    if totalInvested > 0.0 then ((marketValue - totalInvested) / totalInvested) * 100.0 else 0.0
  }

  /** `isPositive`: the return on investment is not negative, which is
      exactly when nothing was invested or the holdings are worth at least
      what they cost. */
  predicate IsPositive(totalInvested: real, marketValue: real)
    ensures IsPositive(totalInvested, marketValue) <==> totalInvested <= 0.0 || marketValue >= totalInvested
  {
    RoiPercentage(totalInvested, marketValue) >= 0.0
  }

  /** The recorded example: ten shares bought at 300, last closed at 350,
      yielding 2 percent, were 3000 invested, are worth 3500, pay 70 a year,
      and return 50/3 percent (about 16.67). No lookup throws, so the pass
      as written and the corrected pass agree. */
  lemma WorkedExample()
    ensures var o := Observed(Holding("MSFT", 10.0, Some(300.0)),
                              Found(Some(PriceRecord(Some(350.0)))),
                              Found(Some(FundamentalRecord(Some(0.02)))));
            && Fold([o]) == Totals(3000.0, 3500.0, 70.0)
            && FoldIntended([o]) == Fold([o])
            && RoiPercentage(3000.0, 3500.0) == 50.0 / 3.0
            && IsPositive(3000.0, 3500.0)
  {
    var o := Observed(Holding("MSFT", 10.0, Some(300.0)),
                      Found(Some(PriceRecord(Some(350.0)))),
                      Found(Some(FundamentalRecord(Some(0.02)))));
    assert [o][..0] == [];
  }
}
