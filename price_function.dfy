// The market price function of one tradeable's book: the cost of buying the
// cheapest x units, the average price (cost per unit), the marginal price,
// and the analytical, piecewise c0 + c1 / x form of the average price.
module PriceFunction {
  import opened Numbers
  import opened OrderBook

  /** The amount on offer in the book. */
  function Depth(b: seq<Offer>): real
  {
    if b == [] then 0.0 else b[0].amount + Depth(b[1..])
  }

  /** The price of buying every unit of `s`. */
  function Spend(s: seq<Offer>): real
  {
    if s == [] then 0.0 else s[0].amount * s[0].price + Spend(s[1..])
  }

  /** The cost of buying the cheapest `x` units, offer after offer in book order. */
  function Cost(b: seq<Offer>, x: real): real
  {
    if b == [] then 0.0
    else if x <= b[0].amount then b[0].price * x
    else b[0].price * b[0].amount + Cost(b[1..], x - b[0].amount)
  }

  /**
   * The price function's getPrice(x): the cost per unit of the cheapest x units;
   * at 0 it is the spot price; NaN for an empty book or beyond the book's depth.
   */
  function AveragePrice(b: seq<Offer>, x: real): Num
  {
    if b == [] || x > Depth(b) then NaN
    else if x <= 0.0 then Finite(b[0].price)
    else Finite(Cost(b, x) / x)
  }

  /** The price of the unit bought at cumulative amount `x`, NaN beyond the book's depth. */
  function MarginalPrice(b: seq<Offer>, x: real): Num
  {
    if b == [] then NaN
    else if x <= b[0].amount then Finite(b[0].price)
    else MarginalPrice(b[1..], x - b[0].amount)
  }

  lemma {:induction false} DepthPositive(b: seq<Offer>)
    requires Live(b)
    ensures Depth(b) >= 0.0
    ensures b != [] ==> Depth(b) >= b[0].amount > 0.0
  {
    if b != [] {
      assert b[0] in b;
      DepthPositive(b[1..]);
    }
  }

  /** Depth of the first k offers, the k-th boundary of the step functions. */
  lemma {:induction false} PrefixDepth(b: seq<Offer>, k: nat)
    requires Live(b) && 0 < k <= |b|
    ensures Depth(b[..k]) == b[0].amount + Depth(b[1..][..k - 1])
    ensures Spend(b[..k]) == b[0].amount * b[0].price + Spend(b[1..][..k - 1])
    ensures Live(b[1..])
  {
    assert b[..k][1..] == b[1..][..k - 1];
  }

  /**
   * At a boundary of the cumulative amounts, the cost is what the fully consumed
   * offers cost together, so the average price there is their weighted average.
   */
  lemma {:induction false} CostAtBoundary(b: seq<Offer>, k: nat)
    requires Live(b) && k <= |b|
    ensures Cost(b, Depth(b[..k])) == Spend(b[..k])
    ensures 0 < k ==> Depth(b[..k]) > 0.0 && AveragePrice(b, Depth(b[..k])) == Finite(Spend(b[..k]) / Depth(b[..k]))
  {
    if k == 0 {
      assert b[..k] == [];
    } else {
      PrefixDepth(b, k);
      assert b[0] in b;
      var t := b[1..];
      DepthPositive(t[..k - 1]);
      if k == 1 {
        assert t[..0] == [];
      } else {
        assert t[..k - 1] != [];
        assert t[..k - 1][0] == t[0] && t[0] in t;
        CostAtBoundary(t, k - 1);
      }
      PrefixNotDeeper(b, k);
      DepthPositive(b[..k]);
      assert b[..k][0] == b[0];
    }
  }

  lemma {:induction false} PrefixNotDeeper(b: seq<Offer>, k: nat)
    requires Live(b) && k <= |b|
    ensures Depth(b[..k]) <= Depth(b)
  {
    if k > 0 {
      PrefixDepth(b, k);
      PrefixNotDeeper(b[1..], k - 1);
      assert Depth(b) == b[0].amount + Depth(b[1..]);
    } else {
      assert b[..k] == [];
      DepthPositive(b);
    }
  }

  /**
   * The marginal price is a left-continuous step function: it is the price of
   * offer k on the whole interval (boundary k, boundary k + 1], right end included.
   */
  lemma {:induction false} MarginalStep(b: seq<Offer>, k: nat, x: real)
    requires Live(b) && k < |b|
    requires Depth(b[..k]) < x <= Depth(b[..k + 1])
    ensures MarginalPrice(b, x) == Finite(b[k].price)
  {
    PrefixDepth(b, k + 1);
    var t := b[1..];
    if k == 0 {
      assert b[..0] == [] && t[..0] == [];
    } else {
      PrefixDepth(b, k);
      DepthPositive(t[..k - 1]);
      assert b[0] in b;
      MarginalStep(t, k - 1, x - b[0].amount);
    }
  }

  /** Beyond the book's depth there is no marginal price. */
  lemma {:induction false} MarginalBeyondDepth(b: seq<Offer>, x: real)
    requires Live(b) && x > Depth(b)
    ensures MarginalPrice(b, x) == NaN
  {
    if b != [] {
      DepthPositive(b[1..]);
      assert Live(b[1..]);
      MarginalBeyondDepth(b[1..], x - b[0].amount);
    }
  }

  /** getPrice(0) and, when the cheapest offer holds a unit, getPrice(1) are the spot price. */
  lemma AverageNearZeroIsSpot(b: seq<Offer>)
    requires Live(b) && b != []
    ensures AveragePrice(b, 0.0) == Spot(b)
    ensures b[0].amount >= 1.0 ==> AveragePrice(b, 1.0) == Spot(b)
  {
    DepthPositive(b);
  }

  /** One interval of the analytical average price: price(x) = c0 + c1 / x for x in [left, right]. */
  datatype PriceFunctionConfig = PriceFunctionConfig(
    intervalLeftBoundary: real,
    intervalRightBoundary: real,
    coefficientXPower0: real,
    coefficientXPowerMinus1: real)

  function Analytic(cfg: PriceFunctionConfig, x: real): real
    requires x != 0.0
  {
    cfg.coefficientXPower0 + cfg.coefficientXPowerMinus1 / x
  }

  /**
   * The intervals of the offers in `b` that the budget reaches, after `a` units
   * costing `c` have been bought from earlier offers; the last interval ends
   * where the budget runs out.
   */
  function ConfigsFrom(b: seq<Offer>, budget: real, a: real, c: real): seq<PriceFunctionConfig>
    decreases |b|
  {
    if b == [] || c >= budget then []
    else
      var o := b[0];
      var full := c + o.price * o.amount;
      var right := if full > budget then a + (budget - c) / o.price else a + o.amount;
      [PriceFunctionConfig(a, right, o.price, c - o.price * a)] + ConfigsFrom(b[1..], budget, a + o.amount, full)
  }

  function AnalyticalPriceFunctionParameters(b: seq<Offer>, maxBudget: real): seq<PriceFunctionConfig>
  {
    ConfigsFrom(b, maxBudget, 0.0, 0.0)
  }

  lemma DivBelow(u: real, p: real, n: real)
    requires p > 0.0 && 0.0 < u < p * n
    ensures 0.0 < u / p < n
  {
    assert u / p * p == u;
  }

  /** The right end of the interval of the cheapest offer: where the budget runs out, or where the offer does. */
  function HeadRight(b: seq<Offer>, budget: real, a: real, c: real): real
    requires b != [] && c < budget
  {
    var o := b[0];
    if c + o.price * o.amount > budget then a + (budget - c) / o.price else a + o.amount
  }

  lemma ConfigsUnfold(b: seq<Offer>, budget: real, a: real, c: real, a': real, full: real)
    requires b != [] && c < budget
    requires a' == a + b[0].amount && full == c + b[0].price * b[0].amount
    ensures |ConfigsFrom(b, budget, a, c)| == 1 + |ConfigsFrom(b[1..], budget, a', full)|
    ensures ConfigsFrom(b, budget, a, c)[0] == PriceFunctionConfig(a, HeadRight(b, budget, a, c), b[0].price, c - b[0].price * a)
    ensures forall k :: 0 < k < |ConfigsFrom(b, budget, a, c)| ==> ConfigsFrom(b, budget, a, c)[k] == ConfigsFrom(b[1..], budget, a', full)[k - 1]
    ensures full > budget ==> ConfigsFrom(b[1..], budget, a', full) == []
  {
  }

  lemma HeadBounds(b: seq<Offer>, budget: real, a: real, c: real)
    requires Live(b) && b != [] && c < budget
    ensures a < HeadRight(b, budget, a, c) <= a + b[0].amount
    ensures c + b[0].price * b[0].amount <= budget ==> HeadRight(b, budget, a, c) == a + b[0].amount
  {
    var o := b[0];
    assert o in b;
    if c + o.price * o.amount > budget {
      DivBelow(budget - c, o.price, o.amount);
    }
  }

  /** Each interval is a proper interval inside the book, and each starts where the previous one ends. */
  lemma {:induction false} ConfigBounds(b: seq<Offer>, budget: real, a: real, c: real, k: nat)
    requires Live(b)
    requires k < |ConfigsFrom(b, budget, a, c)|
    ensures a <= ConfigsFrom(b, budget, a, c)[k].intervalLeftBoundary < ConfigsFrom(b, budget, a, c)[k].intervalRightBoundary <= a + Depth(b)
    ensures k == 0 ==> ConfigsFrom(b, budget, a, c)[k].intervalLeftBoundary == a
    ensures k + 1 < |ConfigsFrom(b, budget, a, c)| ==> ConfigsFrom(b, budget, a, c)[k].intervalRightBoundary == ConfigsFrom(b, budget, a, c)[k + 1].intervalLeftBoundary
  {
    var o := b[0];
    var full := c + o.price * o.amount;
    var a' := a + o.amount;
    var r := ConfigsFrom(b, budget, a, c);
    var t := ConfigsFrom(b[1..], budget, a', full);
    ConfigsUnfold(b, budget, a, c, a', full);
    HeadBounds(b, budget, a, c);
    assert Live(b[1..]);
    DepthPositive(b[1..]);
    assert Depth(b) == o.amount + Depth(b[1..]);
    if k > 0 {
      ConfigBounds(b[1..], budget, a', full, k - 1);
      assert r[k] == t[k - 1];
      if k + 1 < |r| {
        assert r[k + 1] == t[k];
      }
    } else if 1 < |r| {
      ConfigBounds(b[1..], budget, a', full, 0);
      assert r[1] == t[0];
    }
  }

  lemma CostAtZero(b: seq<Offer>)
    requires Live(b)
    ensures Cost(b, 0.0) == 0.0
  {
    if b != [] {
      assert b[0] in b;
    }
  }

  lemma CostHead(b: seq<Offer>, budget: real, a: real, c: real, x: real)
    requires Live(b) && b != [] && c < budget
    requires a <= x <= HeadRight(b, budget, a, c)
    ensures c + Cost(b, x - a) == b[0].price * x + (c - b[0].price * a)
  {
    HeadBounds(b, budget, a, c);
    assert Cost(b, x - a) == b[0].price * (x - a);
  }

  /** Past the cheapest offer, the cost is that offer's full price plus the cost in the rest of the book. */
  lemma CostPastHead(b: seq<Offer>, a: real, x: real)
    requires Live(b) && b != [] && x >= a + b[0].amount
    ensures Cost(b, x - a) == b[0].price * b[0].amount + Cost(b[1..], x - (a + b[0].amount))
  {
    if x - a <= b[0].amount {
      assert Live(b[1..]);
      CostAtZero(b[1..]);
    }
  }

  lemma ConfigsMember(b: seq<Offer>, budget: real, a: real, c: real, a': real, full: real, cfg: PriceFunctionConfig)
    requires cfg in ConfigsFrom(b, budget, a, c)
    requires b != [] ==> a' == a + b[0].amount && full == c + b[0].price * b[0].amount
    ensures b != [] && c < budget
    ensures cfg == PriceFunctionConfig(a, HeadRight(b, budget, a, c), b[0].price, c - b[0].price * a)
         || cfg in ConfigsFrom(b[1..], budget, a', full)
  {
  }

  /** Every interval lies inside the book, after the `a` units bought before. */
  lemma {:induction false} MemberBounds(b: seq<Offer>, budget: real, a: real, c: real, cfg: PriceFunctionConfig)
    requires Live(b) && cfg in ConfigsFrom(b, budget, a, c)
    ensures a <= cfg.intervalLeftBoundary < cfg.intervalRightBoundary <= a + Depth(b)
  {
    var a', full := a + b[0].amount, c + b[0].price * b[0].amount;
    ConfigsMember(b, budget, a, c, a', full, cfg);
    HeadBounds(b, budget, a, c);
    assert Live(b[1..]);
    DepthPositive(b[1..]);
    if cfg in ConfigsFrom(b[1..], budget, a', full) {
      MemberBounds(b[1..], budget, a', full, cfg);
    }
  }

  /** Inside each interval the cost of what has been bought is the linear function c0 * x + c1. */
  lemma {:induction false} ConfigCost(b: seq<Offer>, budget: real, a: real, c: real, cfg: PriceFunctionConfig, x: real)
    requires Live(b) && cfg in ConfigsFrom(b, budget, a, c)
    requires cfg.intervalLeftBoundary <= x <= cfg.intervalRightBoundary
    ensures c + Cost(b, x - a) == cfg.coefficientXPower0 * x + cfg.coefficientXPowerMinus1
  {
    var full := c + b[0].price * b[0].amount;
    var a' := a + b[0].amount;
    ConfigsMember(b, budget, a, c, a', full, cfg);
    if cfg in ConfigsFrom(b[1..], budget, a', full) {
      assert Live(b[1..]);
      MemberBounds(b[1..], budget, a', full, cfg);
      ConfigCost(b[1..], budget, a', full, cfg, x);
      CostPastHead(b, a, x);
    } else {
      CostHead(b, budget, a, c, x);
    }
  }

  predicate StrictlyIncreasingPrices(b: seq<Offer>)
  {
    forall i, j :: 0 <= i < j < |b| ==> b[i].price < b[j].price
  }

  /** The arithmetic of ConfigSlope: the units bought so far cost at most q each, q below the next price p. */
  lemma SlopeStep(c: real, q: real, a: real, p: real, n: real)
    requires a >= 0.0 && c <= q * a && (a > 0.0 ==> q < p)
    ensures c + p * n <= p * (a + n)
    ensures a > 0.0 ==> c - p * a < 0.0
  {
    assert p * (a + n) == p * a + p * n;
    if a > 0.0 {
      var d := p - q;
      assert d * a > 0.0;
      assert d * a == p * a - q * a;
      assert c < p * a;
    } else {
      assert q * a == 0.0 && p * a == 0.0;
    }
    assert c <= p * a;
  }

  /** One step of ConfigSlope's induction: its precondition carries over to the rest of the book. */
  lemma SlopeCarries(b: seq<Offer>, a: real, c: real, q: real)
    requires Live(b) && StrictlyIncreasingPrices(b) && b != [] && a >= 0.0
    requires c <= q * a && (a > 0.0 ==> q < b[0].price)
    ensures Live(b[1..]) && StrictlyIncreasingPrices(b[1..])
    ensures a + b[0].amount >= 0.0
    ensures c + b[0].price * b[0].amount <= b[0].price * (a + b[0].amount)
    ensures b[1..] != [] ==> b[0].price < b[1..][0].price
    ensures a > 0.0 ==> c - b[0].price * a < 0.0
  {
    var t := b[1..];
    assert b[0] in b;
    assert StrictlyIncreasingPrices(t) by {
      forall i, j | 0 <= i < j < |t| ensures t[i].price < t[j].price {
        assert t[i] == b[i + 1] && t[j] == b[j + 1];
      }
    }
    if t != [] {
      assert b[0].price < b[1].price;
    }
    SlopeStep(c, q, a, b[0].price, b[0].amount);
  }

  /**
   * With strictly increasing prices, every interval after the first has c1 < 0:
   * the offers bought before it were cheaper than its own.
   */
  lemma {:induction false} ConfigSlope(b: seq<Offer>, budget: real, a: real, c: real, q: real, cfg: PriceFunctionConfig)
    requires Live(b) && StrictlyIncreasingPrices(b) && a >= 0.0
    requires c <= q * a && (a > 0.0 && b != [] ==> q < b[0].price)
    requires cfg in ConfigsFrom(b, budget, a, c)
    ensures cfg.intervalLeftBoundary > 0.0 ==> cfg.coefficientXPowerMinus1 < 0.0
  {
    var a', full := a + b[0].amount, c + b[0].price * b[0].amount;
    SlopeCarries(b, a, c, q);
    if cfg in ConfigsFrom(b[1..], budget, a', full) {
      ConfigSlope(b[1..], budget, a', full, b[0].price, cfg);
    }
  }

  /** What the checking loop asserts for one interval, given the price at the previous right boundary. */
  predicate ConfigOk(b: seq<Offer>, cfg: PriceFunctionConfig, lastRight: real)
  {
    var l := cfg.intervalLeftBoundary;
    var r := cfg.intervalRightBoundary;
    var mid := r - (r - l) / 2.0;
    && l != r && mid != 0.0 && r != 0.0
    && AveragePrice(b, mid) == Finite(Analytic(cfg, mid))
    && AveragePrice(b, r) == Finite(Analytic(cfg, r))
    && (l > 0.0 ==>
          && Analytic(cfg, l) == lastRight
          && Analytic(cfg, l) < Analytic(cfg, mid)
          && Analytic(cfg, mid) < Analytic(cfg, r)
          && AveragePrice(b, l) == Finite(Analytic(cfg, l)))
  }

  lemma {:induction false} SpendNonNegative(s: seq<Offer>)
    requires Live(s)
    ensures Spend(s) >= 0.0
  {
    if s != [] {
      assert s[0] in s;
      assert Live(s[1..]) by {
        forall o | o in s[1..] ensures o in s {
        }
      }
      SpendNonNegative(s[1..]);
    }
  }

  /**
   * The intervals stop exactly at the first offer the budget no longer reaches:
   * an offer gets an interval when the offers before it cost less than the
   * budget, and the first one whose predecessors cost the budget or more gets none.
   */
  lemma {:induction false} ConfigsReachAffordable(b: seq<Offer>, budget: real, a: real, c: real)
    requires Live(b)
    ensures |ConfigsFrom(b, budget, a, c)| <= |b|
    ensures forall k :: 0 <= k < |ConfigsFrom(b, budget, a, c)| ==> c + Spend(b[..k]) < budget
    ensures forall k :: |ConfigsFrom(b, budget, a, c)| <= k < |b| ==> c + Spend(b[..k]) >= budget
    decreases |b|
  {
    var cs := ConfigsFrom(b, budget, a, c);
    if b == [] {
    } else if c >= budget {
      forall k | 0 <= k < |b| ensures c + Spend(b[..k]) >= budget {
        assert Live(b[..k]) by {
          forall o | o in b[..k] ensures o in b {
          }
        }
        SpendNonNegative(b[..k]);
      }
    } else {
      var a' := a + b[0].amount;
      var full := c + b[0].price * b[0].amount;
      ConfigsUnfold(b, budget, a, c, a', full);
      PrefixDepth(b, 1);
      ConfigsReachAffordable(b[1..], budget, a', full);
      var rest := ConfigsFrom(b[1..], budget, a', full);
      assert Spend(b[..0]) == 0.0 by {
        assert b[..0] == [];
      }
      forall k | 0 < k <= |b| ensures c + Spend(b[..k]) == full + Spend(b[1..][..k - 1]) {
        PrefixDepth(b, k);
      }
    }
  }

  /** The number of the first n offers whose cheaper predecessors cost less than the budget. */
  function AffordableOffers(b: seq<Offer>, budget: real, n: nat): nat
    requires n <= |b|
  {
    if n == 0 then 0
    else AffordableOffers(b, budget, n - 1) + (if Spend(b[..n - 1]) < budget then 1 else 0)
  }

  lemma {:induction false} AffordableOffersUpTo(b: seq<Offer>, budget: real, n: nat)
    requires Live(b) && n <= |b|
    ensures n <= |AnalyticalPriceFunctionParameters(b, budget)| ==> AffordableOffers(b, budget, n) == n
    ensures n >= |AnalyticalPriceFunctionParameters(b, budget)| ==> AffordableOffers(b, budget, n) == |AnalyticalPriceFunctionParameters(b, budget)|
  {
    if n > 0 {
      ConfigsReachAffordable(b, budget, 0.0, 0.0);
      AffordableOffersUpTo(b, budget, n - 1);
    }
  }

  /**
   * The price function test's first check, that there is one interval per
   * offer: the analytical parameters have one interval for each offer whose
   * cheaper predecessors cost less than the budget.
   */
  lemma IntervalPerAffordableOffer(b: seq<Offer>, budget: real)
    requires Live(b)
    ensures |AnalyticalPriceFunctionParameters(b, budget)| == AffordableOffers(b, budget, |b|)
  {
    ConfigsReachAffordable(b, budget, 0.0, 0.0);
    AffordableOffersUpTo(b, budget, |b|);
  }

  /** The analytical price at the right boundary of the interval before k (0 before the first). */
  function LastRight(cs: seq<PriceFunctionConfig>, k: nat): real
    requires k <= |cs|
  {
    if k == 0 || cs[k - 1].intervalRightBoundary == 0.0 then 0.0
    else Analytic(cs[k - 1], cs[k - 1].intervalRightBoundary)
  }

  predicate ValidConfigs(b: seq<Offer>, cs: seq<PriceFunctionConfig>, numberOfOffers: nat)
  {
    |cs| == numberOfOffers && forall k :: 0 <= k < |cs| ==> ConfigOk(b, cs[k], LastRight(cs, k))
  }

  /** Where the cost is linear, c0 * x + c1, the average price is c0 + c1 / x. */
  lemma AverageFromCost(b: seq<Offer>, x: real, c0: real, c1: real)
    requires b != [] && 0.0 < x <= Depth(b)
    requires 0.0 + Cost(b, x - 0.0) == c0 * x + c1
    ensures AveragePrice(b, x) == Finite(c0 + c1 / x)
  {
    assert x - 0.0 == x;
    DivSplit(c0, c1, x);
  }

  /** At any point x > 0 of an interval, the analytical price is the average price. */
  lemma AnalyticIsAverage(b: seq<Offer>, budget: real, cfg: PriceFunctionConfig, x: real)
    requires Live(b) && cfg in AnalyticalPriceFunctionParameters(b, budget)
    requires cfg.intervalLeftBoundary <= x <= cfg.intervalRightBoundary && x > 0.0
    ensures AveragePrice(b, x) == Finite(Analytic(cfg, x))
  {
    MemberBounds(b, budget, 0.0, 0.0, cfg);
    ConfigCost(b, budget, 0.0, 0.0, cfg, x);
    assert x - 0.0 == x;
    AverageFromCost(b, x, cfg.coefficientXPower0, cfg.coefficientXPowerMinus1);
  }

  /**
   * The analytical parameters pass every check of the price function test:
   * one interval per offer the budget reaches, proper intervals, agreement with getPrice at left, middle and right, no jump
   * between adjacent intervals, and strict increase inside every interval after the first.
   */
  lemma AnalyticalParametersValid(b: seq<Offer>, budget: real)
    requires Live(b) && StrictlyIncreasingPrices(b)
    ensures ValidConfigs(b, AnalyticalPriceFunctionParameters(b, budget), AffordableOffers(b, budget, |b|))
  {
    var cs := AnalyticalPriceFunctionParameters(b, budget);
    IntervalPerAffordableOffer(b, budget);
    forall k | 0 <= k < |cs| ensures ConfigOk(b, cs[k], LastRight(cs, k)) {
      var cfg := cs[k];
      var l := cfg.intervalLeftBoundary;
      var r := cfg.intervalRightBoundary;
      var mid := r - (r - l) / 2.0;
      ConfigBounds(b, budget, 0.0, 0.0, k);
      assert l < mid < r;
      AnalyticIsAverage(b, budget, cfg, mid);
      AnalyticIsAverage(b, budget, cfg, r);
      if l > 0.0 {
        AnalyticIsAverage(b, budget, cfg, l);
        ConfigSlope(b, budget, 0.0, 0.0, 0.0, cfg);
        NegativeOverGrowing(cfg.coefficientXPowerMinus1, l, mid);
        NegativeOverGrowing(cfg.coefficientXPowerMinus1, mid, r);
        assert k > 0;
        ConfigBounds(b, budget, 0.0, 0.0, k - 1);
        AnalyticIsAverage(b, budget, cs[k - 1], l);
      }
    }
  }

  /**
   * The checking loop of the price function test: it walks the intervals, carrying
   * the analytical price at the previous right boundary, and reports whether
   * every assertion holds.
   */
  method CheckPriceFunctionConfigs(b: seq<Offer>, cs: seq<PriceFunctionConfig>, numberOfOffers: nat)
    returns (ok: bool)
    ensures ok <==> ValidConfigs(b, cs, numberOfOffers)
  {
    ok := |cs| == numberOfOffers;
    var lastPriceAtIntervalRightBoundary := 0.0;
    var i := 0;
    while i < |cs|
      invariant 0 <= i <= |cs|
      invariant lastPriceAtIntervalRightBoundary == LastRight(cs, i)
      invariant ok <==> |cs| == numberOfOffers && forall k :: 0 <= k < i ==> ConfigOk(b, cs[k], LastRight(cs, k))
    {
      var good := CheckInterval(b, cs[i], lastPriceAtIntervalRightBoundary);
      ok := ok && good;
      var r := cs[i].intervalRightBoundary;
      lastPriceAtIntervalRightBoundary := if r != 0.0 then Analytic(cs[i], r) else 0.0;
      i := i + 1;
    }
  }

  /** The test's checks of one interval, given the price at the previous interval's right boundary. */
  method CheckInterval(b: seq<Offer>, cfg: PriceFunctionConfig, lastPriceAtIntervalRightBoundary: real)
    returns (good: bool)
    ensures good <==> ConfigOk(b, cfg, lastPriceAtIntervalRightBoundary)
  {
    var l, r := cfg.intervalLeftBoundary, cfg.intervalRightBoundary;
    var mid := r - (r - l) / 2.0;
    good := l != r && mid != 0.0 && r != 0.0;
    if good {
      var priceAtRight := Analytic(cfg, r);
      var priceAtMiddle := Analytic(cfg, mid);
      good := AveragePrice(b, mid) == Finite(priceAtMiddle) && AveragePrice(b, r) == Finite(priceAtRight);
      if good && l > 0.0 {
        var priceAtLeft := Analytic(cfg, l);
        good := priceAtLeft == lastPriceAtIntervalRightBoundary
          && priceAtLeft < priceAtMiddle && priceAtMiddle < priceAtRight
          && AveragePrice(b, l) == Finite(priceAtLeft);
      }
    }
  }
}
