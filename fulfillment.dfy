// The fulfillment set of a purchase request: the book walked cheapest first,
// each offer drawn on as far as the request's limits allow. A limit given as
// NaN does not bind.
module Fulfillment {
  import opened Numbers
  import opened OrderBook

  /** One member of a fulfillment set: an offer and the amount drawn from it. */
  datatype Fill = Fill(offer: Offer, amount: real)

  /** The price of `x` units of offer `o`. */
  function Spent(o: Offer, x: real): real
  {
    x * o.price
  }

  function TotalAmount(r: seq<Fill>): real
  {
    if r == [] then 0.0 else TotalAmount(r[..|r| - 1]) + r[|r| - 1].amount
  }

  function TotalCost(r: seq<Fill>): real
  {
    if r == [] then 0.0 else TotalCost(r[..|r| - 1]) + Spent(r[|r| - 1].offer, r[|r| - 1].amount)
  }

  /** The totals read from the front, as the selection builds them. */
  lemma {:induction false} TotalsCons(f: Fill, r: seq<Fill>)
    ensures TotalAmount([f] + r) == f.amount + TotalAmount(r)
    ensures TotalCost([f] + r) == Spent(f.offer, f.amount) + TotalCost(r)
  {
    if r != [] {
      assert ([f] + r)[..|[f] + r| - 1] == [f] + r[..|r| - 1];
      TotalsCons(f, r[..|r| - 1]);
    } else {
      assert ([f] + r)[..0] == [];
    }
  }

  /** What is left of a limit after `x` has been used; an unbounded limit stays unbounded. */
  function Less(limit: Num, x: real): Num
  {
    if limit.Finite? then Finite(limit.value - x) else NaN
  }

  /** The amount of offer `o` the remaining limits allow. */
  function Take(o: Offer, amountLeft: Num, budgetLeft: Num): real
  {
    var byAmount := if amountLeft.Finite? then Min(o.amount, amountLeft.value) else o.amount;
    if budgetLeft.Finite? && o.price > 0.0 then Min(byAmount, budgetLeft.value / o.price) else byAmount
  }

  /**
   * The selection proper: stop at the first offer above the price cap, or when
   * the remaining amount or budget allows nothing more.
   */
  function Select(b: seq<Offer>, amountLeft: Num, budgetLeft: Num, maxPricePerUnit: Num): seq<Fill>
    decreases |b|
  {
    if b == [] then []
    else if maxPricePerUnit.Finite? && b[0].price > maxPricePerUnit.value then []
    else if Take(b[0], amountLeft, budgetLeft) <= 0.0 then []
    else [Fill(b[0], Take(b[0], amountLeft, budgetLeft))] + Select(b[1..], Less(amountLeft, Take(b[0], amountLeft, budgetLeft)), Less(budgetLeft, Spent(b[0], Take(b[0], amountLeft, budgetLeft))), maxPricePerUnit)
  }

  /** findBestFulfillmentSet(currency, maxAmount, maxTotalPrice, maxPricePerUnit, commodity). */
  function FindBestFulfillmentSet(offers: seq<Offer>, currency: Banking.Currency, maxAmount: Num,
                                  maxTotalPrice: Num, maxPricePerUnit: Num, commodity: Commodity): seq<Fill>
  {
    Select(Book(offers, currency, commodity), maxAmount, maxTotalPrice, maxPricePerUnit)
  }

  /** An upper bound given by a limit, or no bound. */
  predicate Within(x: real, limit: Num)
  {
    limit.Finite? ==> x <= Max(limit.value, 0.0)
  }

  /**
   * The fulfillment set draws on the book's offers in book order, each by a
   * positive amount no larger than what the offer holds and at a price within
   * the cap; every fill but the last takes its offer whole.
   */
  lemma {:induction false} SelectShape(b: seq<Offer>, amountLeft: Num, budgetLeft: Num, cap: Num)
    requires Live(b) && Sorted(b)
    ensures var r := Select(b, amountLeft, budgetLeft, cap);
      && |r| <= |b|
      && (forall i :: 0 <= i < |r| ==> r[i].offer == b[i] && 0.0 < r[i].amount <= b[i].amount)
      && (forall i :: 0 <= i < |r| ==> cap.Finite? ==> r[i].offer.price <= cap.value)
      && (forall i :: 0 <= i < |r| - 1 ==> r[i].amount == b[i].amount)
  {
    if b != [] && !(cap.Finite? && b[0].price > cap.value) {
      var take := Take(b[0], amountLeft, budgetLeft);
      if take > 0.0 {
        var rest := Select(b[1..], Less(amountLeft, take), Less(budgetLeft, Spent(b[0], take)), cap);
        assert Live(b[1..]);
        SelectShape(b[1..], Less(amountLeft, take), Less(budgetLeft, Spent(b[0], take)), cap);
        var r := [Fill(b[0], take)] + rest;
        assert r == Select(b, amountLeft, budgetLeft, cap);
        forall i | 0 < i < |r| - 1 ensures r[i].amount == b[i].amount {
          assert r[i] == rest[i - 1];
        }
        if |r| > 1 {
          TakeWhole(b, amountLeft, budgetLeft, cap, take, rest);
        }
      }
    }
  }

  /** An offer that is followed by another fill was taken whole. */
  lemma TakeWhole(b: seq<Offer>, amountLeft: Num, budgetLeft: Num, cap: Num, take: real, rest: seq<Fill>)
    requires Live(b) && Sorted(b) && b != []
    requires take == Take(b[0], amountLeft, budgetLeft) && take > 0.0
    requires rest == Select(b[1..], Less(amountLeft, take), Less(budgetLeft, Spent(b[0], take)), cap)
    requires rest != []
    ensures take == b[0].amount
  {
    assert b[0] in b && b[1] in b;
    assert Before(b[0], b[1]);
    TakeShortStopsNext(b[0], b[1], amountLeft, budgetLeft);
    TakeWithin(b[0], amountLeft, budgetLeft);
  }

  /**
   * When a limit keeps an offer from being taken whole, that limit is used up,
   * so nothing of the next, no cheaper, offer can be taken.
   */
  lemma TakeShortStopsNext(o: Offer, next: Offer, amountLeft: Num, budgetLeft: Num)
    requires o.amount > 0.0 && o.price >= 0.0 && next.price >= o.price
    ensures Take(o, amountLeft, budgetLeft) < o.amount ==>
      Take(next, Less(amountLeft, Take(o, amountLeft, budgetLeft)),
                 Less(budgetLeft, Spent(o, Take(o, amountLeft, budgetLeft)))) <= 0.0
  {
    var take := Take(o, amountLeft, budgetLeft);
    var byAmount := if amountLeft.Finite? then Min(o.amount, amountLeft.value) else o.amount;
    if take < o.amount {
      if take == byAmount {
        assert amountLeft.Finite? && take == amountLeft.value;
      } else {
        assert budgetLeft.Finite? && o.price > 0.0 && take == budgetLeft.value / o.price;
        assert Spent(o, take) == budgetLeft.value;
      }
    }
  }

  /** Using `t` of a limit and then staying within what is left stays within the limit. */
  lemma WithinAfter(t: real, rest: real, limit: Num)
    requires t >= 0.0 && (limit.Finite? ==> t <= Max(limit.value, 0.0))
    requires Within(rest, Less(limit, t))
    ensures Within(t + rest, limit)
  {
  }

  lemma SelectUnfold(b: seq<Offer>, amountLeft: Num, budgetLeft: Num, cap: Num, take: real)
    requires b != [] && !(cap.Finite? && b[0].price > cap.value)
    requires take == Take(b[0], amountLeft, budgetLeft) && take > 0.0
    ensures Select(b, amountLeft, budgetLeft, cap)
         == [Fill(b[0], take)] + Select(b[1..], Less(amountLeft, take), Less(budgetLeft, Spent(b[0], take)), cap)
  {
  }

  /** The fulfillment set stays within the requested amount and the total price limit. */
  lemma {:induction false} SelectWithinLimits(b: seq<Offer>, amountLeft: Num, budgetLeft: Num, cap: Num)
    requires Live(b)
    ensures Within(TotalAmount(Select(b, amountLeft, budgetLeft, cap)), amountLeft)
    ensures Within(TotalCost(Select(b, amountLeft, budgetLeft, cap)), budgetLeft)
  {
    if b != [] && !(cap.Finite? && b[0].price > cap.value) {
      var take := Take(b[0], amountLeft, budgetLeft);
      if take > 0.0 {
        var cost := Spent(b[0], take);
        var rest := Select(b[1..], Less(amountLeft, take), Less(budgetLeft, cost), cap);
        SelectUnfold(b, amountLeft, budgetLeft, cap, take);
        assert Live(b[1..]);
        assert b[0] in b;
        SelectWithinLimits(b[1..], Less(amountLeft, take), Less(budgetLeft, cost), cap);
        TotalsCons(Fill(b[0], take), rest);
        TakeWithin(b[0], amountLeft, budgetLeft);
        assert cost >= 0.0;
        WithinAfter(take, TotalAmount(rest), amountLeft);
        WithinAfter(cost, TotalCost(rest), budgetLeft);
      } else {
        assert Select(b, amountLeft, budgetLeft, cap) == [];
      }
    } else {
      assert Select(b, amountLeft, budgetLeft, cap) == [];
    }
  }

  lemma TakeWithin(o: Offer, amountLeft: Num, budgetLeft: Num)
    requires o.amount > 0.0 && o.price >= 0.0
    ensures Take(o, amountLeft, budgetLeft) <= o.amount
    ensures amountLeft.Finite? ==> Take(o, amountLeft, budgetLeft) <= amountLeft.value
    ensures budgetLeft.Finite? && Take(o, amountLeft, budgetLeft) > 0.0 ==>
              Spent(o, Take(o, amountLeft, budgetLeft)) <= Max(budgetLeft.value, 0.0)
  {
    var take := Take(o, amountLeft, budgetLeft);
    if budgetLeft.Finite? && take > 0.0 {
      if o.price > 0.0 {
        assert take <= budgetLeft.value / o.price;
        assert budgetLeft.value / o.price * o.price == budgetLeft.value;
        assert take * o.price <= budgetLeft.value / o.price * o.price;
      } else {
        assert take * o.price == 0.0;
      }
    }
  }

  /**
   * The walk stops only for a reason: the book is exhausted, the next offer is
   * above the cap, the requested amount is reached, or the budget is spent.
   */
  predicate StoppedForAReason(b: seq<Offer>, r: seq<Fill>, amountLeft: Num, budgetLeft: Num, cap: Num)
    requires |r| <= |b|
  {
    || |r| == |b|
    || (cap.Finite? && b[|r|].price > cap.value)
    || (amountLeft.Finite? && TotalAmount(r) >= amountLeft.value)
    || (budgetLeft.Finite? && b[|r|].price > 0.0 && TotalCost(r) >= budgetLeft.value)
  }

  lemma {:induction false} SelectIsMaximal(b: seq<Offer>, amountLeft: Num, budgetLeft: Num, cap: Num)
    requires Live(b) && Sorted(b)
    ensures |Select(b, amountLeft, budgetLeft, cap)| <= |b|
    ensures StoppedForAReason(b, Select(b, amountLeft, budgetLeft, cap), amountLeft, budgetLeft, cap)
  {
    SelectShape(b, amountLeft, budgetLeft, cap);
    if b != [] && !(cap.Finite? && b[0].price > cap.value) {
      var take := Take(b[0], amountLeft, budgetLeft);
      assert b[0] in b;
      if take > 0.0 {
        var cost := Spent(b[0], take);
        var rest := Select(b[1..], Less(amountLeft, take), Less(budgetLeft, cost), cap);
        SelectUnfold(b, amountLeft, budgetLeft, cap, take);
        assert Live(b[1..]) && Sorted(b[1..]);
        SelectIsMaximal(b[1..], Less(amountLeft, take), Less(budgetLeft, cost), cap);
        StoppedCons(b, amountLeft, budgetLeft, cap, Fill(b[0], take), rest);
      } else {
        assert TotalAmount([]) == 0.0 && TotalCost([]) == 0.0;
        TakeNothing(b[0], amountLeft, budgetLeft);
      }
    }
  }

  /** A reason to stop after the tail stays a reason to stop after the whole selection. */
  lemma StoppedCons(b: seq<Offer>, amountLeft: Num, budgetLeft: Num, cap: Num, f: Fill, rest: seq<Fill>)
    requires b != [] && |rest| <= |b[1..]|
    requires StoppedForAReason(b[1..], rest, Less(amountLeft, f.amount), Less(budgetLeft, Spent(f.offer, f.amount)), cap)
    ensures |[f] + rest| <= |b|
    ensures StoppedForAReason(b, [f] + rest, amountLeft, budgetLeft, cap)
  {
    TotalsCons(f, rest);
    if |rest| < |b[1..]| {
      assert b[1..][|rest|] == b[|[f] + rest|];
    }
  }

  /** A live offer the limits allow nothing of: the amount or the budget is used up. */
  lemma TakeNothing(o: Offer, amountLeft: Num, budgetLeft: Num)
    requires o.amount > 0.0 && o.price >= 0.0
    requires Take(o, amountLeft, budgetLeft) <= 0.0
    ensures (amountLeft.Finite? && amountLeft.value <= 0.0)
         || (budgetLeft.Finite? && o.price > 0.0 && budgetLeft.value <= 0.0)
  {
    if budgetLeft.Finite? && o.price > 0.0 && budgetLeft.value > 0.0 {
      assert budgetLeft.value / o.price > 0.0;
    }
  }
}
