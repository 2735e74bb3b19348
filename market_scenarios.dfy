// The market test's scenarios, replayed against the model: the placements,
// withdrawals, queries and purchases of each test with the values it expects.
// Offers are described by their fields (`Is`), not spelled out in full.
module MarketScenarios {
  import opened Numbers
  import opened Banking
  import opened OrderBook
  import opened Fulfillment
  import opened PriceFunction
  import opened MarketService

  const labourHour := Good(0)

  /** `o` is the offer numbered `seqNo` of `owner`: `amount` units of `k` for euros at `price` each. */
  predicate Is(o: Offer, seqNo: nat, owner: AgentId, k: Commodity, amount: real, price: real)
  {
    o.seqNo == seqNo && o.owner == owner && o.currency == Euro && o.commodity == k
    && o.amount == amount && o.price == price
  }

  lemma InsertFirst(s: seq<Offer>, o: Offer)
    requires s == [] || Before(o, s[0])
    ensures Insert(s, o) == [o] + s
  {
  }

  lemma InsertSecond(x: Offer, o: Offer)
    requires !Before(o, x)
    ensures Insert([x], o) == [x, o]
  {
    assert [x][1..] == [];
  }

  lemma FilterPair(x: Offer, y: Offer, sel: Selector)
    ensures Filter([x, y], sel) == (if Keeps(sel, x) then [x] else []) + (if Keeps(sel, y) then [y] else [])
  {
    assert [x, y][1..] == [y] && [y][1..] == [];
  }

  lemma DropFirst(x: Offer, y: Offer, sel: Selector)
    requires !Keeps(sel, x) && Keeps(sel, y)
    ensures Filter([x, y], sel) == [y]
  {
    FilterPair(x, y, sel);
  }

  lemma DropSecond(x: Offer, y: Offer, sel: Selector)
    requires Keeps(sel, x) && !Keeps(sel, y)
    ensures Filter([x, y], sel) == [x]
  {
    FilterPair(x, y, sel);
  }

  lemma BookPair(x: Offer, y: Offer, c: Currency, k: Commodity)
    requires x.currency == c && x.commodity == k && y.currency == c && y.commodity == k
    ensures Book([x, y], c, k) == [x, y]
  {
    FilterPair(x, y, Tradeable(c, k));
  }

  /** testOfferGoodType: 10 hours at 5 and then 10 at 4 make the book [10 at 4, 10 at 5], spot price 4. */
  lemma GoodTypePlacements(o1: Offer, o2: Offer)
    requires Is(o1, 0, 1, labourHour, 10.0, 5.0) && Is(o2, 1, 2, labourHour, 10.0, 4.0)
    ensures Insert(Insert([], o1), o2) == [o2, o1]
    ensures Book([o2, o1], Euro, labourHour) == [o2, o1]
    ensures Spot([o2, o1]) == Finite(4.0)
  {
    InsertFirst([], o1);
    InsertFirst([o1], o2);
    BookPair(o2, o1, Euro, labourHour);
  }

  /** The price queries of the good-type test on its book of 10 units at 4 and 10 units at 5. */
  lemma GoodTypePrices(b: seq<Offer>)
    requires |b| == 2 && Is(b[0], 1, 2, labourHour, 10.0, 4.0) && Is(b[1], 0, 1, labourHour, 10.0, 5.0)
    ensures AveragePrice(b, 0.0) == Finite(4.0) && AveragePrice(b, 1.0) == Finite(4.0)
    ensures AveragePrice(b, 20.0) == Finite(4.5) && AveragePrice(b, 15.0) == Finite(65.0 / 15.0)
    ensures MarginalPrice(b, 10.0) == Finite(4.0) && MarginalPrice(b, 11.0) == Finite(5.0)
    ensures MarginalPrice(b, 21.0) == NaN && AveragePrice(b, 21.0) == NaN
  {
    var t := b[1..];
    assert t == [b[1]] && t[1..] == [];
    assert Depth(t) == 10.0;
    assert Depth(b) == 20.0;
    assert Cost(t, 10.0) == 50.0 && Cost(t, 5.0) == 25.0;
    assert Cost(b, 20.0) == 90.0;
    assert Cost(b, 15.0) == 65.0;
    assert Cost(b, 1.0) == 4.0;
    assert MarginalPrice(t, 1.0) == Finite(5.0);
    assert MarginalPrice(t[1..], 1.0) == NaN;
  }

  /**
   * The withdrawals of the good-type test: removing household 2's offers leaves
   * the offer at 5; its new offer at 3 becomes the spot price; the filtered
   * removal takes it away again.
   */
  lemma GoodTypeWithdrawals(o1: Offer, o2: Offer, o3: Offer, o4: Offer)
    requires Is(o1, 0, 1, labourHour, 10.0, 5.0) && Is(o2, 1, 2, labourHour, 10.0, 4.0)
    requires Is(o3, 2, 2, labourHour, 10.0, 3.0) && Is(o4, 3, 2, labourHour, 10.0, 3.0)
    ensures Filter([o2, o1], NotOwnedBy(2)) == [o1] && Spot([o1]) == Finite(5.0)
    ensures Insert([o1], o3) == [o3, o1] && Spot([o3, o1]) == Finite(3.0)
    ensures Filter([o3, o1], NotOwnedByIn(2, Euro, labourHour)) == [o1]
    ensures Insert([o1], o4) == [o4, o1] && Book([o4, o1], Euro, labourHour) == [o4, o1]
  {
    DropFirst(o2, o1, NotOwnedBy(2));
    InsertFirst([o1], o3);
    DropFirst(o3, o1, NotOwnedByIn(2, Euro, labourHour));
    InsertFirst([o1], o4);
    BookPair(o4, o1, Euro, labourHour);
  }

  /** The fulfillment sets and the purchase of the good-type test, on its last book. */
  lemma GoodTypeFulfillment(b: seq<Offer>)
    requires |b| == 2 && Is(b[0], 3, 2, labourHour, 10.0, 3.0) && Is(b[1], 0, 1, labourHour, 10.0, 5.0)
    ensures |Select(b, Finite(20.0), NaN, Finite(3.0))| == 1
    ensures |Select(b, Finite(20.0), NaN, Finite(5.0))| == 2
    ensures Select(b, Finite(5.0), NaN, Finite(8.0)) == [Fill(b[0], 5.0)]
  {
    assert b[1..] == [b[1]] && b[1..][1..] == [];
    assert Take(b[0], Finite(20.0), NaN) == 10.0;
    assert Take(b[1], Finite(10.0), NaN) == 10.0;
    assert Select(b[1..], Finite(10.0), NaN, Finite(3.0)) == [];
    assert Select(b[1..][1..], Finite(0.0), NaN, Finite(5.0)) == [];
    assert Select(b[1..], Finite(10.0), NaN, Finite(5.0)) == [Fill(b[1], 10.0)];
    assert Take(b[0], Finite(5.0), NaN) == 5.0;
    assert Take(b[1], Finite(0.0), NaN) == 0.0;
    assert Select(b[1..], Finite(0.0), NaN, Finite(8.0)) == [];
  }

  /** Settling that purchase from an empty ledger: the buyer's account stands at -15 and the buyer holds 5 hours. */
  lemma GoodTypeSettlement(f: Fill, buyer: AgentId, account: Account)
    requires Is(f.offer, 3, 2, labourHour, 10.0, 3.0) && f.amount == 5.0
    requires buyer != 2 && f.offer.account != account
    ensures Bal(Settle(map[], account, None, [f]), account) == -15.0
    ensures Bal(Deliver(map[], buyer, [f]), (buyer, labourHour)) == 5.0
  {
    assert [f][..0] == [];
    assert Spent(f.offer, f.amount) == 15.0;
  }

  /**
   * testOfferProperty: a company's shares are offered one by one at price 0;
   * buying 1 share with no other limit takes exactly the first one, and once the
   * company withdraws its offers the spot price is undefined again.
   */
  lemma ShareScenario(b: seq<Offer>, company: AgentId, k: Commodity)
    requires b != [] && k.PropertyClass?
    requires forall o :: o in b ==> o.owner == company && o.commodity == k && o.amount == 1.0 && o.price == 0.0
    ensures Spot(b) == Finite(0.0)
    ensures Select(b, Finite(1.0), NaN, NaN) == [Fill(b[0], 1.0)]
    ensures Filter(b, NotOwnedBy(company)) == []
  {
    assert b[0] in b;
    assert Take(b[0], Finite(1.0), NaN) == 1.0;
    if |b| > 1 {
      assert b[1] in b;
      assert Take(b[1..][0], Finite(0.0), NaN) == 0.0;
    }
    FilterKeepsNone(b, NotOwnedBy(company));
  }

  /** The currency test's offers: 10 US dollars each, sold for euros. */
  predicate IsDollars(o: Offer, seqNo: nat, owner: AgentId, price: real)
  {
    Is(o, seqNo, owner, CurrencyCommodity(UsDollar), 10.0, price)
  }

  /**
   * testOfferCurrency, first part: bank 1 offers at 2 and bank 2 at 3 (spot 2);
   * bank 1 withdraws (spot 3); it re-offers at 1 (spot 1).
   */
  lemma CurrencyBooks(c1: Offer, c2: Offer, c3: Offer)
    requires IsDollars(c1, 0, 1, 2.0) && IsDollars(c2, 1, 2, 3.0) && IsDollars(c3, 2, 1, 1.0)
    ensures Insert(Insert([], c1), c2) == [c1, c2] && Spot([c1, c2]) == Finite(2.0)
    ensures Filter([c1, c2], NotOwnedBy(1)) == [c2] && Spot([c2]) == Finite(3.0)
    ensures Insert([c2], c3) == [c3, c2] && Spot([c3, c2]) == Finite(1.0)
  {
    InsertFirst([], c1);
    InsertSecond(c1, c2);
    DropFirst(c1, c2, NotOwnedBy(1));
    InsertFirst([c2], c3);
  }

  /**
   * testOfferCurrency, second part: the withdrawal filtered by currency and
   * commodity brings back the offer at 3, and the last re-offer at 1 gives the
   * book [at 1, at 3] with spot 1.
   */
  lemma CurrencyReoffers(c2: Offer, c3: Offer, c4: Offer)
    requires IsDollars(c2, 1, 2, 3.0) && IsDollars(c3, 2, 1, 1.0) && IsDollars(c4, 3, 1, 1.0)
    ensures Filter([c3, c2], NotOwnedByIn(1, Euro, CurrencyCommodity(UsDollar))) == [c2]
    ensures Insert([c2], c4) == [c4, c2] && Spot([c4, c2]) == Finite(1.0)
    ensures Book([c4, c2], Euro, CurrencyCommodity(UsDollar)) == [c4, c2]
  {
    DropFirst(c3, c2, NotOwnedByIn(1, Euro, CurrencyCommodity(UsDollar)));
    InsertFirst([c2], c4);
    BookPair(c4, c2, Euro, CurrencyCommodity(UsDollar));
  }

  /** The currency test's fulfillment sets (cap 1: one offer, cap 5: two) and its purchase of 5 dollars. */
  lemma CurrencyFulfillment(b: seq<Offer>)
    requires |b| == 2 && IsDollars(b[0], 3, 1, 1.0) && IsDollars(b[1], 1, 2, 3.0)
    ensures |Select(b, Finite(20.0), NaN, Finite(1.0))| == 1
    ensures |Select(b, Finite(20.0), NaN, Finite(5.0))| == 2
    ensures Select(b, Finite(5.0), NaN, Finite(8.0)) == [Fill(b[0], 5.0)]
  {
    assert b[1..] == [b[1]] && b[1..][1..] == [];
    assert Take(b[0], Finite(20.0), NaN) == 10.0;
    assert Take(b[1], Finite(10.0), NaN) == 10.0;
    assert Select(b[1..], Finite(10.0), NaN, Finite(1.0)) == [];
    assert Select(b[1..][1..], Finite(0.0), NaN, Finite(5.0)) == [];
    assert Select(b[1..], Finite(10.0), NaN, Finite(5.0)) == [Fill(b[1], 10.0)];
    assert Take(b[0], Finite(5.0), NaN) == 5.0;
    assert Take(b[1], Finite(0.0), NaN) == 0.0;
    assert Select(b[1..], Finite(0.0), NaN, Finite(8.0)) == [];
  }

  /** Settling the dollar purchase: the euro account pays 5, the dollar account receives 5. */
  lemma CurrencySettlement(f: Fill, account: Account, foreign: Account)
    requires IsDollars(f.offer, 3, 1, 1.0) && f.amount == 5.0 && f.offer.commodityAccount.Some?
    requires account != foreign
    requires f.offer.account != account && f.offer.account != foreign
    requires f.offer.commodityAccount.value != account && f.offer.commodityAccount.value != foreign
    ensures Bal(Settle(map[], account, Some(foreign), [f]), account) == -5.0
    ensures Bal(Settle(map[], account, Some(foreign), [f]), foreign) == 5.0
  {
    assert [f][..0] == [];
    assert Spent(f.offer, f.amount) == 5.0;
  }

  /** The price function test's first book: 10 units at 4, 5 and 6. */
  predicate FirstPriceBook(b: seq<Offer>)
  {
    |b| == 3 && b[0].amount == 10.0 && b[0].price == 4.0 && b[1].amount == 10.0 && b[1].price == 5.0
    && b[2].amount == 10.0 && b[2].price == 6.0
  }

  /** With a budget of 150 all three offers are reached: three intervals, each passing the test's checks. */
  lemma FirstPriceFunction(b: seq<Offer>)
    requires FirstPriceBook(b)
    ensures ValidConfigs(b, AnalyticalPriceFunctionParameters(b, 150.0), 3)
  {
    var t := b[1..];
    assert t[0] == b[1] && t[1..][0] == b[2] && t[1..][1..] == [];
    assert |ConfigsFrom(t[1..][1..], 150.0, 30.0, 150.0)| == 0;
    assert |ConfigsFrom(t[1..], 150.0, 20.0, 90.0)| == 1;
    assert |ConfigsFrom(t, 150.0, 10.0, 40.0)| == 2;
    assert Live(b) && StrictlyIncreasingPrices(b) by {
      assert forall o :: o in b ==> o == b[0] || o == b[1] || o == b[2];
    }
    AnalyticalParametersValid(b, 150.0);
  }

  /** The second book: 100 units at 2 and 20 units at 20 join; with a budget of 1500 there are five intervals. */
  predicate SecondPriceBook(b: seq<Offer>)
  {
    |b| == 5 && b[0].amount == 100.0 && b[0].price == 2.0 && FirstPriceBook(b[1..4])
    && b[4].amount == 20.0 && b[4].price == 20.0
  }

  lemma SecondPriceFunction(b: seq<Offer>)
    requires SecondPriceBook(b)
    ensures ValidConfigs(b, AnalyticalPriceFunctionParameters(b, 1500.0), 5)
  {
    var t1 := b[1..];
    var t2 := t1[1..];
    var t3 := t2[1..];
    var t4 := t3[1..];
    assert t1[0] == b[1] && t2[0] == b[2] && t3[0] == b[3] && t4[0] == b[4] && t4[1..] == [];
    assert |ConfigsFrom(t4[1..], 1500.0, 150.0, 750.0)| == 0;
    assert |ConfigsFrom(t4, 1500.0, 130.0, 350.0)| == 1;
    assert |ConfigsFrom(t3, 1500.0, 120.0, 290.0)| == 2;
    assert |ConfigsFrom(t2, 1500.0, 110.0, 240.0)| == 3;
    assert |ConfigsFrom(t1, 1500.0, 100.0, 200.0)| == 4;
    assert Live(b) && StrictlyIncreasingPrices(b) by {
      assert forall o :: o in b ==> o == b[0] || o == b[1] || o == b[2] || o == b[3] || o == b[4];
    }
    AnalyticalParametersValid(b, 1500.0);
  }
}
