// The market facade: placing and withdrawing selling offers, price queries,
// and `buy`, which settles a fulfillment set offer by offer. Money moves in the
// shared `Ledger`; goods and properties move in a holdings register keyed by
// (agent, commodity).
module MarketService {
  import opened Numbers
  import opened Banking
  import opened OrderBook
  import opened Fulfillment
  import opened PriceFunction

  /** Reasons a selling offer is refused. */
  datatype PlaceError = NonPositiveAmount | NegativePrice | AccountNotOwned | NoCommodityAccount

  /** A currency offered for sale needs the account the sold currency is taken from. */
  predicate HasCommodityAccount(o: Offer)
  {
    o.commodity.CurrencyCommodity? ==> o.commodityAccount.Some?
  }

  predicate AllHaveCommodityAccounts(s: seq<Offer>)
  {
    forall o :: o in s ==> HasCommodityAccount(o)
  }

  /** The checks a new selling offer must pass, in the order they are made. */
  function PlaceCheck(commodity: Commodity, owner: AgentId, account: Account, amount: real, price: real,
                      commodityAccount: Option<Account>): (r: Outcome<PlaceError>)
    ensures r.Pass? <==> amount > 0.0 && price >= 0.0 && account.owner == owner
                         && (commodity.CurrencyCommodity? ==> commodityAccount.Some?)
    ensures r == Fail(NonPositiveAmount) <==> amount <= 0.0
  {
    if amount <= 0.0 then Fail(NonPositiveAmount)
    else if price < 0.0 then Fail(NegativePrice)
    else if account.owner != owner then Fail(AccountNotOwned)
    else if commodity.CurrencyCommodity? && commodityAccount.None? then Fail(NoCommodityAccount)
    else Pass
  }

  /** Consuming only lowers amounts, so every offer keeps its commodity account. */
  lemma {:induction false} ConsumeKeepsAccounts(s: seq<Offer>, seqNo: nat, amt: real)
    requires AllHaveCommodityAccounts(s)
    ensures AllHaveCommodityAccounts(Consume(s, seqNo, amt))
  {
    if s != [] {
      assert s[0] in s;
      if s[0].seqNo != seqNo {
        assert AllHaveCommodityAccounts(s[1..]) by {
          forall o | o in s[1..] ensures HasCommodityAccount(o) { assert o in s; }
        }
        ConsumeKeepsAccounts(s[1..], seqNo, amt);
      } else {
        forall o | o in s[1..] ensures HasCommodityAccount(o) { assert o in s; }
      }
    }
  }

  /** The money legs of one fill: price to the seller, and the sold currency to the buyer. */
  function SettleOne(m: map<Account, real>, buyerAccount: Account, buyerForeign: Option<Account>, f: Fill): map<Account, real>
  {
    var paid := Moved(m, buyerAccount, f.offer.account, Spent(f.offer, f.amount));
    if f.offer.commodity.CurrencyCommodity? && f.offer.commodityAccount.Some? && buyerForeign.Some?
    then Moved(paid, f.offer.commodityAccount.value, buyerForeign.value, f.amount)
    else paid
  }

  /** The balances after settling the fills in order. */
  function Settle(m: map<Account, real>, buyerAccount: Account, buyerForeign: Option<Account>, fs: seq<Fill>): map<Account, real>
  {
    if fs == [] then m
    else SettleOne(Settle(m, buyerAccount, buyerForeign, fs[..|fs| - 1]), buyerAccount, buyerForeign, fs[|fs| - 1])
  }

  /** The goods or properties of one fill, handed from its seller to the buyer. */
  function DeliverOne(h: map<(AgentId, Commodity), real>, buyer: AgentId, f: Fill): map<(AgentId, Commodity), real>
  {
    if f.offer.commodity.CurrencyCommodity? then h
    else Moved(h, (f.offer.owner, f.offer.commodity), (buyer, f.offer.commodity), f.amount)
  }

  function Deliver(h: map<(AgentId, Commodity), real>, buyer: AgentId, fs: seq<Fill>): map<(AgentId, Commodity), real>
  {
    if fs == [] then h else DeliverOne(Deliver(h, buyer, fs[..|fs| - 1]), buyer, fs[|fs| - 1])
  }

  /** The book after each fill has been drawn from its offer. */
  function ConsumeAll(offers: seq<Offer>, fs: seq<Fill>): (r: seq<Offer>)
    ensures |r| <= |offers|
  {
    if fs == [] then offers
    else Consume(ConsumeAll(offers, fs[..|fs| - 1]), fs[|fs| - 1].offer.seqNo, fs[|fs| - 1].amount)
  }

  /** The buyer's account pays exactly the total price of the fulfillment set. */
  lemma {:induction false} BuyerPays(m: map<Account, real>, buyerAccount: Account, buyerForeign: Option<Account>, fs: seq<Fill>)
    requires forall f :: f in fs ==> f.offer.account != buyerAccount && f.offer.commodityAccount != Some(buyerAccount)
    requires buyerForeign != Some(buyerAccount)
    ensures Bal(Settle(m, buyerAccount, buyerForeign, fs), buyerAccount) == Bal(m, buyerAccount) - TotalCost(fs)
  {
    if fs != [] {
      var init := fs[..|fs| - 1];
      assert forall f :: f in init ==> f in fs;
      BuyerPays(m, buyerAccount, buyerForeign, init);
      assert fs[|fs| - 1] in fs;
    }
  }

  /** In a currency trade the buyer's foreign account receives exactly the amount bought. */
  lemma {:induction false} ForeignAccountReceives(m: map<Account, real>, buyerAccount: Account, foreign: Account, fs: seq<Fill>)
    requires forall f :: f in fs ==> f.offer.commodity.CurrencyCommodity? && f.offer.commodityAccount.Some?
    requires forall f :: f in fs ==> f.offer.account != foreign && f.offer.commodityAccount != Some(foreign)
    requires buyerAccount != foreign
    ensures Bal(Settle(m, buyerAccount, Some(foreign), fs), foreign) == Bal(m, foreign) + TotalAmount(fs)
  {
    if fs != [] {
      var init := fs[..|fs| - 1];
      assert forall f :: f in init ==> f in fs;
      ForeignAccountReceives(m, buyerAccount, foreign, init);
      assert fs[|fs| - 1] in fs;
    }
  }

  /** The buyer of a good or property receives exactly the amount bought. */
  lemma {:induction false} BuyerReceives(h: map<(AgentId, Commodity), real>, buyer: AgentId, k: Commodity, fs: seq<Fill>)
    requires !k.CurrencyCommodity?
    requires forall f :: f in fs ==> f.offer.commodity == k && f.offer.owner != buyer
    ensures Bal(Deliver(h, buyer, fs), (buyer, k)) == Bal(h, (buyer, k)) + TotalAmount(fs)
  {
    if fs != [] {
      var init := fs[..|fs| - 1];
      assert forall f :: f in init ==> f in fs;
      BuyerReceives(h, buyer, k, init);
      assert fs[|fs| - 1] in fs;
    }
  }

  /** Every fill of a fulfillment set is drawn on an offer of the requested tradeable. */
  lemma FillsFromBook(offers: seq<Offer>, currency: Currency, maxAmount: Num, maxTotalPrice: Num,
                      maxPricePerUnit: Num, commodity: Commodity)
    requires Sorted(offers) && Live(offers)
    ensures var fs := FindBestFulfillmentSet(offers, currency, maxAmount, maxTotalPrice, maxPricePerUnit, commodity);
      forall f :: f in fs ==> f.offer in offers && f.offer.currency == currency && f.offer.commodity == commodity
  {
    var b := Book(offers, currency, commodity);
    FilterSorted(offers, Tradeable(currency, commodity));
    SelectShape(b, maxAmount, maxTotalPrice, maxPricePerUnit);
    var fs := Select(b, maxAmount, maxTotalPrice, maxPricePerUnit);
    forall f | f in fs ensures f.offer in b {
      var i :| 0 <= i < |fs| && fs[i] == f;
    }
  }

  /**
   * A checked offer numbered with the next sequence number keeps the book
   * ordered, live, freshly numbered and with currency offers naming their
   * commodity account.
   */
  lemma PlaceKeepsBook(s: seq<Offer>, o: Offer, n: nat)
    requires Sorted(s) && Live(s) && SeqNosBelow(s, n) && AllHaveCommodityAccounts(s)
    requires o.seqNo == n && o.amount > 0.0 && o.price >= 0.0 && HasCommodityAccount(o)
    ensures Sorted(Insert(s, o)) && Live(Insert(s, o)) && SeqNosBelow(Insert(s, o), n + 1)
    ensures AllHaveCommodityAccounts(Insert(s, o))
  {
    InsertSorted(s, o);
    forall x | x in Insert(s, o) ensures x == o || x in s {
      assert x in multiset(Insert(s, o));
    }
  }

  class Market {
    var offers: seq<Offer>
    var nextSeqNo: nat
    var holdings: map<(AgentId, Commodity), real>
    const ledger: Ledger

    /** The book is ordered, holds only live offers with fresh-numbered keys, and currency offers name their commodity account. */
    ghost predicate Valid()
      reads this
    {
      Sorted(offers) && Live(offers) && SeqNosBelow(offers, nextSeqNo) && AllHaveCommodityAccounts(offers)
    }

    constructor (ledger: Ledger)
      ensures Valid()
      ensures offers == [] && nextSeqNo == 0 && holdings == map[] && this.ledger == ledger
    {
      offers := [];
      nextSeqNo := 0;
      holdings := map[];
      this.ledger := ledger;
    }

    /** The spot price of a tradeable. */
    function Price(currency: Currency, commodity: Commodity): Num
      reads this
    {
      Spot(Book(offers, currency, commodity))
    }

    /** The average price of buying `amount` units of a tradeable. */
    function AveragePriceOf(currency: Currency, commodity: Commodity, amount: real): Num
      reads this
    {
      AveragePrice(Book(offers, currency, commodity), amount)
    }

    /**
     * placeSellingOffer: a checked offer joins the book at the place its price
     * and its new sequence number give it; a refused one changes nothing.
     */
    method PlaceSellingOffer(commodity: Commodity, owner: AgentId, account: Account, amount: real, price: real,
                             commodityAccount: Option<Account>) returns (out: Outcome<PlaceError>)
      requires Valid()
      modifies this
      ensures Valid()
      ensures out == PlaceCheck(commodity, owner, account, amount, price, commodityAccount)
      ensures out.Pass? ==>
        && offers == Insert(old(offers), Offer(old(nextSeqNo), owner, account.currency, commodity, account,
                                               commodityAccount, amount, price))
        && nextSeqNo == old(nextSeqNo) + 1
      ensures out.Fail? ==> offers == old(offers) && nextSeqNo == old(nextSeqNo)
      ensures holdings == old(holdings)
    {
      out := PlaceCheck(commodity, owner, account, amount, price, commodityAccount);
      if out.Pass? {
        var o := Offer(nextSeqNo, owner, account.currency, commodity, account, commodityAccount, amount, price);
        PlaceKeepsBook(offers, o, nextSeqNo);
        offers := Insert(offers, o);
        nextSeqNo := nextSeqNo + 1;
      }
    }

    /** removeAllSellingOffers(owner): every offer of `owner`, of any tradeable, leaves the book. */
    method RemoveAllSellingOffers(owner: AgentId)
      requires Valid()
      modifies this
      ensures Valid()
      ensures offers == Filter(old(offers), NotOwnedBy(owner))
      ensures nextSeqNo == old(nextSeqNo) && holdings == old(holdings)
    {
      FilterSorted(offers, NotOwnedBy(owner));
      offers := Filter(offers, NotOwnedBy(owner));
    }

    /** removeAllSellingOffers(owner, currency, commodity): only that tradeable's offers of `owner` leave. */
    method RemoveAllSellingOffersOf(owner: AgentId, currency: Currency, commodity: Commodity)
      requires Valid()
      modifies this
      ensures Valid()
      ensures offers == Filter(old(offers), NotOwnedByIn(owner, currency, commodity))
      ensures nextSeqNo == old(nextSeqNo) && holdings == old(holdings)
    {
      FilterSorted(offers, NotOwnedByIn(owner, currency, commodity));
      offers := Filter(offers, NotOwnedByIn(owner, currency, commodity));
    }

    /**
     * buy: select the fulfillment set in the buyer's currency, then settle its
     * fills one by one: pay the seller, hand over the commodity, draw on the offer.
     */
    method Buy(commodity: Commodity, maxAmount: Num, maxTotalPrice: Num, maxPricePerUnit: Num,
               buyer: AgentId, buyerAccount: Account, buyerForeign: Option<Account>) returns (fills: seq<Fill>)
      requires Valid()
      requires commodity.CurrencyCommodity? ==> buyerForeign.Some?
      modifies this, ledger
      ensures Valid()
      ensures fills == FindBestFulfillmentSet(old(offers), buyerAccount.currency, maxAmount, maxTotalPrice,
                                              maxPricePerUnit, commodity)
      ensures ledger.balance == Settle(old(ledger.balance), buyerAccount, buyerForeign, fills)
      ensures holdings == Deliver(old(holdings), buyer, fills)
      ensures offers == ConsumeAll(old(offers), fills)
      ensures nextSeqNo == old(nextSeqNo)
    {
      fills := FindBestFulfillmentSet(offers, buyerAccount.currency, maxAmount, maxTotalPrice, maxPricePerUnit, commodity);
      var i := 0;
      while i < |fills|
        invariant 0 <= i <= |fills|
        invariant Valid() && nextSeqNo == old(nextSeqNo)
        invariant ledger.balance == Settle(old(ledger.balance), buyerAccount, buyerForeign, fills[..i])
        invariant holdings == Deliver(old(holdings), buyer, fills[..i])
        invariant offers == ConsumeAll(old(offers), fills[..i])
      {
        assert fills[..i + 1][..i] == fills[..i] && fills[..i + 1][i] == fills[i];
        SettleFill(buyer, buyerAccount, buyerForeign, fills[i]);
        assert ledger.balance == Settle(old(ledger.balance), buyerAccount, buyerForeign, fills[..i + 1]);
        assert holdings == Deliver(old(holdings), buyer, fills[..i + 1]);
        i := i + 1;
      }
      assert fills[..|fills|] == fills;
    }

    /** One fill of a purchase: pay the seller, hand over the commodity, draw on the offer. */
    method SettleFill(buyer: AgentId, buyerAccount: Account, buyerForeign: Option<Account>, f: Fill)
      requires Valid()
      modifies this, ledger
      ensures Valid() && nextSeqNo == old(nextSeqNo)
      ensures ledger.balance == SettleOne(old(ledger.balance), buyerAccount, buyerForeign, f)
      ensures holdings == DeliverOne(old(holdings), buyer, f)
      ensures offers == Consume(old(offers), f.offer.seqNo, f.amount)
    {
      ledger.Move(buyerAccount, f.offer.account, Spent(f.offer, f.amount));
      if f.offer.commodity.CurrencyCommodity? && f.offer.commodityAccount.Some? && buyerForeign.Some? {
        ledger.Move(f.offer.commodityAccount.value, buyerForeign.value, f.amount);
      }
      if !f.offer.commodity.CurrencyCommodity? {
        holdings := Moved(holdings, (f.offer.owner, f.offer.commodity), (buyer, f.offer.commodity), f.amount);
      }
      ConsumeSorted(offers, f.offer.seqNo, f.amount, nextSeqNo);
      ConsumeKeepsAccounts(offers, f.offer.seqNo, f.amount);
      offers := Consume(offers, f.offer.seqNo, f.amount);
    }
  }
}
