// The order book of the market service: standing selling offers, kept in
// ascending (price, sequence number) order, so that equally priced offers are
// served first come, first served.
module OrderBook {
  import opened Numbers
  import opened Banking

  /** What is traded against a market currency: a good, a class of property, or another currency. */
  datatype Commodity = Good(goodType: nat) | PropertyClass(classId: nat) | CurrencyCommodity(currency: Currency)

  /**
   * A standing offer. `account` receives the money of a sale; `commodityAccount`
   * is the account the sold currency is taken from when the commodity is a currency.
   */
  datatype Offer = Offer(
    seqNo: nat,
    owner: AgentId,
    currency: Currency,
    commodity: Commodity,
    account: Account,
    commodityAccount: Option<Account>,
    amount: real,
    price: real)

  /** The book order: cheaper first, and among equal prices the older offer first. */
  predicate Before(x: Offer, y: Offer)
  {
    x.price < y.price || (x.price == y.price && x.seqNo < y.seqNo)
  }

  predicate Sorted(s: seq<Offer>)
  {
    forall i, j :: 0 <= i < j < |s| ==> Before(s[i], s[j])
  }

  /** No offer with nothing left stays in the book; prices are not negative. */
  predicate Live(s: seq<Offer>)
  {
    forall o :: o in s ==> o.amount > 0.0 && o.price >= 0.0
  }

  predicate SeqNosBelow(s: seq<Offer>, n: nat)
  {
    forall o :: o in s ==> o.seqNo < n
  }

  lemma {:induction false} ConsSorted(h: Offer, t: seq<Offer>)
    requires Sorted(t)
    requires forall x :: x in t ==> Before(h, x)
    ensures Sorted([h] + t)
  {
    var s := [h] + t;
    forall i, j | 0 <= i < j < |s| ensures Before(s[i], s[j]) {
      if i == 0 {
        assert s[j] == t[j - 1];
        assert s[j] in t;
      } else {
        assert s[i] == t[i - 1] && s[j] == t[j - 1];
      }
    }
  }

  /** What a filter keeps: one tradeable's offers, or everything but one owner's offers (for one tradeable or all). */
  datatype Selector =
    | Tradeable(currency: Currency, commodity: Commodity)
    | NotOwnedBy(owner: AgentId)
    | NotOwnedByIn(owner: AgentId, currency: Currency, commodity: Commodity)

  predicate Keeps(sel: Selector, o: Offer)
  {
    match sel
    case Tradeable(c, k) => o.currency == c && o.commodity == k
    case NotOwnedBy(w) => o.owner != w
    case NotOwnedByIn(w, c, k) => !(o.owner == w && o.currency == c && o.commodity == k)
  }

  /** The offers `sel` keeps, in book order. */
  function Filter(s: seq<Offer>, sel: Selector): (r: seq<Offer>)
    ensures forall o :: o in r <==> o in s && Keeps(sel, o)
    ensures |r| <= |s|
  {
    if s == [] then []
    else (if Keeps(sel, s[0]) then [s[0]] else []) + Filter(s[1..], sel)
  }

  lemma {:induction false} FilterSorted(s: seq<Offer>, sel: Selector)
    requires Sorted(s)
    ensures Sorted(Filter(s, sel))
  {
    if s != [] {
      FilterSorted(s[1..], sel);
      if Keeps(sel, s[0]) {
        forall x | x in Filter(s[1..], sel) ensures Before(s[0], x) {
          var j :| 0 <= j < |s[1..]| && s[1..][j] == x;
          assert s[j + 1] == x;
        }
        ConsSorted(s[0], Filter(s[1..], sel));
      }
    }
  }

  /** A filter that keeps every offer changes nothing. */
  lemma {:induction false} FilterKeepsAll(s: seq<Offer>, sel: Selector)
    requires forall o :: o in s ==> Keeps(sel, o)
    ensures Filter(s, sel) == s
  {
    if s != [] {
      assert s[0] in s;
      assert forall o :: o in s[1..] ==> o in s;
      FilterKeepsAll(s[1..], sel);
      assert s == [s[0]] + s[1..];
    }
  }

  /** A filter that keeps no offer leaves nothing. */
  lemma {:induction false} FilterKeepsNone(s: seq<Offer>, sel: Selector)
    requires forall o :: o in s ==> !Keeps(sel, o)
    ensures Filter(s, sel) == []
  {
    if s != [] {
      assert s[0] in s;
      assert forall o :: o in s[1..] ==> o in s;
      FilterKeepsNone(s[1..], sel);
    }
  }

  /** The book of one tradeable, a sub-sequence of all offers. */
  function Book(offers: seq<Offer>, currency: Currency, commodity: Commodity): seq<Offer>
  {
    Filter(offers, Tradeable(currency, commodity))
  }

  /** Insertion at the place the book order gives the new offer. */
  function Insert(s: seq<Offer>, o: Offer): (r: seq<Offer>)
    ensures multiset(r) == multiset(s) + multiset{o}
  {
    if s == [] then [o]
    else if Before(o, s[0]) then [o] + s
    else
      assert s == [s[0]] + s[1..];
      [s[0]] + Insert(s[1..], o)
  }

  lemma {:induction false} InsertSorted(s: seq<Offer>, o: Offer)
    requires Sorted(s)
    requires forall x :: x in s ==> x.seqNo != o.seqNo
    ensures Sorted(Insert(s, o))
  {
    if s == [] {
    } else if Before(o, s[0]) {
      forall x | x in s ensures Before(o, x) {
        var j :| 0 <= j < |s| && s[j] == x;
        if j > 0 { assert Before(s[0], s[j]); }
      }
      ConsSorted(o, s);
    } else {
      assert s == [s[0]] + s[1..];
      InsertSorted(s[1..], o);
      forall x | x in Insert(s[1..], o) ensures Before(s[0], x) {
        assert x in multiset(Insert(s[1..], o));
        if x != o {
          assert x in s[1..];
          var j :| 0 <= j < |s[1..]| && s[1..][j] == x;
          assert s[j + 1] == x;
        }
      }
      ConsSorted(s[0], Insert(s[1..], o));
    }
  }

  /**
   * Draw `amt` units from the offer numbered `seqNo`; an offer that reaches zero
   * is removed at once.
   */
  function Consume(s: seq<Offer>, seqNo: nat, amt: real): (r: seq<Offer>)
    ensures |r| <= |s|
  {
    if s == [] then []
    else if s[0].seqNo == seqNo then
      (if s[0].amount - amt > 0.0 then [s[0].(amount := s[0].amount - amt)] + s[1..] else s[1..])
    else [s[0]] + Consume(s[1..], seqNo, amt)
  }

  /** Consuming keeps every key (price, seqNo) it does not remove. */
  lemma {:induction false} ConsumeKeepsBounds(s: seq<Offer>, seqNo: nat, amt: real, h: Offer, n: nat)
    requires forall x :: x in s ==> Before(h, x)
    requires SeqNosBelow(s, n)
    requires Live(s)
    ensures forall y :: y in Consume(s, seqNo, amt) ==> Before(h, y)
    ensures SeqNosBelow(Consume(s, seqNo, amt), n)
    ensures Live(Consume(s, seqNo, amt))
  {
    if s != [] {
      assert s[0] in s;
      if s[0].seqNo != seqNo {
        ConsumeKeepsBounds(s[1..], seqNo, amt, h, n);
      }
    }
  }

  lemma {:induction false} ConsumeSorted(s: seq<Offer>, seqNo: nat, amt: real, n: nat)
    requires Sorted(s) && Live(s) && SeqNosBelow(s, n)
    ensures Sorted(Consume(s, seqNo, amt)) && Live(Consume(s, seqNo, amt))
    ensures SeqNosBelow(Consume(s, seqNo, amt), n)
  {
    if s != [] {
      assert s[0] in s;
      if s[0].seqNo == seqNo {
        if s[0].amount - amt > 0.0 {
          var t := [s[0].(amount := s[0].amount - amt)] + s[1..];
          forall i, j | 0 <= i < j < |t| ensures Before(t[i], t[j]) {
            assert Before(s[i], s[j]);
          }
        } else {
          forall i, j | 0 <= i < j < |s[1..]| ensures Before(s[1..][i], s[1..][j]) {
            assert Before(s[i + 1], s[j + 1]);
          }
        }
      } else {
        var t := s[1..];
        forall i, j | 0 <= i < j < |t| ensures Before(t[i], t[j]) {
          assert Before(s[i + 1], s[j + 1]);
        }
        forall x | x in t ensures Before(s[0], x) {
          var j :| 0 <= j < |t| && t[j] == x;
          assert s[j + 1] == x;
        }
        ConsumeSorted(t, seqNo, amt, n);
        ConsumeKeepsBounds(t, seqNo, amt, s[0], n);
        ConsSorted(s[0], Consume(t, seqNo, amt));
      }
    }
  }

  /** The spot price: the unit price of the cheapest live offer, NaN for an empty book. */
  function Spot(b: seq<Offer>): Num
  {
    if b == [] then NaN else Finite(b[0].price)
  }

  /** The spot price is the lowest unit price in the book, whatever order the offers arrived in. */
  lemma SpotIsCheapest(b: seq<Offer>)
    requires Sorted(b)
    ensures Spot(b) == NaN <==> b == []
    ensures b != [] ==> b[0] in b && Spot(b) == Finite(b[0].price)
    ensures forall o :: o in b ==> Spot(b).Finite? && Spot(b).value <= o.price
  {
    forall o | o in b ensures Spot(b).Finite? && Spot(b).value <= o.price {
      var j :| 0 <= j < |b| && b[j] == o;
      if j > 0 { assert Before(b[0], b[j]); }
    }
  }

  /** Two books holding offers at the same prices have the same spot price. */
  lemma SpotOrderIndependent(b1: seq<Offer>, b2: seq<Offer>)
    requires Sorted(b1) && Sorted(b2)
    requires (set o | o in b1 :: o.price) == (set o | o in b2 :: o.price)
    ensures Spot(b1) == Spot(b2)
  {
    SpotIsCheapest(b1);
    SpotIsCheapest(b2);
    var p1 := set o | o in b1 :: o.price;
    var p2 := set o | o in b2 :: o.price;
    if b1 != [] {
      assert b1[0] in b1;
      assert b1[0].price in p1;
      var o2 :| o2 in b2 && o2.price == b1[0].price;
      assert b2[0] in b2;
      assert b2[0].price in p2;
      var o1 :| o1 in b1 && o1.price == b2[0].price;
    } else {
      assert forall o | o in b2 :: o.price in p2;
    }
  }

  /**
   * Withdrawing all offers of `owner` leaves exactly the other owners' offers;
   * the spot price falls back to the cheapest of those, or NaN if none is left.
   */
  lemma WithdrawalLeavesOthers(offers: seq<Offer>, owner: AgentId, c: Currency, k: Commodity)
    requires Sorted(offers)
    ensures forall o :: (o in Book(Filter(offers, NotOwnedBy(owner)), c, k)
                         <==> o in Book(offers, c, k) && o.owner != owner)
    ensures forall o :: (o in Book(Filter(offers, NotOwnedByIn(owner, c, k)), c, k)
                         <==> o in Book(offers, c, k) && o.owner != owner)
    ensures var rest := Book(Filter(offers, NotOwnedBy(owner)), c, k);
      (rest == [] <==> Spot(rest) == NaN) &&
      forall o :: o in rest ==> Spot(rest).Finite? && Spot(rest).value <= o.price
  {
    FilterSorted(offers, NotOwnedBy(owner));
    FilterSorted(Filter(offers, NotOwnedBy(owner)), Tradeable(c, k));
    SpotIsCheapest(Book(Filter(offers, NotOwnedBy(owner)), c, k));
  }

  /** A new offer cheaper than every offer of its tradeable becomes the spot price at once. */
  lemma CheaperOfferSetsSpot(offers: seq<Offer>, o: Offer)
    requires Sorted(offers)
    requires forall x :: x in offers ==> x.seqNo != o.seqNo
    requires forall x :: x in Book(offers, o.currency, o.commodity) ==> o.price < x.price
    ensures Spot(Book(Insert(offers, o), o.currency, o.commodity)) == Finite(o.price)
  {
    var ins := Insert(offers, o);
    var b := Book(ins, o.currency, o.commodity);
    InsertSorted(offers, o);
    FilterSorted(ins, Tradeable(o.currency, o.commodity));
    assert o in multiset(ins);
    assert o in b;
    SpotIsCheapest(b);
    var h := b[0];
    assert h in b && h.price <= o.price;
    assert h in multiset(ins);
    assert h in offers ==> h in Book(offers, o.currency, o.commodity);
    assert h.price == o.price;
  }
}
