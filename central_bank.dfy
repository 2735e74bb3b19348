// The central bank of one currency: the key-interest-rate rule fed by its
// statistical office, transfers between its own accounts and accounts at
// credit banks, the closing of a customer's accounts and the daily interest
// on the accounts it manages. Balances live in the shared `Ledger`; the
// accounts it manages are found through the `BankAccountDAO`.
module CentralBanking {
  import opened Numbers
  import opened Banking
  import opened BankAccountIndex
  import opened Statistics

  /** The neutral key rate the rule returns when the price index is on target. */
  const NeutralKeyRate: real := 0.03

  /** The elevated key rate a central bank starts with. */
  const InitialKeyRate: real := 0.1

  /** 0.03 + ((index - target) / index) / 10, undefined for an undefined index or target or an index of 0. */
  function KeyRateFormula(priceIndex: Num, target: Num): Num
  {
    if priceIndex.NaN? || target.NaN? || priceIndex.value == 0.0 then NaN
    else Finite(NeutralKeyRate + ((priceIndex.value - target.value) / priceIndex.value) / 10.0)
  }

  /**
   * calculateEffectiveKeyInterestRate: the formula's value, clamped at 0 unless
   * negative rates are allowed; an undefined value keeps the previous rate.
   */
  function EffectiveKeyInterestRate(previous: real, priceIndex: Num, target: Num, allowNegative: bool): (r: real)
    ensures !allowNegative && previous >= 0.0 ==> r >= 0.0
    ensures KeyRateFormula(priceIndex, target).NaN? ==> r == previous
    ensures KeyRateFormula(priceIndex, target).Finite? ==>
      r == if allowNegative then KeyRateFormula(priceIndex, target).value else Max(0.0, KeyRateFormula(priceIndex, target).value)
  {
    match KeyRateFormula(priceIndex, target)
    case NaN => previous
    case Finite(v) => if allowNegative then v else Max(0.0, v)
  }

  lemma GapShare(p: real, t: real)
    requires p != 0.0
    ensures (p - t) / p == 1.0 - t / p
  {
    assert (p - t) / p == p / p - t / p;
  }

  lemma DivideAntitone(t: real, p1: real, p2: real)
    requires t >= 0.0 && 0.0 < p1 <= p2
    ensures t / p2 <= t / p1
  {
    var a := t / p1;
    var b := t / p2;
    assert a * p1 == t && b * p2 == t;
    assert a >= 0.0;
    assert a * p1 <= a * p2;
    assert b * p2 <= a * p2;
  }

  /** An index on target gives the neutral rate. */
  lemma KeyRateOnTarget(previous: real, p: real, allowNegative: bool)
    requires p != 0.0
    ensures EffectiveKeyInterestRate(previous, Finite(p), Finite(p), allowNegative) == NeutralKeyRate
  {
    assert (p - p) / p == 0.0;
  }

  /** With a positive target, a higher price index never lowers the key rate. */
  lemma KeyRateRisesWithIndex(previous: real, p1: real, p2: real, t: real, allowNegative: bool)
    requires 0.0 < p1 <= p2 && t >= 0.0
    ensures EffectiveKeyInterestRate(previous, Finite(p1), Finite(t), allowNegative)
         <= EffectiveKeyInterestRate(previous, Finite(p2), Finite(t), allowNegative)
  {
    GapShare(p1, t);
    GapShare(p2, t);
    DivideAntitone(t, p1, p2);
  }

  /** With a positive index and a non-negative target the rate never exceeds 0.03 + 1/10. */
  lemma KeyRateCeiling(previous: real, p: real, t: real, allowNegative: bool)
    requires p > 0.0 && t >= 0.0
    ensures EffectiveKeyInterestRate(previous, Finite(p), Finite(t), allowNegative) <= NeutralKeyRate + 0.1
  {
    GapShare(p, t);
    assert t / p >= 0.0;
  }

  // ---- How many marginal-price snapshots are taken per day ----

  datatype Event = DailyInterestCalculation | MarginalPriceSnapshot | KeyInterestRateCalculation

  /** The events the central bank keeps in its own event list, one entry per event object. */
  const RegisteredEvents: seq<Event> := [DailyInterestCalculation, MarginalPriceSnapshot, KeyInterestRateCalculation]

  /** The registrations with the time system: each event with the hour of the day it fires at. */
  const Schedule: seq<(Event, nat)> := [
    (DailyInterestCalculation, 1),
    (MarginalPriceSnapshot, 3), (MarginalPriceSnapshot, 9), (MarginalPriceSnapshot, 15), (MarginalPriceSnapshot, 21),
    (KeyInterestRateCalculation, 1)]

  function CountEvents(events: seq<Event>, e: Event): nat
  {
    if events == [] then 0 else CountEvents(events[..|events| - 1], e) + (if events[|events| - 1] == e then 1 else 0)
  }

  function CountScheduled(schedule: seq<(Event, nat)>, e: Event): nat
  {
    if schedule == [] then 0 else CountScheduled(schedule[..|schedule| - 1], e) + (if schedule[|schedule| - 1].0 == e then 1 else 0)
  }

  /** NUMBER_OF_MARGINAL_PRICE_SNAPSHOTS_PER_DAY as the source computes it: snapshot objects in the event list. */
  function SnapshotsPerDayAsWritten(): nat
  {
    CountEvents(RegisteredEvents, MarginalPriceSnapshot)
  }

  /** The number of snapshots actually taken per day: registrations of the snapshot event. */
  function SnapshotsPerDay(): nat
  {
    CountScheduled(Schedule, MarginalPriceSnapshot)
  }

  /**
   * The count the source computes is 1, while 4 snapshots are taken a day, so
   * its buffers of 3 * 1 entries hold less than one day of snapshots instead
   * of 3 days.
   */
  lemma SnapshotCountAsWritten(row: seq<real>, day: seq<Num>)
    requires |row| == LoggedPeriods * SnapshotsPerDayAsWritten() && |day| == SnapshotsPerDay()
    requires forall i :: 0 <= i < |day| ==> day[i].Finite?
    ensures SnapshotsPerDayAsWritten() == 1 && SnapshotsPerDay() == 4
    ensures |Snapshots(row, day)| < |day|
    ensures Snapshots(row, day) == NewestFirst(Values(day[1..]))
  {
    SnapshotsPerDayAsWrittenIsOne();
    SnapshotsPerDayIsFour();
    SnapshotsForget(row, day);
    NewestFirstPrefix(Values(day), 3);
    assert Values(day)[1..] == Values(day[1..]);
  }

  lemma SnapshotsPerDayAsWrittenIsOne()
    ensures SnapshotsPerDayAsWritten() == 1
  {
    var s: seq<Event> := RegisteredEvents;
    assert |s[..1][..0]| == 0;
    assert CountEvents(s[..1], MarginalPriceSnapshot) == 0;
    assert s[..2][..1] == s[..1];
    assert CountEvents(s[..2], MarginalPriceSnapshot) == 1;
    assert s[..3][..2] == s[..2];
    assert s[..3] == s;
  }

  lemma SnapshotsPerDayIsFour()
    ensures SnapshotsPerDay() == 4
  {
    var s: seq<(Event, nat)> := Schedule;
    var e := MarginalPriceSnapshot;
    assert |s[..1][..0]| == 0;
    assert CountScheduled(s[..1], e) == 0;
    assert s[..2][..1] == s[..1];
    assert CountScheduled(s[..2], e) == 1;
    assert s[..3][..2] == s[..2];
    assert CountScheduled(s[..3], e) == 2;
    assert s[..4][..3] == s[..3];
    assert CountScheduled(s[..4], e) == 3;
    assert s[..5][..4] == s[..4];
    assert CountScheduled(s[..5], e) == 4;
    assert s[..6][..5] == s[..5];
    assert s[..6] == s;
  }

  /** Dropping the oldest entries of a price history keeps the front of the newest-first list. */
  lemma {:induction false} NewestFirstPrefix(s: seq<real>, k: nat)
    requires k <= |s|
    ensures NewestFirst(s)[..k] == NewestFirst(s[|s| - k..])
  {
    if k > 0 {
      var init := s[..|s| - 1];
      NewestFirstPrefix(init, k - 1);
      assert s[|s| - k..][..k - 1] == init[|init| - (k - 1)..];
    }
  }

  /**
   * With the snapshot count taken from the schedule, a buffer that has seen at
   * least LoggedPeriods days of four usable snapshots holds exactly the
   * snapshots of the last LoggedPeriods days, newest first.
   */
  lemma BufferHoldsLoggedPeriods(row: seq<real>, prices: seq<Num>, days: nat)
    requires |row| == LoggedPeriods * SnapshotsPerDay()
    requires days >= LoggedPeriods && |prices| == days * SnapshotsPerDay()
    requires forall i :: 0 <= i < |prices| ==> prices[i].Finite?
    ensures |row| == 12
    ensures Snapshots(row, prices) == NewestFirst(Values(prices[|prices| - LoggedPeriods * SnapshotsPerDay()..]))
  {
    SnapshotsPerDayIsFour();
    SnapshotsForget(row, prices);
    NewestFirstPrefix(Values(prices), |row|);
    assert Values(prices)[|prices| - |row|..] == Values(prices[|prices| - |row|..]);
  }

  // ---- The central bank ----

  datatype TransferError = UncoveredCase

  /** Which leg of transferMoney applies, by the kinds of the two managing banks. */
  datatype Route = Internal | FromCreditBank | ToCreditBank | Uncovered

  function RouteOf(from: Account, to: Account): Route
  {
    match (from.managingBank.kind, to.managingBank.kind)
    case (Central, Central) => Internal
    case (Credit, Central) => FromCreditBank
    case (Central, Credit) => ToCreditBank
    case (Credit, Credit) => Uncovered
  }

  /** The sum of the balances of the listed accounts of one money type. */
  function MoneySum(m: map<Account, real>, accounts: seq<Account>, t: MoneyType): real
  {
    if accounts == [] then 0.0
    else
      var last := accounts[|accounts| - 1];
      MoneySum(m, accounts[..|accounts| - 1], t) + (if last.moneyType == t then Bal(m, last) else 0.0)
  }

  class CentralBank {
    const id: AgentId
    const primaryCurrency: Currency
    const ledger: Ledger
    const office: StatisticalOffice
    /** The bank's own DEPOSITS account, on which transfers and interest are booked. */
    const transactionsAccount: Account
    /** The bank's own account for central bank money held by credit banks. */
    const centralBankMoneyAccount: Account
    /** Whether the transactions account has been opened; it is opened on first use. */
    var transactionsOpened: bool
    var effectiveKeyInterestRate: real

    function Me(): BankRef
    {
      BankRef(id, Central)
    }

    /** Both own accounts are held by the bank itself, in its currency, and may be overdrawn. */
    predicate Valid()
    {
      && transactionsAccount == Account(transactionsAccount.id, id, Me(), primaryCurrency, Deposits, true)
      && centralBankMoneyAccount == Account(centralBankMoneyAccount.id, id, Me(), primaryCurrency, CentralBankMoney, true)
      && transactionsAccount != centralBankMoneyAccount
    }

    /**
     * A central bank with its two own accounts opened, a statistical office with
     * one buffer of LoggedPeriods * SnapshotsPerDay() entries per good type,
     * and the initial key rate.
     */
    constructor (id: AgentId, primaryCurrency: Currency, ledger: Ledger, goods: nat, weights: seq<real>,
                 transactionsId: nat, centralBankMoneyId: nat)
      requires |weights| == goods && Sum(weights, goods) == 1.0 && transactionsId != centralBankMoneyId
      ensures Valid() && office.Valid() && fresh(office)
      ensures this.id == id && this.primaryCurrency == primaryCurrency && this.ledger == ledger
      ensures transactionsAccount.id == transactionsId && centralBankMoneyAccount.id == centralBankMoneyId
      ensures office.length == LoggedPeriods * SnapshotsPerDay()
      ensures effectiveKeyInterestRate == InitialKeyRate && !transactionsOpened
    {
      this.id := id;
      this.primaryCurrency := primaryCurrency;
      this.ledger := ledger;
      SnapshotsPerDayIsFour();
      office := new StatisticalOffice(goods, weights, SnapshotsPerDay());
      transactionsAccount := Account(transactionsId, id, BankRef(id, Central), primaryCurrency, Deposits, true);
      centralBankMoneyAccount := Account(centralBankMoneyId, id, BankRef(id, Central), primaryCurrency, CentralBankMoney, true);
      effectiveKeyInterestRate := InitialKeyRate;
      transactionsOpened := false;
    }

    /** assureBankAccountTransactions: open the transactions account if it is not yet open. */
    method AssureBankAccountTransactions()
      modifies this
      ensures transactionsOpened
      ensures effectiveKeyInterestRate == old(effectiveKeyInterestRate)
    {
      transactionsOpened := true;
    }

    /** MarginalPriceSnapshotEvent: the market's current prices of the good types enter the buffers. */
    method MarginalPriceSnapshotEvent(prices: seq<Num>)
      requires office.Valid() && |prices| == office.goods
      modifies office.rows
      ensures forall g :: 0 <= g < office.goods ==> office.Row(g) == Snapshot(old(office.Row(g)), prices[g])
    {
      office.TakeSnapshotOfMarginalPrices(prices);
    }

    /**
     * KeyInterestRateCalculationEvent: recompute the averages and the price
     * index, then the key rate against the target index for the period.
     */
    method KeyInterestRateCalculationEvent(target: Num, allowNegative: bool)
      requires office.Valid()
      modifies this, office
      ensures office.Valid() && transactionsOpened == old(transactionsOpened)
      ensures forall g :: 0 <= g < office.goods ==> office.averages[g] == AgeWeightedAverage(office.Row(g))
      ensures office.priceIndex == PriceIndex(office.weights, office.averages, office.goods)
      ensures effectiveKeyInterestRate
           == EffectiveKeyInterestRate(old(effectiveKeyInterestRate), office.priceIndex, target, allowNegative)
    {
      office.RecalculateAveragePrices();
      office.RecalculatePriceIndex();
      effectiveKeyInterestRate := EffectiveKeyInterestRate(effectiveKeyInterestRate, office.priceIndex, target, allowNegative);
    }

    /** What the legs of transferMoney assert: amount, currency, overdraft, and the central side managed here. */
    predicate LegAllowed(m: map<Account, real>, from: Account, to: Account, amount: real)
    {
      && amount >= 0.0
      && from.currency == to.currency
      && (Bal(m, from) - amount >= 0.0 || from.overdraftPossible)
      && (from.managingBank.kind == Central ==> from.managingBank == Me())
      && (to.managingBank.kind == Central ==> to.managingBank == Me())
    }

    /** transferMoneyInternally: between two accounts of this bank; the two balances keep their sum. */
    method TransferMoneyInternally(from: Account, to: Account, amount: real)
      requires from.managingBank == Me() && to.managingBank == Me()
      requires LegAllowed(ledger.balance, from, to, amount)
      modifies ledger
      ensures ledger.balance == Moved(old(ledger.balance), from, to, amount)
      ensures Bal(ledger.balance, from) + Bal(ledger.balance, to) == Bal(old(ledger.balance), from) + Bal(old(ledger.balance), to)
    {
      ledger.Withdraw(from, amount);
      ledger.Deposit(to, amount);
      MovedPreservesSum(old(ledger.balance), from, to, amount);
    }

    /**
     * transferMoney: route by the kinds of the managing banks; two credit-bank
     * accounts are an uncovered case, which fails and changes nothing.
     */
    method TransferMoney(from: Account, to: Account, amount: real, negativeAmountOK: bool) returns (out: Outcome<TransferError>)
      requires amount >= 0.0 || negativeAmountOK
      requires from != to && from.moneyType == to.moneyType
      requires RouteOf(from, to) != Uncovered ==> LegAllowed(ledger.balance, from, to, amount)
      modifies ledger
      ensures out.Pass? <==> RouteOf(from, to) != Uncovered
      ensures out.Pass? ==> ledger.balance == Moved(old(ledger.balance), from, to, amount)
      ensures out.Pass? ==> (Bal(ledger.balance, from) == Bal(old(ledger.balance), from) - amount
                          && Bal(ledger.balance, to) == Bal(old(ledger.balance), to) + amount)
      ensures out.Fail? ==> ledger.balance == old(ledger.balance)
    {
      match RouteOf(from, to)
      case Internal =>
        TransferMoneyInternally(from, to, amount);
        out := Pass;
      case FromCreditBank =>
        ledger.Withdraw(from, amount);
        ledger.Deposit(to, amount);
        out := Pass;
      case ToCreditBank =>
        ledger.Withdraw(from, amount);
        ledger.Deposit(to, amount);
        out := Pass;
      case Uncovered =>
        out := Fail(UncoveredCase);
    }

    /**
     * The evening-up of one closed account against the bank's own account of
     * the same money type; a deposits account is left as it is while the
     * transactions account has not been opened.
     */
    function EvenedUp(m: map<Account, real>, a: Account): map<Account, real>
      reads this
    {
      var own := if a.moneyType == Deposits then transactionsAccount else centralBankMoneyAccount;
      if a == own || (a.moneyType == Deposits && !transactionsOpened) then m
      else if Bal(m, a) >= 0.0 then Moved(m, a, own, Bal(m, a))
      else Moved(m, own, a, -Bal(m, a))
    }

    function EvenedUpAll(m: map<Account, real>, accounts: seq<Account>): map<Account, real>
      reads this
    {
      if accounts == [] then m else EvenedUp(EvenedUpAll(m, accounts[..|accounts| - 1]), accounts[|accounts| - 1])
    }

    /**
     * Evening-up brings every listed account it handles to 0 and books the sum
     * of their balances on the bank's own account of the matching money type;
     * deposits accounts are handled only once the transactions account is
     * open, and no other balance changes.
     */
    lemma {:induction false} EvenedUpAllSettles(m: map<Account, real>, accounts: seq<Account>)
      requires Valid() && Distinct(accounts)
      requires transactionsAccount !in accounts && centralBankMoneyAccount !in accounts
      ensures forall a :: a in accounts ==>
                Bal(EvenedUpAll(m, accounts), a) == if a.moneyType == Deposits && !transactionsOpened then Bal(m, a) else 0.0
      ensures forall c :: c !in accounts && c != transactionsAccount && c != centralBankMoneyAccount
                ==> Bal(EvenedUpAll(m, accounts), c) == Bal(m, c)
      ensures Bal(EvenedUpAll(m, accounts), transactionsAccount)
           == Bal(m, transactionsAccount) + (if transactionsOpened then MoneySum(m, accounts, Deposits) else 0.0)
      ensures Bal(EvenedUpAll(m, accounts), centralBankMoneyAccount)
           == Bal(m, centralBankMoneyAccount) + MoneySum(m, accounts, CentralBankMoney)
    {
      if accounts != [] {
        var init := accounts[..|accounts| - 1];
        var a := accounts[|accounts| - 1];
        assert Distinct(init);
        assert a !in init;
        EvenedUpAllSettles(m, init);
        var before := EvenedUpAll(m, init);
        assert Bal(before, a) == Bal(m, a);
        EvenedUpOne(before, a);
      }
    }

    lemma EvenedUpOne(m: map<Account, real>, a: Account)
      requires Valid() && a != transactionsAccount && a != centralBankMoneyAccount
      ensures Bal(EvenedUp(m, a), a) == if a.moneyType == Deposits && !transactionsOpened then Bal(m, a) else 0.0
      ensures forall c :: c != a && c != transactionsAccount && c != centralBankMoneyAccount ==> Bal(EvenedUp(m, a), c) == Bal(m, c)
      ensures Bal(EvenedUp(m, a), transactionsAccount)
           == Bal(m, transactionsAccount) + (if a.moneyType == Deposits && transactionsOpened then Bal(m, a) else 0.0)
      ensures Bal(EvenedUp(m, a), centralBankMoneyAccount)
           == Bal(m, centralBankMoneyAccount) + (if a.moneyType == CentralBankMoney then Bal(m, a) else 0.0)
    {
    }

    /** Evening up one account by the transfer whose direction follows the sign of its balance. */
    method EvenUp(a: Account)
      requires Valid() && a.managingBank == Me() && a.currency == primaryCurrency
      modifies ledger
      ensures ledger.balance == EvenedUp(old(ledger.balance), a)
    {
      var own := if a.moneyType == Deposits then transactionsAccount else centralBankMoneyAccount;
      if a != own && (a.moneyType == CentralBankMoney || transactionsOpened) {
        var balance := Bal(ledger.balance, a);
        var out;
        if balance >= 0.0 {
          out := TransferMoney(a, own, balance, true);
        } else {
          out := TransferMoney(own, a, -balance, true);
        }
      }
    }

    /** The loop of closeCustomerAccount over the customer's accounts at this bank. */
    method EvenUpAll(accounts: seq<Account>)
      requires Valid()
      requires forall a :: a in accounts ==> a.managingBank == Me() && a.currency == primaryCurrency
      modifies ledger
      ensures ledger.balance == EvenedUpAll(old(ledger.balance), accounts)
    {
      var i := 0;
      while i < |accounts|
        invariant 0 <= i <= |accounts|
        invariant ledger.balance == EvenedUpAll(old(ledger.balance), accounts[..i])
      {
        assert accounts[i] in accounts;
        assert accounts[..i + 1][..i] == accounts[..i];
        EvenUp(accounts[i]);
        i := i + 1;
      }
      assert accounts[..|accounts|] == accounts;
    }

    /**
     * closeCustomerAccount: even up each of the customer's accounts at this
     * bank, then delete all of them. For a customer other than the bank
     * itself, the closed accounts end at 0 (deposits accounts only once the
     * transactions account is open) and their balances go to the bank's own
     * accounts.
     */
    method CloseCustomerAccount(customer: AgentId, dao: BankAccountDAO)
      requires Valid() && dao.Valid()
      requires forall a :: dao.Stored(a) && a.owner == customer && a.managingBank == Me() ==> a.currency == primaryCurrency
      modifies ledger, dao
      ensures dao.Valid()
      ensures ledger.balance == EvenedUpAll(old(ledger.balance), Where(old(Lookup(dao.byOwner, customer)), ManagedBy(Me())))
      ensures customer != id ==>
        forall a :: old(dao.Stored(a)) && a.owner == customer && a.managingBank == Me() ==>
          Bal(ledger.balance, a) == if a.moneyType == Deposits && !transactionsOpened then old(Bal(ledger.balance, a)) else 0.0
      ensures customer != id ==>
        forall c :: !(old(dao.Stored(c)) && c.owner == customer && c.managingBank == Me())
                    && c != transactionsAccount && c != centralBankMoneyAccount ==>
          Bal(ledger.balance, c) == old(Bal(ledger.balance, c))
      ensures customer != id ==>
        Bal(ledger.balance, transactionsAccount) == old(Bal(ledger.balance, transactionsAccount))
          + (if transactionsOpened
             then MoneySum(old(ledger.balance), Where(old(Lookup(dao.byOwner, customer)), ManagedBy(Me())), Deposits)
             else 0.0)
      ensures customer != id ==>
        Bal(ledger.balance, centralBankMoneyAccount) == old(Bal(ledger.balance, centralBankMoneyAccount))
          + MoneySum(old(ledger.balance), Where(old(Lookup(dao.byOwner, customer)), ManagedBy(Me())), CentralBankMoney)
      ensures forall c :: dao.Stored(c) <==> old(dao.Stored(c)) && !(c.owner == customer && c.managingBank == Me())
      ensures Me() in old(dao.byBank) ==>
        && dao.byBank == Pruned(old(dao.byBank), ManagedIn(Lookup(old(dao.byOwner), customer), Me()))
        && dao.byOwner == Pruned(old(dao.byOwner), ManagedIn(Lookup(old(dao.byOwner), customer), Me()))
      ensures Me() !in old(dao.byBank) ==> dao.byBank == old(dao.byBank) && dao.byOwner == old(dao.byOwner)
    {
      var accounts := dao.FindAll(ManagedBy(Me()), customer);
      WhereDistinct(Lookup(dao.byOwner, customer), ManagedBy(Me()));
      if customer != id {
        EvenedUpAllSettles(ledger.balance, accounts);
      }
      EvenUpAll(accounts);
      label Settled:
      dao.DeleteAllBankAccountsOf(Me(), customer);
      forall c | old@Settled(dao.Stored(c)) && c.owner == customer && c.managingBank == Me()
        ensures Me() in old@Settled(dao.byBank)
      {
      }
    }

    /** The day's interest on a balance: positive on a liability of the bank, negative on an asset, for a positive rate. */
    function DailyInterest(balance: real, dailyRate: real): real
    {
      balance * dailyRate
    }

    /** The interest of one account for the day, booked against the transactions account; the bank's own accounts earn none. */
    function Accrued(m: map<Account, real>, a: Account, dailyRate: real): map<Account, real>
    {
      if a.owner == id then m
      else
        var interest := DailyInterest(Bal(m, a), dailyRate);
        if interest > 0.0 then Moved(m, transactionsAccount, a, interest)
        else if interest < 0.0 then Moved(m, a, transactionsAccount, -interest)
        else m
    }

    function AccruedAll(m: map<Account, real>, accounts: seq<Account>, dailyRate: real): map<Account, real>
    {
      if accounts == [] then m else Accrued(AccruedAll(m, accounts[..|accounts| - 1], dailyRate), accounts[|accounts| - 1], dailyRate)
    }

    /** The interest paid on the customer accounts among `accounts`. */
    function InterestSum(m: map<Account, real>, accounts: seq<Account>, dailyRate: real): real
    {
      if accounts == [] then 0.0
      else
        var last := accounts[|accounts| - 1];
        InterestSum(m, accounts[..|accounts| - 1], dailyRate) + (if last.owner == id then 0.0 else DailyInterest(Bal(m, last), dailyRate))
    }

    /** The balance of `c` after one account's daily interest. */
    function AfterInterest(m: map<Account, real>, a: Account, dailyRate: real, c: Account): real
    {
      if a.owner == id then Bal(m, c)
      else if c == a && c != transactionsAccount then Bal(m, a) + DailyInterest(Bal(m, a), dailyRate)
      else if c == transactionsAccount && c != a then Bal(m, transactionsAccount) - DailyInterest(Bal(m, a), dailyRate)
      else Bal(m, c)
    }

    lemma AccruedOne(m: map<Account, real>, a: Account, dailyRate: real, c: Account)
      ensures Bal(Accrued(m, a, dailyRate), c) == AfterInterest(m, a, dailyRate, c)
    {
    }

    /**
     * Daily interest turns every customer balance b into b + b * rate, paid
     * from (or, for a negative interest, to) the transactions account, and
     * leaves every other balance as it was.
     */
    lemma {:induction false} AccruedAllAt(m: map<Account, real>, accounts: seq<Account>, dailyRate: real, c: Account)
      requires Valid() && Distinct(accounts)
      ensures c == transactionsAccount ==>
        Bal(AccruedAll(m, accounts, dailyRate), c) == Bal(m, c) - InterestSum(m, accounts, dailyRate)
      ensures c in accounts && c.owner != id ==>
        Bal(AccruedAll(m, accounts, dailyRate), c) == Bal(m, c) + DailyInterest(Bal(m, c), dailyRate)
      ensures c !in accounts && c != transactionsAccount ==>
        Bal(AccruedAll(m, accounts, dailyRate), c) == Bal(m, c)
    {
      if accounts != [] {
        var init := accounts[..|accounts| - 1];
        var a := accounts[|accounts| - 1];
        assert Distinct(init);
        assert a !in init;
        AccruedAllAt(m, init, dailyRate, c);
        AccruedAllAt(m, init, dailyRate, a);
        var before := AccruedAll(m, init, dailyRate);
        AccruedOne(before, a, dailyRate, c);
        if a.owner != id {
          assert a != transactionsAccount;
          var interest := DailyInterest(Bal(m, a), dailyRate);
          assert InterestSum(m, accounts, dailyRate) == InterestSum(m, init, dailyRate) + interest;
        } else {
          assert InterestSum(m, accounts, dailyRate) == InterestSum(m, init, dailyRate);
        }
      }
    }

    /** The bank's profit, a positive transactions balance, goes in full to the state. */
    function PaidOut(m: map<Account, real>, state: Account): (r: map<Account, real>)
      requires state != transactionsAccount
      ensures Bal(r, transactionsAccount) == Min(Bal(m, transactionsAccount), 0.0)
      ensures Bal(r, state) == Bal(m, state) + Max(Bal(m, transactionsAccount), 0.0)
      ensures forall c :: c != state && c != transactionsAccount ==> Bal(r, c) == Bal(m, c)
    {
      if Bal(m, transactionsAccount) > 0.0 then Moved(m, transactionsAccount, state, Bal(m, transactionsAccount)) else m
    }

    /** The transfers of daily interest on one account may take place (its currency, and no overdraft it cannot carry). */
    predicate InterestAllowed(m: map<Account, real>, a: Account, dailyRate: real)
    {
      a.owner != id ==>
        && a.currency == primaryCurrency
        && (DailyInterest(Bal(m, a), dailyRate) < 0.0 ==> Bal(m, a) + DailyInterest(Bal(m, a), dailyRate) >= 0.0 || a.overdraftPossible)
    }

    /** One account's daily interest, by two internal transfers whose direction follows the sign of the interest. */
    method AccrueInterest(a: Account, dailyRate: real)
      requires Valid() && a.managingBank == Me() && InterestAllowed(ledger.balance, a, dailyRate)
      modifies ledger
      ensures ledger.balance == Accrued(old(ledger.balance), a, dailyRate)
    {
      if a.owner != id {
        var interest := DailyInterest(Bal(ledger.balance, a), dailyRate);
        if interest > 0.0 {
          TransferMoneyInternally(transactionsAccount, a, interest);
        } else if interest < 0.0 {
          TransferMoneyInternally(a, transactionsAccount, -interest);
        }
      }
    }

    /** The loop of the daily interest over the accounts this bank manages. */
    method AccrueAll(accounts: seq<Account>, dailyRate: real)
      requires Valid() && Distinct(accounts)
      requires forall a :: a in accounts ==> a.managingBank == Me() && InterestAllowed(ledger.balance, a, dailyRate)
      modifies ledger
      ensures ledger.balance == AccruedAll(old(ledger.balance), accounts, dailyRate)
    {
      var i := 0;
      while i < |accounts|
        invariant 0 <= i <= |accounts|
        invariant ledger.balance == AccruedAll(old(ledger.balance), accounts[..i], dailyRate)
      {
        var a := accounts[i];
        assert accounts[..i + 1][..i] == accounts[..i];
        assert a in accounts;
        assert Distinct(accounts[..i]);
        if a.owner != id {
          assert a !in accounts[..i];
          AccruedAllAt(old(ledger.balance), accounts[..i], dailyRate, a);
        }
        AccrueInterest(a, dailyRate);
        i := i + 1;
      }
      assert accounts[..|accounts|] == accounts;
    }

    /**
     * DailyInterestCalculationEvent: interest on every account this bank
     * manages, then the profit to the state's account.
     */
    method DailyInterestCalculationEvent(dailyRate: real, dao: BankAccountDAO, state: Account)
      requires Valid() && dao.Valid()
      requires forall a :: dao.Stored(a) && a.managingBank == Me() ==> InterestAllowed(ledger.balance, a, dailyRate)
      requires state != transactionsAccount && state.moneyType == Deposits && state.currency == primaryCurrency
      requires state.managingBank.kind == Central ==> state.managingBank == Me()
      modifies this, ledger, dao
      ensures transactionsOpened && effectiveKeyInterestRate == old(effectiveKeyInterestRate)
      ensures dao.Valid() && (forall c :: dao.Stored(c) <==> old(dao.Stored(c)))
      ensures dao.byBank == old(dao.byBank)[Me() := Lookup(old(dao.byBank), Me())] && dao.byOwner == old(dao.byOwner)
      ensures ledger.balance == PaidOut(AccruedAll(old(ledger.balance), old(Lookup(dao.byBank, Me())), dailyRate), state)
    {
      AssureBankAccountTransactions();
      var accounts := dao.FindAllBankAccountsManagedByBank(Me());
      forall c ensures dao.Stored(c) <==> old(dao.Stored(c)) {
      }
      AccrueAll(accounts, dailyRate);
      var profit := Bal(ledger.balance, transactionsAccount);
      if profit > 0.0 {
        var out := TransferMoney(transactionsAccount, state, profit, false);
      }
    }
  }
}
