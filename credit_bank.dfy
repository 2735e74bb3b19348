// A credit bank: transfers for its customers, internally or through its
// accounts at the central banks, deposits and withdrawals ordered by a central
// bank, the minimum-reserve check that issues a bond to the central bank when
// reserves fall short, and the balance-sheet figures it publishes.
module CreditBanking {
  import opened Numbers
  import opened Banking

  datatype CreditBankError =
    | NegativeAmount
    | CurrencyMismatch
    | Overdraft
    | PasswordMissing
    | PasswordMismatch
    | CurrencyNotOffered

  /** A fixed-rate bond this bank issued: its face value and its coupon rate. */
  datatype Bond = Bond(id: nat, issuer: AgentId, currency: Currency, faceValue: real, coupon: real)

  /** The balance-sheet figures the publication event adds to. */
  datatype BalanceSheet = BalanceSheet(bankBorrowings: real, bankLoans: real, financialLiabilities: real)

  /** What opening an account at the central bank of a currency yields: that bank, the password, the account. */
  datatype CentralBankAccess = CentralBankAccess(bank: AgentId, password: Password, account: Account)

  /** The coupon spread over the key rate of the bonds issued for reserves. */
  const CouponSpread: real := 0.02

  /** assertPasswordOk: no stored password is one error, a different one another. */
  function PasswordCheck(passwords: map<AgentId, Password>, who: AgentId, password: Password): (r: Outcome<CreditBankError>)
    ensures r.Pass? <==> who in passwords && passwords[who] == password
    ensures r == Fail(PasswordMissing) <==> who !in passwords
    ensures r.Fail? ==> r.error == PasswordMissing || r.error == PasswordMismatch
  {
    if who !in passwords then Fail(PasswordMissing)
    else if passwords[who] != password then Fail(PasswordMismatch)
    else Pass
  }

  /** The guards of transferMoney, in the order the source checks them. */
  function TransferCheck(m: map<Account, real>, passwords: map<AgentId, Password>, from: Account, to: Account,
                         amount: real, password: Password, negativeAmountOK: bool): (r: Outcome<CreditBankError>)
    ensures !negativeAmountOK && amount < 0.0 ==> r == Fail(NegativeAmount)
  {
    if !negativeAmountOK && amount < 0.0 then Fail(NegativeAmount)
    else if from.currency != to.currency then Fail(CurrencyMismatch)
    else if PasswordCheck(passwords, from.owner, password).Fail? then PasswordCheck(passwords, from.owner, password)
    else if Bal(m, from) - amount < 0.0 && !from.overdraftPossible then Fail(Overdraft)
    else Pass
  }

  /** A transfer goes through exactly when every guard holds. */
  lemma TransferCheckPasses(m: map<Account, real>, passwords: map<AgentId, Password>, from: Account, to: Account,
                            amount: real, password: Password, negativeAmountOK: bool)
    ensures TransferCheck(m, passwords, from, to, amount, password, negativeAmountOK).Pass? <==>
      && (amount >= 0.0 || negativeAmountOK)
      && from.currency == to.currency
      && from.owner in passwords && passwords[from.owner] == password
      && (Bal(m, from) - amount >= 0.0 || from.overdraftPossible)
  {
  }

  /** What each failing guard reports. */
  lemma TransferCheckErrors(m: map<Account, real>, passwords: map<AgentId, Password>, from: Account, to: Account,
                            amount: real, password: Password, negativeAmountOK: bool)
    requires amount >= 0.0 || negativeAmountOK
    ensures from.currency != to.currency ==> TransferCheck(m, passwords, from, to, amount, password, negativeAmountOK) == Fail(CurrencyMismatch)
    ensures from.currency == to.currency && PasswordCheck(passwords, from.owner, password).Pass?
              && Bal(m, from) - amount < 0.0 && !from.overdraftPossible
            ==> TransferCheck(m, passwords, from, to, amount, password, negativeAmountOK) == Fail(Overdraft)
  {
  }

  /** The sum of the positive balances in one currency among the accounts. */
  function Borrowings(m: map<Account, real>, accounts: seq<Account>, c: Currency): real
  {
    if accounts == [] then 0.0
    else
      var last := accounts[|accounts| - 1];
      Borrowings(m, accounts[..|accounts| - 1], c) + (if last.currency == c && Bal(m, last) > 0.0 then Bal(m, last) else 0.0)
  }

  /** Borrowings are never negative and cover every positive balance in the currency. */
  lemma {:induction false} BorrowingsBounds(m: map<Account, real>, accounts: seq<Account>, c: Currency)
    ensures Borrowings(m, accounts, c) >= 0.0
    ensures forall a :: a in accounts && a.currency == c && Bal(m, a) > 0.0 ==> Bal(m, a) <= Borrowings(m, accounts, c)
  {
    if accounts != [] {
      BorrowingsBounds(m, accounts[..|accounts| - 1], c);
    }
  }

  /** Borrowings only look at the balances of the listed accounts. */
  lemma {:induction false} BorrowingsFrame(m: map<Account, real>, n: map<Account, real>, accounts: seq<Account>, c: Currency)
    requires forall a :: a in accounts ==> Bal(m, a) == Bal(n, a)
    ensures Borrowings(m, accounts, c) == Borrowings(n, accounts, c)
  {
    if accounts != [] {
      BorrowingsFrame(m, n, accounts[..|accounts| - 1], c);
    }
  }

  /** The balance-sheet sums over all currencies: positive balances, and the negated rest. */
  function PassiveSum(m: map<Account, real>, accounts: seq<Account>): real
  {
    if accounts == [] then 0.0
    else
      var last := accounts[|accounts| - 1];
      PassiveSum(m, accounts[..|accounts| - 1]) + (if Bal(m, last) > 0.0 then Bal(m, last) else 0.0)
  }

  function ActiveSum(m: map<Account, real>, accounts: seq<Account>): real
  {
    if accounts == [] then 0.0
    else
      var last := accounts[|accounts| - 1];
      ActiveSum(m, accounts[..|accounts| - 1]) + (if Bal(m, last) > 0.0 then 0.0 else -Bal(m, last))
  }

  function BalanceSum(m: map<Account, real>, accounts: seq<Account>): real
  {
    if accounts == [] then 0.0 else BalanceSum(m, accounts[..|accounts| - 1]) + Bal(m, accounts[|accounts| - 1])
  }

  /** Both sides are non-negative and their difference is the bank's net position towards its customers. */
  lemma {:induction false} NetPosition(m: map<Account, real>, accounts: seq<Account>)
    ensures PassiveSum(m, accounts) >= 0.0 && ActiveSum(m, accounts) >= 0.0
    ensures PassiveSum(m, accounts) - ActiveSum(m, accounts) == BalanceSum(m, accounts)
  {
    if accounts != [] {
      NetPosition(m, accounts[..|accounts| - 1]);
    }
  }

  /** Topping a balance up by a positive gap to a requirement reaches the larger of the two. */
  lemma TopUpIsMax(balance: real, required: real)
    ensures (if required - balance > 0.0 then balance + (required - balance) else balance) == Max(balance, required)
  {
  }

  /** The bonds that are not deconstructed, in issue order. */
  function LiveBonds(bonds: seq<Bond>, deconstructed: set<nat>): (r: seq<Bond>)
    ensures forall b :: b in r <==> b in bonds && b.id !in deconstructed
  {
    if bonds == [] then []
    else LiveBonds(bonds[..|bonds| - 1], deconstructed) + (if bonds[|bonds| - 1].id in deconstructed then [] else [bonds[|bonds| - 1]])
  }

  function FaceValues(bonds: seq<Bond>): real
  {
    if bonds == [] then 0.0 else FaceValues(bonds[..|bonds| - 1]) + bonds[|bonds| - 1].faceValue
  }

  /** The face value counted over the live bonds, the rest skipped. */
  function LiveFaceValue(bonds: seq<Bond>, deconstructed: set<nat>): real
  {
    if bonds == [] then 0.0
    else
      var last := bonds[|bonds| - 1];
      LiveFaceValue(bonds[..|bonds| - 1], deconstructed) + (if last.id in deconstructed then 0.0 else last.faceValue)
  }

  /** The liabilities counted are exactly the face values of the bonds kept, so cleaning up first changes nothing. */
  lemma {:induction false} LiveFaceValueOfLive(bonds: seq<Bond>, deconstructed: set<nat>)
    ensures LiveFaceValue(bonds, deconstructed) == FaceValues(LiveBonds(bonds, deconstructed))
    ensures LiveBonds(LiveBonds(bonds, deconstructed), deconstructed) == LiveBonds(bonds, deconstructed)
    ensures LiveFaceValue(LiveBonds(bonds, deconstructed), deconstructed) == LiveFaceValue(bonds, deconstructed)
  {
    if bonds != [] {
      var init := bonds[..|bonds| - 1];
      var last := bonds[|bonds| - 1];
      LiveFaceValueOfLive(init, deconstructed);
      var live := LiveBonds(init, deconstructed);
      if last.id !in deconstructed {
        assert LiveBonds(bonds, deconstructed) == live + [last];
        assert (live + [last])[..|live|] == live;
        assert FaceValues(live + [last]) == FaceValues(live) + last.faceValue;
      } else {
        assert LiveBonds(bonds, deconstructed) == live;
      }
    }
  }

  /** One reserve account per currency, held in that currency at a central bank. */
  predicate ReserveAccounts(reserves: map<Currency, Account>)
  {
    forall c :: c in reserves ==> reserves[c].currency == c && reserves[c].managingBank.kind == Central
  }

  predicate Once(order: seq<Currency>)
  {
    forall i, j :: 0 <= i < j < |order| ==> order[i] != order[j]
  }

  /** The minimum reserve for the given borrowings. */
  function Required(borrowings: real, ratio: real): real
  {
    borrowings * ratio
  }

  /** What the reserves in currency c fall short of borrowings times the reserve ratio. */
  function ReserveGap(m: map<Account, real>, accounts: seq<Account>, reserves: map<Currency, Account>, c: Currency, ratio: real): real
    requires c in reserves
  {
    Required(Borrowings(m, accounts, c), ratio) - Bal(m, reserves[c])
  }

  /** The gap of every currency with a reserve account and a reserve ratio, on the balances `m`. */
  function Gaps(m: map<Account, real>, accounts: seq<Account>, reserves: map<Currency, Account>, ratio: map<Currency, real>): map<Currency, real>
  {
    map c | c in reserves.Keys * ratio.Keys :: ReserveGap(m, accounts, reserves, c, ratio[c])
  }

  /** Every listed currency is a key of both maps. */
  predicate InDomains<A, B>(order: seq<Currency>, a: map<Currency, A>, b: map<Currency, B>)
  {
    forall k :: 0 <= k < |order| ==> order[k] in a && order[k] in b
  }

  /** The bond issued over a reserve gap: one when the gap is positive, else none. */
  function IssuedFor(gap: real, bondId: nat, issuer: AgentId, c: Currency, keyRate: real): (r: seq<Bond>)
    ensures |r| == if gap > 0.0 then 1 else 0
  {
    if gap > 0.0 then [Bond(bondId, issuer, c, gap, keyRate + CouponSpread)] else []
  }

  /** The tender of a bond: the central bank credits the gap to the reserve account, when positive. */
  function TopUp(m: map<Account, real>, reserve: Account, gap: real): map<Account, real>
  {
    if gap > 0.0 then m[reserve := Bal(m, reserve) + gap] else m
  }

  /** The bonds the reserve check issues over the gaps of the first n currencies of `order`, numbered from `firstId`. */
  function NewBonds(gaps: map<Currency, real>, order: seq<Currency>, n: nat, keyRate: map<Currency, real>,
                    issuer: AgentId, firstId: nat): (r: seq<Bond>)
    requires InDomains(order, gaps, keyRate) && n <= |order|
    ensures forall b :: b in r ==> b.currency in order && b.currency in gaps && b.currency in keyRate && b.issuer == issuer
  {
    if n == 0 then []
    else
      var c := order[n - 1];
      var earlier := NewBonds(gaps, order, n - 1, keyRate, issuer, firstId);
      earlier + IssuedFor(gaps[c], firstId + |earlier|, issuer, c, keyRate[c])
  }

  /** One more currency handled: at most one more bond, over that currency's gap. */
  lemma NewBondsStep(gaps: map<Currency, real>, order: seq<Currency>, i: nat, keyRate: map<Currency, real>, issuer: AgentId, firstId: nat)
    requires InDomains(order, gaps, keyRate) && i < |order|
    ensures NewBonds(gaps, order, i + 1, keyRate, issuer, firstId)
            == NewBonds(gaps, order, i, keyRate, issuer, firstId)
               + IssuedFor(gaps[order[i]], firstId + |NewBonds(gaps, order, i, keyRate, issuer, firstId)|, issuer, order[i], keyRate[order[i]])
  {
  }

  /** The currencies the bonds are issued in. */
  function CurrenciesOf(bonds: seq<Bond>): set<Currency>
  {
    set b | b in bonds :: b.currency
  }

  /** Every bond the check issues covers its currency's positive gap and pays the key rate plus the spread. */
  lemma {:induction false} NewBondsCoverGaps(gaps: map<Currency, real>, order: seq<Currency>, n: nat, keyRate: map<Currency, real>,
                                             issuer: AgentId, firstId: nat)
    requires InDomains(order, gaps, keyRate) && n <= |order|
    ensures forall b :: b in NewBonds(gaps, order, n, keyRate, issuer, firstId) ==>
      b.faceValue == gaps[b.currency] > 0.0 && b.coupon == keyRate[b.currency] + CouponSpread
  {
    if n > 0 {
      NewBondsCoverGaps(gaps, order, n - 1, keyRate, issuer, firstId);
    }
  }

  /** Bonds are issued only in handled currencies whose reserves fall short. */
  lemma NewBondsCurrencies(gaps: map<Currency, real>, order: seq<Currency>, n: nat, keyRate: map<Currency, real>,
                           issuer: AgentId, firstId: nat)
    requires InDomains(order, gaps, keyRate) && n <= |order|
    ensures forall c :: c in CurrenciesOf(NewBonds(gaps, order, n, keyRate, issuer, firstId)) ==> c in order && c in gaps && gaps[c] > 0.0
  {
    NewBondsCoverGaps(gaps, order, n, keyRate, issuer, firstId);
  }

  /** A handled currency that falls short gets a bond. */
  lemma {:induction false} NewBondsHas(gaps: map<Currency, real>, order: seq<Currency>, n: nat, keyRate: map<Currency, real>,
                                       issuer: AgentId, firstId: nat, k: nat)
    requires InDomains(order, gaps, keyRate) && k < n <= |order| && gaps[order[k]] > 0.0
    ensures exists b :: b in NewBonds(gaps, order, n, keyRate, issuer, firstId) && b.currency == order[k]
  {
    var earlier := NewBonds(gaps, order, n - 1, keyRate, issuer, firstId);
    var c := order[n - 1];
    assert NewBonds(gaps, order, n, keyRate, issuer, firstId) == earlier + IssuedFor(gaps[c], firstId + |earlier|, issuer, c, keyRate[c]);
    if k == n - 1 {
      var b := Bond(firstId + |earlier|, issuer, c, gaps[c], keyRate[c] + CouponSpread);
      assert b in NewBonds(gaps, order, n, keyRate, issuer, firstId);
    } else {
      NewBondsHas(gaps, order, n - 1, keyRate, issuer, firstId, k);
      var b :| b in earlier && b.currency == order[k];
      assert b in NewBonds(gaps, order, n, keyRate, issuer, firstId);
    }
  }

  /** A bond is issued for a handled currency exactly when its reserves fall short. */
  lemma BondIssuedIffShort(gaps: map<Currency, real>, order: seq<Currency>, n: nat, keyRate: map<Currency, real>,
                           issuer: AgentId, firstId: nat, k: nat)
    requires InDomains(order, gaps, keyRate) && k < n <= |order|
    ensures order[k] in CurrenciesOf(NewBonds(gaps, order, n, keyRate, issuer, firstId)) <==> gaps[order[k]] > 0.0
  {
    NewBondsCoverGaps(gaps, order, n, keyRate, issuer, firstId);
    if gaps[order[k]] > 0.0 {
      NewBondsHas(gaps, order, n, keyRate, issuer, firstId, k);
    }
  }

  /** The balances after the check of the first n currencies: each one's reserve account topped up by its gap. */
  function Tendered(m: map<Account, real>, reserves: map<Currency, Account>, gaps: map<Currency, real>, order: seq<Currency>, n: nat): map<Account, real>
    requires InDomains(order, reserves, gaps) && n <= |order|
  {
    if n == 0 then m
    else TopUp(Tendered(m, reserves, gaps, order, n - 1), reserves[order[n - 1]], gaps[order[n - 1]])
  }

  /** The reserve check touches no account but the handled currencies' reserve accounts. */
  lemma {:induction false} TenderedElsewhere(m: map<Account, real>, reserves: map<Currency, Account>, gaps: map<Currency, real>,
                                             order: seq<Currency>, n: nat, x: Account)
    requires InDomains(order, reserves, gaps) && n <= |order|
    requires forall k :: 0 <= k < n ==> x != reserves[order[k]]
    ensures Bal(Tendered(m, reserves, gaps, order, n), x) == Bal(m, x)
  {
    if n > 0 {
      TenderedElsewhere(m, reserves, gaps, order, n - 1, x);
    }
  }

  /** Each handled currency's reserve account gains its gap, when positive, and nothing else. */
  lemma {:induction false} TenderedReserve(m: map<Account, real>, reserves: map<Currency, Account>, gaps: map<Currency, real>,
                                           order: seq<Currency>, n: nat, k: nat)
    requires ReserveAccounts(reserves) && InDomains(order, reserves, gaps)
    requires Once(order) && k < n <= |order|
    ensures Bal(Tendered(m, reserves, gaps, order, n), reserves[order[k]])
            == Bal(m, reserves[order[k]]) + (if gaps[order[k]] > 0.0 then gaps[order[k]] else 0.0)
  {
    var x := reserves[order[k]];
    assert x.currency == order[k];
    if k == n - 1 {
      forall j | 0 <= j < n - 1 ensures x != reserves[order[j]] {
        assert reserves[order[j]].currency == order[j];
      }
      TenderedElsewhere(m, reserves, gaps, order, n - 1, x);
    } else {
      TenderedReserve(m, reserves, gaps, order, n - 1, k);
      assert reserves[order[n - 1]].currency == order[n - 1];
    }
  }

  /**
   * After the check each listed currency's reserves are at least its
   * borrowings times the reserve ratio, and exactly that when they were short.
   */
  lemma ReservesCovered(m: map<Account, real>, accounts: seq<Account>, reserves: map<Currency, Account>, order: seq<Currency>,
                        ratio: map<Currency, real>, k: nat)
    requires ReserveAccounts(reserves) && InDomains(order, reserves, ratio)
    requires Once(order) && k < |order|
    ensures Bal(Tendered(m, reserves, Gaps(m, accounts, reserves, ratio), order, |order|), reserves[order[k]])
            == Max(Bal(m, reserves[order[k]]), Required(Borrowings(m, accounts, order[k]), ratio[order[k]]))
  {
    TenderedReserve(m, reserves, Gaps(m, accounts, reserves, ratio), order, |order|, k);
    TopUpIsMax(Bal(m, reserves[order[k]]), Required(Borrowings(m, accounts, order[k]), ratio[order[k]]));
  }

  /**
   * Before currency order[i] is handled, its reserves and the customer
   * balances are still the original ones, so its gap on the current balances
   * is the one computed before the check.
   */
  lemma GapUnchangedSoFar(m: map<Account, real>, accounts: seq<Account>, reserves: map<Currency, Account>, order: seq<Currency>,
                          i: nat, ratio: map<Currency, real>)
    requires ReserveAccounts(reserves) && InDomains(order, reserves, ratio) && Once(order)
    requires forall a :: a in accounts ==> a.managingBank.kind == Credit
    requires i < |order|
    ensures ReserveGap(Tendered(m, reserves, Gaps(m, accounts, reserves, ratio), order, i), accounts, reserves, order[i], ratio[order[i]])
            == Gaps(m, accounts, reserves, ratio)[order[i]]
  {
    var gaps := Gaps(m, accounts, reserves, ratio);
    var t := Tendered(m, reserves, gaps, order, i);
    var c := order[i];
    forall k | 0 <= k < i ensures reserves[c] != reserves[order[k]] {
      assert reserves[order[k]].currency == order[k];
    }
    TenderedElsewhere(m, reserves, gaps, order, i, reserves[c]);
    forall a | a in accounts ensures Bal(t, a) == Bal(m, a) {
      TenderedElsewhere(m, reserves, gaps, order, i, a);
    }
    BorrowingsFrame(t, m, accounts, c);
  }

  class CreditBank {
    const id: AgentId
    const ledger: Ledger
    /** The bank's own account: issued bonds pay out to it. */
    const transactionsAccount: Account
    var offeredCurrencies: set<Currency>
    /** The passwords of this bank's customers (kept by the bank as a whole). */
    var customerPasswords: map<AgentId, Password>
    /** The passwords this bank holds as a customer of other banks, keyed by bank. */
    var bankPasswords: map<AgentId, Password>
    var centralBankAccountsInitialized: bool
    /** This bank's account at the central bank of each currency. */
    var centralBankAccounts: map<Currency, Account>
    var issuedBonds: seq<Bond>
    var nextBondId: nat

    function Me(): BankRef
    {
      BankRef(id, Credit)
    }

    /** Once initialized, every offered currency has this bank's account at a central bank, held in that currency. */
    ghost predicate Valid()
      reads this
    {
      && (centralBankAccountsInitialized ==> offeredCurrencies <= centralBankAccounts.Keys)
      && ReserveAccounts(centralBankAccounts)
      && (forall c :: c in centralBankAccounts ==> centralBankAccounts[c].owner == id)
    }

    constructor (id: AgentId, ledger: Ledger, offeredCurrencies: set<Currency>, transactionsAccount: Account)
      ensures Valid() && !centralBankAccountsInitialized
      ensures this.id == id && this.ledger == ledger && this.offeredCurrencies == offeredCurrencies
      ensures this.transactionsAccount == transactionsAccount
      ensures customerPasswords == map[] && bankPasswords == map[] && centralBankAccounts == map[]
      ensures issuedBonds == [] && nextBondId == 0
    {
      this.id := id;
      this.ledger := ledger;
      this.offeredCurrencies := offeredCurrencies;
      this.transactionsAccount := transactionsAccount;
      customerPasswords := map[];
      bankPasswords := map[];
      centralBankAccountsInitialized := false;
      centralBankAccounts := map[];
      issuedBonds := [];
      nextBondId := 0;
    }

    /** assertCurrencyIsOffered: a currency this bank does not offer is an error. */
    function CurrencyCheck(c: Currency): (r: Outcome<CreditBankError>)
      reads this
      ensures r.Pass? <==> c in offeredCurrencies
      ensures r.Fail? ==> r.error == CurrencyNotOffered
    {
      if c in offeredCurrencies then Pass else Fail(CurrencyNotOffered)
    }

    /** Once the central-bank accounts are opened, every currency that passes the check has a reserve account in it. */
    lemma OfferedCurrencyHasReserveAccount(c: Currency)
      requires Valid() && centralBankAccountsInitialized && CurrencyCheck(c).Pass?
      ensures c in centralBankAccounts && centralBankAccounts[c].currency == c
    {
    }

    /** What the central bank of a currency yields when this bank opens its account there. */
    predicate Opening(opening: map<Currency, CentralBankAccess>)
    {
      && (forall c :: c in opening ==>
            opening[c].account == Account(opening[c].account.id, id, BankRef(opening[c].bank, Central), c, CentralBankMoney, false))
      && (forall c, d :: c in opening && d in opening && c != d ==> opening[c].bank != opening[d].bank)
    }

    /**
     * assertCentralBankAccount: on first use, open an account at the central
     * bank of every offered currency and keep the password; afterwards nothing.
     */
    method AssertCentralBankAccount(opening: map<Currency, CentralBankAccess>)
      requires Valid() && offeredCurrencies <= opening.Keys && Opening(opening)
      modifies this
      ensures offeredCurrencies == old(offeredCurrencies) && customerPasswords == old(customerPasswords)
      ensures issuedBonds == old(issuedBonds) && nextBondId == old(nextBondId)
      ensures Valid() && centralBankAccountsInitialized
      ensures old(centralBankAccountsInitialized) ==>
        centralBankAccounts == old(centralBankAccounts) && bankPasswords == old(bankPasswords)
      ensures !old(centralBankAccountsInitialized) ==> forall c :: c in offeredCurrencies ==>
        && centralBankAccounts[c] == opening[c].account
        && opening[c].bank in bankPasswords && bankPasswords[opening[c].bank] == opening[c].password
    {
      if !centralBankAccountsInitialized {
        var todo := offeredCurrencies;
        while todo != {}
          invariant todo <= offeredCurrencies && Valid()
          invariant customerPasswords == old(customerPasswords) && offeredCurrencies == old(offeredCurrencies)
          invariant issuedBonds == old(issuedBonds) && nextBondId == old(nextBondId)
          invariant !centralBankAccountsInitialized
          invariant forall c :: c in offeredCurrencies && c !in todo ==>
            && c in centralBankAccounts && centralBankAccounts[c] == opening[c].account
            && opening[c].bank in bankPasswords && bankPasswords[opening[c].bank] == opening[c].password
          decreases todo
        {
          var c :| c in todo;
          var access := opening[c];
          centralBankAccounts := centralBankAccounts[c := access.account];
          bankPasswords := bankPasswords[access.bank := access.password];
          todo := todo - {c};
        }
        centralBankAccountsInitialized := true;
      }
    }

    /**
     * transferMoney (the guarded form): check amount, currencies, password and
     * overdraft; then move the money internally or, to another bank, through
     * this bank's account at the central bank of the currency.
     */
    method TransferMoney(from: Account, to: Account, amount: real, password: Password, negativeAmountOK: bool,
                         opening: map<Currency, CentralBankAccess>)
      returns (out: Outcome<CreditBankError>)
      requires Valid() && offeredCurrencies <= opening.Keys && Opening(opening)
      requires from.owner in customerPasswords && from.managingBank == Me()
      requires to.managingBank != Me() ==> from.currency in offeredCurrencies
      modifies this, ledger
      ensures Valid() && centralBankAccountsInitialized
      ensures offeredCurrencies == old(offeredCurrencies) && customerPasswords == old(customerPasswords)
      ensures issuedBonds == old(issuedBonds) && nextBondId == old(nextBondId)
      ensures old(centralBankAccountsInitialized) ==>
        centralBankAccounts == old(centralBankAccounts) && bankPasswords == old(bankPasswords)
      ensures !old(centralBankAccountsInitialized) ==> forall c :: c in offeredCurrencies ==>
        && centralBankAccounts[c] == opening[c].account
        && opening[c].bank in bankPasswords && bankPasswords[opening[c].bank] == opening[c].password
      ensures out == TransferCheck(old(ledger.balance), customerPasswords, from, to, amount, password, negativeAmountOK)
      ensures out.Fail? ==> ledger.balance == old(ledger.balance)
      ensures out.Pass? && to.managingBank == Me() ==> ledger.balance == Moved(old(ledger.balance), from, to, amount)
      ensures out.Pass? && to.managingBank != Me() ==>
        ledger.balance == Moved(Moved(old(ledger.balance), from, centralBankAccounts[from.currency], amount),
                                centralBankAccounts[from.currency], to, amount)
      ensures out.Pass? ==> forall c :: Bal(ledger.balance, c) == Bal(Moved(old(ledger.balance), from, to, amount), c)
    {
      AssertCentralBankAccount(opening);
      out := TransferCheck(ledger.balance, customerPasswords, from, to, amount, password, negativeAmountOK);
      if out.Pass? {
        if to.managingBank == Me() {
          ledger.Withdraw(from, amount);
          ledger.Deposit(to, amount);
        } else {
          var reserve := centralBankAccounts[from.currency];
          ledger.Move(from, reserve, amount);
          ledger.Move(reserve, to, amount);
          TwoHopsAsOne(old(ledger.balance), from, reserve, to, amount);
        }
      }
    }

    /** deposit, on the order of a central bank: its password must match and the amount must not be negative. */
    method Deposit(caller: AgentId, password: Password, account: Account, amount: real) returns (out: Outcome<CreditBankError>)
      requires account.managingBank == Me()
      modifies ledger
      ensures PasswordCheck(bankPasswords, caller, password).Fail? ==> out == PasswordCheck(bankPasswords, caller, password)
      ensures PasswordCheck(bankPasswords, caller, password).Pass? ==> out == (if amount < 0.0 then Fail(NegativeAmount) else Pass)
      ensures out.Pass? ==> ledger.balance == old(ledger.balance)[account := Bal(old(ledger.balance), account) + amount]
      ensures out.Fail? ==> ledger.balance == old(ledger.balance)
    {
      out := PasswordCheck(bankPasswords, caller, password);
      if out.Pass? {
        if amount < 0.0 {
          out := Fail(NegativeAmount);
        } else {
          ledger.Deposit(account, amount);
        }
      }
    }

    /** withdraw, on the order of a central bank: the same checks; no overdraft check. */
    method Withdraw(caller: AgentId, password: Password, account: Account, amount: real) returns (out: Outcome<CreditBankError>)
      requires account.managingBank == Me()
      modifies ledger
      ensures PasswordCheck(bankPasswords, caller, password).Fail? ==> out == PasswordCheck(bankPasswords, caller, password)
      ensures PasswordCheck(bankPasswords, caller, password).Pass? ==> out == (if amount < 0.0 then Fail(NegativeAmount) else Pass)
      ensures out.Pass? ==> ledger.balance == old(ledger.balance)[account := Bal(old(ledger.balance), account) - amount]
      ensures out.Fail? ==> ledger.balance == old(ledger.balance)
    {
      out := PasswordCheck(bankPasswords, caller, password);
      if out.Pass? {
        if amount < 0.0 {
          out := Fail(NegativeAmount);
        } else {
          ledger.Withdraw(account, amount);
        }
      }
    }

    /** getSumOfBorrowings: the positive balances in one currency of the customer accounts. */
    method SumOfBorrowings(c: Currency, accounts: seq<Account>) returns (sum: real)
      ensures sum == Borrowings(ledger.balance, accounts, c)
      ensures sum >= 0.0
    {
      sum := 0.0;
      var i := 0;
      while i < |accounts|
        invariant 0 <= i <= |accounts|
        invariant sum == Borrowings(ledger.balance, accounts[..i], c)
      {
        assert accounts[..i + 1][..i] == accounts[..i];
        var a := accounts[i];
        if a.currency == c && Bal(ledger.balance, a) > 0.0 {
          sum := sum + Bal(ledger.balance, a);
        }
        i := i + 1;
      }
      assert accounts[..|accounts|] == accounts;
      BorrowingsBounds(ledger.balance, accounts, c);
    }

    /**
     * One currency of the reserve check: compute the gap on the current
     * balances and, when it is positive, issue a bond over it, numbered
     * `bondId`, and tender it.
     */
    method TopUpReserve(accounts: seq<Account>, c: Currency, ratio: real, keyRate: real, bondId: nat)
      returns (gap: real, issued: seq<Bond>)
      requires c in centralBankAccounts
      modifies ledger
      ensures gap == ReserveGap(old(ledger.balance), accounts, centralBankAccounts, c, ratio)
      ensures ledger.balance == TopUp(old(ledger.balance), centralBankAccounts[c], gap)
      ensures issued == IssuedFor(gap, bondId, id, c, keyRate)
    {
      var reserve := centralBankAccounts[c];
      var borrowings := SumOfBorrowings(c, accounts);
      gap := Required(borrowings, ratio) - Bal(ledger.balance, reserve);
      issued := [];
      if gap > 0.0 {
        issued := [Bond(bondId, id, c, gap, keyRate + CouponSpread)];
        ledger.Deposit(reserve, gap);
      }
    }

    /** Handle currency order[i]: its bond, if any, joins those issued so far, and its tender is made. */
    method ReserveStep(accounts: seq<Account>, order: seq<Currency>, i: nat, ratio: map<Currency, real>,
                       keyRate: map<Currency, real>, firstId: nat, bonds: seq<Bond>,
                       ghost m: map<Account, real>, ghost gaps: map<Currency, real>)
      returns (bonds': seq<Bond>)
      requires ReserveAccounts(centralBankAccounts) && Once(order) && i < |order|
      requires InDomains(order, centralBankAccounts, ratio) && InDomains(order, ratio, keyRate)
      requires forall a :: a in accounts ==> a.managingBank.kind == Credit
      requires gaps == Gaps(m, accounts, centralBankAccounts, ratio)
      requires InDomains(order, gaps, keyRate) && InDomains(order, centralBankAccounts, gaps)
      requires bonds == NewBonds(gaps, order, i, keyRate, id, firstId)
      requires ledger.balance == Tendered(m, centralBankAccounts, gaps, order, i)
      modifies ledger
      ensures bonds' == NewBonds(gaps, order, i + 1, keyRate, id, firstId)
      ensures ledger.balance == Tendered(m, centralBankAccounts, gaps, order, i + 1)
    {
      GapUnchangedSoFar(m, accounts, centralBankAccounts, order, i, ratio);
      NewBondsStep(gaps, order, i, keyRate, id, firstId);
      var gap, issued := TopUpReserve(accounts, order[i], ratio[order[i]], keyRate[order[i]], firstId + |bonds|);
      bonds' := bonds + issued;
    }

    /** The loop of the reserve check over the currencies, numbering the new bonds from `firstId`. */
    method TenderAll(accounts: seq<Account>, order: seq<Currency>, ratio: map<Currency, real>, keyRate: map<Currency, real>,
                     firstId: nat)
      returns (bonds: seq<Bond>)
      requires ReserveAccounts(centralBankAccounts) && Once(order)
      requires InDomains(order, centralBankAccounts, ratio) && InDomains(order, ratio, keyRate)
      requires forall a :: a in accounts ==> a.managingBank.kind == Credit
      modifies ledger
      ensures var gaps := Gaps(old(ledger.balance), accounts, centralBankAccounts, ratio);
        && bonds == NewBonds(gaps, order, |order|, keyRate, id, firstId)
        && ledger.balance == Tendered(old(ledger.balance), centralBankAccounts, gaps, order, |order|)
    {
      ghost var m := ledger.balance;
      ghost var gaps := Gaps(m, accounts, centralBankAccounts, ratio);
      assert InDomains(order, gaps, keyRate) && InDomains(order, centralBankAccounts, gaps);
      bonds := [];
      var i := 0;
      while i < |order|
        invariant 0 <= i <= |order|
        invariant bonds == NewBonds(gaps, order, i, keyRate, id, firstId)
        invariant ledger.balance == Tendered(m, centralBankAccounts, gaps, order, i)
      {
        bonds := ReserveStep(accounts, order, i, ratio, keyRate, firstId, bonds, m, gaps);
        i := i + 1;
      }
    }

    /** The reserve check over the currencies, in the order the set hands them out. */
    method CheckReserves(accounts: seq<Account>, order: seq<Currency>, ratio: map<Currency, real>, keyRate: map<Currency, real>)
      requires Valid() && Once(order) && InDomains(order, centralBankAccounts, ratio) && InDomains(order, ratio, keyRate)
      requires forall a :: a in accounts ==> a.managingBank == Me()
      modifies this, ledger
      ensures Valid() && centralBankAccounts == old(centralBankAccounts) && bankPasswords == old(bankPasswords)
      ensures offeredCurrencies == old(offeredCurrencies) && customerPasswords == old(customerPasswords)
      ensures centralBankAccountsInitialized == old(centralBankAccountsInitialized)
      ensures var gaps := Gaps(old(ledger.balance), accounts, centralBankAccounts, ratio);
        && issuedBonds == old(issuedBonds) + NewBonds(gaps, order, |order|, keyRate, id, old(nextBondId))
        && nextBondId == old(nextBondId) + |NewBonds(gaps, order, |order|, keyRate, id, old(nextBondId))|
        && ledger.balance == Tendered(old(ledger.balance), centralBankAccounts, gaps, order, |order|)
    {
      var bonds := TenderAll(accounts, order, ratio, keyRate, nextBondId);
      issuedBonds := issuedBonds + bonds;
      nextBondId := nextBondId + |bonds|;
    }

    /**
     * CheckMoneyReservesEvent: for each offered currency, when borrowings times
     * the reserve ratio exceed the reserves at the central bank, issue one bond
     * over the gap, tender it (the central bank credits its face value to the
     * reserves) and remember it.
     */
    method CheckMoneyReservesEvent(accounts: seq<Account>, order: seq<Currency>, ratio: map<Currency, real>,
                                   keyRate: map<Currency, real>, opening: map<Currency, CentralBankAccess>)
      requires Valid() && offeredCurrencies <= opening.Keys && Opening(opening)
      requires (set c | c in order) == offeredCurrencies && Once(order)
      requires offeredCurrencies <= ratio.Keys && offeredCurrencies <= keyRate.Keys
      requires forall a :: a in accounts ==> a.managingBank == Me()
      modifies this, ledger
      ensures offeredCurrencies == old(offeredCurrencies) && customerPasswords == old(customerPasswords)
      ensures Valid() && centralBankAccountsInitialized
      ensures old(centralBankAccountsInitialized) ==>
        centralBankAccounts == old(centralBankAccounts) && bankPasswords == old(bankPasswords)
      ensures !old(centralBankAccountsInitialized) ==> forall c :: c in offeredCurrencies ==>
        && centralBankAccounts[c] == opening[c].account
        && opening[c].bank in bankPasswords && bankPasswords[opening[c].bank] == opening[c].password
      ensures var gaps := Gaps(old(ledger.balance), accounts, centralBankAccounts, ratio);
        nextBondId == old(nextBondId) + |NewBonds(gaps, order, |order|, keyRate, id, old(nextBondId))|
      ensures var gaps := Gaps(old(ledger.balance), accounts, centralBankAccounts, ratio);
        && issuedBonds == old(issuedBonds) + NewBonds(gaps, order, |order|, keyRate, id, old(nextBondId))
        && ledger.balance == Tendered(old(ledger.balance), centralBankAccounts, gaps, order, |order|)
    {
      AssertCentralBankAccount(opening);
      assert forall k :: 0 <= k < |order| ==> order[k] in offeredCurrencies;
      CheckReserves(accounts, order, ratio, keyRate);
    }

    /**
     * BalanceSheetPublicationEvent: add the customer balances to borrowings or
     * loans by sign and the live bonds' face values to the liabilities; drop
     * the deconstructed bonds.
     */
    method BalanceSheetPublicationEvent(basic: BalanceSheet, accounts: seq<Account>, deconstructed: set<nat>,
                                        opening: map<Currency, CentralBankAccess>)
      returns (sheet: BalanceSheet)
      requires Valid() && offeredCurrencies <= opening.Keys && Opening(opening)
      modifies this
      ensures Valid() && centralBankAccountsInitialized
      ensures offeredCurrencies == old(offeredCurrencies) && customerPasswords == old(customerPasswords)
      ensures nextBondId == old(nextBondId)
      ensures old(centralBankAccountsInitialized) ==>
        centralBankAccounts == old(centralBankAccounts) && bankPasswords == old(bankPasswords)
      ensures !old(centralBankAccountsInitialized) ==> forall c :: c in offeredCurrencies ==>
        && centralBankAccounts[c] == opening[c].account
        && opening[c].bank in bankPasswords && bankPasswords[opening[c].bank] == opening[c].password
      ensures sheet == BalanceSheet(basic.bankBorrowings + PassiveSum(ledger.balance, accounts),
                                    basic.bankLoans + ActiveSum(ledger.balance, accounts),
                                    basic.financialLiabilities + LiveFaceValue(old(issuedBonds), deconstructed))
      ensures issuedBonds == LiveBonds(old(issuedBonds), deconstructed)
    {
      AssertCentralBankAccount(opening);
      var customers := CustomerBalances(basic, accounts);
      var kept, faceValue := KeepLiveBonds(issuedBonds, deconstructed);
      sheet := customers.(financialLiabilities := customers.financialLiabilities + faceValue);
      issuedBonds := kept;
    }

    /** The balance sheet's loop over the customer accounts: positive balances to borrowings, negative ones to loans. */
    method CustomerBalances(basic: BalanceSheet, accounts: seq<Account>) returns (sheet: BalanceSheet)
      ensures sheet == BalanceSheet(basic.bankBorrowings + PassiveSum(ledger.balance, accounts),
                                    basic.bankLoans + ActiveSum(ledger.balance, accounts),
                                    basic.financialLiabilities)
    {
      sheet := basic;
      var i := 0;
      while i < |accounts|
        invariant 0 <= i <= |accounts|
        invariant sheet == BalanceSheet(basic.bankBorrowings + PassiveSum(ledger.balance, accounts[..i]),
                                        basic.bankLoans + ActiveSum(ledger.balance, accounts[..i]),
                                        basic.financialLiabilities)
      {
        assert accounts[..i + 1][..i] == accounts[..i];
        var b := Bal(ledger.balance, accounts[i]);
        if b > 0.0 {
          sheet := sheet.(bankBorrowings := sheet.bankBorrowings + b);
        } else {
          sheet := sheet.(bankLoans := sheet.bankLoans + b * -1.0);
        }
        i := i + 1;
      }
      assert accounts[..|accounts|] == accounts;
    }
  }

  /** The balance sheet's loop over the issued bonds: keep the live ones and sum their face values. */
  method KeepLiveBonds(bonds: seq<Bond>, deconstructed: set<nat>) returns (kept: seq<Bond>, faceValue: real)
    ensures kept == LiveBonds(bonds, deconstructed)
    ensures faceValue == LiveFaceValue(bonds, deconstructed)
  {
    kept := [];
    faceValue := 0.0;
    var j := 0;
    while j < |bonds|
      invariant 0 <= j <= |bonds|
      invariant kept == LiveBonds(bonds[..j], deconstructed)
      invariant faceValue == LiveFaceValue(bonds[..j], deconstructed)
    {
      assert bonds[..j + 1][..j] == bonds[..j];
      if bonds[j].id !in deconstructed {
        faceValue := faceValue + bonds[j].faceValue;
        kept := kept + [bonds[j]];
      }
      j := j + 1;
    }
    assert bonds[..|bonds|] == bonds;
  }
}
