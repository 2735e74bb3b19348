// Bank accounts shared by the market, the central bank, the credit banks and
// the account index. An account is an immutable record whose `id` makes it
// unique (it plays the role of object identity); its balance lives in a
// `Ledger`, the one mutable store of all balances.
module Banking {
  import opened Numbers

  type AgentId = nat
  type Password = nat

  datatype Currency = Euro | UsDollar | Yen

  datatype MoneyType = Deposits | CentralBankMoney

  datatype BankKind = Central | Credit

  /** A bank is an agent, which is either a central bank or a credit bank. */
  datatype BankRef = BankRef(agent: AgentId, kind: BankKind)

  datatype Account = Account(
    id: nat,
    owner: AgentId,
    managingBank: BankRef,
    currency: Currency,
    moneyType: MoneyType,
    overdraftPossible: bool)

  /** Error results of operations that throw in the source. */
  datatype Outcome<E> = Pass | Fail(error: E)

  /** The balance of an account (or any other register entry); one never touched holds 0. */
  function Bal<K>(m: map<K, real>, a: K): real
  {
    if a in m then m[a] else 0.0
  }

  /** Withdraw `x` from `from` and deposit it on `to` (the two may be the same account). */
  function Moved<K(!new)>(m: map<K, real>, from: K, to: K, x: real): (r: map<K, real>)
    ensures from != to ==> Bal(r, from) == Bal(m, from) - x && Bal(r, to) == Bal(m, to) + x
    ensures from == to ==> Bal(r, from) == Bal(m, from)
    ensures forall c :: c != from && c != to ==> Bal(r, c) == Bal(m, c)
  {
    var w := m[from := Bal(m, from) - x];
    w[to := Bal(w, to) + x]
  }

  /** A move never creates or destroys money: the two balances keep their sum. */
  lemma MovedPreservesSum(m: map<Account, real>, from: Account, to: Account, x: real)
    ensures Bal(Moved(m, from, to, x), from) + Bal(Moved(m, from, to, x), to)
         == Bal(m, from) + Bal(m, to)
  {
  }

  /** Routing `x` through an intermediate account has the net effect of a direct move. */
  lemma TwoHopsAsOne(m: map<Account, real>, from: Account, via: Account, to: Account, x: real)
    ensures forall c :: Bal(Moved(Moved(m, from, via, x), via, to, x), c) == Bal(Moved(m, from, to, x), c)
  {
    var r := Moved(Moved(m, from, via, x), via, to, x);
    var d := Moved(m, from, to, x);
    forall c ensures Bal(r, c) == Bal(d, c) {
    }
  }

  class Ledger {
    var balance: map<Account, real>

    constructor ()
      ensures balance == map[]
    {
      balance := map[];
    }

    /** BankAccount.withdraw: the balance drops by `x`. */
    method Withdraw(a: Account, x: real)
      modifies this
      ensures balance == old(balance)[a := Bal(old(balance), a) - x]
    {
      balance := balance[a := Bal(balance, a) - x];
    }

    /** BankAccount.deposit: the balance rises by `x`. */
    method Deposit(a: Account, x: real)
      modifies this
      ensures balance == old(balance)[a := Bal(old(balance), a) + x]
    {
      balance := balance[a := Bal(balance, a) + x];
    }

    /** The withdraw-then-deposit pair every transfer of the source ends with. */
    method Move(from: Account, to: Account, x: real)
      modifies this
      ensures balance == Moved(old(balance), from, to, x)
    {
      balance := Moved(balance, from, to, x);
    }
  }
}
