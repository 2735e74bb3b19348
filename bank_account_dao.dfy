// The in-memory index of bank accounts: for each managing bank the list of
// accounts it manages, kept in step with an index from each owner to the list
// of accounts it owns. Lists are values here, so what the finders return is a
// copy by construction.
module BankAccountIndex {
  import opened Banking

  /** The list stored under `k`, or the empty list. */
  function Lookup<K, V>(m: map<K, seq<V>>, k: K): seq<V>
  {
    if k in m then m[k] else []
  }

  predicate Distinct(s: seq<Account>)
  {
    forall i, j :: 0 <= i < j < |s| ==> s[i] != s[j]
  }

  /** List.remove(Object): drop the first occurrence of `x`, if there is one. */
  function RemoveFirst(s: seq<Account>, x: Account): (r: seq<Account>)
    ensures multiset(r) == multiset(s) - multiset{x}
    ensures |r| <= |s|
  {
    if s == [] then []
    else if s[0] == x then
      assert s == [s[0]] + s[1..];
      s[1..]
    else
      assert s == [s[0]] + s[1..];
      [s[0]] + RemoveFirst(s[1..], x)
  }

  lemma DistinctTail(s: seq<Account>)
    requires Distinct(s) && s != []
    ensures Distinct(s[1..]) && s[0] !in s[1..]
  {
    forall i, j | 0 <= i < j < |s[1..]| ensures s[1..][i] != s[1..][j] {
      assert s[i + 1] != s[j + 1];
    }
    forall i | 0 <= i < |s[1..]| ensures s[1..][i] != s[0] {
      assert s[i + 1] != s[0];
    }
  }

  /** In a list without repetitions, removing the first occurrence removes the element. */
  lemma {:induction false} RemoveFirstDistinct(s: seq<Account>, x: Account)
    requires Distinct(s)
    ensures Distinct(RemoveFirst(s, x))
    ensures forall y :: y in RemoveFirst(s, x) <==> y in s && y != x
  {
    if s != [] {
      DistinctTail(s);
      if s[0] != x {
        RemoveFirstDistinct(s[1..], x);
        var r := RemoveFirst(s[1..], x);
        assert s[0] !in r;
        forall i, j | 0 <= i < j < |[s[0]] + r| ensures ([s[0]] + r)[i] != ([s[0]] + r)[j] {
          if i == 0 {
            assert ([s[0]] + r)[j] == r[j - 1];
          } else {
            assert ([s[0]] + r)[i] == r[i - 1] && ([s[0]] + r)[j] == r[j - 1];
          }
        }
      }
    }
  }

  /** The accounts of `s` that are not in `gone`, in list order. */
  function Without(s: seq<Account>, gone: set<Account>): (r: seq<Account>)
    ensures forall a :: a in r <==> a in s && a !in gone
  {
    if s == [] then []
    else (if s[0] in gone then [] else [s[0]]) + Without(s[1..], gone)
  }

  /** Every list of an index with the accounts in `gone` taken out, the rest in order. */
  function Pruned<K>(m: map<K, seq<Account>>, gone: set<Account>): (r: map<K, seq<Account>>)
    ensures r.Keys == m.Keys
    ensures forall k :: k in r ==> r[k] == Without(m[k], gone)
  {
    map k | k in m :: Without(m[k], gone)
  }

  /** Taking nothing out leaves every list as it is. */
  lemma PrunedNothing<K>(m: map<K, seq<Account>>)
    ensures Pruned(m, {}) == m
  {
    forall k | k in m ensures Without(m[k], {}) == m[k] {
      WithoutNone(m[k], {});
    }
  }

  /** A list holding none of the accounts in `gone` is left as it is. */
  lemma {:induction false} WithoutNone(s: seq<Account>, gone: set<Account>)
    requires forall a :: a in s ==> a !in gone
    ensures Without(s, gone) == s
  {
    if s != [] {
      assert s[0] in s;
      WithoutNone(s[1..], gone);
      assert s == [s[0]] + s[1..];
    }
  }

  /** Taking out `gone` and then `more` is taking out both at once. */
  lemma {:induction false} WithoutTwice(s: seq<Account>, gone: set<Account>, more: set<Account>)
    ensures Without(Without(s, gone), more) == Without(s, gone + more)
  {
    if s != [] {
      WithoutTwice(s[1..], gone, more);
      var t := Without(s[1..], gone);
      var rest := Without(s[1..], gone + more);
      if s[0] in gone {
        assert Without(s, gone) == t;
        assert Without(s, gone + more) == rest;
      } else {
        var head := if s[0] in more then [] else [s[0]];
        assert Without(s, gone) == [s[0]] + t;
        assert ([s[0]] + t)[0] == s[0] && ([s[0]] + t)[1..] == t;
        assert Without([s[0]] + t, more) == head + Without(t, more);
        assert Without(s, gone + more) == head + rest;
      }
    }
  }

  /** In a list without repetitions, List.remove takes out exactly one account. */
  lemma {:induction false} RemoveFirstIsWithout(s: seq<Account>, x: Account)
    requires Distinct(s)
    ensures RemoveFirst(s, x) == Without(s, {x})
  {
    if s != [] {
      DistinctTail(s);
      if s[0] == x {
        WithoutNone(s[1..], {x});
      } else {
        RemoveFirstIsWithout(s[1..], x);
      }
    }
  }

  /** The accounts of `s` managed by `bank`. */
  function ManagedIn(s: seq<Account>, bank: BankRef): set<Account>
  {
    set a | a in s && a.managingBank == bank
  }

  /** The accounts of `s`. */
  function Elems(s: seq<Account>): set<Account>
  {
    set a | a in s
  }

  /**
   * One deletion, as an index sees it: removing `c` from the list under its
   * key `k`, where no other list holds it, turns an index pruned of `gone`
   * into the index pruned of `gone` and `c`.
   */
  lemma RemoveStep<K>(m0: map<K, seq<Account>>, cur: map<K, seq<Account>>, gone: set<Account>, k: K, c: Account)
    requires cur == Pruned(m0, gone)
    requires forall w :: w in m0 && w != k ==> c !in m0[w]
    requires k in cur ==> Distinct(cur[k])
    ensures (if k in cur then cur[k := RemoveFirst(cur[k], c)] else cur) == Pruned(m0, gone + {c})
  {
    var next := if k in cur then cur[k := RemoveFirst(cur[k], c)] else cur;
    forall w | w in m0 ensures next[w] == Without(m0[w], gone + {c}) {
      WithoutTwice(m0[w], gone, {c});
      if w == k {
        RemoveFirstIsWithout(cur[k], c);
      } else {
        WithoutNone(cur[w], {c});
      }
    }
  }

  /** What the finders and bulk deletes select from a list. */
  datatype AccountFilter =
    | ManagedBy(bank: BankRef)
    | ManagedByIn(bank: BankRef, currency: Currency)

  predicate Matches(f: AccountFilter, a: Account)
  {
    match f
    case ManagedBy(b) => a.managingBank == b
    case ManagedByIn(b, c) => a.managingBank == b && a.currency == c
  }

  /** The accounts of `s` that `f` selects, in list order. */
  function Where(s: seq<Account>, f: AccountFilter): (r: seq<Account>)
    ensures forall a :: a in r <==> a in s && Matches(f, a)
  {
    if s == [] then []
    else Where(s[..|s| - 1], f) + (if Matches(f, s[|s| - 1]) then [s[|s| - 1]] else [])
  }

  /** Filtering a list without repetitions gives a list without repetitions. */
  lemma {:induction false} WhereDistinct(s: seq<Account>, f: AccountFilter)
    requires Distinct(s)
    ensures Distinct(Where(s, f))
  {
    if s != [] {
      var init := s[..|s| - 1];
      assert Distinct(init);
      WhereDistinct(init, f);
      if Matches(f, s[|s| - 1]) {
        assert s[|s| - 1] !in init;
        AppendDistinct(Where(init, f), s[|s| - 1]);
      }
    }
  }

  class BankAccountDAO {
    var byBank: map<BankRef, seq<Account>>
    var byOwner: map<AgentId, seq<Account>>

    /** `a` is in the list of its managing bank. */
    predicate Stored(a: Account)
      reads this
    {
      a.managingBank in byBank && a in byBank[a.managingBank]
    }

    /** `a` is in the list of its owner. */
    predicate Filed(a: Account)
      reads this
    {
      a.owner in byOwner && a in byOwner[a.owner]
    }

    /**
     * Every list holds each account once and only accounts of its key, and the
     * two indexes hold the same accounts.
     */
    ghost predicate Valid()
      reads this
    {
      && (forall b :: b in byBank ==> Distinct(byBank[b]) && forall a :: a in byBank[b] ==> a.managingBank == b)
      && (forall w :: w in byOwner ==> Distinct(byOwner[w]) && forall a :: a in byOwner[w] ==> a.owner == w)
      && (forall a :: Stored(a) <==> Filed(a))
    }

    constructor ()
      ensures Valid() && byBank == map[] && byOwner == map[]
    {
      byBank := map[];
      byOwner := map[];
    }

    /** save: append the account to its bank's list, creating the list if need be, and file it under its owner. */
    method Save(a: Account)
      requires Valid() && !Stored(a)
      modifies this
      ensures Valid()
      ensures byBank == old(byBank)[a.managingBank := Lookup(old(byBank), a.managingBank) + [a]]
      ensures byOwner == old(byOwner)[a.owner := Lookup(old(byOwner), a.owner) + [a]]
      ensures forall c :: Stored(c) <==> old(Stored(c)) || c == a
    {
      var bankList := Lookup(byBank, a.managingBank);
      var ownerList := Lookup(byOwner, a.owner);
      assert !Filed(a);
      assert a !in bankList && a !in ownerList;
      AppendDistinct(bankList, a);
      AppendDistinct(ownerList, a);
      byBank := byBank[a.managingBank := bankList + [a]];
      byOwner := byOwner[a.owner := ownerList + [a]];
      forall c ensures Stored(c) <==> Filed(c) {
        assert Stored(c) <==> old(Stored(c)) || c == a;
        assert Filed(c) <==> old(Filed(c)) || c == a;
      }
    }

    /** delete: remove the account from its bank's list, if that bank is registered, and from its owner's list. */
    method Delete(a: Account)
      requires Valid()
      modifies this
      ensures Valid()
      ensures byBank == if a.managingBank in old(byBank)
                        then old(byBank)[a.managingBank := RemoveFirst(old(byBank)[a.managingBank], a)]
                        else old(byBank)
      ensures byOwner == if a.owner in old(byOwner)
                         then old(byOwner)[a.owner := RemoveFirst(old(byOwner)[a.owner], a)]
                         else old(byOwner)
      ensures forall c :: Stored(c) <==> old(Stored(c)) && c != a
    {
      if a.managingBank in byBank {
        RemoveFirstDistinct(byBank[a.managingBank], a);
        byBank := byBank[a.managingBank := RemoveFirst(byBank[a.managingBank], a)];
      }
      if a.owner in byOwner {
        RemoveFirstDistinct(byOwner[a.owner], a);
        byOwner := byOwner[a.owner := RemoveFirst(byOwner[a.owner], a)];
      }
      forall c ensures Stored(c) <==> Filed(c) {
        assert Stored(c) <==> old(Stored(c)) && c != a;
        assert Filed(c) <==> old(Filed(c)) && c != a;
      }
    }

    /** deleteAllBankAccounts(bank): delete every account the bank manages, then drop the bank's list. */
    method DeleteAllBankAccounts(bank: BankRef)
      requires Valid()
      modifies this
      ensures Valid()
      ensures byBank == old(byBank) - {bank}
      ensures byOwner == Pruned(old(byOwner), Elems(Lookup(old(byBank), bank)))
      ensures forall c :: Stored(c) <==> old(Stored(c)) && c.managingBank != bank
    {
      if bank in byBank {
        DeleteEach(bank);
      } else {
        assert Elems([]) == {};
        PrunedNothing(byOwner);
      }
      assert byOwner == Pruned(old(byOwner), Elems(Lookup(old(byBank), bank)));
      label Kept:
      byBank := byBank - {bank};
      forall c ensures Stored(c) <==> Filed(c) {
        assert Stored(c) <==> old@Kept(Stored(c)) && c.managingBank != bank;
        assert Filed(c) <==> old@Kept(Filed(c));
      }
    }

    /** Delete, one after another, the accounts in the bank's list; the list is left empty. */
    method DeleteEach(bank: BankRef)
      requires Valid() && bank in byBank
      modifies this
      ensures Valid() && byBank == old(byBank)[bank := []]
      ensures byOwner == Pruned(old(byOwner), Elems(old(byBank)[bank]))
    {
      var copy := byBank[bank];
      var i := 0;
      PrunedNothing(byOwner);
      assert Elems(copy[..0]) == {};
      while i < |copy|
        invariant 0 <= i <= |copy| && Valid()
        invariant byBank == old(byBank)[bank := copy[i..]]
        invariant byOwner == Pruned(old(byOwner), Elems(copy[..i]))
      {
        var c := copy[i];
        assert copy[i..][0] == c && copy[i..][1..] == copy[i + 1..];
        assert c in old(byBank)[bank];
        OnlyUnderOwner(c);
        RemoveStep(old(byOwner), byOwner, Elems(copy[..i]), c.owner, c);
        Delete(c);
        assert Elems(copy[..i + 1]) == Elems(copy[..i]) + {c} by {
          assert copy[..i + 1] == copy[..i] + [c];
        }
        i := i + 1;
      }
      assert copy[..|copy|] == copy;
    }

    /** Under Valid, an account is filed at most under its own owner and its own bank. */
    twostate lemma OnlyUnderOwner(c: Account)
      requires old(Valid())
      ensures forall w :: w in old(byOwner) && w != c.owner ==> c !in old(byOwner)[w]
      ensures forall b :: b in old(byBank) && b != c.managingBank ==> c !in old(byBank)[b]
    {
    }

    /** One deletion seen against the maps it started from: `c` joins the accounts pruned from them. */
    method DeletePruned(c: Account, ghost b0: map<BankRef, seq<Account>>, ghost o0: map<AgentId, seq<Account>>, ghost gone: set<Account>)
      requires Valid()
      requires byBank == Pruned(b0, gone) && byOwner == Pruned(o0, gone)
      requires forall b :: b in b0 && b != c.managingBank ==> c !in b0[b]
      requires forall w :: w in o0 && w != c.owner ==> c !in o0[w]
      modifies this
      ensures Valid()
      ensures byBank == Pruned(b0, gone + {c}) && byOwner == Pruned(o0, gone + {c})
      ensures forall x :: Stored(x) <==> old(Stored(x)) && x != c
    {
      RemoveStep(b0, byBank, gone, c.managingBank, c);
      RemoveStep(o0, byOwner, gone, c.owner, c);
      Delete(c);
    }

    /** Delete, one after another, the accounts of a list that the bank manages, skipping the others. */
    method DeleteEachAt(bank: BankRef, copy: seq<Account>)
      requires Valid()
      modifies this
      ensures Valid()
      ensures forall c :: Stored(c) <==> old(Stored(c)) && !(c in copy && c.managingBank == bank)
      ensures byBank == Pruned(old(byBank), ManagedIn(copy, bank))
      ensures byOwner == Pruned(old(byOwner), ManagedIn(copy, bank))
    {
      var i := 0;
      PrunedNothing(byBank);
      PrunedNothing(byOwner);
      assert ManagedIn(copy[..0], bank) == {};
      while i < |copy|
        invariant 0 <= i <= |copy| && Valid()
        invariant byBank == Pruned(old(byBank), ManagedIn(copy[..i], bank))
        invariant byOwner == Pruned(old(byOwner), ManagedIn(copy[..i], bank))
      {
        var c := copy[i];
        assert copy[..i + 1] == copy[..i] + [c];
        if c.managingBank == bank {
          OnlyUnderOwner(c);
          DeletePruned(c, old(byBank), old(byOwner), ManagedIn(copy[..i], bank));
          assert ManagedIn(copy[..i + 1], bank) == ManagedIn(copy[..i], bank) + {c};
        } else {
          assert ManagedIn(copy[..i + 1], bank) == ManagedIn(copy[..i], bank);
        }
        i := i + 1;
      }
      assert copy[..|copy|] == copy;
      forall c ensures Stored(c) <==> old(Stored(c)) && !(c in copy && c.managingBank == bank) {
        assert Stored(c) <==> c.managingBank in old(byBank) && c in Without(old(byBank)[c.managingBank], ManagedIn(copy, bank));
      }
    }

    /** deleteAllBankAccounts(bank, owner): delete the owner's accounts at that bank, if the bank is registered. */
    method DeleteAllBankAccountsOf(bank: BankRef, owner: AgentId)
      requires Valid()
      modifies this
      ensures Valid()
      ensures bank !in old(byBank) ==> byBank == old(byBank) && byOwner == old(byOwner)
      ensures forall c :: Stored(c) <==> old(Stored(c)) && !(bank in old(byBank) && c.owner == owner && c.managingBank == bank)
      ensures bank in old(byBank) ==>
        && byBank == Pruned(old(byBank), ManagedIn(Lookup(old(byOwner), owner), bank))
        && byOwner == Pruned(old(byOwner), ManagedIn(Lookup(old(byOwner), owner), bank))
      ensures forall b :: b in old(byBank) && b != bank ==> b in byBank && byBank[b] == old(byBank)[b]
      ensures forall w :: w in old(byOwner) && w != owner ==> w in byOwner && byOwner[w] == old(byOwner)[w]
    {
      if bank in byBank {
        var copy := Lookup(byOwner, owner);
        DeleteEachAt(bank, copy);
        var gone := ManagedIn(copy, bank);
        forall b | b in old(byBank) && b != bank ensures byBank[b] == old(byBank)[b] {
          WithoutNone(old(byBank)[b], gone);
        }
        forall w | w in old(byOwner) && w != owner ensures byOwner[w] == old(byOwner)[w] {
          WithoutNone(old(byOwner)[w], gone);
        }
        forall c: Account | c.owner == owner && c.managingBank == bank ensures !Stored(c) {
          if old(Stored(c)) {
            assert old(Filed(c));
          }
        }
        forall c: Account | Stored(c) ensures c in copy ==> c.managingBank != bank {
        }
      }
    }

    /** findAllBankAccountsManagedByBank: the bank's list; an unknown bank is registered with an empty list. */
    method FindAllBankAccountsManagedByBank(bank: BankRef) returns (r: seq<Account>)
      requires Valid()
      modifies this
      ensures Valid()
      ensures r == Lookup(old(byBank), bank)
      ensures byBank == old(byBank)[bank := r] && byOwner == old(byOwner)
      ensures forall a :: a in r <==> Stored(a) && a.managingBank == bank
    {
      if bank !in byBank {
        byBank := byBank[bank := []];
        forall c ensures Stored(c) <==> Filed(c) {
          assert Stored(c) <==> old(Stored(c));
        }
      }
      r := byBank[bank];
    }

    /** findAllBankAccountsOfAgent: the owner's list, or the empty list; exactly the stored accounts of that owner. */
    function FindAllBankAccountsOfAgent(owner: AgentId): (r: seq<Account>)
      requires Valid()
      reads this
      ensures forall a :: a in r <==> Stored(a) && a.owner == owner
    {
      Lookup(byOwner, owner)
    }

    /** findAll(bank, owner[, currency]): the owner's accounts the filter selects, in the owner's order. */
    method FindAll(f: AccountFilter, owner: AgentId) returns (r: seq<Account>)
      requires Valid()
      ensures r == Where(Lookup(byOwner, owner), f)
      ensures forall a :: a in r <==> Stored(a) && a.owner == owner && Matches(f, a)
    {
      var accounts := FindAllBankAccountsOfAgent(owner);
      r := [];
      var i := 0;
      while i < |accounts|
        invariant 0 <= i <= |accounts|
        invariant r == Where(accounts[..i], f)
      {
        assert accounts[..i + 1][..i] == accounts[..i];
        if Matches(f, accounts[i]) {
          r := r + [accounts[i]];
        }
        i := i + 1;
      }
      assert accounts[..|accounts|] == accounts;
    }
  }

  lemma AppendDistinct(s: seq<Account>, a: Account)
    requires Distinct(s) && a !in s
    ensures Distinct(s + [a])
  {
  }
}
