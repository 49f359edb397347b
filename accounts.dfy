/** `AccountViewSet.total_balance`: the user's net worth over the accounts that
    are active and included in the total.  The balances are the ledger's balance
    column; `set_initial_balance` is `Ledger.SetInitialBalance`. */
module Accounts {
  import opened Common
  import opened Ledger
  import Aggregate

  /** An `Account` row (name, type, currency, colour and icon left out); its balance
      lives in the ledger's balance column. */
  datatype AccountRow = AccountRow(id: AccountId, user: UserId, includeInTotal: bool, isActive: bool)

  /** `filter(user=user, include_in_total=True, is_active=True)`. */
  predicate Counted(a: AccountRow, user: UserId) {
    a.user == user && a.includeInTotal && a.isActive
  }

  function Included(accts: seq<AccountRow>, user: UserId): (r: seq<AccountRow>)
    ensures forall a :: a in r <==> a in accts && a.user == user && a.includeInTotal && a.isActive
  {
    Aggregate.Filter(accts, (a: AccountRow) => Counted(a, user))
  }

  function BalanceOf(b: Balances, a: AccountRow): int {
    if a.id in b then b[a.id] else 0
  }

  /** The sum of the balances of the included accounts. */
  function IncludedTotal(accts: seq<AccountRow>, b: Balances, user: UserId): int {
    Aggregate.Sum(Included(accts, user), (a: AccountRow) => BalanceOf(b, a))
  }

  datatype TotalReport = TotalReport(totalBalance: int, accountsCount: nat)

  /** `total_balance`: the total and the count are taken over the same filtered set. */
  function TotalBalance(accts: seq<AccountRow>, b: Balances, user: UserId): (r: TotalReport)
    ensures r.totalBalance == IncludedTotal(accts, b, user)
    ensures r.accountsCount == Aggregate.Count(accts, (a: AccountRow) => Counted(a, user))
    ensures r.accountsCount <= |accts|
  {
    TotalReport(IncludedTotal(accts, b, user), |Included(accts, user)|)
  }

  predicate DistinctIds(s: seq<AccountRow>) {
    forall i, j :: 0 <= i < j < |s| ==> s[i].id != s[j].id
  }

  lemma {:induction false} IncludedDistinct(accts: seq<AccountRow>, user: UserId)
    requires DistinctIds(accts)
    ensures DistinctIds(Included(accts, user))
  {
    if accts != [] {
      IncludedDistinct(accts[1..], user);
      var rest := Included(accts[1..], user);
      assert forall k :: 0 <= k < |rest| ==> rest[k] in accts[1..];
    }
  }

  /** A balance change on an account that is not counted (another user's, excluded or
      inactive) does not move the total. */
  lemma {:induction false} UncountedIrrelevant(accts: seq<AccountRow>, b: Balances, user: UserId, x: AccountId, v: int)
    requires forall a :: a in accts && a.id == x ==> !Counted(a, user)
    ensures IncludedTotal(accts, b[x := v], user) == IncludedTotal(accts, b, user)
  {
    if accts != [] {
      UncountedIrrelevant(accts[1..], b, user, x, v);
    }
  }

  /** The sum, over rows with distinct ids, of an amount carried by the row with id
      `x` alone is that amount if such a row exists and 0 otherwise. */
  lemma {:induction false} SumIndicator(s: seq<AccountRow>, x: AccountId, c: int)
    requires DistinctIds(s)
    ensures Aggregate.Sum(s, (a: AccountRow) => if a.id == x then c else 0) ==
      if exists a :: a in s && a.id == x then c else 0
  {
    if s != [] {
      SumIndicator(s[1..], x, c);
      if s[0].id == x {
        assert !exists a :: a in s[1..] && a.id == x by {
          forall a | a in s[1..] ensures a.id != x {
            var k :| 0 <= k < |s[1..]| && s[1..][k] == a;
            assert s[k + 1] == a;
          }
        }
      }
    }
  }

  /** Applying an entry moves the total by the entry's effect on the included accounts. */
  lemma {:induction false} TotalAfterApply(accts: seq<AccountRow>, b: Balances, e: Entry, user: UserId)
    requires Refs(e) <= b.Keys
    ensures IncludedTotal(accts, Apply(b, e), user) ==
      IncludedTotal(accts, b, user) + Aggregate.Sum(Included(accts, user), (a: AccountRow) => Delta(e, a.id))
  {
    ApplyEffect(b, e);
    if accts != [] {
      TotalAfterApply(accts[1..], b, e, user);
    }
  }

  /** A transfer between two included accounts of the user leaves the total unchanged. */
  lemma TransferKeepsTotal(accts: seq<AccountRow>, b: Balances, e: Entry, user: UserId)
    requires Refs(e) <= b.Keys && DistinctIds(accts)
    requires e.kind == Transfer && e.destination.Some? && e.destination.value != e.account
    requires exists a :: a in accts && a.id == e.account && Counted(a, user)
    requires exists a :: a in accts && a.id == e.destination.value && Counted(a, user)
    ensures IncludedTotal(accts, Apply(b, e), user) == IncludedTotal(accts, b, user)
  {
    TotalAfterApply(accts, b, e, user);
    var inc := Included(accts, user);
    IncludedDistinct(accts, user);
    var credit := (a: AccountRow) => if a.id == e.destination.value then e.amount else 0;
    var debit := (a: AccountRow) => if a.id == e.account then e.amount else 0;
    Aggregate.SumLinear(inc, credit, debit, (a: AccountRow) => Delta(e, a.id));
    SumIndicator(inc, e.destination.value, e.amount);
    SumIndicator(inc, e.account, e.amount);
  }

  /** An income into an included account raises the total by its amount; an income
      into an account that is not counted leaves the total as it was. */
  lemma IncomeMovesTotal(accts: seq<AccountRow>, b: Balances, e: Entry, user: UserId)
    requires Refs(e) <= b.Keys && DistinctIds(accts) && e.kind == Income
    ensures (exists a :: a in accts && a.id == e.account && Counted(a, user)) ==>
      IncludedTotal(accts, Apply(b, e), user) == IncludedTotal(accts, b, user) + e.amount
    ensures (forall a :: a in accts && a.id == e.account ==> !Counted(a, user)) ==>
      IncludedTotal(accts, Apply(b, e), user) == IncludedTotal(accts, b, user)
  {
    TotalAfterApply(accts, b, e, user);
    IncludedDistinct(accts, user);
    var inc := Included(accts, user);
    assert forall a: AccountRow :: Delta(e, a.id) == (if a.id == e.account then e.amount else 0);
    SumIndicator(inc, e.account, e.amount);
    SumSame(inc, (a: AccountRow) => Delta(e, a.id), (a: AccountRow) => if a.id == e.account then e.amount else 0);
  }

  lemma {:induction false} SumSame(s: seq<AccountRow>, f: AccountRow -> int, g: AccountRow -> int)
    requires forall a :: f(a) == g(a)
    ensures Aggregate.Sum(s, f) == Aggregate.Sum(s, g)
  {
    if s != [] {
      SumSame(s[1..], f, g);
    }
  }
}
