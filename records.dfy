/**
 * The stored entities of the full backend (users, categories, expenses), the
 * summary records it returns, and sums over amounts.
 */
module Records {
  import opened Wrappers
  import opened Dates

  /** The colour a user or category gets when the request gives none. */
  const DefaultColor: string := "#667eea"

  datatype User = User(id: int, name: string, color: string)

  /** `isDefault` is 1 for the seeded categories and 0 for user-created ones. */
  datatype Category = Category(id: int, name: string, color: string, isDefault: int)

  datatype Expense = Expense(
    id: int,
    amount: real,
    description: Option<string>,
    date: Date,
    userId: int,
    categoryId: int)

  /** A category or user row of the monthly summary. */
  datatype GroupSummary = GroupSummary(name: string, color: string, total: real, count: nat, percentage: real)

  datatype MonthlySummary = MonthlySummary(
    year: int,
    month: int,
    total: real,
    count: nat,
    dailyAverage: real,
    categories: seq<GroupSummary>,
    users: seq<GroupSummary>)

  /** `sum(e.amount for e in es)`. */
  function Total(es: seq<Expense>): real {
    if es == [] then 0.0 else es[0].amount + Total(es[1..])
  }

  lemma {:induction false} TotalAppend(a: seq<Expense>, b: seq<Expense>)
    ensures Total(a + b) == Total(a) + Total(b)
  {
    if a == [] {
      assert a + b == b;
    } else {
      assert (a + b)[1..] == a[1..] + b;
      TotalAppend(a[1..], b);
    }
  }

  /** Amounts that are all positive have a positive total unless there are none. */
  lemma {:induction false} TotalOfPositive(es: seq<Expense>)
    requires forall i :: 0 <= i < |es| ==> es[i].amount > 0.0
    ensures es == [] <==> Total(es) == 0.0
    ensures Total(es) >= 0.0
  {
    if es != [] {
      TotalOfPositive(es[1..]);
    }
  }

  /** The list without the expenses of one id: `expenses.filter(e => e.id !== id)` on the pages. */
  function WithoutId(es: seq<Expense>, id: int): (r: seq<Expense>)
    ensures forall e :: e in r <==> e in es && e.id != id
  {
    if es == [] then []
    else if es[0].id == id then WithoutId(es[1..], id)
    else [es[0]] + WithoutId(es[1..], id)
  }

  /**
   * Removing an id works piece by piece: on a concatenation it is the
   * concatenation of the two results, so the expenses kept stay in order.
   */
  lemma {:induction false} WithoutIdAppend(a: seq<Expense>, b: seq<Expense>, id: int)
    ensures WithoutId(a + b, id) == WithoutId(a, id) + WithoutId(b, id)
  {
    if a == [] {
      assert a + b == b;
    } else {
      assert (a + b)[1..] == a[1..] + b;
      WithoutIdAppend(a[1..], b, id);
    }
  }

  /** A list without that id is left as it is. */
  lemma {:induction false} WithoutAbsentId(es: seq<Expense>, id: int)
    requires forall i :: 0 <= i < |es| ==> es[i].id != id
    ensures WithoutId(es, id) == es
  {
    if es != [] {
      WithoutAbsentId(es[1..], id);
    }
  }
}
