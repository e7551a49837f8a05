/**
 * The simplified backend: typed transactions (income or expense) against a
 * category table, an income/expense/balance summary with per-category
 * spending, filtered transaction lists, a hard-coded category fallback and a
 * current-month summary.
 */
module SimpleBackend {
  import opened Wrappers
  import opened Dates
  import opened Queries

  /** A category row; `kind` is the `type` column, `budgetLimit` may be null. */
  datatype LedgerCategory = LedgerCategory(id: int, name: string, kind: string, budgetLimit: Option<real>)

  /** A transaction row; `kind` is the `type` column, normally "income" or "expense". */
  datatype Transaction = Transaction(id: int, description: string, amount: real, date: Date, categoryId: int, kind: string)

  /** The create/update request: every field of a transaction but its id. */
  datatype TransactionInput = TransactionInput(description: string, amount: real, date: Date, categoryId: int, kind: string)

  datatype BudgetSummary = BudgetSummary(totalIncome: real, totalExpenses: real, balance: real, categoriesSpending: map<string, real>)

  /** The current-month answer; the count, average and group lists are constant. */
  datatype MonthSummary = MonthSummary(
    year: int,
    month: int,
    totalAmount: real,
    expenseCount: nat,
    dailyAverage: real,
    categories: seq<string>,
    users: seq<string>)

  function LedgerCategoryId(c: LedgerCategory): int { c.id }
  function TransactionId(t: Transaction): int { t.id }
  function TransactionDate(t: Transaction): Date { t.date }

  /** The category names seeded into an empty table, in insertion order. */
  const SeedNames: seq<string> := ["Food", "Transportation", "Entertainment", "Shopping", "Bills", "Healthcare", "Other"]

  /** The list `get_categories` answers with when the table is empty or cannot be read. */
  const FallbackCategories: seq<LedgerCategory> := [
    LedgerCategory(1, "Food", "expense", None),
    LedgerCategory(2, "Transportation", "expense", None),
    LedgerCategory(3, "Entertainment", "expense", None),
    LedgerCategory(4, "Shopping", "expense", None),
    LedgerCategory(5, "Bills", "expense", None),
    LedgerCategory(6, "Healthcare", "expense", None),
    LedgerCategory(7, "Other", "expense", None)]

  /**
   * `get_categories`: the stored rows when there are any; the fallback when
   * the table is empty or the query raised (`None`).
   */
  function CategoriesResponse(stored: Option<seq<LedgerCategory>>): (r: seq<LedgerCategory>)
    ensures stored.Some? && stored.value != [] ==> r == stored.value
    ensures stored.None? || stored.value == [] ==> r == FallbackCategories
  {
    match stored
    case Some(cs) => if cs != [] then cs else FallbackCategories
    case None => FallbackCategories
  }

  /** The rows seeding inserts, numbered from `nextId`. */
  function SeedRows(names: seq<string>, nextId: int): (r: seq<LedgerCategory>)
    ensures |r| == |names|
    ensures forall i :: 0 <= i < |r| ==> r[i] == LedgerCategory(nextId + i, names[i], "expense", None)
  {
    if names == [] then []
    else
      var n := |names|;
      var init := SeedRows(names[..n - 1], nextId);
      init + [LedgerCategory(nextId + n - 1, names[n - 1], "expense", None)]
  }

  /** Seeding a fresh table yields exactly the fallback list: same names, ids 1 to 7. */
  lemma SeedMatchesFallback()
    ensures SeedRows(SeedNames, 1) == FallbackCategories
  {
    var r := SeedRows(SeedNames, 1);
    assert |r| == |FallbackCategories|;
    forall i | 0 <= i < |r|
      ensures r[i] == FallbackCategories[i]
    {
    }
  }

  /** The transactions inside the optional inclusive date bounds, in order. */
  function InWindow(ts: seq<Transaction>, start: Option<Date>, end: Option<Date>): (r: seq<Transaction>)
    ensures forall t :: t in r <==> t in ts && (start.Some? ==> OnOrBefore(start.value, t.date))
                                           && (end.Some? ==> OnOrBefore(t.date, end.value))
    ensures |r| <= |ts|
  {
    if ts == [] then []
    else
      var rest := InWindow(ts[1..], start, end);
      if (start.Some? ==> OnOrBefore(start.value, ts[0].date)) && (end.Some? ==> OnOrBefore(ts[0].date, end.value))
      then [ts[0]] + rest
      else rest
  }

  /** The transactions of a category; an id of 0 or `None` is no filter. */
  function OfCategory(ts: seq<Transaction>, categoryId: Option<int>): (r: seq<Transaction>)
    ensures forall t :: t in r <==> t in ts && (categoryId.Some? && categoryId.value != 0 ==> t.categoryId == categoryId.value)
    ensures |r| <= |ts|
  {
    if ts == [] then []
    else
      var rest := OfCategory(ts[1..], categoryId);
      if categoryId.Some? && categoryId.value != 0 && ts[0].categoryId != categoryId.value then rest
      else [ts[0]] + rest
  }

  /** `get_transactions`: the filters, then newest first. */
  function TransactionsQuery(ts: seq<Transaction>, start: Option<Date>, end: Option<Date>, categoryId: Option<int>): (r: seq<Transaction>)
    ensures NewestFirst(r, TransactionDate)
    ensures multiset(r) == multiset(OfCategory(InWindow(ts, start, end), categoryId))
  {
    SortNewestFirst(OfCategory(InWindow(ts, start, end), categoryId), TransactionDate)
  }

  /**
   * `/api/expenses`: the same filters as `get_transactions` (the user id is
   * accepted and ignored), newest first, then offset and limit; a negative
   * offset or limit is no offset or no limit.
   */
  function ExpensesQuery(ts: seq<Transaction>, skip: int, limit: int, userId: Option<int>, categoryId: Option<int>,
                         start: Option<Date>, end: Option<Date>): (r: seq<Transaction>)
    ensures limit >= 0 ==> |r| <= limit
    ensures SqlWindow(r, TransactionsQuery(ts, start, end, categoryId), skip, limit)
    ensures NewestFirst(r, TransactionDate)
    ensures skip <= 0 && limit < 0 ==> r == TransactionsQuery(ts, start, end, categoryId)
  {
    var sorted := TransactionsQuery(ts, start, end, categoryId);
    PageNewestFirst(sorted, if skip < 0 then 0 else skip, if limit < 0 then |sorted| else limit, TransactionDate);
    SqlPage(sorted, skip, limit)
  }

  /** Two requests that differ only in the user id get the same answer. */
  lemma ExpensesIgnoreUser(ts: seq<Transaction>, skip: int, limit: int, u1: Option<int>, u2: Option<int>,
                           categoryId: Option<int>, start: Option<Date>, end: Option<Date>)
    ensures ExpensesQuery(ts, skip, limit, u1, categoryId, start, end) == ExpensesQuery(ts, skip, limit, u2, categoryId, start, end)
  {
  }

  /** The sum of the amounts of the transactions of one type. */
  function SumOfKind(ts: seq<Transaction>, kind: string): real {
    if ts == [] then 0.0
    else SumOfKind(ts[..|ts| - 1], kind) + (if ts[|ts| - 1].kind == kind then ts[|ts| - 1].amount else 0.0)
  }

  /** Sums split over a concatenation. */
  lemma {:induction false} SumOfKindAppend(a: seq<Transaction>, b: seq<Transaction>, kind: string)
    ensures SumOfKind(a + b, kind) == SumOfKind(a, kind) + SumOfKind(b, kind)
    decreases |b|
  {
    if b == [] {
      assert a + b == a;
    } else {
      var n := |b|;
      assert (a + b)[..|a + b| - 1] == a + b[..n - 1];
      SumOfKindAppend(a, b[..n - 1], kind);
    }
  }

  /** The category a transaction belongs to, looked up by id. */
  function CategoryOf(t: Transaction, cats: seq<LedgerCategory>): (r: Option<LedgerCategory>)
    ensures r.Some? ==> r.value in cats && r.value.id == t.categoryId
    ensures r.None? ==> forall c :: c in cats ==> c.id != t.categoryId
  {
    match IndexOfId(cats, LedgerCategoryId, t.categoryId)
    case Some(i) => Some(cats[i])
    case None => None
  }

  /** Whether a transaction counts towards the spending of a category named `name`. */
  predicate SpentOn(t: Transaction, cats: seq<LedgerCategory>, name: string) {
    t.kind == "expense" && CategoryOf(t, cats).Some? && CategoryOf(t, cats).value.name == name
  }

  /** The sum of the expense amounts charged to categories named `name`. */
  function SpentTotal(ts: seq<Transaction>, cats: seq<LedgerCategory>, name: string): real {
    if ts == [] then 0.0
    else SpentTotal(ts[..|ts| - 1], cats, name) + (if SpentOn(ts[|ts| - 1], cats, name) then ts[|ts| - 1].amount else 0.0)
  }

  /** The spending map after the transactions, in the order the loop visits them. */
  function Spending(ts: seq<Transaction>, cats: seq<LedgerCategory>): map<string, real> {
    if ts == [] then map[]
    else
      var m := Spending(ts[..|ts| - 1], cats);
      var t := ts[|ts| - 1];
      if t.kind == "expense" && CategoryOf(t, cats).Some? then
        var k := CategoryOf(t, cats).value.name;
        m[k := (if k in m then m[k] else 0.0) + t.amount]
      else m
  }

  /**
   * The spending map has a key exactly for the category names some expense
   * is charged to, and each key maps to the sum of those expenses; income
   * and uncategorised expenses never contribute.
   */
  lemma {:induction false} SpendingSpec(ts: seq<Transaction>, cats: seq<LedgerCategory>)
    ensures forall k :: k in Spending(ts, cats) <==> exists i :: 0 <= i < |ts| && SpentOn(ts[i], cats, k)
    ensures forall k :: k in Spending(ts, cats) ==> Spending(ts, cats)[k] == SpentTotal(ts, cats, k)
    ensures forall k :: k !in Spending(ts, cats) ==> SpentTotal(ts, cats, k) == 0.0
  {
    if ts != [] {
      var n := |ts|;
      var init := ts[..n - 1];
      SpendingSpec(init, cats);
      assert forall i :: 0 <= i < n - 1 ==> init[i] == ts[i];
    }
  }

  /** `get_summary` on the transactions inside the window. */
  function SummaryOf(ts: seq<Transaction>, cats: seq<LedgerCategory>, start: Option<Date>, end: Option<Date>): BudgetSummary {
    var w := InWindow(ts, start, end);
    var income := SumOfKind(w, "income");
    var expenses := SumOfKind(w, "expense");
    BudgetSummary(income, expenses, income - expenses, Spending(w, cats))
  }

  /** The balance is income minus expenses; a transaction of any other type changes nothing. */
  lemma BalanceOfOtherKind(ts: seq<Transaction>, t: Transaction, cats: seq<LedgerCategory>)
    requires t.kind != "income" && t.kind != "expense"
    ensures var before := SummaryOf(ts, cats, None, None);
            var after := SummaryOf(ts + [t], cats, None, None);
            after == before && after.balance == after.totalIncome - after.totalExpenses
  {
    InWindowAll(ts);
    InWindowAll(ts + [t]);
    assert (ts + [t])[..|ts|] == ts;
  }

  lemma {:induction false} InWindowAll(ts: seq<Transaction>)
    ensures InWindow(ts, None, None) == ts
  {
    if ts != [] {
      InWindowAll(ts[1..]);
    }
  }

  /** The current-month summary: from the first of `today`'s month, with no end bound. */
  function CurrentMonthOf(ts: seq<Transaction>, cats: seq<LedgerCategory>, today: Date): (r: MonthSummary)
    ensures r.year == today.year && r.month == today.month
    ensures r.totalAmount == SumOfKind(InWindow(ts, Some(Date(today.year, today.month, 1)), None), "expense")
    ensures r.expenseCount == 0 && r.dailyAverage == 0.0 && r.categories == [] && r.users == []
  {
    var s := SummaryOf(ts, cats, Some(Date(today.year, today.month, 1)), None);
    MonthSummary(today.year, today.month, s.totalExpenses, 0, 0.0, [], [])
  }

  class Ledger {
    var categories: seq<LedgerCategory>
    var transactions: seq<Transaction>
    var nextCategoryId: int

    predicate Valid()
      reads this
    {
      1 <= nextCategoryId
      && UniqueIds(categories, LedgerCategoryId) && IdsBelow(categories, LedgerCategoryId, nextCategoryId)
      && UniqueIds(transactions, TransactionId)
    }

    constructor ()
      ensures Valid()
      ensures categories == [] && transactions == [] && nextCategoryId == 1
    {
      categories := [];
      transactions := [];
      nextCategoryId := 1;
    }

    /** `seed_default_data`: the seven categories, inserted only into an empty table. */
    method Seed()
      requires Valid()
      modifies this
      ensures Valid()
      ensures old(categories) == [] ==>
                categories == SeedRows(SeedNames, old(nextCategoryId)) && nextCategoryId == old(nextCategoryId) + |SeedNames|
      ensures old(categories) != [] ==> categories == old(categories) && nextCategoryId == old(nextCategoryId)
      ensures transactions == old(transactions)
    {
      if categories != [] {
        return;
      }
      InsertSeeds(SeedNames);
    }

    /** The insert loop of seeding. */
    method InsertSeeds(names: seq<string>)
      requires Valid()
      modifies this
      ensures Valid()
      ensures categories == old(categories) + SeedRows(names, old(nextCategoryId))
      ensures nextCategoryId == old(nextCategoryId) + |names|
      ensures transactions == old(transactions)
    {
      var i := 0;
      while i < |names|
        invariant 0 <= i <= |names|
        invariant Valid()
        invariant categories == old(categories) + SeedRows(names[..i], old(nextCategoryId))
        invariant nextCategoryId == old(nextCategoryId) + i
        invariant transactions == old(transactions)
      {
        assert names[..i + 1][..i] == names[..i];
        categories := categories + [LedgerCategory(nextCategoryId, names[i], "expense", None)];
        nextCategoryId := nextCategoryId + 1;
        i := i + 1;
      }
      assert names[..i] == names;
    }

    /** `update_transaction`: 404 for an unknown id, otherwise every field is overwritten. */
    method UpdateTransaction(id: int, input: TransactionInput) returns (r: Result<Transaction, HttpError>)
      requires Valid()
      modifies this
      ensures Valid()
      ensures match IndexOfId(old(transactions), TransactionId, id)
        case None => r == Err(HttpError(404, "Transaction not found")) && transactions == old(transactions)
        case Some(i) =>
          var t := Transaction(id, input.description, input.amount, input.date, input.categoryId, input.kind);
          r == Ok(t) && transactions == old(transactions)[i := t]
      ensures categories == old(categories) && nextCategoryId == old(nextCategoryId)
    {
      match IndexOfId(transactions, TransactionId, id)
      case None =>
        r := Err(HttpError(404, "Transaction not found"));
      case Some(i) =>
        var t := transactions[i];
        t := t.(description := input.description);
        t := t.(amount := input.amount);
        t := t.(date := input.date);
        t := t.(categoryId := input.categoryId);
        t := t.(kind := input.kind);
        transactions := transactions[i := t];
        assert forall k :: 0 <= k < |transactions| ==> TransactionId(transactions[k]) == TransactionId(old(transactions)[k]);
        r := Ok(t);
    }

    /** The per-category spending loop of `get_summary`. */
    method SpendingLoop(window: seq<Transaction>) returns (m: map<string, real>)
      ensures m == Spending(window, categories)
    {
      m := map[];
      var i := 0;
      while i < |window|
        invariant 0 <= i <= |window|
        invariant m == Spending(window[..i], categories)
      {
        assert window[..i + 1][..i] == window[..i];
        var t := window[i];
        if t.kind == "expense" {
          var c := CategoryOf(t, categories);
          if c.Some? {
            var k := c.value.name;
            if k !in m {
              m := m[k := 0.0];
            }
            m := m[k := m[k] + t.amount];
          }
        }
        i := i + 1;
      }
      assert window[..i] == window;
    }

    /** `get_summary`. */
    method Summary(start: Option<Date>, end: Option<Date>) returns (s: BudgetSummary)
      ensures s == SummaryOf(transactions, categories, start, end)
    {
      var window := InWindow(transactions, start, end);
      var spending := SpendingLoop(window);
      var income := SumOfKind(window, "income");
      var expenses := SumOfKind(window, "expense");
      s := BudgetSummary(income, expenses, income - expenses, spending);
    }

    /** `get_current_month_summary` at the day `today`. */
    method CurrentMonth(today: Date) returns (s: MonthSummary)
      ensures s == CurrentMonthOf(transactions, categories, today)
    {
      var basic := Summary(Some(Date(today.year, today.month, 1)), None);
      s := MonthSummary(today.year, today.month, basic.totalExpenses, 0, 0.0, [], []);
    }
  }
}
