/**
 * The full backend's data access layer: an in-memory store of users,
 * categories and expenses with id counters, the create/update/delete
 * operations, the expense query, the monthly summary and default seeding.
 */
module Crud {
  import opened Wrappers
  import opened Dates
  import opened Queries
  import opened Records

  /**
   * A user update. `None` is a field left out of the request and `Some(None)`
   * a name sent as an explicit null, which the NOT NULL column refuses.
   */
  datatype UserPatch = UserPatch(name: Option<Option<string>>, color: Option<string>)

  /** The full category schema, every field given (defaults already filled in). */
  datatype CategoryInput = CategoryInput(name: string, color: string, isDefault: int)

  datatype ExpenseInput = ExpenseInput(
    amount: real,
    description: Option<string>,
    date: Date,
    userId: int,
    categoryId: int)

  /**
   * An expense update. `None` is a field left out of the request and
   * `Some(None)` a field sent as an explicit null: that clears the
   * description, and the NOT NULL columns (amount, date and both ids)
   * refuse it.
   */
  datatype ExpensePatch = ExpensePatch(
    amount: Option<Option<real>>,
    description: Option<Option<string>>,
    date: Option<Option<Date>>,
    userId: Option<Option<int>>,
    categoryId: Option<Option<int>>)

  /**
   * The database's refusals: a second category with the same name, and a
   * null written to a NOT NULL column. Either one rolls the commit back.
   */
  datatype DbError = UniqueViolation | NotNullViolation

  function UserId(u: User): int { u.id }
  function CategoryId(c: Category): int { c.id }
  function ExpenseId(e: Expense): int { e.id }
  function ExpenseDate(e: Expense): Date { e.date }
  function ExpenseCategory(e: Expense): int { e.categoryId }
  function ExpenseUser(e: Expense): int { e.userId }

  /** The value a NOT NULL column holds after `setattr` of a field that is not null. */
  function Written<T>(current: T, field: Option<Option<T>>): T {
    if field.Some? && field.value.Some? then field.value.value else current
  }

  /** `setattr` of each field present in the request, then the commit. */
  function PatchUser(u: User, p: UserPatch): Result<User, DbError> {
    if p.name == Some(None) then Err(NotNullViolation)
    else Ok(u.(name := Written(u.name, p.name), color := p.color.GetOr(u.color)))
  }

  /** Some NOT NULL column of the expense is sent as null. */
  predicate NullsRequired(p: ExpensePatch) {
    p.amount == Some(None) || p.date == Some(None) || p.userId == Some(None) || p.categoryId == Some(None)
  }

  function PatchExpense(e: Expense, p: ExpensePatch): Result<Expense, DbError> {
    if NullsRequired(p) then Err(NotNullViolation)
    else Ok(e.(amount := Written(e.amount, p.amount),
               description := p.description.GetOr(e.description),
               date := Written(e.date, p.date),
               userId := Written(e.userId, p.userId),
               categoryId := Written(e.categoryId, p.categoryId)))
  }

  /**
   * The `setattr` loop of `update_expense` on one stored record: each field
   * present in the request is written, one after the other, and the commit
   * fails when one of them put a null in a NOT NULL column.
   */
  method SetExpenseFields(e: Expense, patch: ExpensePatch) returns (r: Result<Expense, DbError>)
    ensures r == PatchExpense(e, patch)
  {
    var x := e;
    var nulled := false;
    if patch.amount.Some? {
      if patch.amount.value.Some? {
        x := x.(amount := patch.amount.value.value);
      } else {
        nulled := true;
      }
    }
    if patch.description.Some? {
      x := x.(description := patch.description.value);
    }
    if patch.date.Some? {
      if patch.date.value.Some? {
        x := x.(date := patch.date.value.value);
      } else {
        nulled := true;
      }
    }
    if patch.userId.Some? {
      if patch.userId.value.Some? {
        x := x.(userId := patch.userId.value.value);
      } else {
        nulled := true;
      }
    }
    if patch.categoryId.Some? {
      if patch.categoryId.value.Some? {
        x := x.(categoryId := patch.categoryId.value.value);
      } else {
        nulled := true;
      }
    }
    r := if nulled then Err(NotNullViolation) else Ok(x);
  }

  /**
   * An update fails exactly when it sends a null name. Otherwise it sets the
   * fields present and keeps the others; an empty update changes nothing and
   * applying an update twice is applying it once.
   */
  lemma PatchUserLaws(u: User, p: UserPatch)
    ensures PatchUser(u, UserPatch(None, None)) == Ok(u)
    ensures PatchUser(u, p) == Err(NotNullViolation) <==> p.name == Some(None)
    ensures PatchUser(u, p).Ok? ==> PatchUser(PatchUser(u, p).value, p) == PatchUser(u, p)
    ensures PatchUser(u, p).Ok? ==> PatchUser(u, p).value.id == u.id
    ensures PatchUser(u, p).Ok? ==> PatchUser(u, p).value.name == if p.name.None? then u.name else p.name.value.value
    ensures PatchUser(u, p).Ok? ==> PatchUser(u, p).value.color == if p.color.None? then u.color else p.color.value
  {
  }

  lemma PatchExpenseLaws(e: Expense, p: ExpensePatch)
    ensures PatchExpense(e, ExpensePatch(None, None, None, None, None)) == Ok(e)
    ensures PatchExpense(e, p) == Err(NotNullViolation) <==>
              p.amount == Some(None) || p.date == Some(None) || p.userId == Some(None) || p.categoryId == Some(None)
    ensures PatchExpense(e, p).Ok? ==> PatchExpense(PatchExpense(e, p).value, p) == PatchExpense(e, p)
    ensures var r := PatchExpense(e, p);
            r.Ok? ==> r.value.id == e.id
                      && r.value.amount == (if p.amount.None? then e.amount else p.amount.value.value)
                      && r.value.description == (if p.description.None? then e.description else p.description.value)
                      && r.value.date == (if p.date.None? then e.date else p.date.value.value)
                      && r.value.userId == (if p.userId.None? then e.userId else p.userId.value.value)
                      && r.value.categoryId == (if p.categoryId.None? then e.categoryId else p.categoryId.value.value)
  {
  }

  /** Some expense refers to `id` through `key` (its user or its category). */
  predicate Referenced(es: seq<Expense>, key: Expense -> int, id: int) {
    exists k :: 0 <= k < |es| && key(es[k]) == id
  }

  /** Every expense refers through `key` to one of the stored records. */
  predicate ReferencesResolve<T>(records: seq<T>, idOf: T -> int, es: seq<Expense>, key: Expense -> int) {
    forall k :: 0 <= k < |es| ==> IndexOfId(records, idOf, key(es[k])).Some?
  }

  /**
   * The delete as written: any one expense of a user (or category) makes it
   * referenced, and a referenced delete is refused.
   */
  lemma ExpenseBlocksDelete(es: seq<Expense>, e: Expense, key: Expense -> int)
    requires e in es
    ensures Referenced(es, key, key(e))
  {
    var k :| 0 <= k < |es| && es[k] == e;
    assert key(es[k]) == key(e);
  }

  /** Removing a record no expense refers to leaves every expense's record in place. */
  lemma RemoveUnreferenced<T>(records: seq<T>, idOf: T -> int, i: nat, es: seq<Expense>, key: Expense -> int)
    requires i < |records| && ReferencesResolve(records, idOf, es, key)
    requires !Referenced(es, key, idOf(records[i]))
    ensures ReferencesResolve(RemoveAt(records, i), idOf, es, key)
  {
    var rest := RemoveAt(records, i);
    forall k | 0 <= k < |es|
      ensures IndexOfId(rest, idOf, key(es[k])).Some?
    {
      var j := IndexOfId(records, idOf, key(es[k])).value;
      assert j != i;
      var j' := if j < i then j else j - 1;
      assert rest[j'] == records[j];
    }
  }

  /** `get_category_by_name`: the first category with exactly this name. */
  function CategoryByName(cats: seq<Category>, name: string): (r: Option<nat>)
    ensures r.Some? ==> r.value < |cats| && cats[r.value].name == name
    ensures r.None? <==> forall k :: 0 <= k < |cats| ==> cats[k].name != name
  {
    if cats == [] then None
    else if cats[0].name == name then Some(0)
    else match CategoryByName(cats[1..], name)
      case None => None
      case Some(k) => Some(k + 1)
  }

  predicate UniqueNames(cats: seq<Category>) {
    forall i, j :: 0 <= i < j < |cats| ==> cats[i].name != cats[j].name
  }

  /**
   * Arguments of `get_expenses`; `None` is an argument not given. The offset
   * and limit are any integers the request carries.
   */
  datatype ExpenseQuery = ExpenseQuery(
    skip: int,
    limit: int,
    userId: Option<int>,
    categoryId: Option<int>,
    start: Option<Date>,
    end: Option<Date>)

  /** Python truthiness of an optional id: neither absent nor 0. */
  predicate Truthy(id: Option<int>) {
    id.Some? && id.value != 0
  }

  /** The filters of `get_expenses`; date bounds are inclusive. */
  predicate Matches(q: ExpenseQuery, e: Expense) {
    (Truthy(q.userId) ==> e.userId == q.userId.value)
    && (Truthy(q.categoryId) ==> e.categoryId == q.categoryId.value)
    && (q.start.Some? ==> OnOrBefore(q.start.value, e.date))
    && (q.end.Some? ==> OnOrBefore(e.date, q.end.value))
  }

  /** The expenses that pass the filters, in table order. */
  function Matching(es: seq<Expense>, q: ExpenseQuery): (r: seq<Expense>)
    ensures forall e :: e in r <==> e in es && Matches(q, e)
    ensures |r| <= |es|
  {
    if es == [] then []
    else if Matches(q, es[0]) then [es[0]] + Matching(es[1..], q)
    else Matching(es[1..], q)
  }

  /**
   * `get_expenses`: filter, order by date descending, then offset and limit
   * (a negative offset or limit is none).
   */
  function GetExpenses(es: seq<Expense>, q: ExpenseQuery): (r: seq<Expense>)
    ensures forall e :: e in r ==> e in es && Matches(q, e)
    ensures NewestFirst(r, ExpenseDate)
    ensures q.limit >= 0 ==> |r| <= q.limit
    ensures SqlWindow(r, SortNewestFirst(Matching(es, q), ExpenseDate), q.skip, q.limit)
  {
    PageOfMatching(es, q);
    SqlPage(SortNewestFirst(Matching(es, q), ExpenseDate), q.skip, q.limit)
  }

  /** A page of the ordered matches holds only matching stored expenses, newest first. */
  lemma PageOfMatching(es: seq<Expense>, q: ExpenseQuery)
    ensures var r := SqlPage(SortNewestFirst(Matching(es, q), ExpenseDate), q.skip, q.limit);
            (forall e :: e in r ==> e in es && Matches(q, e)) && NewestFirst(r, ExpenseDate)
  {
    var sorted := SortNewestFirst(Matching(es, q), ExpenseDate);
    var r := SqlPage(sorted, q.skip, q.limit);
    PageNewestFirst(sorted, if q.skip < 0 then 0 else q.skip, if q.limit < 0 then |sorted| else q.limit, ExpenseDate);
    forall e | e in r
      ensures e in es && Matches(q, e)
    {
      var i :| 0 <= i < |r| && r[i] == e;
      assert e in multiset(sorted);
    }
  }

  /**
   * With no positive offset and a limit that is negative or not reached,
   * every matching expense comes back, each once.
   */
  lemma GetExpensesComplete(es: seq<Expense>, q: ExpenseQuery)
    requires q.skip <= 0 && (q.limit < 0 || |Matching(es, q)| <= q.limit)
    ensures multiset(GetExpenses(es, q)) == multiset(Matching(es, q))
  {
    var sorted := SortNewestFirst(Matching(es, q), ExpenseDate);
    assert |sorted| == |multiset(sorted)| == |Matching(es, q)|;
    assert SqlPage(sorted, q.skip, q.limit) == sorted;
  }

  /** An id filter of 0 is no filter at all. */
  lemma {:induction false} ZeroIdIsNoFilter(es: seq<Expense>, q: ExpenseQuery)
    ensures Matching(es, q.(userId := Some(0))) == Matching(es, q.(userId := None))
    ensures Matching(es, q.(categoryId := Some(0))) == Matching(es, q.(categoryId := None))
  {
    if es != [] {
      ZeroIdIsNoFilter(es[1..], q);
    }
  }

  /** The expenses dated in the given year and month. */
  function InMonth(es: seq<Expense>, year: int, month: int): (r: seq<Expense>)
    ensures forall e :: e in r <==> e in es && e.date.year == year && e.date.month == month
  {
    if es == [] then []
    else if es[0].date.year == year && es[0].date.month == month then [es[0]] + InMonth(es[1..], year, month)
    else InMonth(es[1..], year, month)
  }

  /** A category or user as the summary query sees it. */
  datatype GroupKey = GroupKey(id: int, name: string, color: string)

  /** One row of `SELECT name, color, sum(amount), count(id) ... GROUP BY id`. */
  datatype GroupRow = GroupRow(name: string, color: string, total: real, count: nat)

  function GroupKeyId(k: GroupKey): int { k.id }

  function CategoryKey(c: Category): GroupKey { GroupKey(c.id, c.name, c.color) }
  function UserKey(u: User): GroupKey { GroupKey(u.id, u.name, u.color) }

  /** The group key of each category (user), in table order. */
  function Keys<T>(records: seq<T>, keyOf: T -> GroupKey): (r: seq<GroupKey>)
    ensures |r| == |records|
    ensures forall i :: 0 <= i < |records| ==> r[i] == keyOf(records[i])
  {
    if records == [] then [] else [keyOf(records[0])] + Keys(records[1..], keyOf)
  }

  /** The expenses whose `key` is `id`. */
  function WithKey(es: seq<Expense>, key: Expense -> int, id: int): (r: seq<Expense>)
    ensures forall e :: e in r <==> e in es && key(e) == id
  {
    if es == [] then []
    else if key(es[0]) == id then [es[0]] + WithKey(es[1..], key, id)
    else WithKey(es[1..], key, id)
  }

  /** The expenses whose `key` is not `id`. */
  function WithoutKey(es: seq<Expense>, key: Expense -> int, id: int): (r: seq<Expense>)
    ensures forall e :: e in r <==> e in es && key(e) != id
  {
    if es == [] then []
    else if key(es[0]) != id then [es[0]] + WithoutKey(es[1..], key, id)
    else WithoutKey(es[1..], key, id)
  }

  /**
   * The inner join of `keys` with `es` grouped by key id: one row per key
   * that has at least one expense, in the order of `keys`.
   */
  function GroupRows(keys: seq<GroupKey>, es: seq<Expense>, key: Expense -> int): (r: seq<GroupRow>)
    ensures |r| <= |keys|
    ensures forall i :: 0 <= i < |r| ==> r[i].count > 0
  {
    if keys == [] then []
    else
      var g := WithKey(es, key, keys[0].id);
      (if g == [] then [] else [GroupRow(keys[0].name, keys[0].color, Total(g), |g|)])
      + GroupRows(keys[1..], es, key)
  }

  /** A group's share of the month: `100 * part / total`, or 0 when the total is not positive. */
  function Percentage(part: real, total: real): real {
    if total > 0.0 then part / total * 100.0 else 0.0
  }

  function Summarize(row: GroupRow, total: real): GroupSummary {
    GroupSummary(row.name, row.color, row.total, row.count, Percentage(row.total, total))
  }

  /**
   * The append loop of `get_monthly_summary` over the grouped rows: one
   * summary per row, in row order, each with its share of `total`.
   */
  method SummarizeRows(rows: seq<GroupRow>, total: real) returns (summaries: seq<GroupSummary>)
    ensures |summaries| == |rows|
    ensures forall k :: 0 <= k < |rows| ==> summaries[k] == Summarize(rows[k], total)
  {
    summaries := [];
    var i := 0;
    while i < |rows|
      invariant 0 <= i <= |rows|
      invariant |summaries| == i
      invariant forall k :: 0 <= k < i ==> summaries[k] == Summarize(rows[k], total)
    {
      var row := rows[i];
      var percentage := if total > 0.0 then row.total / total * 100.0 else 0.0;
      summaries := summaries + [GroupSummary(row.name, row.color, row.total, row.count, percentage)];
      i := i + 1;
    }
  }

  function RowTotal(rows: seq<GroupRow>): real {
    if rows == [] then 0.0 else rows[0].total + RowTotal(rows[1..])
  }

  function RowCount(rows: seq<GroupRow>): nat {
    if rows == [] then 0 else rows[0].count + RowCount(rows[1..])
  }

  function PercentageTotal(groups: seq<GroupSummary>): real {
    if groups == [] then 0.0 else groups[0].percentage + PercentageTotal(groups[1..])
  }

  lemma {:induction false} SplitByKey(es: seq<Expense>, key: Expense -> int, id: int)
    ensures Total(es) == Total(WithKey(es, key, id)) + Total(WithoutKey(es, key, id))
    ensures |es| == |WithKey(es, key, id)| + |WithoutKey(es, key, id)|
  {
    if es != [] {
      SplitByKey(es[1..], key, id);
    }
  }

  lemma {:induction false} WithKeyOfWithout(es: seq<Expense>, key: Expense -> int, a: int, b: int)
    requires a != b
    ensures WithKey(WithoutKey(es, key, a), key, b) == WithKey(es, key, b)
  {
    if es != [] {
      WithKeyOfWithout(es[1..], key, a, b);
    }
  }

  lemma {:induction false} GroupRowsOfWithout(keys: seq<GroupKey>, es: seq<Expense>, key: Expense -> int, id: int)
    requires forall i :: 0 <= i < |keys| ==> keys[i].id != id
    ensures GroupRows(keys, WithoutKey(es, key, id), key) == GroupRows(keys, es, key)
  {
    if keys != [] {
      WithKeyOfWithout(es, key, id, keys[0].id);
      GroupRowsOfWithout(keys[1..], es, key, id);
    }
  }

  /** Every expense points at one of the keys (no orphan after the inner join). */
  predicate AllKeyed(keys: seq<GroupKey>, es: seq<Expense>, key: Expense -> int) {
    forall k :: 0 <= k < |es| ==> exists i :: 0 <= i < |keys| && keys[i].id == key(es[k])
  }

  /**
   * Dropping the first key and its expenses keeps the keys distinct, none
   * of the remaining keys has the dropped id, and every remaining expense
   * still has a key.
   */
  lemma AllKeyedWithout(keys: seq<GroupKey>, es: seq<Expense>, key: Expense -> int)
    requires keys != []
    requires UniqueIds(keys, GroupKeyId)
    requires AllKeyed(keys, es, key)
    ensures UniqueIds(keys[1..], GroupKeyId)
    ensures forall i :: 0 <= i < |keys| - 1 ==> keys[1..][i].id != keys[0].id
    ensures AllKeyed(keys[1..], WithoutKey(es, key, keys[0].id), key)
  {
    var id := keys[0].id;
    var rest := WithoutKey(es, key, id);
    forall a, b | 0 <= a < b < |keys[1..]|
      ensures GroupKeyId(keys[1..][a]) != GroupKeyId(keys[1..][b])
    {
      assert GroupKeyId(keys[a + 1]) != GroupKeyId(keys[b + 1]);
    }
    forall i | 0 <= i < |keys| - 1
      ensures keys[1..][i].id != id
    {
      assert GroupKeyId(keys[0]) != GroupKeyId(keys[i + 1]);
    }
    forall k | 0 <= k < |rest|
      ensures exists i :: 0 <= i < |keys[1..]| && keys[1..][i].id == key(rest[k])
    {
      assert rest[k] in es;
      var j :| 0 <= j < |es| && es[j] == rest[k];
      var i :| 0 <= i < |keys| && keys[i].id == key(es[j]);
      assert keys[1..][i - 1].id == key(rest[k]);
    }
  }

  /**
   * When every expense belongs to one of the (distinct) keys, the group rows
   * add up to the whole: their totals to the total and their counts to the count.
   */
  lemma {:induction false} GroupRowsPartition(keys: seq<GroupKey>, es: seq<Expense>, key: Expense -> int)
    requires UniqueIds(keys, GroupKeyId)
    requires AllKeyed(keys, es, key)
    ensures RowTotal(GroupRows(keys, es, key)) == Total(es)
    ensures RowCount(GroupRows(keys, es, key)) == |es|
  {
    if keys != [] {
      var id := keys[0].id;
      var rest := WithoutKey(es, key, id);
      SplitByKey(es, key, id);
      AllKeyedWithout(keys, es, key);
      GroupRowsPartition(keys[1..], rest, key);
      GroupRowsOfWithout(keys[1..], es, key, id);
      var g := WithKey(es, key, id);
      var tail := GroupRows(keys[1..], es, key);
      if g == [] {
        assert GroupRows(keys, es, key) == tail;
      } else {
        var head := GroupRow(keys[0].name, keys[0].color, Total(g), |g|);
        assert GroupRows(keys, es, key) == [head] + tail;
        assert ([head] + tail)[1..] == tail;
      }
    }
  }

  /**
   * An expense whose category (user) id matches no stored record — one
   * created or updated with such an id — counts in the month's total but
   * in no group row.
   */
  lemma {:induction false} OrphanInNoGroup(keys: seq<GroupKey>, e: Expense, es: seq<Expense>, key: Expense -> int)
    requires forall i :: 0 <= i < |keys| ==> keys[i].id != key(e)
    ensures GroupRows(keys, [e] + es, key) == GroupRows(keys, es, key)
    ensures Total([e] + es) == e.amount + Total(es)
  {
    assert ([e] + es)[1..] == es;
    if keys != [] {
      OrphanInNoGroup(keys[1..], e, es, key);
    }
  }

  /** Percentages scale the group totals by the same factor. */
  lemma {:induction false} PercentageTotalOfRows(rows: seq<GroupRow>, total: real, groups: seq<GroupSummary>)
    requires |groups| == |rows|
    requires forall i :: 0 <= i < |rows| ==> groups[i] == Summarize(rows[i], total)
    ensures PercentageTotal(groups) == Percentage(RowTotal(rows), total)
  {
    if rows != [] {
      PercentageTotalOfRows(rows[1..], total, groups[1..]);
      if total > 0.0 {
        var a, b := rows[0].total, RowTotal(rows[1..]);
        assert a / total * 100.0 + b / total * 100.0 == (a + b) / total * 100.0;
      }
    }
  }

  /** The default categories seeded at start-up, in order. */
  const DefaultCategories: seq<CategoryInput> := [
    CategoryInput("Food", "#ff6b6b", 1),
    CategoryInput("Transportation", "#4ecdc4", 1),
    CategoryInput("Utilities", "#45b7d1", 1),
    CategoryInput("Entertainment", "#96ceb4", 1),
    CategoryInput("Shopping", "#ffeaa7", 1),
    CategoryInput("Healthcare", "#dda0dd", 1),
    CategoryInput("Education", "#fab1a0", 1),
    CategoryInput("Travel", "#74b9ff", 1),
    CategoryInput("Insurance", "#a29bfe", 1),
    CategoryInput("Other", "#636e72", 1)
  ]

  /**
   * The categories and the next category id after seeding `defs` into `cats`:
   * each default whose exact name is absent is appended with the next id.
   */
  function SeedCategories(cats: seq<Category>, nextId: int, defs: seq<CategoryInput>): (seq<Category>, int)
    decreases |defs|
  {
    if defs == [] then (cats, nextId)
    else if CategoryByName(cats, defs[0].name).Some? then SeedCategories(cats, nextId, defs[1..])
    else SeedCategories(cats + [Category(nextId, defs[0].name, defs[0].color, defs[0].isDefault)], nextId + 1, defs[1..])
  }

  /** Seeding only appends, and afterwards every default name is present. */
  lemma {:induction false} SeedCategoriesCovers(cats: seq<Category>, nextId: int, defs: seq<CategoryInput>)
    ensures var (r, n) := SeedCategories(cats, nextId, defs);
            |r| >= |cats| && r[..|cats|] == cats && n >= nextId
            && forall d :: d in defs ==> CategoryByName(r, d.name).Some?
    decreases |defs|
  {
    if defs != [] {
      var d := defs[0];
      var cats' := if CategoryByName(cats, d.name).Some? then cats
                   else cats + [Category(nextId, d.name, d.color, d.isDefault)];
      var next' := if CategoryByName(cats, d.name).Some? then nextId else nextId + 1;
      assert CategoryByName(cats', d.name).Some? by {
        if CategoryByName(cats, d.name).None? {
          assert cats'[|cats|].name == d.name;
        }
      }
      SeedCategoriesCovers(cats', next', defs[1..]);
      var (r, n) := SeedCategories(cats', next', defs[1..]);
      assert r[..|cats'|] == cats';
      assert r[..|cats|] == cats' [..|cats|];
      assert CategoryByName(r, d.name).Some? by {
        var k := CategoryByName(cats', d.name).value;
        assert r[k] == cats'[k];
      }
    }
  }

  lemma {:induction false} SeedCategoriesPresent(cats: seq<Category>, nextId: int, defs: seq<CategoryInput>)
    requires forall d :: d in defs ==> CategoryByName(cats, d.name).Some?
    ensures SeedCategories(cats, nextId, defs) == (cats, nextId)
    decreases |defs|
  {
    if defs != [] {
      SeedCategoriesPresent(cats, nextId, defs[1..]);
    }
  }

  /** Seeding twice is seeding once. */
  lemma SeedCategoriesIdempotent(cats: seq<Category>, nextId: int, defs: seq<CategoryInput>)
    ensures var (r, n) := SeedCategories(cats, nextId, defs);
            SeedCategories(r, n, defs) == (r, n)
  {
    var (r, n) := SeedCategories(cats, nextId, defs);
    SeedCategoriesCovers(cats, nextId, defs);
    SeedCategoriesPresent(r, n, defs);
  }

  /** Every stored date is a calendar day Python's `date` can hold. */
  predicate DatedExpenses(es: seq<Expense>) {
    forall i :: 0 <= i < |es| ==> InPythonRange(es[i].date)
  }

  /**
   * Overwriting a category in place with one of the same id and a name no
   * other category holds keeps ids unique and below the counter and names
   * unique.
   */
  lemma RenameKeepsKeys(cats: seq<Category>, i: nat, c: Category, next: int)
    requires i < |cats| && c.id == cats[i].id
    requires UniqueIds(cats, CategoryId) && IdsBelow(cats, CategoryId, next) && UniqueNames(cats)
    requires !exists k :: 0 <= k < |cats| && k != i && cats[k].name == c.name
    ensures var r := cats[i := c];
            UniqueIds(r, CategoryId) && IdsBelow(r, CategoryId, next) && UniqueNames(r)
  {
    var r := cats[i := c];
    assert forall k :: 0 <= k < |r| ==> CategoryId(r[k]) == CategoryId(cats[k]);
  }

  /**
   * Removing a category keeps ids unique and below the counter and names
   * unique, and no remaining category has the removed one's id.
   */
  lemma RemoveKeepsKeys(cats: seq<Category>, i: nat, next: int)
    requires i < |cats|
    requires UniqueIds(cats, CategoryId) && IdsBelow(cats, CategoryId, next) && UniqueNames(cats)
    ensures var r := RemoveAt(cats, i);
            UniqueIds(r, CategoryId) && IdsBelow(r, CategoryId, next) && UniqueNames(r)
            && forall k :: 0 <= k < |r| ==> r[k].id != cats[i].id
  {
    RemoveUniqueId(cats, CategoryId, i);
    var r := RemoveAt(cats, i);
    forall a, b | 0 <= a < b < |r|
      ensures r[a].name != r[b].name
    {
      var a' := if a < i then a else a + 1;
      var b' := if b < i then b else b + 1;
      assert r[a] == cats[a'] && r[b] == cats[b'];
    }
  }

  class Store {
    var users: seq<User>
    var categories: seq<Category>
    var expenses: seq<Expense>
    var nextUserId: int
    var nextCategoryId: int
    var nextExpenseId: int

    /** Ids are unique and below their counters; category names are unique. */
    predicate Valid()
      reads this
    {
      1 <= nextUserId && 1 <= nextCategoryId && 1 <= nextExpenseId
      && UniqueIds(users, UserId) && IdsBelow(users, UserId, nextUserId)
      && UniqueIds(categories, CategoryId) && IdsBelow(categories, CategoryId, nextCategoryId)
      && UniqueIds(expenses, ExpenseId) && IdsBelow(expenses, ExpenseId, nextExpenseId)
      && UniqueNames(categories)
      && DatedExpenses(expenses)
    }

    constructor ()
      ensures Valid()
      ensures users == [] && categories == [] && expenses == []
    {
      users := [];
      categories := [];
      expenses := [];
      nextUserId := 1;
      nextCategoryId := 1;
      nextExpenseId := 1;
    }

    /**
     * `get_users(skip, limit)`: the users from position `skip` on, in table
     * order, as many as `limit` allows (a negative offset or limit is none).
     */
    function GetUsers(skip: int, limit: int): (r: seq<User>)
      reads this
      ensures limit >= 0 ==> |r| <= limit
      ensures SqlWindow(r, users, skip, limit)
    {
      SqlPage(users, skip, limit)
    }

    /**
     * `get_categories(skip, limit)`: the categories from position `skip` on,
     * in table order, as many as `limit` allows.
     */
    function GetCategories(skip: int, limit: int): (r: seq<Category>)
      reads this
      ensures limit >= 0 ==> |r| <= limit
      ensures SqlWindow(r, categories, skip, limit)
    {
      SqlPage(categories, skip, limit)
    }

    method CreateUser(name: string, color: string) returns (u: User)
      requires Valid()
      modifies this
      ensures Valid()
      ensures u == User(old(nextUserId), name, color)
      ensures users == old(users) + [u] && nextUserId == old(nextUserId) + 1
      ensures categories == old(categories) && nextCategoryId == old(nextCategoryId)
      ensures expenses == old(expenses) && nextExpenseId == old(nextExpenseId)
    {
      u := User(nextUserId, name, color);
      users := users + [u];
      nextUserId := nextUserId + 1;
    }

    /**
     * `update_user`: set the fields present in the request; `Ok(None)` when
     * the id is unknown, and a null name fails the commit and stores nothing.
     */
    method UpdateUser(id: int, patch: UserPatch) returns (r: Result<Option<User>, DbError>)
      requires Valid()
      modifies this
      ensures Valid()
      ensures match IndexOfId(old(users), UserId, id)
        case None => r == Ok(None) && users == old(users)
        case Some(i) =>
          match PatchUser(old(users)[i], patch)
          case Err(err) => r == Err(err) && users == old(users)
          case Ok(u) => users == old(users)[i := u] && r == Ok(Some(u))
      ensures nextUserId == old(nextUserId)
      ensures categories == old(categories) && nextCategoryId == old(nextCategoryId)
      ensures expenses == old(expenses) && nextExpenseId == old(nextExpenseId)
    {
      match IndexOfId(users, UserId, id)
      case None =>
        r := Ok(None);
      case Some(i) =>
        var u := users[i];
        var nulled := false;
        if patch.name.Some? {
          if patch.name.value.Some? {
            u := u.(name := patch.name.value.value);
          } else {
            nulled := true;
          }
        }
        if patch.color.Some? {
          u := u.(color := patch.color.value);
        }
        if nulled {
          r := Err(NotNullViolation);
        } else {
          users := users[i := u];
          r := Ok(Some(u));
          assert forall k :: 0 <= k < |users| ==> UserId(users[k]) == UserId(old(users)[k]);
        }
    }

    /**
     * `delete_user`: the relationship without a delete cascade writes null
     * into the NOT NULL `user_id` of each of the user's expenses, so while
     * the user has expenses the commit fails and nothing is deleted.
     */
    method DeleteUser(id: int) returns (r: Result<Option<User>, DbError>)
      requires Valid()
      modifies this
      ensures Valid()
      ensures match IndexOfId(old(users), UserId, id)
        case None => r == Ok(None) && users == old(users)
        case Some(i) =>
          if Referenced(old(expenses), ExpenseUser, id) then r == Err(NotNullViolation) && users == old(users)
          else r == Ok(Some(old(users)[i])) && users == RemoveAt(old(users), i)
      ensures r.Ok? ==> forall k :: 0 <= k < |users| ==> users[k].id != id
      ensures ReferencesResolve(old(users), UserId, expenses, ExpenseUser) ==> ReferencesResolve(users, UserId, expenses, ExpenseUser)
      ensures nextUserId == old(nextUserId)
      ensures categories == old(categories) && nextCategoryId == old(nextCategoryId)
      ensures expenses == old(expenses) && nextExpenseId == old(nextExpenseId)
    {
      match IndexOfId(users, UserId, id)
      case None =>
        r := Ok(None);
      case Some(i) =>
        if Referenced(expenses, ExpenseUser, id) {
          r := Err(NotNullViolation);
        } else {
          r := Ok(Some(users[i]));
          RemoveUniqueId(users, UserId, i);
          if ReferencesResolve(users, UserId, expenses, ExpenseUser) {
            RemoveUnreferenced(users, UserId, i, expenses, ExpenseUser);
          }
          users := RemoveAt(users, i);
        }
    }

    /**
     * The delete the confirmation on the Users page describes: the user is
     * removed and every expense stays, the user's own included.
     */
    method DeleteUserKeepingExpenses(id: int) returns (r: Option<User>)
      requires Valid()
      modifies this
      ensures Valid()
      ensures match IndexOfId(old(users), UserId, id)
        case None => r == None && users == old(users)
        case Some(i) => r == Some(old(users)[i]) && users == RemoveAt(old(users), i)
      ensures forall k :: 0 <= k < |users| ==> users[k].id != id
      ensures nextUserId == old(nextUserId)
      ensures categories == old(categories) && nextCategoryId == old(nextCategoryId)
      ensures expenses == old(expenses) && nextExpenseId == old(nextExpenseId)
    {
      match IndexOfId(users, UserId, id)
      case None =>
        r := None;
      case Some(i) =>
        r := Some(users[i]);
        RemoveUniqueId(users, UserId, i);
        users := RemoveAt(users, i);
    }

    /** `create_category`; a name already taken violates the unique constraint and stores nothing. */
    method CreateCategory(input: CategoryInput) returns (r: Result<Category, DbError>)
      requires Valid()
      modifies this
      ensures Valid()
      ensures CategoryByName(old(categories), input.name).Some? ==>
                r == Err(UniqueViolation) && categories == old(categories) && nextCategoryId == old(nextCategoryId)
      ensures CategoryByName(old(categories), input.name).None? ==>
                r == Ok(Category(old(nextCategoryId), input.name, input.color, input.isDefault))
                && categories == old(categories) + [r.value] && nextCategoryId == old(nextCategoryId) + 1
      ensures users == old(users) && nextUserId == old(nextUserId)
      ensures expenses == old(expenses) && nextExpenseId == old(nextExpenseId)
    {
      if CategoryByName(categories, input.name).Some? {
        r := Err(UniqueViolation);
      } else {
        var c := Category(nextCategoryId, input.name, input.color, input.isDefault);
        categories := categories + [c];
        nextCategoryId := nextCategoryId + 1;
        r := Ok(c);
      }
    }

    /**
     * `update_category`: every field is overwritten, defaults included;
     * `Ok(None)` when the id is unknown, and a name held by another category
     * violates the unique constraint and stores nothing.
     */
    method UpdateCategory(id: int, input: CategoryInput) returns (r: Result<Option<Category>, DbError>)
      requires Valid()
      modifies this
      ensures Valid()
      ensures match IndexOfId(old(categories), CategoryId, id)
        case None => r == Ok(None) && categories == old(categories)
        case Some(i) =>
          if exists k :: 0 <= k < |old(categories)| && k != i && old(categories)[k].name == input.name
          then r == Err(UniqueViolation) && categories == old(categories)
          else categories == old(categories)[i := Category(id, input.name, input.color, input.isDefault)]
               && r == Ok(Some(categories[i]))
      ensures nextCategoryId == old(nextCategoryId)
      ensures users == old(users) && nextUserId == old(nextUserId)
      ensures expenses == old(expenses) && nextExpenseId == old(nextExpenseId)
    {
      match IndexOfId(categories, CategoryId, id)
      case None =>
        r := Ok(None);
      case Some(i) =>
        if exists k :: 0 <= k < |categories| && k != i && categories[k].name == input.name {
          r := Err(UniqueViolation);
        } else {
          var c := Category(id, input.name, input.color, input.isDefault);
          RenameKeepsKeys(categories, i, c, nextCategoryId);
          categories := categories[i := c];
          r := Ok(Some(c));
        }
    }

    /**
     * `delete_category`: as with users, the category's expenses would get a
     * null `category_id`, so while it has expenses the commit fails and
     * nothing is deleted.
     */
    method DeleteCategory(id: int) returns (r: Result<Option<Category>, DbError>)
      requires Valid()
      modifies this
      ensures Valid()
      ensures match IndexOfId(old(categories), CategoryId, id)
        case None => r == Ok(None) && categories == old(categories)
        case Some(i) =>
          if Referenced(old(expenses), ExpenseCategory, id) then r == Err(NotNullViolation) && categories == old(categories)
          else r == Ok(Some(old(categories)[i])) && categories == RemoveAt(old(categories), i)
      ensures r.Ok? ==> forall k :: 0 <= k < |categories| ==> categories[k].id != id
      ensures ReferencesResolve(old(categories), CategoryId, expenses, ExpenseCategory) ==>
                ReferencesResolve(categories, CategoryId, expenses, ExpenseCategory)
      ensures nextCategoryId == old(nextCategoryId)
      ensures users == old(users) && nextUserId == old(nextUserId)
      ensures expenses == old(expenses) && nextExpenseId == old(nextExpenseId)
    {
      match IndexOfId(categories, CategoryId, id)
      case None =>
        r := Ok(None);
      case Some(i) =>
        if Referenced(expenses, ExpenseCategory, id) {
          r := Err(NotNullViolation);
          return;
        }
        r := Ok(Some(categories[i]));
        RemoveKeepsKeys(categories, i, nextCategoryId);
        if ReferencesResolve(categories, CategoryId, expenses, ExpenseCategory) {
          RemoveUnreferenced(categories, CategoryId, i, expenses, ExpenseCategory);
        }
        categories := RemoveAt(categories, i);
    }

    /** `create_expense`: the user and category ids are stored as given. */
    method CreateExpense(input: ExpenseInput) returns (e: Expense)
      requires Valid() && InPythonRange(input.date)
      modifies this
      ensures Valid()
      ensures e == Expense(old(nextExpenseId), input.amount, input.description, input.date, input.userId, input.categoryId)
      ensures expenses == old(expenses) + [e] && nextExpenseId == old(nextExpenseId) + 1
      ensures users == old(users) && nextUserId == old(nextUserId)
      ensures categories == old(categories) && nextCategoryId == old(nextCategoryId)
    {
      e := Expense(nextExpenseId, input.amount, input.description, input.date, input.userId, input.categoryId);
      expenses := expenses + [e];
      nextExpenseId := nextExpenseId + 1;
    }

    /**
     * `update_expense`: set the fields present in the request; `Ok(None)`
     * when the id is unknown, and a null in a NOT NULL column fails the
     * commit and stores nothing.
     */
    method UpdateExpense(id: int, patch: ExpensePatch) returns (r: Result<Option<Expense>, DbError>)
      requires Valid() && (patch.date.Some? && patch.date.value.Some? ==> InPythonRange(patch.date.value.value))
      modifies this
      ensures Valid()
      ensures match IndexOfId(old(expenses), ExpenseId, id)
        case None => r == Ok(None) && expenses == old(expenses)
        case Some(i) =>
          match PatchExpense(old(expenses)[i], patch)
          case Err(err) => r == Err(err) && expenses == old(expenses)
          case Ok(e) => expenses == old(expenses)[i := e] && r == Ok(Some(e))
      ensures nextExpenseId == old(nextExpenseId)
      ensures users == old(users) && nextUserId == old(nextUserId)
      ensures categories == old(categories) && nextCategoryId == old(nextCategoryId)
    {
      match IndexOfId(expenses, ExpenseId, id)
      case None =>
        r := Ok(None);
      case Some(i) =>
        var patched := SetExpenseFields(expenses[i], patch);
        match patched
        case Err(err) =>
          r := Err(err);
        case Ok(e) =>
          expenses := expenses[i := e];
          r := Ok(Some(e));
          assert forall k :: 0 <= k < |expenses| ==> ExpenseId(expenses[k]) == ExpenseId(old(expenses)[k]);
    }

    method DeleteExpense(id: int) returns (r: Option<Expense>)
      requires Valid()
      modifies this
      ensures Valid()
      ensures match IndexOfId(old(expenses), ExpenseId, id)
        case None => r == None && expenses == old(expenses)
        case Some(i) => r == Some(old(expenses)[i]) && expenses == RemoveAt(old(expenses), i)
      ensures forall k :: 0 <= k < |expenses| ==> expenses[k].id != id
      ensures nextExpenseId == old(nextExpenseId)
      ensures users == old(users) && nextUserId == old(nextUserId)
      ensures categories == old(categories) && nextCategoryId == old(nextCategoryId)
    {
      match IndexOfId(expenses, ExpenseId, id)
      case None =>
        r := None;
      case Some(i) =>
        r := Some(expenses[i]);
        RemoveUniqueId(expenses, ExpenseId, i);
        expenses := RemoveAt(expenses, i);
    }

    /**
     * `get_monthly_summary`: total and count of the month's expenses, a
     * 30-day daily average, and one row per category and per user that has
     * expenses in the month, each with its share of the total.
     */
    method GetMonthlySummary(year: int, month: int) returns (s: MonthlySummary)
      ensures s.year == year && s.month == month
      ensures s.total == Total(InMonth(expenses, year, month))
      ensures s.count == |InMonth(expenses, year, month)|
      ensures s.dailyAverage == if s.count > 0 then s.total / 30.0 else 0.0
      ensures var rows := GroupRows(Keys(categories, CategoryKey), InMonth(expenses, year, month), ExpenseCategory);
              |s.categories| == |rows| && forall i :: 0 <= i < |rows| ==> s.categories[i] == Summarize(rows[i], s.total)
      ensures var rows := GroupRows(Keys(users, UserKey), InMonth(expenses, year, month), ExpenseUser);
              |s.users| == |rows| && forall i :: 0 <= i < |rows| ==> s.users[i] == Summarize(rows[i], s.total)
    {
      var monthExpenses := InMonth(expenses, year, month);
      var total := Total(monthExpenses);
      var count := |monthExpenses|;
      var daily := if count > 0 then total / 30.0 else 0.0;

      var categorySummaries := SummarizeRows(GroupRows(Keys(categories, CategoryKey), monthExpenses, ExpenseCategory), total);
      var userSummaries := SummarizeRows(GroupRows(Keys(users, UserKey), monthExpenses, ExpenseUser), total);
      s := MonthlySummary(year, month, total, count, daily, categorySummaries, userSummaries);
    }

    /** Creates, in order, each of `defs` whose exact name is absent. */
    method SeedFrom(defs: seq<CategoryInput>)
      requires Valid()
      modifies this
      ensures Valid()
      ensures (categories, nextCategoryId) == SeedCategories(old(categories), old(nextCategoryId), defs)
      ensures users == old(users) && nextUserId == old(nextUserId)
      ensures expenses == old(expenses) && nextExpenseId == old(nextExpenseId)
    {
      var i := 0;
      while i < |defs|
        invariant 0 <= i <= |defs|
        invariant Valid()
        invariant SeedCategories(categories, nextCategoryId, defs[i..])
                  == SeedCategories(old(categories), old(nextCategoryId), defs)
        invariant users == old(users) && nextUserId == old(nextUserId)
        invariant expenses == old(expenses) && nextExpenseId == old(nextExpenseId)
      {
        var d := defs[i];
        assert defs[i..][1..] == defs[i + 1..];
        if CategoryByName(categories, d.name).None? {
          var _ := CreateCategory(d);
        }
        i := i + 1;
      }
    }

    /** `create_default_categories`. */
    method CreateDefaultCategories()
      requires Valid()
      modifies this
      ensures Valid()
      ensures (categories, nextCategoryId) == SeedCategories(old(categories), old(nextCategoryId), DefaultCategories)
      ensures users == old(users) && nextUserId == old(nextUserId)
      ensures expenses == old(expenses) && nextExpenseId == old(nextExpenseId)
    {
      SeedFrom(DefaultCategories);
    }

    /** `create_default_user`: a user "You" when there are no users. */
    method CreateDefaultUser()
      requires Valid()
      modifies this
      ensures Valid()
      ensures old(users) == [] ==> users == [User(old(nextUserId), "You", DefaultColor)] && nextUserId == old(nextUserId) + 1
      ensures old(users) != [] ==> users == old(users) && nextUserId == old(nextUserId)
      ensures categories == old(categories) && nextCategoryId == old(nextCategoryId)
      ensures expenses == old(expenses) && nextExpenseId == old(nextExpenseId)
    {
      if GetUsers(0, 1) == [] {
        var _ := CreateUser("You", DefaultColor);
      }
    }
  }

  /**
   * When every expense of the month points at an existing category (user),
   * the category (user) rows add up to the month's total and count, and
   * their percentages to 100 whenever the total is positive.
   */
  lemma GroupSharesAddUp(keys: seq<GroupKey>, es: seq<Expense>, key: Expense -> int, groups: seq<GroupSummary>)
    requires UniqueIds(keys, GroupKeyId)
    requires AllKeyed(keys, es, key)
    requires |groups| == |GroupRows(keys, es, key)|
    requires forall i :: 0 <= i < |groups| ==> groups[i] == Summarize(GroupRows(keys, es, key)[i], Total(es))
    ensures RowTotal(GroupRows(keys, es, key)) == Total(es)
    ensures RowCount(GroupRows(keys, es, key)) == |es|
    ensures Total(es) > 0.0 ==> PercentageTotal(groups) == 100.0
  {
    GroupRowsPartition(keys, es, key);
    PercentageTotalOfRows(GroupRows(keys, es, key), Total(es), groups);
    if Total(es) > 0.0 {
      WholeShare(Total(es));
    }
  }

  lemma WholeShare(t: real)
    requires t > 0.0
    ensures Percentage(t, t) == 100.0
  {
  }
}
