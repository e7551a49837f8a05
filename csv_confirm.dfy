/**
 * Confirming a CSV import: the new users the client sends back are created
 * unless a user of that name (ignoring case) exists, then one expense is
 * created per valid row. The first row whose user, category or date cannot
 * be resolved ends the import with a 400; what was created before it stays.
 */
module CsvConfirm {
  import opened Wrappers
  import opened Text
  import opened Dates
  import opened Queries
  import opened Records
  import opened Crud
  import opened CsvImport

  /** The request body; a key left out of the JSON object reads as an empty list. */
  datatype ConfirmRequest = ConfirmRequest(newUsers: seq<string>, validRows: seq<ValidRow>)

  datatype ConfirmResponse = ConfirmResponse(message: string, createdCount: nat)

  /** Why a row could not be imported: a lookup key that is absent, or a date `strptime` rejects. */
  datatype ImportFailure = MissingKey(key: string) | BadDateText(text: string)

  /** The text of the exception: a `KeyError` shows its key in quotes. */
  function FailureDetail(f: ImportFailure): string {
    match f
    case MissingKey(k) => "'" + k + "'"
    case BadDateText(t) => "time data '" + t + "' does not match format '%Y-%m-%d'"
  }

  /**
   * The user loop: each name whose lower-cased form is not in the index yet
   * becomes a user with the default color and the next id, and joins the
   * index. The result is the final index and the users created, in order.
   */
  function CreateUsers(index: map<string, User>, names: seq<string>, nextId: int): (r: (map<string, User>, seq<User>))
    ensures |r.1| <= |names|
    ensures forall i :: 0 <= i < |r.1| ==> r.1[i] == User(nextId + i, r.1[i].name, DefaultColor)
    decreases |names|
  {
    if names == [] then (index, [])
    else if Lower(names[0]) in index then CreateUsers(index, names[1..], nextId)
    else
      var u := User(nextId, names[0], DefaultColor);
      var rest := CreateUsers(index[Lower(names[0]) := u], names[1..], nextId + 1);
      (rest.0, [u] + rest.1)
  }

  /**
   * After the user loop every listed name resolves, and every entry that
   * was in the index before is still there, unchanged.
   */
  lemma {:induction false} CreateUsersResolves(index: map<string, User>, names: seq<string>, nextId: int)
    ensures var r := CreateUsers(index, names, nextId);
            (forall k :: k in index ==> k in r.0 && r.0[k] == index[k])
            && (forall i :: 0 <= i < |names| ==> Lower(names[i]) in r.0)
    decreases |names|
  {
    if names != [] {
      var n0 := Lower(names[0]);
      if n0 in index {
        CreateUsersResolves(index, names[1..], nextId);
        assert forall i :: 1 <= i < |names| ==> names[1..][i - 1] == names[i];
      } else {
        var u := User(nextId, names[0], DefaultColor);
        CreateUsersResolves(index[n0 := u], names[1..], nextId + 1);
        assert forall i :: 1 <= i < |names| ==> names[1..][i - 1] == names[i];
      }
    }
  }

  /**
   * Names that differ only in case create one user: the created users have
   * pairwise different lower-cased names, none of them known before, each
   * one a listed name and each one the entry of the final index for its key.
   */
  lemma {:induction false} CreateUsersDistinct(index: map<string, User>, names: seq<string>, nextId: int)
    ensures var r := CreateUsers(index, names, nextId);
            (forall i, j :: 0 <= i < j < |r.1| ==> Lower(r.1[i].name) != Lower(r.1[j].name))
            && (forall i :: 0 <= i < |r.1| ==> Lower(r.1[i].name) !in index && r.1[i].name in names)
            && (forall i :: 0 <= i < |r.1| ==> Lower(r.1[i].name) in r.0 && r.0[Lower(r.1[i].name)] == r.1[i])
    decreases |names|
  {
    if names != [] {
      var n0 := Lower(names[0]);
      assert forall x :: x in names[1..] ==> x in names;
      if n0 in index {
        CreateUsersDistinct(index, names[1..], nextId);
        var r := CreateUsers(index, names, nextId);
        assert r == CreateUsers(index, names[1..], nextId);
        forall i | 0 <= i < |r.1|
          ensures r.1[i].name in names
        {
          assert r.1[i].name in names[1..];
        }
      } else {
        var u := User(nextId, names[0], DefaultColor);
        var index' := index[n0 := u];
        CreateUsersDistinct(index', names[1..], nextId + 1);
        CreateUsersResolves(index', names[1..], nextId + 1);
        var r := CreateUsers(index, names, nextId);
        var rest := CreateUsers(index', names[1..], nextId + 1);
        assert r.1 == [u] + rest.1;
        assert forall i :: 1 <= i < |r.1| ==> r.1[i] == rest.1[i - 1];
      }
    }
  }

  /** Sending the same names again creates nobody: the loop is idempotent. */
  lemma CreateUsersIdempotent(index: map<string, User>, names: seq<string>, nextId: int, laterId: int)
    ensures var r := CreateUsers(index, names, nextId);
            CreateUsers(r.0, names, laterId) == (r.0, [])
  {
    var r := CreateUsers(index, names, nextId);
    CreateUsersResolves(index, names, nextId);
    AllKnownCreatesNone(r.0, names, laterId);
  }

  lemma {:induction false} AllKnownCreatesNone(index: map<string, User>, names: seq<string>, nextId: int)
    requires forall i :: 0 <= i < |names| ==> Lower(names[i]) in index
    ensures CreateUsers(index, names, nextId) == (index, [])
    decreases |names|
  {
    if names != [] {
      assert Lower(names[0]) in index;
      assert forall i :: 1 <= i < |names| ==> names[1..][i - 1] == names[i];
      AllKnownCreatesNone(index, names[1..], nextId);
    }
  }

  /**
   * One valid row as an expense: the user is looked up first, then the
   * category, then the date is parsed.
   */
  function RowInput(row: ValidRow, users: map<string, User>, categories: map<string, Category>): (r: Result<ExpenseInput, ImportFailure>)
    ensures r.Ok? <==> Lower(row.user) in users && Lower(row.category) in categories && ParseIsoDate(row.date).Some?
    ensures r.Ok? ==> r.value.userId == users[Lower(row.user)].id && r.value.categoryId == categories[Lower(row.category)].id
                      && Some(r.value.date) == ParseIsoDate(row.date) && InPythonRange(r.value.date)
                      && r.value.amount == row.amount && r.value.description == Some(row.description)
  {
    if Lower(row.user) !in users then Err(MissingKey(Lower(row.user)))
    else if Lower(row.category) !in categories then Err(MissingKey(Lower(row.category)))
    else match ParseIsoDate(row.date)
      case None => Err(BadDateText(row.date))
      case Some(d) =>
        Ok(ExpenseInput(row.amount, Some(row.description), d, users[Lower(row.user)].id, categories[Lower(row.category)].id))
  }

  /** The row resolution of one confirmation: RowInput against its user and category indexes. */
  function Resolver(users: map<string, User>, categories: map<string, Category>): ValidRow -> Result<ExpenseInput, ImportFailure> {
    row => RowInput(row, users, categories)
  }

  /** A resolution yields only dates Python's `date` can hold, as RowInput does. */
  ghost predicate DatesInRange(resolve: ValidRow -> Result<ExpenseInput, ImportFailure>) {
    forall row :: resolve(row).Ok? ==> InPythonRange(resolve(row).value.date)
  }

  /**
   * The expense loop for a row resolution `resolve`: the inputs of the rows
   * before the first failure, and that failure, if any.
   */
  function InputsUntilFailure(rows: seq<ValidRow>, resolve: ValidRow -> Result<ExpenseInput, ImportFailure>)
    : (r: (seq<ExpenseInput>, Option<ImportFailure>))
    ensures |r.0| <= |rows|
    ensures r.1.None? ==> |r.0| == |rows|
    decreases |rows|
  {
    if rows == [] then ([], None)
    else match resolve(rows[0])
      case Err(f) => ([], Some(f))
      case Ok(x) =>
        var rest := InputsUntilFailure(rows[1..], resolve);
        ([x] + rest.0, rest.1)
  }

  /** The expense loop of a confirmation, whose rows resolve through its indexes. */
  function ExpenseInputs(rows: seq<ValidRow>, users: map<string, User>, categories: map<string, Category>)
    : (r: (seq<ExpenseInput>, Option<ImportFailure>))
    ensures |r.0| <= |rows|
    ensures r.1.None? ==> |r.0| == |rows|
  {
    InputsUntilFailure(rows, Resolver(users, categories))
  }

  /**
   * The inputs are those of the rows before the first failing one, in
   * order, and the failure is that row's.
   */
  lemma {:induction false} ExpenseInputsSpec(rows: seq<ValidRow>, resolve: ValidRow -> Result<ExpenseInput, ImportFailure>)
    ensures var r := InputsUntilFailure(rows, resolve);
            (forall i :: 0 <= i < |r.0| ==> resolve(rows[i]) == Ok(r.0[i]))
            && (r.1.Some? ==> |r.0| < |rows| && resolve(rows[|r.0|]) == Err(r.1.value))
    decreases |rows|
  {
    if rows != [] && resolve(rows[0]).Ok? {
      ExpenseInputsSpec(rows[1..], resolve);
      var rest := InputsUntilFailure(rows[1..], resolve);
      assert forall i :: 0 <= i < |rest.0| ==> rows[1..][i] == rows[i + 1];
    }
  }

  /** Rows that all resolve are all imported. */
  lemma AllResolveImportsAll(rows: seq<ValidRow>, users: map<string, User>, categories: map<string, Category>)
    requires forall i :: 0 <= i < |rows| ==> RowInput(rows[i], users, categories).Ok?
    ensures ExpenseInputs(rows, users, categories).1 == None
    ensures |ExpenseInputs(rows, users, categories).0| == |rows|
  {
    ExpenseInputsSpec(rows, Resolver(users, categories));
  }

  function ExpenseOf(id: int, x: ExpenseInput): Expense {
    Expense(id, x.amount, x.description, x.date, x.userId, x.categoryId)
  }

  /** The expenses the store creates for the inputs, numbered from `nextId`. */
  function Stamp(inputs: seq<ExpenseInput>, nextId: int): (r: seq<Expense>)
    ensures |r| == |inputs|
  {
    if inputs == [] then []
    else Stamp(inputs[..|inputs| - 1], nextId) + [ExpenseOf(nextId + |inputs| - 1, inputs[|inputs| - 1])]
  }

  /** Creating one more expense extends the stamped list by that expense. */
  lemma StampAppend(start: seq<Expense>, done: seq<ExpenseInput>, x: ExpenseInput, nextId: int,
                    before: seq<Expense>, id: int, after: seq<Expense>)
    requires before == start + Stamp(done, nextId) && id == nextId + |done|
    requires after == before + [ExpenseOf(id, x)]
    ensures after == start + Stamp(done + [x], nextId)
  {
    assert (done + [x])[..|done|] == done;
  }

  lemma ConcatStep<T>(done: seq<T>, x: T, rest: seq<T>)
    ensures done + ([x] + rest) == (done + [x]) + rest
  {
  }

  lemma ExpenseInputsStep(rows: seq<ValidRow>, i: nat, resolve: ValidRow -> Result<ExpenseInput, ImportFailure>)
    requires i < |rows|
    ensures var x := resolve(rows[i]);
            var here := InputsUntilFailure(rows[i..], resolve);
            var next := InputsUntilFailure(rows[i + 1..], resolve);
            here == if x.Ok? then ([x.value] + next.0, next.1) else ([], Some(x.error))
  {
    assert rows[i..][0] == rows[i];
    assert rows[i..][1..] == rows[i + 1..];
  }

  /** The expense loop's ghost progress after a row that resolves. */
  lemma InputsAdvance(rows: seq<ValidRow>, i: nat, resolve: ValidRow -> Result<ExpenseInput, ImportFailure>,
                      done: seq<ExpenseInput>, goal: (seq<ExpenseInput>, Option<ImportFailure>))
    requires i < |rows| && resolve(rows[i]).Ok?
    requires goal.0 == done + InputsUntilFailure(rows[i..], resolve).0
    requires goal.1 == InputsUntilFailure(rows[i..], resolve).1
    ensures var x := resolve(rows[i]).value;
            goal.0 == (done + [x]) + InputsUntilFailure(rows[i + 1..], resolve).0
            && goal.1 == InputsUntilFailure(rows[i + 1..], resolve).1
  {
    ExpenseInputsStep(rows, i, resolve);
    ConcatStep(done, resolve(rows[i]).value, InputsUntilFailure(rows[i + 1..], resolve).0);
  }

  /** The expense loop's ghost progress at a row that does not resolve: nothing more is created. */
  lemma InputsStopAt(rows: seq<ValidRow>, i: nat, resolve: ValidRow -> Result<ExpenseInput, ImportFailure>,
                     done: seq<ExpenseInput>, goal: (seq<ExpenseInput>, Option<ImportFailure>))
    requires i < |rows| && resolve(rows[i]).Err?
    requires goal.0 == done + InputsUntilFailure(rows[i..], resolve).0
    requires goal.1 == InputsUntilFailure(rows[i..], resolve).1
    ensures goal == (done, Some(resolve(rows[i]).error))
  {
    ExpenseInputsStep(rows, i, resolve);
    assert done + [] == done;
  }

  /** The response: the number of expenses created, or the failure. */
  function Response(inputs: seq<ExpenseInput>, failure: Option<ImportFailure>): Result<ConfirmResponse, HttpError> {
    match failure
    case None => Ok(ConfirmResponse("Successfully imported " + NatToString(|inputs|) + " expenses", |inputs|))
    case Some(f) => Err(HttpError(400, "Import failed: " + FailureDetail(f)))
  }

  /** The user loop of the confirmation, against the store. */
  method CreateNewUsers(store: Store, index: map<string, User>, names: seq<string>) returns (final: map<string, User>)
    requires store.Valid()
    modifies store
    ensures store.Valid()
    ensures var r := CreateUsers(index, names, old(store.nextUserId));
            final == r.0 && store.users == old(store.users) + r.1 && store.nextUserId == old(store.nextUserId) + |r.1|
    ensures store.categories == old(store.categories) && store.nextCategoryId == old(store.nextCategoryId)
    ensures store.expenses == old(store.expenses) && store.nextExpenseId == old(store.nextExpenseId)
  {
    ghost var goal := CreateUsers(index, names, store.nextUserId);
    final := index;
    var i := 0;
    while i < |names|
      invariant 0 <= i <= |names|
      invariant store.Valid()
      invariant CreateUsers(final, names[i..], store.nextUserId).0 == goal.0
      invariant store.users + CreateUsers(final, names[i..], store.nextUserId).1 == old(store.users) + goal.1
      invariant store.nextUserId - old(store.nextUserId) == |store.users| - |old(store.users)|
      invariant store.categories == old(store.categories) && store.nextCategoryId == old(store.nextCategoryId)
      invariant store.expenses == old(store.expenses) && store.nextExpenseId == old(store.nextExpenseId)
    {
      CreateUsersStep(final, names, i, store.nextUserId, store.users);
      var key := Lower(names[i]);
      if key !in final {
        var u := store.CreateUser(names[i], DefaultColor);
        final := final[key := u];
      }
      i := i + 1;
    }
    assert names[i..] == [];
  }

  /**
   * The user loop's step at name `i`: a known name leaves the rest of the
   * loop as it was, and a new one is created with the next id before it.
   */
  lemma CreateUsersStep(index: map<string, User>, names: seq<string>, i: nat, nextId: int, created: seq<User>)
    requires i < |names|
    ensures var here := CreateUsers(index, names[i..], nextId);
            var key, u := Lower(names[i]), User(nextId, names[i], DefaultColor);
            var next := CreateUsers(index[key := u], names[i + 1..], nextId + 1);
            (key in index ==> here == CreateUsers(index, names[i + 1..], nextId))
            && (key !in index ==> here.0 == next.0 && created + here.1 == (created + [u]) + next.1)
  {
    assert names[i..][0] == names[i];
    assert names[i..][1..] == names[i + 1..];
  }

  /** One row of the expense loop: resolve it, and create its expense when it resolves. */
  method ImportRow(store: Store, row: ValidRow, resolve: ValidRow -> Result<ExpenseInput, ImportFailure>)
      returns (x: Result<ExpenseInput, ImportFailure>)
    requires store.Valid() && DatesInRange(resolve)
    modifies store
    ensures store.Valid()
    ensures x == resolve(row)
    ensures x.Err? ==> store.expenses == old(store.expenses) && store.nextExpenseId == old(store.nextExpenseId)
    ensures x.Ok? ==> store.expenses == old(store.expenses) + [ExpenseOf(old(store.nextExpenseId), x.value)]
                      && store.nextExpenseId == old(store.nextExpenseId) + 1
    ensures store.users == old(store.users) && store.nextUserId == old(store.nextUserId)
    ensures store.categories == old(store.categories) && store.nextCategoryId == old(store.nextCategoryId)
  {
    x := resolve(row);
    if x.Ok? {
      var e := store.CreateExpense(x.value);
    }
  }

  /** The expense loop of the confirmation, against the store; returns how many expenses it created. */
  method CreateExpenses(store: Store, rows: seq<ValidRow>, resolve: ValidRow -> Result<ExpenseInput, ImportFailure>)
      returns (count: nat, failure: Option<ImportFailure>)
    requires store.Valid() && DatesInRange(resolve)
    modifies store
    ensures store.Valid()
    ensures var r := InputsUntilFailure(rows, resolve);
            failure == r.1 && count == |r.0|
            && store.expenses == old(store.expenses) + Stamp(r.0, old(store.nextExpenseId))
            && store.nextExpenseId == old(store.nextExpenseId) + count
    ensures store.users == old(store.users) && store.nextUserId == old(store.nextUserId)
    ensures store.categories == old(store.categories) && store.nextCategoryId == old(store.nextCategoryId)
  {
    ghost var goal := InputsUntilFailure(rows, resolve);
    ghost var done: seq<ExpenseInput> := [];
    count := 0;
    var i := 0;
    assert rows[i..] == rows;
    assert done + goal.0 == goal.0;
    while i < |rows|
      invariant 0 <= i <= |rows| && |done| == i == count
      invariant store.Valid()
      invariant goal.0 == done + InputsUntilFailure(rows[i..], resolve).0
      invariant goal.1 == InputsUntilFailure(rows[i..], resolve).1
      invariant store.expenses == old(store.expenses) + Stamp(done, old(store.nextExpenseId))
      invariant store.nextExpenseId == old(store.nextExpenseId) + count
      invariant store.users == old(store.users) && store.nextUserId == old(store.nextUserId)
      invariant store.categories == old(store.categories) && store.nextCategoryId == old(store.nextCategoryId)
    {
      var x := ImportNext(store, rows, i, resolve, done, goal, old(store.expenses), old(store.nextExpenseId));
      if x.Err? {
        failure := Some(x.error);
        return;
      }
      done := done + [x.value];
      count := count + 1;
      i := i + 1;
    }
    assert rows[i..] == [];
    assert goal.0 == done + [] == done;
    failure := None;
  }

  /**
   * One turn of the expense loop, stated against the whole loop's outcome
   * `goal`: a failing row is the outcome's failure, and a resolved row is
   * the next input of the outcome, created with the next id.
   */
  method ImportNext(store: Store, rows: seq<ValidRow>, i: nat, resolve: ValidRow -> Result<ExpenseInput, ImportFailure>,
                    ghost done: seq<ExpenseInput>, ghost goal: (seq<ExpenseInput>, Option<ImportFailure>),
                    ghost start: seq<Expense>, ghost startId: int)
      returns (x: Result<ExpenseInput, ImportFailure>)
    requires i < |rows| && store.Valid() && DatesInRange(resolve)
    requires goal.0 == done + InputsUntilFailure(rows[i..], resolve).0
    requires goal.1 == InputsUntilFailure(rows[i..], resolve).1
    requires store.expenses == start + Stamp(done, startId) && store.nextExpenseId == startId + |done|
    modifies store
    ensures store.Valid()
    ensures x.Err? ==> goal == (done, Some(x.error)) && store.expenses == old(store.expenses)
                       && store.nextExpenseId == old(store.nextExpenseId)
    ensures x.Ok? ==> goal.0 == (done + [x.value]) + InputsUntilFailure(rows[i + 1..], resolve).0
                      && goal.1 == InputsUntilFailure(rows[i + 1..], resolve).1
                      && store.expenses == start + Stamp(done + [x.value], startId)
                      && store.nextExpenseId == old(store.nextExpenseId) + 1
    ensures store.users == old(store.users) && store.nextUserId == old(store.nextUserId)
    ensures store.categories == old(store.categories) && store.nextCategoryId == old(store.nextCategoryId)
  {
    ghost var before, id := store.expenses, store.nextExpenseId;
    x := ImportRow(store, rows[i], resolve);
    if x.Err? {
      InputsStopAt(rows, i, resolve, done, goal);
    } else {
      InputsAdvance(rows, i, resolve, done, goal);
      StampAppend(start, done, x.value, startId, before, id, store.expenses);
    }
  }

  /**
   * `confirm_csv_import`: index the first page of users and categories by
   * lower-cased name, create the new users, then the expenses.
   */
  method ConfirmImport(store: Store, request: ConfirmRequest) returns (r: Result<ConfirmResponse, HttpError>)
    requires store.Valid()
    modifies store
    ensures store.Valid()
    ensures var users := CreateUsers(UserIndex(old(store.GetUsers(0, 100))), request.newUsers, old(store.nextUserId));
            var inputs := ExpenseInputs(request.validRows, users.0, CategoryIndex(old(store.GetCategories(0, 100))));
            r == Response(inputs.0, inputs.1)
            && store.users == old(store.users) + users.1
            && store.expenses == old(store.expenses) + Stamp(inputs.0, old(store.nextExpenseId))
    ensures store.categories == old(store.categories)
  {
    var userIndex := UserIndex(store.GetUsers(0, 100));
    var categoryIndex := CategoryIndex(store.GetCategories(0, 100));
    var users := CreateNewUsers(store, userIndex, request.newUsers);
    var count, failure := CreateExpenses(store, request.validRows, Resolver(users, categoryIndex));
    r := Response(ExpenseInputs(request.validRows, users, categoryIndex).0, failure);
  }

  /**
   * What a valid row of a preview guarantees: its category and date
   * resolve, and its user is known or among the new users.
   */
  lemma ValidRowFacts(rows: seq<Row>, userKeys: set<string>, categoryKeys: set<string>, i: nat)
    requires i < |ValidRows(Outcomes(rows, userKeys, categoryKeys))|
    ensures var outs := Outcomes(rows, userKeys, categoryKeys);
            var v := ValidRows(outs)[i];
            Lower(v.category) in categoryKeys && ParseIsoDate(v.date).Some?
            && (Lower(v.user) !in userKeys ==> v.user in NewUsers(outs))
  {
    var outs := Outcomes(rows, userKeys, categoryKeys);
    var v := ValidRows(outs)[i];
    var k := v.row - 1;
    OutcomeFacts(rows, userKeys, categoryKeys, k);
    var d := outs[k].result.value;
    assert v == ToValidRow(k + 1, d);
    if Lower(v.user) !in userKeys {
      assert outs[k].newUser == Some(v.user);
      RecordedUserIsNew(outs, k);
    }
  }

  /** A valid outcome's category and date resolve, and an unknown user is recorded. */
  lemma OutcomeFacts(rows: seq<Row>, userKeys: set<string>, categoryKeys: set<string>, k: nat)
    requires k < |rows|
    ensures var o := Outcomes(rows, userKeys, categoryKeys)[k];
            o.result.Ok? ==>
              Lower(o.result.value.category) in categoryKeys && ParseIsoDate(o.result.value.date).Some?
              && (Lower(o.result.value.user) !in userKeys ==> o.newUser == Some(o.result.value.user))
  {
    OutcomeAt(rows, userKeys, categoryKeys, k);
    ValidRowRecordsNewUser(rows[k], userKeys, categoryKeys);
  }

  /** A name some outcome records is among the new users. */
  lemma RecordedUserIsNew(outs: seq<Outcome>, k: nat)
    requires k < |outs| && outs[k].newUser.Some?
    ensures outs[k].newUser.value in NewUsers(outs)
  {
    NewUsersExactly(outs);
  }

  /** One valid row of a preview resolves after the preview's new users are created. */
  lemma ValidRowResolves(users: seq<User>, categories: seq<Category>, rows: seq<Row>, names: seq<string>, nextUserId: int, i: nat)
    requires var p := PreviewOf(rows, UserIndex(users).Keys, CategoryIndex(categories).Keys);
             forall u :: u in p.newUsers ==> u in names
    requires i < |PreviewOf(rows, UserIndex(users).Keys, CategoryIndex(categories).Keys).valid|
    ensures var p := PreviewOf(rows, UserIndex(users).Keys, CategoryIndex(categories).Keys);
            RowInput(p.valid[i], CreateUsers(UserIndex(users), names, nextUserId).0, CategoryIndex(categories)).Ok?
  {
    var uk, ck := UserIndex(users).Keys, CategoryIndex(categories).Keys;
    var outs := Outcomes(rows, uk, ck);
    var v := ValidRows(outs)[i];
    ValidRowFacts(rows, uk, ck, i);
    var index := UserIndex(users);
    CreateUsersResolves(index, names, nextUserId);
    if Lower(v.user) !in uk {
      assert v.user in names;
      var j :| 0 <= j < |names| && names[j] == v.user;
    }
  }

  /**
   * Confirming a preview's valid rows and new users against the store the
   * preview read imports every valid row: no user, category or date fails
   * to resolve.
   */
  lemma PreviewThenConfirm(users: seq<User>, categories: seq<Category>, rows: seq<Row>, names: seq<string>, nextUserId: int)
    requires var p := PreviewOf(rows, UserIndex(users).Keys, CategoryIndex(categories).Keys);
             forall u :: u in p.newUsers ==> u in names
    ensures var p := PreviewOf(rows, UserIndex(users).Keys, CategoryIndex(categories).Keys);
            var inputs := ExpenseInputs(p.valid, CreateUsers(UserIndex(users), names, nextUserId).0, CategoryIndex(categories));
            inputs.1 == None && |inputs.0| == |p.valid|
  {
    var p := PreviewOf(rows, UserIndex(users).Keys, CategoryIndex(categories).Keys);
    var index := CreateUsers(UserIndex(users), names, nextUserId).0;
    forall i | 0 <= i < |p.valid|
      ensures RowInput(p.valid[i], index, CategoryIndex(categories)).Ok?
    {
      ValidRowResolves(users, categories, rows, names, nextUserId, i);
    }
    AllResolveImportsAll(p.valid, index, CategoryIndex(categories));
  }
}
