/**
 * The CSV import preview: every data row is classified as valid or as an
 * error by a fixed sequence of checks (columns, date, amount, category), and
 * user names not yet known are collected.
 */
module CsvImport {
  import opened Wrappers
  import opened Text
  import opened Numbers
  import opened Dates
  import opened Queries
  import opened Records
  import opened Crud

  /**
   * A data row as the CSV reader yields it: header name to cell. A cell
   * missing from a short row is present with `None`.
   */
  type Row = map<string, Option<string>>

  /** Why a row was rejected; `Unexpected` is any other exception (its text is not modelled). */
  datatype RowError = MissingColumns | BadDate | BadAmount | UnknownCategory(name: string) | Unexpected

  function ErrorMessage(e: RowError): (m: string)
    requires !e.Unexpected?
  {
    match e
    case MissingColumns => "Missing required columns: date, amount, category, user"
    case BadDate => "Invalid date format. Expected YYYY-MM-DD"
    case BadAmount => "Invalid amount. Must be a positive number"
    case UnknownCategory(name) => "Unknown category: " + name
  }

  /** What a valid row yields before it is numbered; the date is in ISO form. */
  datatype RowData = RowData(date: string, amount: real, category: string, description: string, user: string)

  /** The result of checking one row, and the user name it adds to the new users, if any. */
  datatype Outcome = Outcome(result: Result<RowData, RowError>, newUser: Option<string>)

  /** A valid row of the preview: its 1-based row number, ISO date, amount and stripped names. */
  datatype ValidRow = ValidRow(row: nat, date: string, amount: real, category: string, description: string, user: string)

  datatype ErrorRow = ErrorRow(row: nat, data: Row, error: RowError)

  datatype ImportSummary = ImportSummary(totalRows: nat, validCount: nat, errorCount: nat, newUserCount: nat)

  datatype ImportPreview = ImportPreview(
    valid: seq<ValidRow>,
    errors: seq<ErrorRow>,
    newUsers: set<string>,
    summary: ImportSummary)

  /** Lower-cased user name to user; a later user wins over an earlier one with the same key. */
  function UserIndex(us: seq<User>): map<string, User> {
    if us == [] then map[]
    else UserIndex(us[..|us| - 1])[Lower(us[|us| - 1].name) := us[|us| - 1]]
  }

  /** Lower-cased category name to category; a later one wins. */
  function CategoryIndex(cs: seq<Category>): map<string, Category> {
    if cs == [] then map[]
    else CategoryIndex(cs[..|cs| - 1])[Lower(cs[|cs| - 1].name) := cs[|cs| - 1]]
  }

  /**
   * The import looks names up in the first page of `get_users()` only: a
   * name is known exactly when one of the first 100 users has it, so the
   * 101st user onwards is never found.
   */
  lemma ImportSeesFirstHundredUsers(store: Store, k: string)
    ensures k in UserIndex(store.GetUsers(0, 100)) <==>
              exists i :: 0 <= i < |store.users| && i < 100 && Lower(store.users[i].name) == k
  {
    var page := store.GetUsers(0, 100);
    UserIndexSpec(page);
    if k in UserIndex(page) {
      var i :| 0 <= i < |page| && Lower(page[i].name) == k;
      assert page[i] == store.users[i];
    }
    if exists i :: 0 <= i < |store.users| && i < 100 && Lower(store.users[i].name) == k {
      var i :| 0 <= i < |store.users| && i < 100 && Lower(store.users[i].name) == k;
      assert page[i] == store.users[i];
    }
  }

  /** The same for categories: only the first 100 are known to the import. */
  lemma ImportSeesFirstHundredCategories(store: Store, k: string)
    ensures k in CategoryIndex(store.GetCategories(0, 100)) <==>
              exists i :: 0 <= i < |store.categories| && i < 100 && Lower(store.categories[i].name) == k
  {
    var page := store.GetCategories(0, 100);
    CategoryIndexSpec(page);
    if k in CategoryIndex(page) {
      var i :| 0 <= i < |page| && Lower(page[i].name) == k;
      assert page[i] == store.categories[i];
    }
    if exists i :: 0 <= i < |store.categories| && i < 100 && Lower(store.categories[i].name) == k {
      var i :| 0 <= i < |store.categories| && i < 100 && Lower(store.categories[i].name) == k;
      assert page[i] == store.categories[i];
    }
  }

  /** The user index holds every user under its lower-cased name, the last such user winning. */
  lemma UserIndexSpec(xs: seq<User>)
    ensures forall k :: k in UserIndex(xs) <==> exists i :: 0 <= i < |xs| && Lower(xs[i].name) == k
    ensures forall k :: k in UserIndex(xs) ==>
              exists i :: 0 <= i < |xs| && UserIndex(xs)[k] == xs[i] && Lower(xs[i].name) == k
                          && forall j :: i < j < |xs| ==> Lower(xs[j].name) != k
  {
    UserIndexKeys(xs);
    UserIndexWinner(xs);
  }

  lemma {:induction false} UserIndexKeys(xs: seq<User>)
    ensures forall k :: k in UserIndex(xs) <==> exists i :: 0 <= i < |xs| && Lower(xs[i].name) == k
  {
    if xs != [] {
      var n := |xs|;
      var prev := xs[..n - 1];
      UserIndexKeys(prev);
      forall k
        ensures k in UserIndex(xs) <==> exists i :: 0 <= i < n && Lower(xs[i].name) == k
      {
        if k in UserIndex(prev) {
          var i :| 0 <= i < n - 1 && Lower(prev[i].name) == k;
          assert prev[i] == xs[i];
        }
        if i :| 0 <= i < n - 1 && Lower(xs[i].name) == k {
          assert prev[i] == xs[i];
        }
      }
    }
  }

  lemma {:induction false} UserIndexWinner(xs: seq<User>)
    ensures forall k :: k in UserIndex(xs) ==>
              exists i :: 0 <= i < |xs| && UserIndex(xs)[k] == xs[i] && Lower(xs[i].name) == k
                          && forall j :: i < j < |xs| ==> Lower(xs[j].name) != k
  {
    if xs != [] {
      var n := |xs|;
      var prev := xs[..n - 1];
      UserIndexWinner(prev);
      forall k | k in UserIndex(xs)
        ensures exists i :: 0 <= i < n && UserIndex(xs)[k] == xs[i] && Lower(xs[i].name) == k
                            && forall j :: i < j < n ==> Lower(xs[j].name) != k
      {
        if k == Lower(xs[n - 1].name) {
          assert UserIndex(xs)[k] == xs[n - 1];
        } else {
          assert k in UserIndex(prev) && UserIndex(xs)[k] == UserIndex(prev)[k];
          var i :| 0 <= i < n - 1 && UserIndex(prev)[k] == prev[i] && Lower(prev[i].name) == k
                   && forall j :: i < j < n - 1 ==> Lower(prev[j].name) != k;
          assert prev[i] == xs[i];
          forall j | i < j < n
            ensures Lower(xs[j].name) != k
          {
            if j < n - 1 {
              assert prev[j] == xs[j];
            }
          }
        }
      }
    }
  }

  /** The category index holds every category under its lower-cased name, the last such category winning. */
  lemma CategoryIndexSpec(xs: seq<Category>)
    ensures forall k :: k in CategoryIndex(xs) <==> exists i :: 0 <= i < |xs| && Lower(xs[i].name) == k
    ensures forall k :: k in CategoryIndex(xs) ==>
              exists i :: 0 <= i < |xs| && CategoryIndex(xs)[k] == xs[i] && Lower(xs[i].name) == k
                          && forall j :: i < j < |xs| ==> Lower(xs[j].name) != k
  {
    CategoryIndexKeys(xs);
    CategoryIndexWinner(xs);
  }

  lemma {:induction false} CategoryIndexKeys(xs: seq<Category>)
    ensures forall k :: k in CategoryIndex(xs) <==> exists i :: 0 <= i < |xs| && Lower(xs[i].name) == k
  {
    if xs != [] {
      var n := |xs|;
      var prev := xs[..n - 1];
      CategoryIndexKeys(prev);
      forall k
        ensures k in CategoryIndex(xs) <==> exists i :: 0 <= i < n && Lower(xs[i].name) == k
      {
        if k in CategoryIndex(prev) {
          var i :| 0 <= i < n - 1 && Lower(prev[i].name) == k;
          assert prev[i] == xs[i];
        }
        if i :| 0 <= i < n - 1 && Lower(xs[i].name) == k {
          assert prev[i] == xs[i];
        }
      }
    }
  }

  lemma {:induction false} CategoryIndexWinner(xs: seq<Category>)
    ensures forall k :: k in CategoryIndex(xs) ==>
              exists i :: 0 <= i < |xs| && CategoryIndex(xs)[k] == xs[i] && Lower(xs[i].name) == k
                          && forall j :: i < j < |xs| ==> Lower(xs[j].name) != k
  {
    if xs != [] {
      var n := |xs|;
      var prev := xs[..n - 1];
      CategoryIndexWinner(prev);
      forall k | k in CategoryIndex(xs)
        ensures exists i :: 0 <= i < n && CategoryIndex(xs)[k] == xs[i] && Lower(xs[i].name) == k
                            && forall j :: i < j < n ==> Lower(xs[j].name) != k
      {
        if k == Lower(xs[n - 1].name) {
          assert CategoryIndex(xs)[k] == xs[n - 1];
        } else {
          assert k in CategoryIndex(prev) && CategoryIndex(xs)[k] == CategoryIndex(prev)[k];
          var i :| 0 <= i < n - 1 && CategoryIndex(prev)[k] == prev[i] && Lower(prev[i].name) == k
                   && forall j :: i < j < n - 1 ==> Lower(prev[j].name) != k;
          assert prev[i] == xs[i];
          forall j | i < j < n
            ensures Lower(xs[j].name) != k
          {
            if j < n - 1 {
              assert prev[j] == xs[j];
            }
          }
        }
      }
    }
  }

  predicate HasRequiredColumns(row: Row) {
    "date" in row && "amount" in row && "category" in row && "user" in row
  }

  /** `row.get('description', '')`. */
  function DescriptionCell(row: Row): Option<string> {
    if "description" in row then row["description"] else Some("")
  }

  /**
   * One row of the preview loop, against the lower-cased names of the known
   * users and categories. The first failing check decides the error; the
   * user check comes before the category check, so a row with an unknown
   * category still contributes its new user.
   */
  function ClassifyRow(row: Row, userKeys: set<string>, categoryKeys: set<string>): (o: Outcome)
    ensures o.result.Ok? ==> o.result.value.amount > 0.0 && ParseIsoDate(o.result.value.date).Some?
    ensures o.result.Ok? ==> Lower(o.result.value.category) in categoryKeys
    ensures o.newUser.Some? ==> Lower(o.newUser.value) !in userKeys
  {
    if !HasRequiredColumns(row) then Outcome(Err(MissingColumns), None)
    else match row["date"]
      case None => Outcome(Err(Unexpected), None)
      case Some(dateText) =>
        match ParseIsoDate(dateText)
        case None => Outcome(Err(BadDate), None)
        case Some(date) =>
          IsoRoundTrip(date);
          CheckAmount(row, date, userKeys, categoryKeys)
  }

  /** The checks after the date: amount, then user, category and description. */
  function CheckAmount(row: Row, date: Date, userKeys: set<string>, categoryKeys: set<string>): (o: Outcome)
    requires HasRequiredColumns(row) && InPythonRange(date)
    ensures o.result.Ok? ==> o.result.value.amount > 0.0 && o.result.value.date == IsoFormat(date)
    ensures o.result.Ok? ==> Lower(o.result.value.category) in categoryKeys
    ensures o.newUser.Some? ==> Lower(o.newUser.value) !in userKeys
  {
    match row["amount"]
    case None => Outcome(Err(Unexpected), None)
    case Some(amountText) =>
      match ParsePyFloat(amountText)
      case None => Outcome(Err(BadAmount), None)
      case Some(amount) =>
        if amount <= 0.0 then Outcome(Err(BadAmount), None)
        else CheckNames(row, IsoFormat(date), amount, userKeys, categoryKeys)
  }

  /** The checks after the amount: the user is looked up, then the category. */
  function CheckNames(row: Row, date: string, amount: real, userKeys: set<string>, categoryKeys: set<string>): (o: Outcome)
    requires HasRequiredColumns(row)
    ensures o.result.Ok? ==> o.result.value.amount == amount && o.result.value.date == date
    ensures o.result.Ok? ==> Lower(o.result.value.category) in categoryKeys
    ensures o.newUser.Some? ==> Lower(o.newUser.value) !in userKeys
  {
    match row["user"]
    case None => Outcome(Err(Unexpected), None)
    case Some(userText) =>
      var userName := Strip(userText);
      var newUser := if Lower(userName) in userKeys then None else Some(userName);
      match row["category"]
      case None => Outcome(Err(Unexpected), newUser)
      case Some(categoryText) =>
        var categoryName := Strip(categoryText);
        if Lower(categoryName) !in categoryKeys then Outcome(Err(UnknownCategory(categoryName)), newUser)
        else match DescriptionCell(row)
          case None => Outcome(Err(Unexpected), newUser)
          case Some(d) => Outcome(Ok(RowData(date, amount, categoryName, Strip(d), userName)), newUser)
  }

  /** The cell of a required column, or `None` when it is absent or empty-by-shortness. */
  function Cell(row: Row, column: string): Option<string> {
    if column in row then row[column] else None
  }

  /** The date cell is there and is a real `YYYY-MM-DD` day. */
  predicate DatePasses(row: Row) {
    Cell(row, "date").Some? && ParseIsoDate(Cell(row, "date").value).Some?
  }

  /** The amount cell is there and is a number above zero. */
  predicate AmountPasses(row: Row) {
    Cell(row, "amount").Some? && ParsePyFloat(Cell(row, "amount").value).Some?
    && ParsePyFloat(Cell(row, "amount").value).value > 0.0
  }

  /** The user and category cells are there, the category is known, and the description is no short-row gap. */
  predicate NamesPass(row: Row, categoryKeys: set<string>) {
    Cell(row, "user").Some? && Cell(row, "category").Some?
    && Lower(Strip(Cell(row, "category").value)) in categoryKeys
    && DescriptionCell(row).Some?
  }

  lemma NamesStage(row: Row, date: string, amount: real, userKeys: set<string>, categoryKeys: set<string>)
    requires HasRequiredColumns(row)
    ensures CheckNames(row, date, amount, userKeys, categoryKeys).result.Ok? <==> NamesPass(row, categoryKeys)
  {
  }

  lemma AmountStage(row: Row, date: Date, userKeys: set<string>, categoryKeys: set<string>)
    requires HasRequiredColumns(row) && InPythonRange(date)
    ensures CheckAmount(row, date, userKeys, categoryKeys).result.Ok? <==> AmountPasses(row) && NamesPass(row, categoryKeys)
  {
    match row["amount"]
    case None =>
    case Some(t) =>
      match ParsePyFloat(t)
      case None =>
      case Some(amount) =>
        if amount > 0.0 {
          NamesStage(row, IsoFormat(date), amount, userKeys, categoryKeys);
        }
  }

  /**
   * A row is valid exactly when every required cell is there, the date is a
   * real `YYYY-MM-DD` day, the amount is a number above zero, the category is
   * known, and the description is not a short-row gap.
   */
  lemma ValidExactly(row: Row, userKeys: set<string>, categoryKeys: set<string>)
    ensures ClassifyRow(row, userKeys, categoryKeys).result.Ok? <==>
              HasRequiredColumns(row) && DatePasses(row) && AmountPasses(row) && NamesPass(row, categoryKeys)
  {
    if HasRequiredColumns(row) && DatePasses(row) {
      AmountStage(row, ParseIsoDate(Cell(row, "date").value).value, userKeys, categoryKeys);
    }
  }

  /** A valid row whose user is not known records that user, under the same stripped name. */
  lemma ValidRowRecordsNewUser(row: Row, userKeys: set<string>, categoryKeys: set<string>)
    ensures var o := ClassifyRow(row, userKeys, categoryKeys);
            o.result.Ok? && Lower(o.result.value.user) !in userKeys ==> o.newUser == Some(o.result.value.user)
  {
    if HasRequiredColumns(row) && DatePasses(row) {
      var date := ParseIsoDate(Cell(row, "date").value).value;
      match row["amount"]
      case None =>
      case Some(t) =>
        match ParsePyFloat(t)
        case None =>
        case Some(amount) =>
          if amount > 0.0 {
            NamesUser(row, IsoFormat(date), amount, userKeys, categoryKeys);
          }
    }
  }

  lemma NamesUser(row: Row, date: string, amount: real, userKeys: set<string>, categoryKeys: set<string>)
    requires HasRequiredColumns(row)
    ensures var o := CheckNames(row, date, amount, userKeys, categoryKeys);
            o.result.Ok? && Lower(o.result.value.user) !in userKeys ==> o.newUser == Some(o.result.value.user)
  {
  }

  /** A date error means the columns were all there. */
  lemma DateCheckedAfterColumns(row: Row, userKeys: set<string>, categoryKeys: set<string>)
    ensures ClassifyRow(row, userKeys, categoryKeys).result == Err(BadDate) ==> HasRequiredColumns(row)
  {
  }

  /** An amount error means the columns were there and the date was good. */
  lemma AmountCheckedAfterDate(row: Row, userKeys: set<string>, categoryKeys: set<string>)
    ensures ClassifyRow(row, userKeys, categoryKeys).result == Err(BadAmount) ==>
              HasRequiredColumns(row) && Cell(row, "date").Some? && ParseIsoDate(Cell(row, "date").value).Some?
  {
  }

  /** An unknown-category error means every earlier check passed, and names the stripped category. */
  lemma CategoryCheckedLast(row: Row, userKeys: set<string>, categoryKeys: set<string>)
    ensures var r := ClassifyRow(row, userKeys, categoryKeys).result;
            r.Err? && r.error.UnknownCategory? ==>
              HasRequiredColumns(row) && DatePasses(row) && AmountPasses(row)
              && CategoryRejected(row, r.error.name, categoryKeys)
  {
    if HasRequiredColumns(row) && DatePasses(row) {
      AmountCategoryError(row, ParseIsoDate(Cell(row, "date").value).value, userKeys, categoryKeys);
    }
  }

  /** The category cell is there, `name` is its stripped text, and that name is not known. */
  predicate CategoryRejected(row: Row, name: string, categoryKeys: set<string>) {
    Cell(row, "category").Some? && name == Strip(Cell(row, "category").value) && Lower(name) !in categoryKeys
  }

  lemma NamesCategoryError(row: Row, date: string, amount: real, userKeys: set<string>, categoryKeys: set<string>)
    requires HasRequiredColumns(row)
    ensures var r := CheckNames(row, date, amount, userKeys, categoryKeys).result;
            r.Err? && r.error.UnknownCategory? ==> CategoryRejected(row, r.error.name, categoryKeys)
  {
  }

  lemma AmountCategoryError(row: Row, date: Date, userKeys: set<string>, categoryKeys: set<string>)
    requires HasRequiredColumns(row) && InPythonRange(date)
    ensures var r := CheckAmount(row, date, userKeys, categoryKeys).result;
            r.Err? && r.error.UnknownCategory? ==>
              AmountPasses(row) && CategoryRejected(row, r.error.name, categoryKeys)
  {
    match row["amount"]
    case None =>
    case Some(t) =>
      match ParsePyFloat(t)
      case None =>
      case Some(amount) =>
        if amount > 0.0 {
          NamesCategoryError(row, IsoFormat(date), amount, userKeys, categoryKeys);
        }
  }

  /** A row with an unknown user but an unknown category is rejected and still records the new user. */
  lemma NewUserDespiteUnknownCategory(row: Row, userKeys: set<string>, categoryKeys: set<string>)
    requires HasRequiredColumns(row)
    requires Cell(row, "date").Some? && ParseIsoDate(Cell(row, "date").value).Some?
    requires Cell(row, "amount").Some? && ParsePyFloat(Cell(row, "amount").value).Some?
    requires ParsePyFloat(Cell(row, "amount").value).value > 0.0
    requires Cell(row, "user").Some? && Lower(Strip(Cell(row, "user").value)) !in userKeys
    requires Cell(row, "category").Some? && Lower(Strip(Cell(row, "category").value)) !in categoryKeys
    ensures ClassifyRow(row, userKeys, categoryKeys)
            == Outcome(Err(UnknownCategory(Strip(Cell(row, "category").value))), Some(Strip(Cell(row, "user").value)))
  {
  }

  /** The outcome of every row. */
  function Outcomes(rows: seq<Row>, userKeys: set<string>, categoryKeys: set<string>): (os: seq<Outcome>)
    ensures |os| == |rows|
  {
    if rows == [] then []
    else Outcomes(rows[..|rows| - 1], userKeys, categoryKeys) + [ClassifyRow(rows[|rows| - 1], userKeys, categoryKeys)]
  }

  lemma {:induction false} OutcomeAt(rows: seq<Row>, userKeys: set<string>, categoryKeys: set<string>, i: nat)
    requires i < |rows|
    ensures Outcomes(rows, userKeys, categoryKeys)[i] == ClassifyRow(rows[i], userKeys, categoryKeys)
  {
    var n, init := |rows|, rows[..|rows| - 1];
    var earlier := Outcomes(init, userKeys, categoryKeys);
    assert Outcomes(rows, userKeys, categoryKeys) == earlier + [ClassifyRow(rows[n - 1], userKeys, categoryKeys)];
    if i < n - 1 {
      OutcomeAt(init, userKeys, categoryKeys, i);
      assert init[i] == rows[i];
    }
  }

  function ToValidRow(n: nat, d: RowData): ValidRow {
    ValidRow(n, d.date, d.amount, d.category, d.description, d.user)
  }

  /** The valid rows among the outcomes, numbered from 1 in row order. */
  function ValidRows(outs: seq<Outcome>): (v: seq<ValidRow>)
    ensures forall i :: 0 <= i < |v| ==>
              (1 <= v[i].row <= |outs| && outs[v[i].row - 1].result.Ok?
               && v[i] == ToValidRow(v[i].row, outs[v[i].row - 1].result.value))
    ensures forall i, j :: 0 <= i < j < |v| ==> v[i].row < v[j].row
  {
    if outs == [] then []
    else
      var n := |outs|;
      var earlier := ValidRows(outs[..n - 1]);
      assert forall i :: 0 <= i < |earlier| ==> outs[..n - 1][earlier[i].row - 1] == outs[earlier[i].row - 1];
      match outs[n - 1].result
      case Ok(d) => earlier + [ToValidRow(n, d)]
      case Err(_) => earlier
  }

  /** The rejected rows among the outcomes, numbered from 1 in row order, each with its row data. */
  function ErrorRows(rows: seq<Row>, outs: seq<Outcome>): (e: seq<ErrorRow>)
    requires |outs| == |rows|
    ensures forall i :: 0 <= i < |e| ==>
              (1 <= e[i].row <= |rows| && outs[e[i].row - 1].result == Err(e[i].error)
               && e[i].data == rows[e[i].row - 1])
    ensures forall i, j :: 0 <= i < j < |e| ==> e[i].row < e[j].row
  {
    if rows == [] then []
    else
      var n := |rows|;
      var earlier := ErrorRows(rows[..n - 1], outs[..n - 1]);
      assert forall i :: 0 <= i < |earlier| ==>
        rows[..n - 1][earlier[i].row - 1] == rows[earlier[i].row - 1]
        && outs[..n - 1][earlier[i].row - 1] == outs[earlier[i].row - 1];
      match outs[n - 1].result
      case Ok(_) => earlier
      case Err(err) => earlier + [ErrorRow(n, rows[n - 1], err)]
  }

  /** The user names the outcomes add to the set of new users. */
  function NewUsers(outs: seq<Outcome>): set<string> {
    if outs == [] then {}
    else
      var earlier := NewUsers(outs[..|outs| - 1]);
      match outs[|outs| - 1].newUser
      case None => earlier
      case Some(u) => earlier + {u}
  }

  /**
   * The new users are exactly the names some row recorded; being a set,
   * it keeps names that differ only in case apart.
   */
  lemma {:induction false} NewUsersExactly(outs: seq<Outcome>)
    ensures forall u :: u in NewUsers(outs) <==> exists i :: 0 <= i < |outs| && outs[i].newUser == Some(u)
  {
    if outs != [] {
      var n := |outs|;
      NewUsersExactly(outs[..n - 1]);
      assert forall i :: 0 <= i < n - 1 ==> outs[..n - 1][i] == outs[i];
    }
  }

  /** Every row is either valid or rejected, never both and never neither. */
  lemma {:induction false} EveryRowOnce(rows: seq<Row>, outs: seq<Outcome>)
    requires |outs| == |rows|
    ensures |ValidRows(outs)| + |ErrorRows(rows, outs)| == |rows|
    ensures forall i, j :: 0 <= i < |ValidRows(outs)| && 0 <= j < |ErrorRows(rows, outs)|
              ==> ValidRows(outs)[i].row != ErrorRows(rows, outs)[j].row
  {
    if rows != [] {
      EveryRowOnce(rows[..|rows| - 1], outs[..|outs| - 1]);
    }
  }

  lemma OutcomesStep(rows: seq<Row>, i: nat, userKeys: set<string>, categoryKeys: set<string>)
    requires i < |rows|
    ensures Outcomes(rows[..i + 1], userKeys, categoryKeys)
            == Outcomes(rows[..i], userKeys, categoryKeys) + [ClassifyRow(rows[i], userKeys, categoryKeys)]
  {
    assert rows[..i + 1][..i] == rows[..i];
  }

  /** What one more row adds to each part of the preview. */
  lemma FoldStep(rows: seq<Row>, outs: seq<Outcome>, row: Row, o: Outcome)
    requires |outs| == |rows|
    ensures ValidRows(outs + [o]) == ValidRows(outs) + (if o.result.Ok? then [ToValidRow(|outs| + 1, o.result.value)] else [])
    ensures ErrorRows(rows + [row], outs + [o]) == ErrorRows(rows, outs) + (if o.result.Err? then [ErrorRow(|rows| + 1, row, o.result.error)] else [])
    ensures NewUsers(outs + [o]) == NewUsers(outs) + (if o.newUser.Some? then {o.newUser.value} else {})
  {
    assert (outs + [o])[..|outs|] == outs;
    assert (rows + [row])[..|rows|] == rows;
  }

  function PreviewOf(rows: seq<Row>, userKeys: set<string>, categoryKeys: set<string>): ImportPreview {
    var outs := Outcomes(rows, userKeys, categoryKeys);
    var v := ValidRows(outs);
    var e := ErrorRows(rows, outs);
    var u := NewUsers(outs);
    ImportPreview(v, e, u, ImportSummary(|v| + |e|, |v|, |e|, |u|))
  }

  /** The summary counts every data row, and splits it into valid and rejected rows. */
  lemma PreviewSummary(rows: seq<Row>, userKeys: set<string>, categoryKeys: set<string>)
    ensures var p := PreviewOf(rows, userKeys, categoryKeys);
            p.summary.totalRows == |rows| == p.summary.validCount + p.summary.errorCount
            && p.summary.validCount == |p.valid| && p.summary.errorCount == |p.errors|
            && p.summary.newUserCount == |p.newUsers|
  {
    EveryRowOnce(rows, Outcomes(rows, userKeys, categoryKeys));
  }

  /** No row is valid exactly when every outcome is a rejection. */
  lemma {:induction false} NoValidRowsExactly(outs: seq<Outcome>)
    ensures ValidRows(outs) == [] <==> forall i :: 0 <= i < |outs| ==> outs[i].result.Err?
  {
    if outs != [] {
      var n := |outs|;
      NoValidRowsExactly(outs[..n - 1]);
      assert forall i :: 0 <= i < n - 1 ==> outs[..n - 1][i] == outs[i];
    }
  }

  /** The preview counts no valid row exactly when every data row is rejected. */
  lemma NoValidCountExactly(rows: seq<Row>, userKeys: set<string>, categoryKeys: set<string>)
    ensures PreviewOf(rows, userKeys, categoryKeys).summary.validCount == 0
            <==> forall i :: 0 <= i < |rows| ==> ClassifyRow(rows[i], userKeys, categoryKeys).result.Err?
  {
    var outs := Outcomes(rows, userKeys, categoryKeys);
    NoValidRowsExactly(outs);
    forall i | 0 <= i < |rows|
      ensures outs[i] == ClassifyRow(rows[i], userKeys, categoryKeys)
    {
      OutcomeAt(rows, userKeys, categoryKeys, i);
    }
  }

  lemma PreviewStep(rows: seq<Row>, i: nat, userKeys: set<string>, categoryKeys: set<string>, o: Outcome)
    requires i < |rows| && o == ClassifyRow(rows[i], userKeys, categoryKeys)
    ensures var outs := Outcomes(rows[..i], userKeys, categoryKeys);
            ValidRows(Outcomes(rows[..i + 1], userKeys, categoryKeys)) == ValidRows(outs) + (if o.result.Ok? then [ToValidRow(i + 1, o.result.value)] else [])
    ensures var outs := Outcomes(rows[..i], userKeys, categoryKeys);
            ErrorRows(rows[..i + 1], Outcomes(rows[..i + 1], userKeys, categoryKeys)) == ErrorRows(rows[..i], outs) + (if o.result.Err? then [ErrorRow(i + 1, rows[i], o.result.error)] else [])
    ensures var outs := Outcomes(rows[..i], userKeys, categoryKeys);
            NewUsers(Outcomes(rows[..i + 1], userKeys, categoryKeys)) == NewUsers(outs) + (if o.newUser.Some? then {o.newUser.value} else {})
  {
    OutcomesStep(rows, i, userKeys, categoryKeys);
    FoldStep(rows[..i], Outcomes(rows[..i], userKeys, categoryKeys), rows[i], o);
    assert rows[..i + 1] == rows[..i] + [rows[i]];
  }

  /** The row loop of the preview: classify each row and append it to the valid or the rejected rows. */
  method ClassifyRows(rows: seq<Row>, userKeys: set<string>, categoryKeys: set<string>)
      returns (valid: seq<ValidRow>, errors: seq<ErrorRow>, newUsers: set<string>)
    ensures valid == ValidRows(Outcomes(rows, userKeys, categoryKeys))
    ensures errors == ErrorRows(rows, Outcomes(rows, userKeys, categoryKeys))
    ensures newUsers == NewUsers(Outcomes(rows, userKeys, categoryKeys))
  {
    valid, errors, newUsers := [], [], {};
    var i := 0;
    while i < |rows|
      invariant 0 <= i <= |rows|
      invariant valid == ValidRows(Outcomes(rows[..i], userKeys, categoryKeys))
      invariant errors == ErrorRows(rows[..i], Outcomes(rows[..i], userKeys, categoryKeys))
      invariant newUsers == NewUsers(Outcomes(rows[..i], userKeys, categoryKeys))
    {
      var o := ClassifyRow(rows[i], userKeys, categoryKeys);
      PreviewStep(rows, i, userKeys, categoryKeys, o);
      if o.newUser.Some? {
        newUsers := newUsers + {o.newUser.value};
      }
      match o.result {
        case Ok(d) =>
          valid := valid + [ValidRow(i + 1, d.date, d.amount, d.category, d.description, d.user)];
        case Err(err) =>
          errors := errors + [ErrorRow(i + 1, rows[i], err)];
      }
      i := i + 1;
    }
    assert rows[..i] == rows;
  }

  /**
   * `preview_csv_import`: a file whose name does not end in `.csv` is
   * refused before any row is read; otherwise each row is classified
   * against the first 100 users and categories of the store.
   */
  method PreviewImport(store: Store, fileName: string, rows: seq<Row>) returns (r: Result<ImportPreview, HttpError>)
    ensures !EndsWith(fileName, ".csv") ==> r == Err(HttpError(400, "File must be a CSV"))
    ensures EndsWith(fileName, ".csv") ==>
              r == Ok(PreviewOf(rows, UserIndex(store.GetUsers(0, 100)).Keys, CategoryIndex(store.GetCategories(0, 100)).Keys))
  {
    if !EndsWith(fileName, ".csv") {
      return Err(HttpError(400, "File must be a CSV"));
    }
    var userKeys := UserIndex(store.GetUsers(0, 100)).Keys;
    var categoryKeys := CategoryIndex(store.GetCategories(0, 100)).Keys;
    var valid, errors, newUsers := ClassifyRows(rows, userKeys, categoryKeys);
    r := Ok(ImportPreview(valid, errors, newUsers, ImportSummary(|valid| + |errors|, |valid|, |errors|, |newUsers|)));
  }
}
