/**
 * The CSV export: the expenses `get_expenses` selects (no offset, at most
 * 10000), newest first, one record per expense after a fixed header, each
 * expense with its category's and its user's name.
 */
module CsvExport {
  import opened Wrappers
  import opened Text
  import opened Numbers
  import opened Dates
  import opened Queries
  import opened Records
  import opened Crud
  import opened CsvImport

  const Header: seq<string> := ["date", "amount", "category", "description", "user"]

  /** The row limit of the export query. */
  const ExportLimit: nat := 10000

  /** A wall-clock reading; the file name is stamped with it. */
  datatype Timestamp = Timestamp(date: Date, hour: nat, minute: nat, second: nat)

  /** One exported expense: its date and amount, and the names its ids resolve to. */
  datatype ExportRecord = ExportRecord(date: Date, amount: real, category: string, description: string, user: string)

  /** The header and records handed to `csv.writer`, and the suggested file name. */
  datatype ExportFile = ExportFile(header: seq<string>, records: seq<ExportRecord>, fileName: string)

  /** The filters the client may pass; the offset and the limit are fixed. */
  function ExportQuery(start: Option<Date>, end: Option<Date>, userId: Option<int>, categoryId: Option<int>): ExpenseQuery {
    ExpenseQuery(0, ExportLimit, userId, categoryId, start, end)
  }

  /** `expenses_%Y%m%d_%H%M%S.csv`. */
  function FileName(now: Timestamp): string
    requires InPythonRange(now.date)
  {
    "expenses_" + NatToString(now.date.year) + Pad2(now.date.month) + Pad2(now.date.day)
    + "_" + Pad2(now.hour) + Pad2(now.minute) + Pad2(now.second) + ".csv"
  }

  /** `description or ''`: an absent and an empty description both export as `''`. */
  function DescriptionText(d: Option<string>): string {
    d.GetOr("")
  }

  /**
   * The record of one expense, or `None` when no user or no category has
   * its id (an expense created or updated with an id nobody has; reading a
   * name through the missing relation raises).
   */
  function ExportEntry(e: Expense, users: seq<User>, categories: seq<Category>): (r: Option<ExportRecord>)
    ensures r.Some? <==> IndexOfId(users, UserId, e.userId).Some? && IndexOfId(categories, CategoryId, e.categoryId).Some?
    ensures r.Some? ==> r.value.date == e.date && r.value.amount == e.amount
                        && r.value.category == categories[IndexOfId(categories, CategoryId, e.categoryId).value].name
                        && r.value.user == users[IndexOfId(users, UserId, e.userId).value].name
  {
    match (IndexOfId(users, UserId, e.userId), IndexOfId(categories, CategoryId, e.categoryId))
    case (Some(u), Some(c)) =>
      Some(ExportRecord(e.date, e.amount, categories[c].name, DescriptionText(e.description), users[u].name))
    case _ => None
  }

  /** The cells `csv.writer` writes for a record: `isoformat()`, `repr` of the amount, and the three texts. */
  function Cells(r: ExportRecord): (cells: seq<string>)
    requires InPythonRange(r.date)
    ensures |cells| == |Header|
  {
    [IsoFormat(r.date), PyAmountText(r.amount), r.category, r.description, r.user]
  }

  /** The records of the expenses in order, or `None` if any of them cannot be written. */
  function ExportRows(es: seq<Expense>, users: seq<User>, categories: seq<Category>): (r: Option<seq<ExportRecord>>)
  {
    if es == [] then Some([])
    else
      var n := |es|;
      match (ExportRows(es[..n - 1], users, categories), ExportEntry(es[n - 1], users, categories))
      case (Some(rows), Some(rec)) => Some(rows + [rec])
      case _ => None
  }

  /**
   * The export holds one record per expense, in order, each that expense's
   * record; it fails exactly when some expense has lost its user or category.
   */
  lemma {:induction false} ExportRowsSpec(es: seq<Expense>, users: seq<User>, categories: seq<Category>)
    ensures var r := ExportRows(es, users, categories);
            (r.None? <==> exists i :: 0 <= i < |es| && ExportEntry(es[i], users, categories).None?)
            && (r.Some? ==> |r.value| == |es|
                            && forall i :: 0 <= i < |es| ==> Some(r.value[i]) == ExportEntry(es[i], users, categories))
  {
    if es != [] {
      var n := |es|;
      var init := es[..n - 1];
      ExportRowsSpec(init, users, categories);
      assert forall i :: 0 <= i < n - 1 ==> init[i] == es[i];
      var pre := ExportRows(init, users, categories);
      var last := ExportEntry(es[n - 1], users, categories);
      if pre.Some? && last.Some? {
        var rows := pre.value + [last.value];
        assert ExportRows(es, users, categories) == Some(rows);
        forall i | 0 <= i < n
          ensures Some(rows[i]) == ExportEntry(es[i], users, categories)
        {
          if i < n - 1 {
            assert rows[i] == pre.value[i] && init[i] == es[i];
          }
        }
      } else {
        assert ExportRows(es, users, categories).None?;
        if last.None? {
          assert ExportEntry(es[n - 1], users, categories).None?;
        } else {
          var j :| 0 <= j < n - 1 && ExportEntry(init[j], users, categories).None?;
          assert ExportEntry(es[j], users, categories).None?;
        }
      }
    }
  }

  /** `export_csv` on the store's tables, at clock reading `now`. */
  function ExportOf(es: seq<Expense>, users: seq<User>, categories: seq<Category>, q: ExpenseQuery, now: Timestamp)
    : Result<ExportFile, HttpError>
    requires InPythonRange(now.date)
  {
    match ExportRows(GetExpenses(es, q), users, categories)
    case None => Err(HttpError(500, "Internal Server Error"))
    case Some(rows) => Ok(ExportFile(Header, rows, FileName(now)))
  }

  /**
   * A successful export is one record per selected expense in
   * `get_expenses` order (newest first, at most 10000), every one with a
   * date `isoformat()` can write, and its file name passes the importer's
   * `.csv` check.
   */
  lemma ExportShape(es: seq<Expense>, users: seq<User>, categories: seq<Category>, q: ExpenseQuery, now: Timestamp)
    requires DatedExpenses(es) && InPythonRange(now.date) && q.limit == ExportLimit
    ensures var r := ExportOf(es, users, categories, q, now);
            var selected := GetExpenses(es, q);
            r.Ok? ==>
              r.value.header == Header && |r.value.records| == |selected| <= ExportLimit
              && (forall i :: 0 <= i < |selected| ==> Some(r.value.records[i]) == ExportEntry(selected[i], users, categories))
              && (forall i :: 0 <= i < |selected| ==> InPythonRange(r.value.records[i].date))
              && EndsWith(r.value.fileName, ".csv")
  {
    var selected := GetExpenses(es, q);
    ExportRowsSpec(selected, users, categories);
    forall i | 0 <= i < |selected|
      ensures InPythonRange(selected[i].date)
    {
      assert selected[i] in es;
    }
  }

  /** The export fails exactly when a selected expense has lost its user or its category. */
  lemma ExportFailsExactly(es: seq<Expense>, users: seq<User>, categories: seq<Category>, q: ExpenseQuery, now: Timestamp)
    requires InPythonRange(now.date)
    ensures var selected := GetExpenses(es, q);
            ExportOf(es, users, categories, q, now).Err? <==>
              exists i :: 0 <= i < |selected| &&
                (IndexOfId(users, UserId, selected[i].userId).None? || IndexOfId(categories, CategoryId, selected[i].categoryId).None?)
  {
    var selected := GetExpenses(es, q);
    ExportRowsSpec(selected, users, categories);
  }

  /**
   * While every expense's user and category exist, which the deletes as
   * written keep, the export succeeds.
   */
  lemma ExportSucceedsWhenReferencesResolve(es: seq<Expense>, users: seq<User>, categories: seq<Category>, q: ExpenseQuery, now: Timestamp)
    requires InPythonRange(now.date)
    requires ReferencesResolve(users, UserId, es, ExpenseUser) && ReferencesResolve(categories, CategoryId, es, ExpenseCategory)
    ensures ExportOf(es, users, categories, q, now).Ok?
  {
    var selected := GetExpenses(es, q);
    forall i | 0 <= i < |selected|
      ensures IndexOfId(users, UserId, selected[i].userId).Some? && IndexOfId(categories, CategoryId, selected[i].categoryId).Some?
    {
      KeysOfMember(users, categories, es, selected[i]);
    }
    ExportFailsExactly(es, users, categories, q, now);
  }

  lemma KeysOfMember(users: seq<User>, categories: seq<Category>, es: seq<Expense>, e: Expense)
    requires ReferencesResolve(users, UserId, es, ExpenseUser) && ReferencesResolve(categories, CategoryId, es, ExpenseCategory)
    requires e in es
    ensures IndexOfId(users, UserId, e.userId).Some? && IndexOfId(categories, CategoryId, e.categoryId).Some?
  {
    var k :| 0 <= k < |es| && es[k] == e;
    assert ExpenseUser(es[k]) == e.userId && ExpenseCategory(es[k]) == e.categoryId;
  }

  /** `export_csv`: the selected expenses, then their records, then the file. */
  method ExportCsv(store: Store, start: Option<Date>, end: Option<Date>, userId: Option<int>, categoryId: Option<int>, now: Timestamp)
      returns (r: Result<ExportFile, HttpError>)
    requires InPythonRange(now.date)
    ensures r == ExportOf(store.expenses, store.users, store.categories, ExportQuery(start, end, userId, categoryId), now)
  {
    var selected := GetExpenses(store.expenses, ExportQuery(start, end, userId, categoryId));
    var rows := WriteRows(selected, store.users, store.categories);
    r := match rows
         case None => Err(HttpError(500, "Internal Server Error"))
         case Some(records) => Ok(ExportFile(Header, records, FileName(now)));
  }

  /** The `writerow` loop: one record per expense, written one at a time; a missing user or category stops it. */
  method WriteRows(selected: seq<Expense>, users: seq<User>, categories: seq<Category>) returns (r: Option<seq<ExportRecord>>)
    ensures r == ExportRows(selected, users, categories)
  {
    var rows: seq<ExportRecord> := [];
    var i := 0;
    while i < |selected|
      invariant 0 <= i <= |selected|
      invariant ExportRows(selected[..i], users, categories) == Some(rows)
    {
      assert selected[..i + 1][..i] == selected[..i];
      var rec := ExportEntry(selected[i], users, categories);
      if rec.None? {
        ExportRowsSpec(selected, users, categories);
        return None;
      }
      rows := rows + [rec.value];
      i := i + 1;
    }
    assert selected[..i] == selected;
    r := Some(rows);
  }

  /** What `csv.DictReader` makes of a record under the export's header. */
  function ReadBack(cells: seq<string>): Row
    requires |cells| == |Header|
  {
    map["date" := Some(cells[0]), "amount" := Some(cells[1]), "category" := Some(cells[2]),
        "description" := Some(cells[3]), "user" := Some(cells[4])]
  }

  /**
   * An exported record read back by the importer is valid exactly when the
   * amount is above zero and the category is known, for every amount that
   * is a whole number of cents.
   */
  lemma ExportedRowReimports(rec: ExportRecord, userKeys: set<string>, categoryKeys: set<string>)
    requires InPythonRange(rec.date) && WholeCents(rec.amount)
    ensures ClassifyRow(ReadBack(Cells(rec)), userKeys, categoryKeys).result.Ok?
            <==> rec.amount > 0.0 && Lower(Strip(rec.category)) in categoryKeys
  {
    ReadBackPasses(rec, categoryKeys);
    ValidExactly(ReadBack(Cells(rec)), userKeys, categoryKeys);
  }

  /** Which of the importer's checks an exported record passes. */
  lemma ReadBackPasses(rec: ExportRecord, categoryKeys: set<string>)
    requires InPythonRange(rec.date) && WholeCents(rec.amount)
    ensures var row := ReadBack(Cells(rec));
            HasRequiredColumns(row) && DatePasses(row)
            && (AmountPasses(row) <==> rec.amount > 0.0)
            && (NamesPass(row, categoryKeys) <==> Lower(Strip(rec.category)) in categoryKeys)
  {
    var row := ReadBack(Cells(rec));
    assert Cell(row, "date") == Some(IsoFormat(rec.date));
    assert Cell(row, "amount") == Some(PyAmountText(rec.amount));
    assert Cell(row, "category") == Some(rec.category);
    assert HasRequiredColumns(row) && DescriptionCell(row).Some? && Cell(row, "user").Some?;
    DateCellPasses(row, rec.date);
    AmountCellPasses(row, rec.amount);
  }

  /** The exported date passes the importer's date check. */
  lemma DateCellPasses(row: Row, date: Date)
    requires InPythonRange(date) && Cell(row, "date") == Some(IsoFormat(date))
    ensures DatePasses(row)
  {
    IsoRoundTrip(date);
  }

  /** The exported amount passes the importer's amount check exactly when it is above zero. */
  lemma AmountCellPasses(row: Row, amount: real)
    requires WholeCents(amount) && Cell(row, "amount") == Some(PyAmountText(amount))
    ensures AmountPasses(row) <==> amount > 0.0
  {
    PyAmountTextRoundTrip(amount);
  }
}
