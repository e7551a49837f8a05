/**
 * The Expenses page: one month of expenses at a time, optionally narrowed
 * to a user or a category, with month navigation, deletion from the shown
 * list, and the total and average of what is shown. Server responses are
 * parameters: `Ok` holds a response, `Err` a failed request.
 */
module ExpenseListPage {
  import opened Wrappers
  import opened Numbers
  import opened Dates
  import opened Records
  import opened Crud

  /** The two filter selects; an empty string is "all". */
  datatype ListFilters = ListFilters(userId: string, categoryId: string)

  /** The query of `fetchData`; an absent id is not sent. */
  datatype ListParams = ListParams(startDate: string, endDate: string, userId: Option<JsNumber>, categoryId: Option<JsNumber>, limit: nat)

  /** The number of expenses the page asks for. */
  const PageLimit: nat := 100

  /** The query for the month of `current`: first to last day, the chosen ids, at most 100 rows. */
  function ListParamsOf(current: Date, f: ListFilters): (p: ListParams)
    requires InPythonRange(current)
    ensures p.limit == PageLimit
    ensures ParseIsoDate(p.startDate) == Some(FirstOfMonth(current))
    ensures ParseIsoDate(p.endDate) == Some(LastOfMonth(current))
    ensures p.userId.None? <==> f.userId == ""
    ensures p.userId.Some? ==> p.userId.value == ParseIntJs(f.userId)
    ensures p.categoryId.None? <==> f.categoryId == ""
    ensures p.categoryId.Some? ==> p.categoryId.value == ParseIntJs(f.categoryId)
  {
    IsoRoundTrip(FirstOfMonth(current));
    IsoRoundTrip(LastOfMonth(current));
    ListParams(IsoFormat(FirstOfMonth(current)), IsoFormat(LastOfMonth(current)),
               if f.userId != "" then Some(ParseIntJs(f.userId)) else None,
               if f.categoryId != "" then Some(ParseIntJs(f.categoryId)) else None,
               PageLimit)
  }

  /** The server's date filter for those bounds keeps exactly the expenses of that month. */
  lemma ListWindowIsMonth(current: Date, e: Expense)
    requires InPythonRange(current) && Wellformed(e.date)
    ensures var q := ExpenseQuery(0, PageLimit, None, None, Some(FirstOfMonth(current)), Some(LastOfMonth(current)));
            Matches(q, e) <==> e.date.year == current.year && e.date.month == current.month
  {
    MonthBounds(current, e.date);
  }

  /** `getTotalAmount`: the amounts added from the first expense on, as `reduce` does; the same sum the backend takes. */
  function TotalAmount(es: seq<Expense>): (t: real)
    ensures t == Total(es)
  {
    if es == [] then 0.0
    else
      var init := es[..|es| - 1];
      TotalAppend(init, [es[|es| - 1]]);
      assert init + [es[|es| - 1]] == es;
      TotalAmount(init) + es[|es| - 1].amount
  }

  /** `getAverageAmount`: the total over the count, 0 for no expenses. */
  function AverageAmount(es: seq<Expense>): (a: real)
    ensures |es| > 0 ==> a * |es| as real == Total(es)
    ensures es == [] ==> a == 0.0
  {
    if |es| > 0 then TotalAmount(es) / |es| as real else 0.0
  }

  /** A total lies between the count times the smallest and the count times the largest amount. */
  lemma {:induction false} TotalBounds(es: seq<Expense>, lo: real, hi: real)
    requires forall i :: 0 <= i < |es| ==> lo <= es[i].amount <= hi
    ensures |es| as real * lo <= Total(es) <= |es| as real * hi
  {
    if es != [] {
      TotalBounds(es[1..], lo, hi);
    }
  }

  /** The average of amounts all within bounds is within them too. */
  lemma AverageBounds(es: seq<Expense>, lo: real, hi: real)
    requires es != []
    requires forall i :: 0 <= i < |es| ==> lo <= es[i].amount <= hi
    ensures lo <= AverageAmount(es) <= hi
  {
    TotalBounds(es, lo, hi);
    var n := |es| as real;
    var a := AverageAmount(es);
    assert a * n == Total(es);
    assert n * lo <= a * n <= n * hi;
  }

  /** The labels of the navigation buttons: the months `setMonth` lands on one back and one ahead. */
  function PreviousMonthLabel(current: Date): string
    requires Wellformed(current)
  {
    MonthAbbrev(AddMonthsJs(current, -1).month)
  }

  function NextMonthLabel(current: Date): string
    requires Wellformed(current)
  {
    MonthAbbrev(AddMonthsJs(current, 1).month)
  }

  /**
   * On days 1 to 28 navigation moves by exactly the months asked for, the
   * buttons name the months before and after, and going back undoes it.
   */
  lemma NavigateEarlyInMonth(current: Date, direction: int)
    requires Wellformed(current) && current.day <= 28
    ensures var moved := AddMonthsJs(current, direction);
            MonthNumber(moved.year, moved.month) == MonthNumber(current.year, current.month) + direction
            && moved.day == current.day
            && AddMonthsJs(moved, -direction) == current
    ensures var prev := AddMonthsJs(current, -1);
            var next := AddMonthsJs(current, 1);
            MonthNumber(prev.year, prev.month) == MonthNumber(current.year, current.month) - 1
            && MonthNumber(next.year, next.month) == MonthNumber(current.year, current.month) + 1
  {
    var moved := AddMonthsJs(current, direction);
    AddMonthsJsMonth(current, direction);
    AddMonthsJsMonth(moved, -direction);
    AddMonthsJsMonth(current, -1);
    AddMonthsJsMonth(current, 1);
    var back := AddMonthsJs(moved, -direction);
    SameMonthNumber(back, current);
  }

  /** Months with the same number are the same month. */
  lemma SameMonthNumber(a: Date, b: Date)
    requires 1 <= a.month <= 12 && 1 <= b.month <= 12
    requires MonthNumber(a.year, a.month) == MonthNumber(b.year, b.month) && a.day == b.day
    ensures a == b
  {
  }

  /** The page's state. */
  class Page {
    var expenses: seq<Expense>
    var users: seq<User>
    var categories: seq<Category>
    var loading: bool
    var error: Option<string>
    var currentDate: Date
    var filters: ListFilters

    constructor (today: Date)
      requires Wellformed(today)
      ensures expenses == [] && users == [] && categories == [] && loading && error == None
      ensures currentDate == today && filters == ListFilters("", "")
    {
      expenses := [];
      users := [];
      categories := [];
      loading := true;
      error := None;
      currentDate := today;
      filters := ListFilters("", "");
    }

    /** `fetchData`: the month's query, sent for the current month and filters. */
    method FetchData(response: Result<(seq<Expense>, seq<User>, seq<Category>), ()>) returns (params: ListParams)
      requires InPythonRange(currentDate)
      modifies this
      ensures currentDate == old(currentDate) && filters == old(filters)
      ensures params == ListParamsOf(currentDate, filters)
      ensures response.Ok? ==> expenses == response.value.0 && users == response.value.1
                               && categories == response.value.2 && error == None
      ensures response.Err? ==> expenses == old(expenses) && users == old(users) && categories == old(categories)
                                && error == Some("Failed to load expenses")
      ensures !loading
    {
      params := ListParamsOf(currentDate, filters);
      ShowListData(response);
    }

    /** The responses: the three lists replaced and the error cleared, or the error shown and the lists kept. */
    method ShowListData(response: Result<(seq<Expense>, seq<User>, seq<Category>), ()>)
      modifies this
      ensures response.Ok? ==> expenses == response.value.0 && users == response.value.1
                               && categories == response.value.2 && error == None
      ensures response.Err? ==> expenses == old(expenses) && users == old(users) && categories == old(categories)
                                && error == Some("Failed to load expenses")
      ensures !loading && currentDate == old(currentDate) && filters == old(filters)
    {
      loading := true;
      if response.Ok? {
        expenses := response.value.0;
        users := response.value.1;
        categories := response.value.2;
        error := None;
      } else {
        error := Some("Failed to load expenses");
      }
      loading := false;
    }

    /**
     * `handleDeleteExpense`: nothing unless the user confirms; after the
     * server deletes, the shown list loses exactly that id's expenses.
     */
    method HandleDeleteExpense(id: int, confirmed: bool, response: Result<(), ()>)
      modifies this
      ensures confirmed && response.Ok? ==> expenses == WithoutId(old(expenses), id) && error == old(error)
      ensures confirmed && response.Err? ==> expenses == old(expenses) && error == Some("Failed to delete expense")
      ensures !confirmed ==> expenses == old(expenses) && error == old(error)
      ensures users == old(users) && categories == old(categories) && loading == old(loading)
      ensures currentDate == old(currentDate) && filters == old(filters)
    {
      if !confirmed {
        return;
      }
      if response.Ok? {
        expenses := WithoutId(expenses, id);
      } else {
        error := Some("Failed to delete expense");
      }
    }

    /** `navigateMonth(direction)`: `setMonth` on a copy of the current date. */
    method NavigateMonth(direction: int)
      requires Wellformed(currentDate)
      modifies this
      ensures currentDate == AddMonthsJs(old(currentDate), direction)
      ensures expenses == old(expenses) && users == old(users) && categories == old(categories)
      ensures loading == old(loading) && error == old(error) && filters == old(filters)
    {
      currentDate := AddMonthsJs(currentDate, direction);
    }

    /** The user select. */
    method SetUserFilter(value: string)
      modifies this
      ensures filters == old(filters).(userId := value)
      ensures expenses == old(expenses) && users == old(users) && categories == old(categories)
      ensures loading == old(loading) && error == old(error) && currentDate == old(currentDate)
    {
      filters := filters.(userId := value);
    }

    /** The category select. */
    method SetCategoryFilter(value: string)
      modifies this
      ensures filters == old(filters).(categoryId := value)
      ensures expenses == old(expenses) && users == old(users) && categories == old(categories)
      ensures loading == old(loading) && error == old(error) && currentDate == old(currentDate)
    {
      filters := filters.(categoryId := value);
    }
  }
}
