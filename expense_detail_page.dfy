/**
 * The Expense Detail page: one expense, up to five other expenses of the
 * same category in the same month, their running total, deletion, and
 * the "duplicate" link to the Add page. The page only computes values and
 * stores them, so it is modelled as functions from the page's state and
 * the server's responses to its next state. A response is `Some` when the
 * request succeeded and `None` when it failed.
 */
module ExpenseDetailPage {
  import opened Wrappers
  import opened Text
  import opened Numbers
  import opened Dates
  import opened Records
  import opened Crud
  import opened ExpenseForm

  /** The rows the page asks the server for, and how many of them it shows. */
  const RelatedLimit: nat := 10
  const RelatedShown: nat := 5

  const LoadDetailError: string := "Failed to load expense details"
  const DeleteError: string := "Failed to delete expense"

  /** The page's state. */
  datatype DetailState = DetailState(expense: Option<Expense>, related: seq<Expense>, loading: bool, error: Option<string>)

  /** The state on first render: no expense, no related list, loading. */
  const Initial: DetailState := DetailState(None, [], true, None)

  /**
   * The window of the related query: `new Date(y, m, 1)` and
   * `new Date(y, m + 1, 0)` for the expense's 0-based month `m`. These are
   * the first and the last day of the expense's month.
   */
  lemma RelatedWindow(d: Date)
    requires Wellformed(d)
    ensures JsDate(d.year, d.month - 1, 1) == FirstOfMonth(d)
    ensures JsDate(d.year, d.month, 0) == LastOfMonth(d)
  {
    assert (d.month - 1) / 12 == 0 && (d.month - 1) % 12 == d.month - 1;
  }

  /** The query of the related expenses: one category, one month, at most ten rows. */
  datatype RelatedParams = RelatedParams(categoryId: int, startDate: string, endDate: string, limit: nat)

  /** The related query for expense `e`, its window built as the page builds it. */
  function RelatedQuery(e: Expense): (p: RelatedParams)
    requires InPythonRange(e.date)
    ensures p.categoryId == e.categoryId && p.limit == RelatedLimit
    ensures ParseIsoDate(p.startDate) == Some(FirstOfMonth(e.date))
    ensures ParseIsoDate(p.endDate) == Some(LastOfMonth(e.date))
  {
    RelatedWindow(e.date);
    IsoRoundTrip(FirstOfMonth(e.date));
    IsoRoundTrip(LastOfMonth(e.date));
    var start := JsDate(e.date.year, e.date.month - 1, 1);
    var end := JsDate(e.date.year, e.date.month, 0);
    RelatedParams(e.categoryId, IsoFormat(start), IsoFormat(end), RelatedLimit)
  }

  /** The server's filter for the related query, with the bounds parsed back. */
  function ServerQuery(p: RelatedParams): ExpenseQuery {
    ExpenseQuery(0, p.limit, None, Some(p.categoryId), ParseIsoDate(p.startDate), ParseIsoDate(p.endDate))
  }

  /**
   * The backend answers the related query with exactly the expenses of the
   * same category in the same month (category 0 is no filter at all there).
   */
  lemma RelatedQueryMatches(e: Expense, x: Expense)
    requires InPythonRange(e.date) && Wellformed(x.date) && e.categoryId != 0
    ensures Matches(ServerQuery(RelatedQuery(e)), x)
            <==> x.categoryId == e.categoryId && x.date.year == e.date.year && x.date.month == e.date.month
  {
    MonthBounds(e.date, x.date);
  }

  /**
   * The related list shown: the response without the current expense,
   * cut to the first five. It keeps the server's order.
   */
  function Related(response: seq<Expense>, currentId: int): (r: seq<Expense>)
    ensures |r| <= RelatedShown
    ensures forall x :: x in r ==> x in response && x.id != currentId
    ensures |r| == if |WithoutId(response, currentId)| < RelatedShown then |WithoutId(response, currentId)| else RelatedShown
    ensures r <= WithoutId(response, currentId)
  {
    var others := WithoutId(response, currentId);
    if |others| < RelatedShown then others else others[..RelatedShown]
  }

  /** A response without the current expense is shown whole when it is short enough. */
  lemma RelatedOfOthers(response: seq<Expense>, currentId: int)
    requires |response| <= RelatedShown
    requires forall i :: 0 <= i < |response| ==> response[i].id != currentId
    ensures Related(response, currentId) == response
  {
    WithoutAbsentId(response, currentId);
  }

  /**
   * `fetchExpenseDetail`: without a route id nothing happens. A failed
   * expense request shows the error; a failed related request shows it too
   * but keeps the expense already stored; otherwise the expense and its
   * related list replace the old ones and the error is cleared.
   */
  function FetchExpenseDetail(s: DetailState, id: string, expenseResponse: Option<Expense>,
                              relatedResponse: Option<seq<Expense>>): (r: DetailState)
    ensures id == "" ==> r == s
    ensures id != "" ==> !r.loading
    ensures id != "" && expenseResponse.None? ==>
              r == s.(loading := false, error := Some(LoadDetailError))
    ensures id != "" && expenseResponse.Some? && relatedResponse.None? ==>
              r.expense == expenseResponse && r.related == s.related && r.error == Some(LoadDetailError)
    ensures id != "" && expenseResponse.Some? && relatedResponse.Some? ==>
              r.expense == expenseResponse && r.error == None
              && r.related == Related(relatedResponse.value, expenseResponse.value.id)
  {
    if id == "" then s
    else match expenseResponse
      case None => s.(loading := false, error := Some(LoadDetailError))
      case Some(e) =>
        match relatedResponse
        case None => s.(expense := Some(e), loading := false, error := Some(LoadDetailError))
        case Some(rs) => DetailState(Some(e), Related(rs, e.id), false, None)
  }

  /**
   * `handleDelete`: the new state and whether the page leaves for the
   * expense list. Nothing happens without an expense or a route id, or
   * when the user does not confirm.
   */
  function HandleDelete(s: DetailState, id: string, confirmed: bool, response: Option<()>): (r: (DetailState, bool))
    ensures r.1 <==> s.expense.Some? && id != "" && confirmed && response.Some?
    ensures r.0 == if s.expense.Some? && id != "" && confirmed && response.None?
                   then s.(error := Some(DeleteError)) else s
  {
    if s.expense.None? || id == "" || !confirmed then (s, false)
    else if response.Some? then (s, true)
    else (s.(error := Some(DeleteError)), false)
  }

  /** The query string of the "duplicate" link, field by field. */
  datatype DuplicateParams = DuplicateParams(amount: string, categoryId: string, description: string, userId: string)

  /** `handleDuplicate`: nothing without an expense; a missing description is sent empty. */
  function Duplicate(expense: Option<Expense>): (r: Option<DuplicateParams>)
    ensures r.None? <==> expense.None?
    ensures r.Some? ==> r.value.description == expense.value.description.GetOr("")
  {
    match expense
    case None => None
    case Some(e) =>
      Some(DuplicateParams(AmountText(e.amount), IntToString(e.categoryId), e.description.GetOr(""), IntToString(e.userId)))
  }

  /**
   * The duplicate link carries the same amount, category, description and
   * user as the edit form of that expense, and they read back as the
   * expense's own numbers.
   */
  lemma DuplicateMatchesForm(e: Expense)
    requires InPythonRange(e.date) && WholeCents(e.amount)
    ensures var p := Duplicate(Some(e)).value;
            var f := FormOf(e);
            p.amount == f.amount && p.categoryId == f.categoryId
            && p.description == f.description && p.userId == f.userId
            && ParseFloatJs(p.amount) == Finite(e.amount)
            && ParseIntJs(p.categoryId) == Finite(e.categoryId as real)
            && ParseIntJs(p.userId) == Finite(e.userId as real)
  {
    AmountTextRoundTrip(e.amount);
    IntToStringRoundTrip(e.categoryId);
    IntToStringRoundTrip(e.userId);
  }

  /**
   * `getCategoryTotal`: 0 without an expense or without related expenses,
   * otherwise the related amounts plus the expense's own.
   */
  function CategoryTotal(expense: Option<Expense>, related: seq<Expense>): (t: real)
    ensures expense.None? || related == [] ==> t == 0.0
    ensures expense.Some? && related != [] ==> t == Total(related) + expense.value.amount
  {
    if expense.None? || |related| == 0 then 0.0
    else Total(related) + expense.value.amount
  }

  /** An expense alone in its category and month shows a total of 0, not its own amount. */
  lemma CategoryTotalOfLoneExpense(e: Expense)
    requires e.amount > 0.0
    ensures CategoryTotal(Some(e), []) == 0.0 != e.amount
  {
  }

  /** Removing the one expense with an id takes exactly its amount off the total. */
  lemma TotalWithoutUniqueId(es: seq<Expense>, k: nat)
    requires k < |es|
    requires forall i :: 0 <= i < |es| && i != k ==> es[i].id != es[k].id
    ensures Total(WithoutId(es, es[k].id)) + es[k].amount == Total(es)
  {
    WithoutUniqueId(es, k);
    TotalRemoveAt(es, k);
  }

  /** Taking one expense out of a list takes its amount off the total. */
  lemma TotalRemoveAt(es: seq<Expense>, k: nat)
    requires k < |es|
    ensures Total(es[..k] + es[k + 1..]) + es[k].amount == Total(es)
  {
    var before, rest := es[..k], es[k..];
    assert es == before + rest;
    assert rest[1..] == es[k + 1..];
    TotalAppend(before, es[k + 1..]);
    TotalAppend(before, rest);
  }

  /** Removing the one expense with an id leaves the expenses before and after it, in order. */
  lemma {:induction false} WithoutUniqueId(es: seq<Expense>, k: nat)
    requires k < |es|
    requires forall i :: 0 <= i < |es| && i != k ==> es[i].id != es[k].id
    ensures WithoutId(es, es[k].id) == es[..k] + es[k + 1..]
  {
    var id := es[k].id;
    var tail := es[1..];
    if k == 0 {
      assert forall i :: 0 <= i < |tail| ==> tail[i].id != id by {
        forall i | 0 <= i < |tail| ensures tail[i].id != id {
          assert tail[i] == es[i + 1];
        }
      }
      WithoutAbsentId(tail, id);
      assert es[..0] + es[1..] == tail;
    } else {
      assert tail[k - 1] == es[k];
      assert forall i :: 0 <= i < |tail| && i != k - 1 ==> tail[i].id != tail[k - 1].id by {
        forall i | 0 <= i < |tail| && i != k - 1 ensures tail[i].id != tail[k - 1].id {
          assert tail[i] == es[i + 1];
        }
      }
      WithoutUniqueId(tail, k - 1);
      SplitAfterHead(es, k);
    }
  }

  lemma SplitAfterHead(es: seq<Expense>, k: nat)
    requires 0 < k < |es|
    ensures es[..k] + es[k + 1..] == [es[0]] + (es[1..][..k - 1] + es[1..][k..])
  {
    assert es[..k] == [es[0]] + es[1..][..k - 1];
  }

  /**
   * When the related response holds the current expense once, and at most
   * five others, the category total is the total of the whole response:
   * the month's spending in that category as far as the page sees it.
   */
  lemma CategoryTotalIsResponseTotal(response: seq<Expense>, k: nat)
    requires k < |response|
    requires forall i :: 0 <= i < |response| && i != k ==> response[i].id != response[k].id
    requires 2 <= |response| <= RelatedShown + 1
    ensures CategoryTotal(Some(response[k]), Related(response, response[k].id)) == Total(response)
  {
    var id := response[k].id;
    var i := if k == 0 then 1 else 0;
    assert response[i] in WithoutId(response, id);
    TotalWithoutUniqueId(response, k);
    WithoutIdShorter(response, id, k);
    assert Related(response, id) == WithoutId(response, id);
  }

  /** Removing an id that occurs drops at least one expense. */
  lemma {:induction false} WithoutIdShorter(es: seq<Expense>, id: int, k: nat)
    requires k < |es| && es[k].id == id
    ensures |WithoutId(es, id)| < |es|
  {
    if k == 0 {
      WithoutIdNoLonger(es[1..], id);
    } else {
      WithoutIdShorter(es[1..], id, k - 1);
    }
  }

  /** Removing an id never adds expenses. */
  lemma {:induction false} WithoutIdNoLonger(es: seq<Expense>, id: int)
    ensures |WithoutId(es, id)| <= |es|
  {
    if es != [] {
      WithoutIdNoLonger(es[1..], id);
    }
  }
}
