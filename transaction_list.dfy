/**
 * The transaction list of the simplified client: the filter bar (start and
 * end date, category), the table with category names, and the form opened
 * for adding or editing. Server responses are parameters: `Some` holds a
 * response, `None` a failed request, which this component only logs.
 */
module TransactionList {
  import opened Wrappers
  import opened Text
  import opened Numbers
  import opened Queries
  import opened SimpleBackend

  /** The filter bar; the category is `parseInt` of the select's value, so it may be NaN. */
  datatype TxFilter = TxFilter(startDate: string, endDate: string, categoryId: JsNumber)

  datatype TxFilterField = StartDateField | EndDateField | CategoryField

  /** The filter on first render: no dates, "All Categories". */
  const InitialFilter: TxFilter := TxFilter("", "", Finite(0.0))

  /** The query of `fetchTransactions`; an absent field is not sent. */
  datatype TxParams = TxParams(startDate: Option<string>, endDate: Option<string>, categoryId: Option<JsNumber>)

  /** The spread params: each date only when non-empty, the category only when above zero. */
  function FilterParams(f: TxFilter): (p: TxParams)
    ensures p.startDate.None? <==> f.startDate == ""
    ensures p.startDate.Some? ==> p.startDate.value == f.startDate
    ensures p.endDate.None? <==> f.endDate == ""
    ensures p.endDate.Some? ==> p.endDate.value == f.endDate
    ensures p.categoryId.None? <==> !Positive(f.categoryId)
    ensures p.categoryId.Some? ==> p.categoryId.value == f.categoryId
  {
    TxParams(if f.startDate != "" then Some(f.startDate) else None,
             if f.endDate != "" then Some(f.endDate) else None,
             if Positive(f.categoryId) then Some(f.categoryId) else None)
  }

  /** `handleFilterChange`: the category is parsed as an integer, a date kept as typed; the rest stays. */
  function ChangeFilter(f: TxFilter, field: TxFilterField, value: string): (r: TxFilter)
    ensures field == CategoryField ==> r == f.(categoryId := ParseIntJs(value))
    ensures field == StartDateField ==> r == f.(startDate := value)
    ensures field == EndDateField ==> r == f.(endDate := value)
  {
    match field
    case StartDateField => f.(startDate := value)
    case EndDateField => f.(endDate := value)
    case CategoryField => f.(categoryId := ParseIntJs(value))
  }

  /**
   * Picking a category in the select sends exactly that category id, and
   * picking "All Categories" (value 0) sends no category at all.
   */
  lemma SelectCategory(f: TxFilter, id: int)
    ensures var p := FilterParams(ChangeFilter(f, CategoryField, IntToString(id)));
            (id > 0 ==> p.categoryId == Some(Finite(id as real)))
            && (id <= 0 ==> p.categoryId == None)
    ensures FilterParams(ChangeFilter(f, CategoryField, IntToString(id))).startDate == FilterParams(f).startDate
    ensures FilterParams(ChangeFilter(f, CategoryField, IntToString(id))).endDate == FilterParams(f).endDate
  {
    IntToStringRoundTrip(id);
  }

  /** The backend filter for the category sent: none when it was not sent. */
  function ServerCategory(p: TxParams): Option<int> {
    match p.categoryId
    case Some(Finite(x)) => Some(x.Floor)
    case _ => None
  }

  /**
   * With the category chosen from the select, the backend keeps exactly
   * that category's transactions, and with "All Categories" all of them.
   */
  lemma CategoryFilterReachesServer(f: TxFilter, id: int, ts: seq<Transaction>, t: Transaction)
    ensures var p := FilterParams(ChangeFilter(f, CategoryField, IntToString(id)));
            t in OfCategory(ts, ServerCategory(p)) <==> t in ts && (id > 0 ==> t.categoryId == id)
  {
    SelectCategory(f, id);
  }

  /** The test of `categories.find(c => c.id === categoryId)`. */
  function HasId(id: int): LedgerCategory -> bool {
    (c: LedgerCategory) => c.id == id
  }

  /** `getCategoryName`: the name of the first category with that id, "Unknown" when there is none. */
  function CategoryName(categories: seq<LedgerCategory>, id: int): (name: string)
    ensures (forall k :: 0 <= k < |categories| ==> categories[k].id != id) ==> name == "Unknown"
    ensures forall k :: 0 <= k < |categories| && categories[k].id == id
                        && (forall j :: 0 <= j < k ==> categories[j].id != id)
                        ==> name == categories[k].name
  {
    match FirstIndex(categories, HasId(id))
    case None => "Unknown"
    case Some(k) => categories[k].name
  }

  /** With unique ids, every listed category shows its own name. */
  lemma CategoryNameOfListed(categories: seq<LedgerCategory>, k: nat)
    requires k < |categories| && UniqueIds(categories, LedgerCategoryId)
    ensures CategoryName(categories, categories[k].id) == categories[k].name
  {
    assert forall j :: 0 <= j < k ==> LedgerCategoryId(categories[j]) != LedgerCategoryId(categories[k]);
  }

  /** The component's state. */
  class ListView {
    var transactions: seq<Transaction>
    var categories: seq<LedgerCategory>
    var loading: bool
    var showForm: bool
    var editingTransaction: Option<Transaction>
    var filter: TxFilter

    constructor ()
      ensures transactions == [] && categories == [] && loading && !showForm
      ensures editingTransaction == None && filter == InitialFilter
    {
      transactions := [];
      categories := [];
      loading := true;
      showForm := false;
      editingTransaction := None;
      filter := InitialFilter;
    }

    /** `fetchTransactions`: the query sent for the current filter; a failure keeps the old list. */
    method FetchTransactions(response: Option<seq<Transaction>>) returns (params: TxParams)
      modifies this
      ensures params == FilterParams(filter)
      ensures response.Some? ==> transactions == response.value
      ensures response.None? ==> transactions == old(transactions)
      ensures !loading
      ensures categories == old(categories) && showForm == old(showForm)
      ensures editingTransaction == old(editingTransaction) && filter == old(filter)
    {
      loading := true;
      params := FilterParams(filter);
      if response.Some? {
        transactions := response.value;
      }
      loading := false;
    }

    /** `fetchCategories`: a failure keeps the old list. */
    method FetchCategories(response: Option<seq<LedgerCategory>>)
      modifies this
      ensures response.Some? ==> categories == response.value
      ensures response.None? ==> categories == old(categories)
      ensures transactions == old(transactions) && loading == old(loading) && showForm == old(showForm)
      ensures editingTransaction == old(editingTransaction) && filter == old(filter)
    {
      if response.Some? {
        categories := response.value;
      }
    }

    /** `handleDelete`: nothing unless confirmed; after a successful delete the list is fetched again. */
    method HandleDelete(id: int, confirmed: bool, deleteResponse: Option<()>, refetch: Option<seq<Transaction>>)
      returns (request: Option<int>, params: Option<TxParams>)
      modifies this
      ensures request.Some? <==> confirmed
      ensures confirmed ==> request == Some(id)
      ensures params.Some? <==> confirmed && deleteResponse.Some?
      ensures params.Some? ==> params.value == FilterParams(filter) && !loading
                               && transactions == (if refetch.Some? then refetch.value else old(transactions))
      ensures params.None? ==> transactions == old(transactions) && loading == old(loading)
      ensures categories == old(categories) && showForm == old(showForm)
      ensures editingTransaction == old(editingTransaction) && filter == old(filter)
    {
      request, params := None, None;
      if confirmed {
        request := Some(id);
        if deleteResponse.Some? {
          var p := FetchTransactions(refetch);
          params := Some(p);
        }
      }
    }

    /** The "Add Transaction" button: the form opens with nothing to edit. */
    method OpenForm()
      modifies this
      ensures showForm
      ensures transactions == old(transactions) && categories == old(categories) && loading == old(loading)
      ensures editingTransaction == old(editingTransaction) && filter == old(filter)
    {
      showForm := true;
    }

    /** `handleEdit`: the form opens on that transaction. */
    method HandleEdit(t: Transaction)
      modifies this
      ensures editingTransaction == Some(t) && showForm
      ensures transactions == old(transactions) && categories == old(categories) && loading == old(loading)
      ensures filter == old(filter)
    {
      editingTransaction := Some(t);
      showForm := true;
    }

    /** `handleFormClose`: the form hidden, nothing being edited, the list fetched again. */
    method HandleFormClose(refetch: Option<seq<Transaction>>) returns (params: TxParams)
      modifies this
      ensures !showForm && editingTransaction == None && !loading
      ensures params == FilterParams(filter)
      ensures transactions == if refetch.Some? then refetch.value else old(transactions)
      ensures categories == old(categories) && filter == old(filter)
    {
      showForm := false;
      editingTransaction := None;
      params := FetchTransactions(refetch);
    }

    /** `handleFilterChange` on one control. */
    method HandleFilterChange(field: TxFilterField, value: string)
      modifies this
      ensures filter == ChangeFilter(old(filter), field, value)
      ensures transactions == old(transactions) && categories == old(categories) && loading == old(loading)
      ensures showForm == old(showForm) && editingTransaction == old(editingTransaction)
    {
      match field {
        case CategoryField =>
          filter := filter.(categoryId := ParseIntJs(value));
        case StartDateField =>
          filter := filter.(startDate := value);
        case EndDateField =>
          filter := filter.(endDate := value);
      }
    }
  }
}
