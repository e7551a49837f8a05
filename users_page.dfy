/**
 * The Users page: the list of users with this month's spending per user,
 * and the form that adds a user or renames and recolours one. Server
 * responses are parameters: `Some` holds a response, `None` a failed
 * request.
 */
module UsersPage {
  import opened Wrappers
  import opened Text
  import opened Records
  import opened Queries
  import opened Crud

  /** The form's two fields. */
  datatype UserForm = UserForm(name: string, color: string)

  datatype UserField = NameField | ColorField

  /** The form after a save or a cancel: no name, the first colour of the palette. */
  const BlankUserForm: UserForm := UserForm("", DefaultColor)

  const NameRequired: string := "Please enter a user name"
  const LoadError: string := "Failed to load user data"
  const SaveError: string := "Failed to save user"
  const DeleteError: string := "Failed to delete user"

  /** What a submit asks the server for. */
  datatype SaveRequest = CreateUser(form: UserForm) | UpdateUser(id: int, form: UserForm)

  /** The answers of `fetchData`: the users and the current month's summary. */
  type UserData = (seq<User>, MonthlySummary)

  /** The summary test of `userSummaries.find(u => u.user_name === name)`: the exact name. */
  function NamedIs(name: string): GroupSummary -> bool {
    (s: GroupSummary) => s.name == name
  }

  /** `getUserExpenseCount`: the count of the first summary of that name, 0 when there is none. */
  function UserExpenseCount(summaries: seq<GroupSummary>, name: string): (n: nat)
    ensures (forall j :: 0 <= j < |summaries| ==> summaries[j].name != name) ==> n == 0
    ensures forall k :: 0 <= k < |summaries| && summaries[k].name == name
                        && (forall j :: 0 <= j < k ==> summaries[j].name != name)
                        ==> n == summaries[k].count
  {
    match FirstIndex(summaries, NamedIs(name))
    case None => 0
    case Some(i) => summaries[i].count
  }

  /** `getUserTotalSpent`: the total of the first summary of that name, 0 when there is none. */
  function UserTotalSpent(summaries: seq<GroupSummary>, name: string): (t: real)
    ensures (forall j :: 0 <= j < |summaries| ==> summaries[j].name != name) ==> t == 0.0
    ensures forall k :: 0 <= k < |summaries| && summaries[k].name == name
                        && (forall j :: 0 <= j < k ==> summaries[j].name != name)
                        ==> t == summaries[k].total
  {
    match FirstIndex(summaries, NamedIs(name))
    case None => 0.0
    case Some(i) => summaries[i].total
  }

  /** `getTotalSpending`: the totals of the summaries added up. */
  function TotalSpending(summaries: seq<GroupSummary>): real {
    if summaries == [] then 0.0 else summaries[0].total + TotalSpending(summaries[1..])
  }

  /**
   * `getAverageSpending`: the total spread over all users, those without
   * expenses this month included, and 0 when there are no users.
   */
  function AverageSpending(summaries: seq<GroupSummary>, users: seq<User>): (a: real)
    ensures |users| > 0 ==> a * |users| as real == TotalSpending(summaries)
    ensures users == [] ==> a == 0.0
  {
    if |users| > 0 then TotalSpending(summaries) / |users| as real else 0.0
  }

  /** Summaries made from group rows add up to the rows' total. */
  lemma {:induction false} TotalSpendingOfRows(rows: seq<GroupRow>, total: real, summaries: seq<GroupSummary>)
    requires |summaries| == |rows|
    requires forall i :: 0 <= i < |rows| ==> summaries[i] == Summarize(rows[i], total)
    ensures TotalSpending(summaries) == RowTotal(rows)
  {
    if rows != [] {
      TotalSpendingOfRows(rows[1..], total, summaries[1..]);
    }
  }

  /**
   * When every expense of the month belongs to a listed user, the page's
   * total spending is the month's total: the backend's per-user rows
   * leave nothing out and count nothing twice.
   */
  lemma TotalSpendingIsMonthTotal(users: seq<User>, es: seq<Expense>, summaries: seq<GroupSummary>)
    requires UniqueIds(Keys(users, UserKey), GroupKeyId)
    requires AllKeyed(Keys(users, UserKey), es, ExpenseUser)
    requires |summaries| == |GroupRows(Keys(users, UserKey), es, ExpenseUser)|
    requires forall i :: 0 <= i < |summaries| ==>
               summaries[i] == Summarize(GroupRows(Keys(users, UserKey), es, ExpenseUser)[i], Total(es))
    ensures TotalSpending(summaries) == Total(es)
  {
    GroupSharesAddUp(Keys(users, UserKey), es, ExpenseUser, summaries);
    TotalSpendingOfRows(GroupRows(Keys(users, UserKey), es, ExpenseUser), Total(es), summaries);
  }

  /** The page's state. */
  class Page {
    var users: seq<User>
    var summaries: seq<GroupSummary>
    var loading: bool
    var error: Option<string>
    var showAddForm: bool
    var editingUser: Option<User>
    var form: UserForm

    constructor ()
      ensures users == [] && summaries == [] && loading && error == None
      ensures !showAddForm && editingUser == None && form == BlankUserForm
    {
      users := [];
      summaries := [];
      loading := true;
      error := None;
      showAddForm := false;
      editingUser := None;
      form := BlankUserForm;
    }

    /** `fetchData`: the users and the month's per-user rows replace the old ones, or the error is shown. */
    method FetchData(response: Option<UserData>)
      modifies this
      ensures response.Some? ==> users == response.value.0 && summaries == response.value.1.users && error == None
      ensures response.None? ==> users == old(users) && summaries == old(summaries) && error == Some(LoadError)
      ensures !loading
      ensures showAddForm == old(showAddForm) && editingUser == old(editingUser) && form == old(form)
    {
      loading := true;
      match response {
        case Some((us, month)) =>
          users := us;
          summaries := month.users;
          error := None;
        case None =>
          error := Some(LoadError);
      }
      loading := false;
    }

    /** `handleInputChange` on one field. */
    method HandleInputChange(field: UserField, value: string)
      modifies this
      ensures form == if field == NameField then old(form).(name := value) else old(form).(color := value)
      ensures users == old(users) && summaries == old(summaries) && loading == old(loading)
      ensures error == old(error) && showAddForm == old(showAddForm) && editingUser == old(editingUser)
    {
      if field == NameField {
        form := form.(name := value);
      } else {
        form := form.(color := value);
      }
    }

    /** `handleColorSelect`: a palette swatch sets the colour and keeps the name. */
    method HandleColorSelect(color: string)
      modifies this
      ensures form == UserForm(old(form).name, color)
      ensures users == old(users) && summaries == old(summaries) && loading == old(loading)
      ensures error == old(error) && showAddForm == old(showAddForm) && editingUser == old(editingUser)
    {
      form := form.(color := color);
    }

    /**
     * `handleSubmit`: a name that is blank after trimming is refused and
     * nothing is sent. Otherwise the form is sent as an update of the user
     * being edited, or as a new user. A successful save resets the form,
     * closes it, ends the editing and reloads the data; a failed one shows
     * the error and keeps the form as it was.
     */
    method HandleSubmit(saveResponse: Option<()>, refetch: Option<UserData>) returns (request: Option<SaveRequest>)
      modifies this
      ensures Strip(old(form).name) == "" ==>
                request == None && error == Some(NameRequired)
                && users == old(users) && summaries == old(summaries) && loading == old(loading)
                && showAddForm == old(showAddForm) && editingUser == old(editingUser) && form == old(form)
      ensures Strip(old(form).name) != "" ==>
                request == Some(if old(editingUser).Some? then UpdateUser(old(editingUser).value.id, old(form))
                                else CreateUser(old(form)))
      ensures Strip(old(form).name) != "" && saveResponse.Some? ==>
                form == BlankUserForm && !showAddForm && editingUser == None && !loading
                && (refetch.Some? ==> users == refetch.value.0 && summaries == refetch.value.1.users && error == None)
                && (refetch.None? ==> users == old(users) && summaries == old(summaries) && error == Some(LoadError))
      ensures Strip(old(form).name) != "" && saveResponse.None? ==>
                error == Some(SaveError)
                && users == old(users) && summaries == old(summaries) && loading == old(loading)
                && showAddForm == old(showAddForm) && editingUser == old(editingUser) && form == old(form)
    {
      var blank := Strip(form.name) == "";
      if blank {
        error := Some(NameRequired);
        request := None;
        return;
      }
      request := Some(if editingUser.Some? then UpdateUser(editingUser.value.id, form) else CreateUser(form));
      if saveResponse.Some? {
        form := BlankUserForm;
        showAddForm := false;
        editingUser := None;
        FetchData(refetch);
      } else {
        error := Some(SaveError);
      }
    }

    /** `handleEditUser`: the form opens holding the user's name and colour. */
    method HandleEditUser(user: User)
      modifies this
      ensures editingUser == Some(user) && form == UserForm(user.name, user.color) && showAddForm
      ensures users == old(users) && summaries == old(summaries) && loading == old(loading) && error == old(error)
    {
      editingUser := Some(user);
      form := UserForm(user.name, user.color);
      showAddForm := true;
    }

    /**
     * `handleDeleteUser`: nothing unless the user confirms; the id sent, and
     * after it either the reloaded data or the error.
     */
    method HandleDeleteUser(user: User, confirmed: bool, deleteResponse: Option<()>, refetch: Option<UserData>)
      returns (request: Option<int>)
      modifies this
      ensures request.Some? <==> confirmed
      ensures confirmed ==> request == Some(user.id)
      ensures !confirmed || deleteResponse.None? ==> users == old(users) && summaries == old(summaries) && loading == old(loading)
      ensures !confirmed ==> error == old(error)
      ensures confirmed && deleteResponse.None? ==> error == Some(DeleteError)
      ensures confirmed && deleteResponse.Some? ==>
                !loading
                && (refetch.Some? ==> users == refetch.value.0 && summaries == refetch.value.1.users && error == None)
                && (refetch.None? ==> users == old(users) && summaries == old(summaries) && error == Some(LoadError))
      ensures showAddForm == old(showAddForm) && editingUser == old(editingUser) && form == old(form)
    {
      if !confirmed {
        request := None;
        return;
      }
      request := Some(user.id);
      if deleteResponse.Some? {
        FetchData(refetch);
      } else {
        error := Some(DeleteError);
      }
    }

    /** `cancelForm`: the form reset and closed, the editing ended and the error cleared. */
    method CancelForm()
      modifies this
      ensures form == BlankUserForm && !showAddForm && editingUser == None && error == None
      ensures users == old(users) && summaries == old(summaries) && loading == old(loading)
    {
      form := BlankUserForm;
      showAddForm := false;
      editingUser := None;
      error := None;
    }
  }
}
