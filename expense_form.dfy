/**
 * The Add Expense and Edit Expense pages: a form of text fields, the
 * checks run before a request is sent, the request body built from the
 * form, and the one-line preview under it. Both pages share the checks,
 * the body and the preview. Server responses are parameters: `Ok` holds a
 * response, `Err` a failed request.
 */
module ExpenseForm {
  import opened Wrappers
  import opened Text
  import opened Numbers
  import opened Dates
  import opened Records
  import opened Crud
  import opened Queries

  /** The form: every field is the text of its input. */
  datatype FormData = FormData(amount: string, categoryId: string, date: string, description: string, userId: string)

  /** The inputs of the form, as `handleInputChange` receives their names. */
  datatype FormField = AmountField | CategoryField | DateField | DescriptionField | UserField

  /** The body of a create or update request: numbers as JavaScript parses them. */
  datatype ExpensePayload = ExpensePayload(amount: JsNumber, categoryId: JsNumber, date: string, description: Option<string>, userId: JsNumber)

  const MissingFields: string := "Please fill in all required fields"
  const AmountNotPositive: string := "Amount must be greater than 0"
  const NoDescription: string := "No description"

  /**
   * `getLocalDateString`: the local date as year, month and day joined by
   * dashes; the month and the day are padded to two digits, the year is not.
   */
  function LocalDateString(now: Date): string
    requires InPythonRange(now)
  {
    NatToString(now.year) + "-" + Pad2(now.month) + "-" + Pad2(now.day)
  }

  /** A number of at least 1000 has at least four digits. */
  lemma FourDigitYear(n: nat)
    requires n >= 1000
    ensures |NatToString(n)| >= 4
  {
    OneMoreDigit(n);
    OneMoreDigit(n / 10);
    OneMoreDigit(n / 100);
  }

  /** Past 9, a number has one digit more than its tenth. */
  lemma OneMoreDigit(n: nat)
    requires n >= 10
    ensures |NatToString(n)| == |NatToString(n / 10)| + 1
  {
  }

  /**
   * From year 1000 on, the local date string is the ISO date the backend
   * reads, and it reads back as today.
   */
  lemma LocalDateIsIso(now: Date)
    requires InPythonRange(now) && now.year >= 1000
    ensures LocalDateString(now) == IsoFormat(now)
    ensures ParseIsoDate(LocalDateString(now)) == Some(now)
  {
    FourDigitYear(now.year);
    var y := NatToString(now.year);
    var p := PadStart(y, 4, '0');
    assert p[|p| - |y|..] == y;
    assert p == y;
    IsoRoundTrip(now);
  }

  /** The empty form, dated today. */
  function BlankForm(today: Date): FormData
    requires InPythonRange(today)
  {
    FormData("", "", LocalDateString(today), "", "")
  }

  /** The form after "save and add another": cleared for the next expense, dated today, same user. */
  function NextForm(f: FormData, today: Date): (r: FormData)
    requires InPythonRange(today)
    ensures r.amount == "" && r.categoryId == "" && r.description == ""
    ensures r.date == LocalDateString(today) && r.userId == f.userId
  {
    f.(amount := "", categoryId := "", description := "", date := LocalDateString(today))
  }

  /** `handleInputChange`: the named field takes the value; the others stay. */
  function SetField(f: FormData, field: FormField, value: string): (r: FormData)
    ensures field == AmountField ==> r == f.(amount := value)
    ensures field == CategoryField ==> r == f.(categoryId := value)
    ensures field == DateField ==> r == f.(date := value)
    ensures field == DescriptionField ==> r == f.(description := value)
    ensures field == UserField ==> r == f.(userId := value)
  {
    match field
    case AmountField => f.(amount := value)
    case CategoryField => f.(categoryId := value)
    case DateField => f.(date := value)
    case DescriptionField => f.(description := value)
    case UserField => f.(userId := value)
  }

  /** The fields both pages insist on. */
  predicate Required(f: FormData) {
    f.amount != "" && f.categoryId != "" && f.userId != ""
  }

  /** `parseFloat(amount) <= 0`, which is false for text that does not parse (NaN). */
  predicate RejectsAmount(amount: string) {
    ParseFloatJs(amount).Finite? && ParseFloatJs(amount).value <= 0.0
  }

  /**
   * The checks of a full submit, in order: the required fields, then the
   * amount. `None` lets the request go.
   */
  function SubmitError(f: FormData): (e: Option<string>)
    ensures e == Some(MissingFields) <==> !Required(f)
    ensures e == Some(AmountNotPositive) <==> Required(f) && RejectsAmount(f.amount)
    ensures e.None? <==> Required(f) && !RejectsAmount(f.amount)
  {
    if !Required(f) then Some(MissingFields)
    else if RejectsAmount(f.amount) then Some(AmountNotPositive)
    else None
  }

  /** A form that passes the checks has an amount above zero, or one that is not a number at all. */
  lemma PassingAmount(f: FormData)
    requires SubmitError(f).None?
    ensures Positive(ParseFloatJs(f.amount)) || ParseFloatJs(f.amount).NaN?
  {
  }

  /** The request body: the amount and the ids parsed, an empty description left out. */
  function Payload(f: FormData): (p: ExpensePayload)
    ensures p.description.None? <==> f.description == ""
    ensures p.description.Some? ==> p.description.value == f.description
    ensures p.date == f.date
  {
    ExpensePayload(ParseFloatJs(f.amount), ParseIntJs(f.categoryId), f.date,
                   if f.description == "" then None else Some(f.description), ParseIntJs(f.userId))
  }

  /** The first record whose id, as text, is the field's text: `list.find(x => x.id.toString() === text)`. */
  function FindByIdText<T>(s: seq<T>, idOf: T -> int, text: string): (r: Option<nat>)
    ensures r.Some? ==> r.value < |s| && IntToString(idOf(s[r.value])) == text
                        && forall j :: 0 <= j < r.value ==> IntToString(idOf(s[j])) != text
    ensures r.None? ==> forall j :: 0 <= j < |s| ==> IntToString(idOf(s[j])) != text
  {
    FirstIndex(s, (x: T) => IntToString(idOf(x)) == text)
  }

  /** Distinct ids have distinct texts, so the field picks out the record with that id. */
  lemma IdTextsDiffer(a: int, b: int)
    requires a != b
    ensures IntToString(a) != IntToString(b)
  {
    IntToStringRoundTrip(a);
    IntToStringRoundTrip(b);
  }

  /**
   * `getPreviewText`: empty until the required fields are filled and both
   * the category and the user are found; otherwise amount, category name,
   * date, user name and description, with a fallback for no description.
   */
  function PreviewText(f: FormData, categories: seq<Category>, users: seq<User>): string {
    if !Required(f) then ""
    else
      match (FindByIdText(categories, CategoryId, f.categoryId), FindByIdText(users, UserId, f.userId))
      case (Some(c), Some(u)) =>
        "$" + f.amount + " | " + categories[c].name + " | " + f.date + " | @" + users[u].name + " | "
        + (if f.description != "" then f.description else NoDescription)
      case _ => ""
  }

  /**
   * The preview is empty exactly when a required field is empty or its
   * category or its user is unknown; otherwise it starts with the amount
   * and ends with the description or the fallback.
   */
  lemma PreviewShape(f: FormData, categories: seq<Category>, users: seq<User>)
    ensures var t := PreviewText(f, categories, users);
            (t == "" <==> !Required(f) || FindByIdText(categories, CategoryId, f.categoryId).None?
                                       || FindByIdText(users, UserId, f.userId).None?)
            && (t != "" ==> t[..1 + |f.amount|] == "$" + f.amount
                            && EndsWith(t, if f.description != "" then f.description else NoDescription))
  {
    var t := PreviewText(f, categories, users);
    if t != "" {
      var c := FindByIdText(categories, CategoryId, f.categoryId).value;
      var u := FindByIdText(users, UserId, f.userId).value;
      var d := if f.description != "" then f.description else NoDescription;
      var head := "$" + f.amount + " | " + categories[c].name + " | " + f.date + " | @" + users[u].name + " | ";
      assert t == head + d;
      assert head[..1 + |f.amount|] == "$" + f.amount;
      assert t[|t| - |d|..] == d;
    }
  }

  /** The first category named "food" in any letter case: `updateDefaultCategory`'s pick. */
  function FoodCategory(cats: seq<Category>): (r: Option<nat>)
    ensures r.Some? ==> r.value < |cats| && Lower(cats[r.value].name) == "food"
                        && forall j :: 0 <= j < r.value ==> Lower(cats[j].name) != "food"
    ensures r.None? ==> forall j :: 0 <= j < |cats| ==> Lower(cats[j].name) != "food"
  {
    if cats == [] then None
    else if Lower(cats[0].name) == "food" then Some(0)
    else match FoodCategory(cats[1..])
      case None => None
      case Some(i) => Some(i + 1)
  }

  /** The form an expense loads into: numbers as text, a missing description empty. */
  function FormOf(e: Expense): (f: FormData)
    requires InPythonRange(e.date)
    ensures Required(f)
  {
    FormData(AmountText(e.amount), IntToString(e.categoryId), IsoFormat(e.date), e.description.GetOr(""), IntToString(e.userId))
  }

  /**
   * An expense loaded into the edit form and saved unchanged sends back its
   * own amount, ids, date and description (an empty description as none),
   * and passes the checks when its amount is above zero.
   */
  lemma EditUnchangedRoundTrip(e: Expense)
    requires InPythonRange(e.date) && WholeCents(e.amount)
    ensures var p := Payload(FormOf(e));
            p.amount == Finite(e.amount) && p.categoryId == Finite(e.categoryId as real)
            && p.userId == Finite(e.userId as real)
            && ParseIsoDate(p.date) == Some(e.date)
            && p.description == (if e.description == Some("") then None else e.description)
    ensures e.amount > 0.0 ==> SubmitError(FormOf(e)).None?
  {
    AmountTextRoundTrip(e.amount);
    IntToStringRoundTrip(e.categoryId);
    IntToStringRoundTrip(e.userId);
    IsoRoundTrip(e.date);
  }

  /** The Add Expense page's state. */
  class AddPage {
    var users: seq<User>
    var categories: seq<Category>
    var loading: bool
    var error: Option<string>
    var form: FormData
    var navigation: Option<string>

    constructor (today: Date)
      requires InPythonRange(today)
      ensures users == [] && categories == [] && !loading && error == None && navigation == None
      ensures form == BlankForm(today)
    {
      users := [];
      categories := [];
      loading := false;
      error := None;
      form := BlankForm(today);
      navigation := None;
    }

    /**
     * `fetchFormData`: the lists; the user preselected only when there is
     * exactly one, and the category set to the first "food" one if any.
     */
    method FetchFormData(response: Result<(seq<User>, seq<Category>), ()>)
      modifies this
      ensures response.Err? ==> error == Some("Failed to load form data")
                                && users == old(users) && categories == old(categories) && form == old(form)
      ensures response.Ok? ==>
                var (us, cs) := response.value;
                users == us && categories == cs && error == old(error)
                && form.amount == old(form).amount && form.date == old(form).date
                && form.description == old(form).description
                && form.userId == (if |us| == 1 then IntToString(us[0].id) else old(form).userId)
                && form.categoryId == match FoodCategory(cs)
                                      case Some(i) => IntToString(cs[i].id)
                                      case None => old(form).categoryId
      ensures loading == old(loading) && navigation == old(navigation)
    {
      match response {
        case Err(_) =>
          error := Some("Failed to load form data");
        case Ok((us, cs)) =>
          users := us;
          categories := cs;
          if |us| == 1 {
            form := form.(userId := IntToString(us[0].id));
          }
          match FoodCategory(cs) {
            case Some(i) =>
              form := form.(categoryId := IntToString(cs[i].id));
            case None =>
          }
      }
    }

    method HandleInputChange(field: FormField, value: string)
      modifies this
      ensures form == SetField(old(form), field, value)
      ensures users == old(users) && categories == old(categories) && loading == old(loading)
      ensures error == old(error) && navigation == old(navigation)
    {
      form := SetField(form, field, value);
    }

    /**
     * `handleSubmit`: a form that fails the checks shows why and sends
     * nothing; otherwise the body is sent and the page leaves for the
     * dashboard, or shows the failure.
     */
    method HandleSubmit(response: Result<(), ()>) returns (sent: Option<ExpensePayload>)
      modifies this
      ensures SubmitError(form).Some? ==>
                sent.None? && error == SubmitError(form) && loading == old(loading) && navigation == old(navigation)
      ensures SubmitError(form).None? ==> sent == Some(Payload(form)) && !loading
      ensures SubmitError(form).None? && response.Ok? ==> navigation == Some("/") && error == None
      ensures SubmitError(form).None? && response.Err? ==>
                navigation == old(navigation) && error == Some("Failed to create expense")
      ensures form == old(form) && users == old(users) && categories == old(categories)
    {
      var check := SubmitError(form);
      if check.Some? {
        error := check;
        return None;
      }
      sent := Some(Payload(form));
      ShowCreateResult(response);
    }

    /** The outcome of the create request: off to the dashboard, or the failure shown. */
    method ShowCreateResult(response: Result<(), ()>)
      modifies this
      ensures response.Ok? ==> navigation == Some("/") && error == None
      ensures response.Err? ==> navigation == old(navigation) && error == Some("Failed to create expense")
      ensures !loading && form == old(form) && users == old(users) && categories == old(categories)
    {
      loading := true;
      error := None;
      if response.Ok? {
        navigation := Some("/");
      } else {
        error := Some("Failed to create expense");
      }
      loading := false;
    }

    /**
     * `handleSaveAndAddAnother`: only the required fields are checked; after
     * a successful save the form is cleared for the next expense, dated
     * today, with the same user.
     */
    method HandleSaveAndAddAnother(response: Result<(), ()>, today: Date) returns (sent: Option<ExpensePayload>)
      requires InPythonRange(today)
      modifies this
      ensures !Required(old(form)) ==>
                sent.None? && error == Some(MissingFields) && form == old(form) && loading == old(loading)
      ensures Required(old(form)) ==> sent == Some(Payload(old(form))) && !loading
      ensures Required(old(form)) && response.Ok? ==>
                form == NextForm(old(form), today) && error == None
      ensures Required(old(form)) && response.Err? ==>
                form == old(form) && error == Some("Failed to create expense")
      ensures users == old(users) && categories == old(categories) && navigation == old(navigation)
    {
      if !Required(form) {
        error := Some(MissingFields);
        return None;
      }
      sent := Some(Payload(form));
      ShowSaveAnotherResult(response, today);
    }

    /** The outcome of "save and add another": a fresh form for the same user, or the failure shown. */
    method ShowSaveAnotherResult(response: Result<(), ()>, today: Date)
      requires InPythonRange(today)
      modifies this
      ensures response.Ok? ==> form == NextForm(old(form), today) && error == None
      ensures response.Err? ==> form == old(form) && error == Some("Failed to create expense")
      ensures !loading && users == old(users) && categories == old(categories) && navigation == old(navigation)
    {
      loading := true;
      error := None;
      if response.Ok? {
        form := NextForm(form, today);
      } else {
        error := Some("Failed to create expense");
      }
      loading := false;
    }
  }

  /** The checks of the edit page: a missing route id counts as a missing field. */
  function EditSubmitError(id: string, f: FormData): (e: Option<string>)
    ensures id == "" ==> e == Some(MissingFields)
    ensures id != "" ==> e == SubmitError(f)
  {
    if id == "" then Some(MissingFields) else SubmitError(f)
  }

  /** The Edit Expense page's state; `id` is the route parameter, empty when absent. */
  class EditPage {
    const id: string
    var users: seq<User>
    var categories: seq<Category>
    var loading: bool
    var error: Option<string>
    var form: FormData
    var navigation: Option<string>

    constructor (routeId: string)
      ensures id == routeId && users == [] && categories == [] && !loading && error == None && navigation == None
      ensures form == FormData("", "", "", "", "")
    {
      id := routeId;
      users := [];
      categories := [];
      loading := false;
      error := None;
      form := FormData("", "", "", "", "");
      navigation := None;
    }

    /**
     * `fetchExpenseData`: without an id nothing is fetched; otherwise the
     * expense fills the form and the lists are replaced, or the failure is
     * shown and the form is left as it was.
     */
    method FetchExpenseData(response: Result<(Expense, seq<User>, seq<Category>), ()>)
      requires response.Ok? ==> InPythonRange(response.value.0.date)
      modifies this
      ensures id == "" ==> form == old(form) && users == old(users) && categories == old(categories)
                           && error == old(error) && loading == old(loading)
      ensures id != "" && response.Ok? ==>
                form == FormOf(response.value.0) && users == response.value.1 && categories == response.value.2
                && error == None && !loading
      ensures id != "" && response.Err? ==>
                form == old(form) && users == old(users) && categories == old(categories)
                && error == Some("Failed to load expense data") && !loading
      ensures navigation == old(navigation)
    {
      if id == "" {
        return;
      }
      ShowExpenseData(response);
    }

    /** The expense's fields written into the form. */
    method LoadForm(e: Expense)
      requires InPythonRange(e.date)
      modifies this
      ensures form == FormOf(e)
      ensures users == old(users) && categories == old(categories) && loading == old(loading)
      ensures error == old(error) && navigation == old(navigation)
    {
      form := FormOf(e);
    }

    /** The responses of the three requests: the form filled from the expense, or the failure shown. */
    method ShowExpenseData(response: Result<(Expense, seq<User>, seq<Category>), ()>)
      requires response.Ok? ==> InPythonRange(response.value.0.date)
      modifies this
      ensures response.Ok? ==>
                form == FormOf(response.value.0) && users == response.value.1 && categories == response.value.2
                && error == None
      ensures response.Err? ==>
                form == old(form) && users == old(users) && categories == old(categories)
                && error == Some("Failed to load expense data")
      ensures !loading && navigation == old(navigation)
    {
      loading := true;
      if response.Ok? {
        LoadForm(response.value.0);
        users := response.value.1;
        categories := response.value.2;
        error := None;
      } else {
        error := Some("Failed to load expense data");
      }
      loading := false;
    }

    method HandleInputChange(field: FormField, value: string)
      modifies this
      ensures form == SetField(old(form), field, value)
      ensures users == old(users) && categories == old(categories) && loading == old(loading)
      ensures error == old(error) && navigation == old(navigation)
    {
      form := SetField(form, field, value);
    }

    /**
     * `handleSubmit`: a form that fails the checks shows why and sends
     * nothing; otherwise the body is sent for the parsed route id and the
     * page leaves for the list, or shows the failure.
     */
    method HandleSubmit(response: Result<(), ()>) returns (sent: Option<(JsNumber, ExpensePayload)>)
      modifies this
      ensures EditSubmitError(id, form).Some? ==>
                sent.None? && error == EditSubmitError(id, form) && loading == old(loading) && navigation == old(navigation)
      ensures EditSubmitError(id, form).None? ==> sent == Some((ParseIntJs(id), Payload(form))) && !loading
      ensures EditSubmitError(id, form).None? && response.Ok? ==> navigation == Some("/expenses") && error == None
      ensures EditSubmitError(id, form).None? && response.Err? ==>
                navigation == old(navigation) && error == Some("Failed to update expense")
      ensures form == old(form) && users == old(users) && categories == old(categories)
    {
      var check := EditSubmitError(id, form);
      if check.Some? {
        error := check;
        return None;
      }
      sent := Some((ParseIntJs(id), Payload(form)));
      ShowUpdateResult(response);
    }

    /** The outcome of the update request: off to the list, or the failure shown. */
    method ShowUpdateResult(response: Result<(), ()>)
      modifies this
      ensures response.Ok? ==> navigation == Some("/expenses") && error == None
      ensures response.Err? ==> navigation == old(navigation) && error == Some("Failed to update expense")
      ensures !loading && form == old(form) && users == old(users) && categories == old(categories)
    {
      loading := true;
      error := None;
      if response.Ok? {
        navigation := Some("/expenses");
      } else {
        error := Some("Failed to update expense");
      }
      loading := false;
    }
  }
}
