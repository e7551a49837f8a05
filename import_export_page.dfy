/**
 * The Import/Export page: choosing a CSV file, previewing and confirming its
 * import, and building the filters of an export request. Server responses
 * are parameters: `Ok` holds a response, `Err` the `detail` of a failed one
 * (if the server sent any).
 */
module ImportExportPage {
  import opened Wrappers
  import opened Text
  import opened Numbers
  import opened Dates
  import opened Records
  import opened CsvImport

  /** A file the browser hands over; only its name is looked at before upload. */
  datatype File = File(name: string)

  /** The export form: a range choice, optional user and category ids, and custom bounds. */
  datatype ExportFilters = ExportFilters(range: string, userId: string, categoryId: string, startDate: string, endDate: string)

  /** The fields of the export form, as the inputs name them. */
  datatype FilterField = Range | UserField | CategoryField | StartDate | EndDate

  /** The query parameters of an export request; an absent one is not sent. */
  datatype ExportParams = ExportParams(startDate: Option<string>, endDate: Option<string>, userId: Option<JsNumber>, categoryId: Option<JsNumber>)

  /** A failed request's message: the server's `detail` unless it is missing or empty. */
  function ErrorText(detail: Option<string>, fallback: string): (m: string)
    ensures detail.Some? && detail.value != "" ==> m == detail.value
    ensures detail.None? || detail.value == "" ==> m == fallback
  {
    match detail
    case Some(d) => if d != "" then d else fallback
    case None => fallback
  }

  /** `format(d, 'yyyy-MM-dd')` of the first and the last day of a date's month. */
  function MonthStartText(d: Date): string
    requires Wellformed(d) && d.year >= 0
  {
    IsoFormat(FirstOfMonth(d))
  }

  function MonthEndText(d: Date): string
    requires Wellformed(d) && d.year >= 0
  {
    IsoFormat(LastOfMonth(d))
  }

  /**
   * `handleExport`'s parameters, built one assignment at a time: a custom
   * range with both bounds sends them as typed, "current" sends today's
   * month, "last3months" runs from the start of the month `setMonth` lands
   * on two months back to the end of today's month, and anything else sends
   * no bounds; a user or category id is sent only when one is chosen.
   */
  method BuildExportParams(f: ExportFilters, today: Date) returns (p: ExportParams)
    requires InPythonRange(today)
    ensures f.range == "custom" && f.startDate != "" && f.endDate != "" ==>
              p.startDate == Some(f.startDate) && p.endDate == Some(f.endDate)
    ensures f.range == "current" ==>
              p.startDate == Some(MonthStartText(today)) && p.endDate == Some(MonthEndText(today))
    ensures f.range == "last3months" ==>
              p.startDate == Some(MonthStartText(AddMonthsJs(today, -2))) && p.endDate == Some(MonthEndText(today))
    ensures f.range !in {"current", "last3months"} && !(f.range == "custom" && f.startDate != "" && f.endDate != "") ==>
              p.startDate.None? && p.endDate.None?
    ensures p.userId == if f.userId == "" then None else Some(ParseIntJs(f.userId))
    ensures p.categoryId == if f.categoryId == "" then None else Some(ParseIntJs(f.categoryId))
  {
    p := ExportParams(None, None, None, None);
    if f.range == "custom" && f.startDate != "" && f.endDate != "" {
      p := p.(startDate := Some(f.startDate), endDate := Some(f.endDate));
    } else if f.range == "current" {
      p := p.(startDate := Some(MonthStartText(today)), endDate := Some(MonthEndText(today)));
    } else if f.range == "last3months" {
      var start := AddMonthsJs(today, -2);
      p := p.(startDate := Some(MonthStartText(start)), endDate := Some(MonthEndText(today)));
    }
    if f.userId != "" {
      p := p.(userId := Some(ParseIntJs(f.userId)));
    }
    if f.categoryId != "" {
      p := p.(categoryId := Some(ParseIntJs(f.categoryId)));
    }
  }

  /** "current" bounds hold exactly the days of today's month. */
  lemma CurrentRangeIsTodaysMonth(today: Date, x: Date)
    requires InPythonRange(today) && Wellformed(x)
    ensures OnOrBefore(FirstOfMonth(today), x) && OnOrBefore(x, LastOfMonth(today))
            <==> x.year == today.year && x.month == today.month
  {
    MonthBounds(today, x);
  }

  /**
   * "last3months" starts two months back when that month has today's day,
   * and otherwise one month back, where `setMonth` runs over to.
   */
  lemma Last3MonthsStart(today: Date)
    requires InPythonRange(today)
    ensures var s := AddMonthsJs(today, -2);
            var (y, m) := NormalizeMonth(today.year, today.month - 3);
            s.day >= 1
            && (today.day <= DaysInMonth(y, m) ==> MonthNumber(s.year, s.month) == MonthNumber(today.year, today.month) - 2)
            && (today.day > DaysInMonth(y, m) ==> MonthNumber(s.year, s.month) == MonthNumber(today.year, today.month) - 1)
  {
    AddMonthsJsMonth(today, -2);
  }

  /** On 30 April the "last3months" export starts on 1 March, not 1 February. */
  lemma Last3MonthsFromApril30(year: int)
    requires 1 <= year <= 9999
    ensures FirstOfMonth(AddMonthsJs(Date(year, 4, 30), -2)) == Date(year, 3, 1)
  {
    AddMonthsJsMonth(Date(year, 4, 30), -2);
  }

  /** The page's state. */
  class Page {
    var users: seq<User>
    var categories: seq<Category>
    var loading: bool
    var error: Option<string>
    var success: Option<string>
    var previewData: Option<ImportPreview>
    var selectedFile: Option<File>
    var filters: ExportFilters

    constructor ()
      ensures users == [] && categories == [] && !loading && error == None && success == None
      ensures previewData == None && selectedFile == None
      ensures filters == ExportFilters("current", "", "", "", "")
    {
      users := [];
      categories := [];
      loading := false;
      error := None;
      success := None;
      previewData := None;
      selectedFile := None;
      filters := ExportFilters("current", "", "", "", "");
    }

    /** `fetchFormData`: the lists, and custom bounds preset to today's month. */
    method FetchFormData(response: Result<(seq<User>, seq<Category>), Option<string>>, today: Date)
      requires InPythonRange(today)
      modifies this
      ensures response.Err? ==> error == Some("Failed to load form data")
                                && users == old(users) && categories == old(categories) && filters == old(filters)
      ensures response.Ok? ==> users == response.value.0 && categories == response.value.1 && error == old(error)
                               && filters == old(filters).(startDate := MonthStartText(today), endDate := MonthEndText(today))
      ensures loading == old(loading) && success == old(success)
      ensures previewData == old(previewData) && selectedFile == old(selectedFile)
    {
      var start, end := MonthStartText(today), MonthEndText(today);
      match response
      case Err(_) =>
        error := Some("Failed to load form data");
      case Ok((us, cs)) =>
        users := us;
        categories := cs;
        filters := filters.(startDate := start, endDate := end);
    }

    /**
     * `handleFileSelect`: no file changes nothing; a name without `.csv`
     * reports an error and keeps the previous choice; a CSV file is chosen
     * and the preview and both messages are cleared.
     */
    method HandleFileSelect(file: Option<File>)
      modifies this
      ensures file.None? ==> error == old(error) && success == old(success)
                             && previewData == old(previewData) && selectedFile == old(selectedFile)
      ensures file.Some? && !EndsWith(file.value.name, ".csv") ==>
                error == Some("Please select a CSV file") && success == old(success)
                && previewData == old(previewData) && selectedFile == old(selectedFile)
      ensures file.Some? && EndsWith(file.value.name, ".csv") ==>
                selectedFile == file && previewData == None && error == None && success == None
      ensures users == old(users) && categories == old(categories) && loading == old(loading) && filters == old(filters)
    {
      if file.Some? {
        if !EndsWith(file.value.name, ".csv") {
          error := Some("Please select a CSV file");
          return;
        }
        selectedFile := file;
        previewData := None;
        error := None;
        success := None;
      }
    }

    /** `handleFilePreview`: without a file, an error; otherwise the server's preview or its error. */
    method HandleFilePreview(response: Result<ImportPreview, Option<string>>)
      modifies this
      ensures selectedFile.None? ==> error == Some("Please select a file first") && previewData == old(previewData)
      ensures selectedFile.Some? && response.Ok? ==> previewData == Some(response.value) && error == None
      ensures selectedFile.Some? && response.Ok? ==> (ConfirmEnabled() <==> response.value.summary.validCount != 0)
      ensures selectedFile.Some? && response.Err? ==>
                previewData == old(previewData) && error == Some(ErrorText(response.error, "Failed to preview import"))
      ensures selectedFile.Some? ==> !loading
      ensures selectedFile.None? ==> loading == old(loading)
      ensures selectedFile == old(selectedFile) && success == old(success)
      ensures users == old(users) && categories == old(categories) && filters == old(filters)
    {
      if selectedFile.None? {
        error := Some("Please select a file first");
        return;
      }
      loading := true;
      error := None;
      match response {
        case Ok(preview) =>
          previewData := Some(preview);
        case Err(detail) =>
          error := Some(ErrorText(detail, "Failed to preview import"));
      }
      loading := false;
    }

    /** The Import button is enabled only when nothing is loading and the preview has valid rows. */
    predicate ConfirmEnabled()
      reads this
      requires previewData.Some?
      ensures previewData.value.summary.validCount == 0 ==> !ConfirmEnabled()
      ensures loading ==> !ConfirmEnabled()
    {
      !loading && previewData.value.summary.validCount != 0
    }

    /**
     * `handleConfirmImport`: without a preview nothing happens; a successful
     * import shows the server's message and clears the preview and the file;
     * a failed one keeps both and shows the error.
     */
    method HandleConfirmImport(response: Result<string, Option<string>>)
      modifies this
      ensures old(previewData).None? ==>
                error == old(error) && success == old(success) && loading == old(loading)
                && previewData == old(previewData) && selectedFile == old(selectedFile)
      ensures old(previewData).Some? && response.Ok? ==>
                success == Some(response.value) && error == None && previewData == None && selectedFile == None && !loading
      ensures old(previewData).Some? && response.Err? ==>
                error == Some(ErrorText(response.error, "Failed to import data")) && success == old(success)
                && previewData == old(previewData) && selectedFile == old(selectedFile) && !loading
      ensures users == old(users) && categories == old(categories) && filters == old(filters)
    {
      if previewData.None? {
        return;
      }
      loading := true;
      error := None;
      match response {
        case Ok(message) =>
          success := Some(message);
          previewData := None;
          selectedFile := None;
        case Err(detail) =>
          error := Some(ErrorText(detail, "Failed to import data"));
      }
      loading := false;
    }

    /** The Cancel button drops the preview and nothing else. */
    method CancelPreview()
      modifies this
      ensures previewData == None
      ensures selectedFile == old(selectedFile) && error == old(error) && success == old(success) && loading == old(loading)
      ensures users == old(users) && categories == old(categories) && filters == old(filters)
    {
      previewData := None;
    }

    /** `handleExportFilterChange`: the named field takes the value; the others stay. */
    method HandleExportFilterChange(field: FilterField, value: string)
      modifies this
      ensures filters == match field
                         case Range => old(filters).(range := value)
                         case UserField => old(filters).(userId := value)
                         case CategoryField => old(filters).(categoryId := value)
                         case StartDate => old(filters).(startDate := value)
                         case EndDate => old(filters).(endDate := value)
      ensures users == old(users) && categories == old(categories) && loading == old(loading) && error == old(error)
      ensures success == old(success) && previewData == old(previewData) && selectedFile == old(selectedFile)
    {
      match field
      case Range => filters := filters.(range := value);
      case UserField => filters := filters.(userId := value);
      case CategoryField => filters := filters.(categoryId := value);
      case StartDate => filters := filters.(startDate := value);
      case EndDate => filters := filters.(endDate := value);
    }

    /** The outcome of an export request: a download reports success, a failure its error. */
    method ShowExportResult(response: Result<string, Option<string>>)
      modifies this
      ensures response.Ok? ==> success == Some("Export downloaded successfully") && error == None
      ensures response.Err? ==> error == Some(ErrorText(response.error, "Failed to export data")) && success == old(success)
      ensures !loading
      ensures users == old(users) && categories == old(categories) && filters == old(filters)
      ensures previewData == old(previewData) && selectedFile == old(selectedFile)
    {
      loading := true;
      error := None;
      match response {
        case Ok(_) =>
          success := Some("Export downloaded successfully");
        case Err(detail) =>
          error := Some(ErrorText(detail, "Failed to export data"));
      }
      loading := false;
    }

    /**
     * `handleExport`: the request carries the parameters built from the
     * form, and its outcome is shown.
     */
    method HandleExport(today: Date, response: Result<string, Option<string>>) returns (params: ExportParams)
      requires InPythonRange(today)
      modifies this
      ensures filters.range == "custom" && filters.startDate != "" && filters.endDate != "" ==>
                params.startDate == Some(filters.startDate) && params.endDate == Some(filters.endDate)
      ensures filters.range == "current" ==>
                params.startDate == Some(MonthStartText(today)) && params.endDate == Some(MonthEndText(today))
      ensures filters.range == "last3months" ==>
                params.startDate == Some(MonthStartText(AddMonthsJs(today, -2))) && params.endDate == Some(MonthEndText(today))
      ensures filters.range !in {"current", "last3months"} && !(filters.range == "custom" && filters.startDate != "" && filters.endDate != "") ==>
                params.startDate.None? && params.endDate.None?
      ensures params.userId == if filters.userId == "" then None else Some(ParseIntJs(filters.userId))
      ensures params.categoryId == if filters.categoryId == "" then None else Some(ParseIntJs(filters.categoryId))
      ensures response.Ok? ==> success == Some("Export downloaded successfully") && error == None
      ensures response.Err? ==> error == Some(ErrorText(response.error, "Failed to export data")) && success == old(success)
      ensures !loading
      ensures users == old(users) && categories == old(categories) && filters == old(filters)
      ensures previewData == old(previewData) && selectedFile == old(selectedFile)
    {
      params := BuildExportParams(filters, today);
      ShowExportResult(response);
    }
  }

  /**
   * For a preview the server built from the file's rows, the Import button
   * is enabled exactly when nothing is loading and some row is valid: a
   * file whose every row is rejected (or that has no rows) cannot be imported.
   */
  lemma ConfirmEnabledExactly(p: Page, rows: seq<Row>, userKeys: set<string>, categoryKeys: set<string>)
    requires p.previewData == Some(PreviewOf(rows, userKeys, categoryKeys))
    ensures p.ConfirmEnabled()
            <==> !p.loading && exists i :: 0 <= i < |rows| && ClassifyRow(rows[i], userKeys, categoryKeys).result.Ok?
  {
    NoValidCountExactly(rows, userKeys, categoryKeys);
  }
}
