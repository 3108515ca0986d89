/** The analysis step of the batch job: the amount column of the
    transaction table is normalized row by row, then the normalized table is
    summarized once per client and once per merchant. Reading the table from
    the object store, printing and storing the summaries are outside the
    model; a failure that the job reports and exits on is an `Err` here. */
module SpendingAnalysis {
  import opened Results
  import opened Keys
  import opened AmountNormalizer
  import opened Aggregation

  /** A row of the transaction table as read: two identifiers and the
      amount as currency text. */
  datatype Transaction = Transaction(clientId: Key, merchantId: Key, amount: string)

  datatype AnalysisError =
      /** The amount of the row at index `row` is not a number. */
    | BadAmount(row: nat, text: string, cause: AmountError)
      /** A name that is neither local nor defined by the module was read. */
    | UndefinedName(name: string)
      /** The value read from `name` has no `groupby` attribute. */
    | NoGroupBy(name: string)

  /** A summary table with its column headers. */
  datatype Table = Table(columns: seq<string>, rows: seq<Summary>)

  /** The two tables the analysis produces. */
  datatype Report = Report(clients: Table, merchants: Table)

  /** The column headers given to a summary keyed by `col`. */
  function Header(col: KeyColumn): (h: seq<string>)
    ensures |h| == 4 && h[0] == ColumnName(col)
  {
    [ColumnName(col), "total_spent", "average_transaction", "transaction_count"]
  }

  /** The normalized form of one row. */
  function Normalized(t: Transaction, amount: real): Entry {
    Entry(t.clientId, t.merchantId, amount)
  }

  /** Replaces every amount by its cleaned value, row by row; the first row
      whose amount does not clean stops the whole table. */
  function NormalizeTable(txns: seq<Transaction>): (r: Result<seq<Entry>, AnalysisError>)
    ensures r.Ok? ==> |r.value| == |txns|
    ensures r.Err? ==> r.error.BadAmount? && r.error.row < |txns|
  {
    if |txns| == 0 then Ok([])
    else
      match CleanAmount(txns[0].amount)
      case Err(e) => Err(BadAmount(0, txns[0].amount, e))
      case Ok(v) =>
        match NormalizeTable(txns[1..])
        case Err(e) => Err(e.(row := e.row + 1))
        case Ok(rest) => Ok([Normalized(txns[0], v)] + rest)
  }

  /** Normalizing succeeds exactly when every amount cleans, and then each
      entry carries its row's identifiers and cleaned amount; otherwise the
      error names the first row whose amount does not clean, its text and
      the reason. */
  lemma {:induction false} NormalizeTableSpec(txns: seq<Transaction>)
    ensures NormalizeTable(txns).Ok? <==> forall i :: 0 <= i < |txns| ==> CleanAmount(txns[i].amount).Ok?
    ensures NormalizeTable(txns).Ok? ==> forall i :: 0 <= i < |txns| ==>
              NormalizeTable(txns).value[i] == Normalized(txns[i], CleanAmount(txns[i].amount).value)
    ensures NormalizeTable(txns).Err? ==>
              var e := NormalizeTable(txns).error;
              && e.text == txns[e.row].amount
              && CleanAmount(e.text) == Err(e.cause)
              && forall i :: 0 <= i < e.row ==> CleanAmount(txns[i].amount).Ok?
    decreases |txns|
  {
    hide CleanAmount;
    if |txns| > 0 {
      var rest := txns[1..];
      NormalizeTableSpec(rest);
      assert forall i :: 1 <= i < |txns| ==> txns[i] == rest[i - 1];
    }
  }

  /** A row whose amount cleans to `v`, put in front of a table that
      normalizes, normalizes to its entry in front of that table's entries. */
  lemma NormalizeCons(t: Transaction, v: real, rest: seq<Transaction>, entries: seq<Entry>)
    requires CleanAmount(t.amount) == Ok(v)
    requires NormalizeTable(rest) == Ok(entries)
    ensures NormalizeTable([t] + rest) == Ok([Normalized(t, v)] + entries)
  {
    assert ([t] + rest)[1..] == rest;
  }

  /** Both summaries of a normalized table. */
  function Summaries(entries: seq<Entry>): (r: Report)
    ensures r.clients.columns == Header(ClientId) && r.merchants.columns == Header(MerchantId)
    ensures IsSummaryOf(r.clients.rows, entries, ClientId)
    ensures IsSummaryOf(r.merchants.rows, entries, MerchantId)
    ensures TotalSpent(r.clients.rows) == TotalSpent(r.merchants.rows) == Total(entries)
    ensures Transactions(r.clients.rows) == Transactions(r.merchants.rows) == |entries|
  {
    Report(Table(Header(ClientId), Aggregate(entries, ClientId)),
           Table(Header(MerchantId), Aggregate(entries, MerchantId)))
  }

  /** The analysis with the table it is given: when the amounts normalize
      it holds the client and the merchant summary of the normalized table,
      both counting every transaction; otherwise it fails with the
      normalization error. */
  function AnalyzeSpending(txns: seq<Transaction>): (r: Result<Report, AnalysisError>)
    ensures r.Ok? <==> NormalizeTable(txns).Ok?
    ensures r.Ok? ==> && IsSummaryOf(r.value.clients.rows, NormalizeTable(txns).value, ClientId)
                      && IsSummaryOf(r.value.merchants.rows, NormalizeTable(txns).value, MerchantId)
                      && r.value.clients.columns == Header(ClientId)
                      && r.value.merchants.columns == Header(MerchantId)
    ensures r.Ok? ==> Transactions(r.value.clients.rows) == Transactions(r.value.merchants.rows) == |txns|
    ensures r.Err? ==> r.error == NormalizeTable(txns).error
  {
    match NormalizeTable(txns)
    case Err(e) => Err(e)
    case Ok(entries) => Ok(Summaries(entries))
  }

  /** The analysis succeeds exactly when every amount cleans; when it fails
      it names the first row whose amount does not. */
  lemma AnalyzeSpendingVerdict(txns: seq<Transaction>)
    ensures AnalyzeSpending(txns).Ok? <==> forall i :: 0 <= i < |txns| ==> CleanAmount(txns[i].amount).Ok?
    ensures AnalyzeSpending(txns).Err? ==>
              var e := AnalyzeSpending(txns).error;
              && e.BadAmount? && e.row < |txns|
              && CleanAmount(txns[e.row].amount).Err?
              && forall i :: 0 <= i < e.row ==> CleanAmount(txns[i].amount).Ok?
  {
    hide CleanAmount;
    NormalizeTableSpec(txns);
  }

  // ---------------------------------------------------------------------
  // The code as written
  // ---------------------------------------------------------------------

  /** What a name can be bound to where the summaries are built: the
      transaction table, or a value of another kind (a module, a function,
      a text), none of which has a `groupby` attribute. */
  datatype Value = TableValue(entries: seq<Entry>) | OtherValue

  /** The names bound at the module's top level once it has run (the imports
      and settings of lines 1-6 and the functions of lines 9, 13, 23, 31 and
      66), the attributes every module has (`__name__` is read at line 71),
      and the built-in names the module uses. */
  const ModuleNames: set<string> :=
    {"boto3", "pd", "os", "S3_BUCKET_NAME", "S3_FILE_KEY", "clean_amount",
     "read_file_from_s3", "upload_file_to_s3", "analyze_spending", "main",
     "__name__", "__doc__", "__package__", "__loader__", "__spec__", "__file__",
     "__cached__", "__builtins__",
     "float", "print", "exit", "Exception"}

  /** The names visible where the client summary is built: the module's
      names and the parameter `dataframe`, which by then holds the
      normalized table. */
  function Scope(entries: seq<Entry>): map<string, Value> {
    map n | n in ModuleNames + {"dataframe"} :: if n == "dataframe" then TableValue(entries) else OtherValue
  }

  /** Reading a name: its value when it is bound, an undefined-name error
      otherwise. */
  function Lookup(scope: map<string, Value>, name: string): Result<Value, AnalysisError> {
    if name in scope then Ok(scope[name]) else Err(UndefinedName(name))
  }

  /** The analysis with both summaries grouping whatever `name` is bound to
      after the amounts are normalized. Only the parameter holds a table: a
      module-level or built-in name holds something without `groupby`, and
      any other name is not bound at all. */
  function AnalyzeGrouping(name: string, txns: seq<Transaction>): (r: Result<Report, AnalysisError>)
    ensures NormalizeTable(txns).Err? ==> r == Err(NormalizeTable(txns).error)
    ensures NormalizeTable(txns).Ok? ==> (r.Ok? <==> name == "dataframe")
    ensures NormalizeTable(txns).Ok? && name != "dataframe" ==>
              r == Err(if name in ModuleNames then NoGroupBy(name) else UndefinedName(name))
  {
    match NormalizeTable(txns)
    case Err(e) => Err(e)
    case Ok(entries) =>
      match Lookup(Scope(entries), name)
      case Err(e) => Err(e)
      case Ok(TableValue(t)) => Ok(Summaries(t))
      case Ok(OtherValue) => Err(NoGroupBy(name))
  }

  /** No name the module binds is `df`. */
  lemma DfUnbound()
    ensures "df" !in ModuleNames && "df" != "dataframe"
  {
  }

  /** The built-in `float` that `clean_amount` calls and the module's
      `__name__` are bound, to values without `groupby`. */
  lemma ReadNamesLackGroupBy(txns: seq<Transaction>)
    requires NormalizeTable(txns).Ok?
    ensures AnalyzeGrouping("float", txns) == Err(NoGroupBy("float"))
    ensures AnalyzeGrouping("__name__", txns) == Err(NoGroupBy("__name__"))
  {
    assert "float" in ModuleNames && "__name__" in ModuleNames;
  }

  /** The analysis as written: the amount column of `dataframe` is
      normalized, but both summaries group the table named `df`, a name the
      scope does not bind. */
  function AnalyzeSpendingAsWritten(txns: seq<Transaction>): (r: Result<Report, AnalysisError>)
    ensures r.Err?
    ensures NormalizeTable(txns).Ok? ==> r == Err(UndefinedName("df"))
    ensures NormalizeTable(txns).Err? ==> r == Err(NormalizeTable(txns).error)
  {
    DfUnbound();
    AnalyzeGrouping("df", txns)
  }

  /** Grouping the parameter instead of `df` is exactly the corrected
      analysis, on every table. */
  lemma CorrectedGrouping(txns: seq<Transaction>)
    ensures AnalyzeGrouping("dataframe", txns) == AnalyzeSpending(txns)
  {
    if NormalizeTable(txns).Ok? {
      var entries := NormalizeTable(txns).value;
      assert Lookup(Scope(entries), "dataframe") == Ok(TableValue(entries));
    }
  }
}
