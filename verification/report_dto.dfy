/** The report data-transfer objects, with the defaults their C# property
    initialisers give them. Row values and descriptions keep the numbers they
    render; the culture-dependent text rendering is not modelled. */
module ReportDto {
  import opened Wrappers

  /** `ReportParametersDto`. StartDate, EndDate, IncludeDetails and GroupBy are
      accepted but no generator reads them. */
  datatype ReportParameters = ReportParameters(
    reportType: Option<string>,
    startDate: Option<int>,
    endDate: Option<int>,
    categoryId: Option<int>,
    productId: Option<int>,
    includeDetails: bool,
    groupBy: Option<string>)

  /** `new ReportParametersDto()` */
  function NewReportParameters(): (p: ReportParameters)
    ensures !p.includeDetails
    ensures p.categoryId.None? && p.productId.None?
    ensures p.startDate.None? && p.endDate.None? && p.groupBy.None? && p.reportType.None?
  {
    ReportParameters(None, None, None, None, None, false, None)
  }

  /** What a row's `Value` string renders: a count (`ToString()`), an amount of
      money (`ToString("C2")`) or a score (`ToString("F2")`). */
  datatype RowValue = Count(n: int) | Currency(amount: real) | Fixed2(x: real)

  /** What a row's `Description` string says, keeping only the numbers it
      interpolates. */
  datatype Note =
    | SalesOf(productName: string)
    | StockNote(units: int, value: real)
    | ScoreNote
    | CategoryNote(products: int, value: real)
    | TotalProductsNote
    | TotalStockValueNote

  /** `ReportDataDto` */
  datatype ReportRow = ReportRow(
    key: string,
    value: RowValue,
    description: Note,
    category: Option<string>,
    date: Option<int>)

  /** A value stored in `AdditionalMetrics` (a `Dictionary<string, object>`). */
  datatype Metric = IntMetric(n: int) | DecimalMetric(x: real)

  /** `ReportSummaryDto` */
  datatype ReportSummary = ReportSummary(
    totalRecords: int,
    totalValue: real,
    currency: string,
    additionalMetrics: map<string, Metric>)

  /** `new ReportSummaryDto()` */
  function NewReportSummary(): (s: ReportSummary)
    ensures s.currency == "BRL"
    ensures s.additionalMetrics == map[]
    ensures s.totalRecords == 0 && s.totalValue == 0.0
  {
    ReportSummary(0, 0.0, "BRL", map[])
  }

  /** `CustomReportDto` */
  datatype CustomReport = CustomReport(
    title: Option<string>,
    generatedAt: int,
    reportType: Option<string>,
    data: seq<ReportRow>,
    summary: Option<ReportSummary>)

  /** `new CustomReportDto()` at clock time `now`. */
  function NewCustomReport(now: int): (r: CustomReport)
    ensures r.generatedAt == now
    ensures r.data == []
    ensures r.title.None? && r.reportType.None? && r.summary.None?
  {
    CustomReport(None, now, None, [], None)
  }

  /** `GeneratedAt`, the history's sort key. */
  function GeneratedAt(r: CustomReport): int {
    r.generatedAt
  }

  /** The number a row's value renders. */
  function RowAmount(row: ReportRow): real {
    match row.value
    case Count(n) => n as real
    case Currency(a) => a
    case Fixed2(x) => x
  }

  /** The money amount a row's description mentions, 0 when it mentions none. */
  function NoteValue(row: ReportRow): real {
    match row.description
    case StockNote(_, v) => v
    case CategoryNote(_, v) => v
    case _ => 0.0
  }

  /** The product count a row's value states, 0 when it is not a count. */
  function RowCount(row: ReportRow): int {
    if row.value.Count? then row.value.n else 0
  }
}
