/** The dispatcher of the custom report engine, its list of report types and
    the history of the reports it produced. */
module ReportService {
  import opened Wrappers
  import opened Text
  import opened Ordering
  import opened Catalog
  import opened ReportDto
  import opened CustomReports
  import opened CategoryReports

  datatype ReportKind = SalesKind | InventoryKind | PerformanceKind | CategoryKind | DefaultKind

  /** The `switch` on `parameters.ReportType?.ToLower()`: an absent or unknown
      type selects the default report. */
  function ParseReportType(reportType: Option<string>): (k: ReportKind)
    ensures reportType.None? ==> k == DefaultKind
    ensures reportType.Some? && ToLower(reportType.value) == "sales" ==> k == SalesKind
    ensures reportType.Some? && ToLower(reportType.value) == "inventory" ==> k == InventoryKind
    ensures reportType.Some? && ToLower(reportType.value) == "performance" ==> k == PerformanceKind
    ensures reportType.Some? && ToLower(reportType.value) == "category" ==> k == CategoryKind
    ensures k == DefaultKind <==>
      reportType.None? || ToLower(reportType.value) !in ["sales", "inventory", "performance", "category"]
  {
    match reportType
    case None => DefaultKind
    case Some(t) =>
      var lower := ToLower(t);
      if lower == "sales" then SalesKind
      else if lower == "inventory" then InventoryKind
      else if lower == "performance" then PerformanceKind
      else if lower == "category" then CategoryKind
      else DefaultKind
  }

  /** The type name a report of each kind carries in `ReportType`. */
  function KindName(k: ReportKind): string {
    match k
    case SalesKind => "Sales"
    case InventoryKind => "Inventory"
    case PerformanceKind => "Performance"
    case CategoryKind => "Category"
    case DefaultKind => "Default"
  }

  /** `GetAvailableReportTypesAsync` */
  function AvailableReportTypes(): (types: seq<string>)
    ensures |types| == 4
    ensures forall i, j :: 0 <= i < j < |types| ==> types[i] != types[j]
    ensures "Default" !in types
  {
    ["Sales", "Inventory", "Performance", "Category"]
  }

  /** Every advertised type selects its own generator, and only the default
      report is left out of the list. */
  lemma AvailableTypesDispatch(k: ReportKind)
    ensures k != DefaultKind <==> KindName(k) in AvailableReportTypes()
    ensures ParseReportType(Some(KindName(k))) == k
  {
    match k
    case SalesKind =>
      assert ToLower("Sales") == "sales";
    case InventoryKind =>
      assert ToLower("Inventory") == "inventory";
    case PerformanceKind =>
      assert ToLower("Performance") == "performance";
    case CategoryKind =>
      assert ToLower("Category") == "category";
    case DefaultKind =>
      assert ToLower("Default") == "default";
  }

  /** The dispatch ignores case. */
  lemma ParseReportTypeIgnoresCase(t: string)
    ensures ParseReportType(Some(ToLower(t))) == ParseReportType(Some(t))
  {
    ToLowerIdempotent(t);
  }

  /** `GenerateReportAsync`, without its history side effect. */
  function GenerateReport(parameters: ReportParameters, products: seq<Product>, categories: seq<Category>,
                          now: int, draw: nat -> int): (r: CustomReport)
    ensures r.generatedAt == now
    ensures r.summary.Some?
    ensures r.reportType == Some(KindName(ParseReportType(parameters.reportType)))
    ensures ParseReportType(parameters.reportType) == SalesKind ==> r == SalesReport(products, parameters, now, draw)
    ensures ParseReportType(parameters.reportType) == InventoryKind ==> r == InventoryReport(products, parameters, now)
    ensures ParseReportType(parameters.reportType) == PerformanceKind ==> r == PerformanceReport(products, parameters, now)
    ensures ParseReportType(parameters.reportType) == CategoryKind ==> r == CategoryReport(products, categories, now)
    ensures ParseReportType(parameters.reportType) == DefaultKind ==> r == DefaultReport(products, now)
  {
    match ParseReportType(parameters.reportType)
    case SalesKind => SalesReport(products, parameters, now, draw)
    case InventoryKind => InventoryReport(products, parameters, now)
    case PerformanceKind => PerformanceReport(products, parameters, now)
    case CategoryKind => CategoryReport(products, categories, now)
    case DefaultKind => DefaultReport(products, now)
  }

  /** Whatever was asked for, the report's own type names it in the list of
      available types, or it is the default report; and asking again with that
      type name reproduces the same kind of report. */
  lemma GeneratedTypeRoundTrip(parameters: ReportParameters, products: seq<Product>, categories: seq<Category>,
                               now: int, draw: nat -> int)
    ensures var r := GenerateReport(parameters, products, categories, now, draw);
      && r.reportType.Some?
      && (r.reportType.value in AvailableReportTypes() || r.reportType.value == "Default")
      && ParseReportType(r.reportType) == ParseReportType(parameters.reportType)
  {
    AvailableTypesDispatch(ParseReportType(parameters.reportType));
  }

  /** An unknown type is answered with the two-row summary of the whole
      catalogue, whatever filters were given. */
  lemma UnknownTypeGivesDefault(parameters: ReportParameters, products: seq<Product>, categories: seq<Category>,
                                now: int, draw: nat -> int)
    requires parameters.reportType.Some?
    requires ToLower(parameters.reportType.value) !in ["sales", "inventory", "performance", "category"]
    ensures var r := GenerateReport(parameters, products, categories, now, draw);
      && |r.data| == 2
      && r.summary.value.totalValue == StockValue(products)
      && r.data[0].value == Count(|products|)
  {
  }

  // ---------------------------------------------------------------------------
  // History

  /** `_reportHistory.OrderByDescending(r => r.GeneratedAt)` */
  function HistoryView(history: seq<CustomReport>): (view: seq<CustomReport>)
    ensures |view| == |history|
    ensures multiset(view) == multiset(history)
    ensures forall i, j :: 0 <= i < j < |view| ==> view[i].generatedAt >= view[j].generatedAt
  {
    SortDesc(history, GeneratedAt)
  }

  /** Reports generated at the same instant stay in the order they were
      produced. */
  lemma HistoryViewStable(history: seq<CustomReport>, t: int)
    ensures WithKey(HistoryView(history), GeneratedAt, t) == WithKey(history, GeneratedAt, t)
  {
    SortDescStable(history, GeneratedAt, t);
  }

  /** A history already newest-first is shown as it is. */
  lemma HistoryViewOfOrdered(history: seq<CustomReport>)
    requires forall i, j :: 0 <= i < j < |history| ==> history[i].generatedAt >= history[j].generatedAt
    ensures HistoryView(history) == history
  {
    SortDescOfSorted(history, GeneratedAt);
  }

  /** `CustomReportService`. The history list is static in the service, so one
      object here stands for every instance of the service in a process. */
  class CustomReportService {
    var history: seq<CustomReport>

    constructor ()
      ensures history == []
    {
      history := [];
    }

    /** `GenerateReportAsync`: only the dispatcher records the report. */
    method GenerateReportAsync(parameters: ReportParameters, products: seq<Product>, categories: seq<Category>,
                               now: int, draw: nat -> int) returns (r: CustomReport)
      modifies this
      ensures r == GenerateReport(parameters, products, categories, now, draw)
      ensures history == old(history) + [r]
    {
      r := GenerateReport(parameters, products, categories, now, draw);
      history := history + [r];
    }

    /** `GetReportHistoryAsync` */
    method GetReportHistoryAsync() returns (view: seq<CustomReport>)
      ensures view == HistoryView(history)
    {
      view := HistoryView(history);
    }
  }
}
