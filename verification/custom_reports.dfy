/** The custom report engine: five report shapes derived from a snapshot of the
    products and categories. Every generator is a pure function of the snapshot,
    the parameters and the clock; the random backdate of the sales rows is the
    `draw` parameter (days drawn for the row at each position). */
module CustomReports {
  import opened Wrappers
  import opened Sums
  import opened Time
  import opened Text
  import opened Catalog
  import opened ReportDto

  const LowStockThreshold: int := 10
  const LowStockLabel: string := "Estoque Baixo"
  const NormalStockLabel: string := "Estoque Normal"
  const HighPerformance: string := "Alto Desempenho"
  const MediumPerformance: string := "Médio Desempenho"
  const LowPerformance: string := "Baixo Desempenho"
  const CriticalPerformance: string := "Desempenho Crítico"

  // ---------------------------------------------------------------------------
  // Filtering

  /** The two optional filters of the parameters; an absent one lets every
      product through. */
  predicate MatchesFilter(p: Product, parameters: ReportParameters) {
    && (parameters.categoryId.Some? ==> p.categoryId == parameters.categoryId.value)
    && (parameters.productId.Some? ==> p.id == parameters.productId.value)
  }

  /** `FilterProductsByParameters` */
  function FilterProducts(products: seq<Product>, parameters: ReportParameters): (r: seq<Product>)
    ensures |r| <= |products|
    ensures forall p :: p in r <==> p in products && MatchesFilter(p, parameters)
    ensures parameters.categoryId.None? && parameters.productId.None? ==> r == products
  {
    if |products| == 0 then []
    else
      var init, last := products[..|products| - 1], products[|products| - 1];
      assert products == init + [last];
      FilterProducts(init, parameters) + (if MatchesFilter(last, parameters) then [last] else [])
  }

  /** Filtering commutes with concatenation, so it keeps the original order. */
  lemma {:induction false} FilterProductsAppend(a: seq<Product>, b: seq<Product>, parameters: ReportParameters)
    ensures FilterProducts(a + b, parameters) == FilterProducts(a, parameters) + FilterProducts(b, parameters)
    decreases |b|
  {
    if |b| == 0 {
      assert a + b == a;
    } else {
      assert (a + b)[..|a + b| - 1] == a + b[..|b| - 1];
      FilterProductsAppend(a, b[..|b| - 1], parameters);
    }
  }

  // ---------------------------------------------------------------------------
  // Sales report

  /** The simulated order count of a product: `max(1, 100 - stock)` when it has
      stock, none otherwise. */
  function SimulatedOrders(stock: int): (n: int)
    ensures 0 <= n < 100
    ensures n > 0 <==> stock > 0
    ensures stock > 0 ==> n >= 100 - stock && (n == 1 || n == 100 - stock)
  {
    if stock > 0 then MaxInt(1, 100 - stock) else 0
  }

  function OrdersOf(p: Product): int {
    SimulatedOrders(p.stock)
  }

  /** The simulated sales of a product: its price times its simulated orders. */
  function SalesValue(p: Product): real {
    p.price * (OrdersOf(p) as real)
  }

  function SalesRow(p: Product, date: int): ReportRow {
    ReportRow(p.name, Currency(SalesValue(p)), SalesOf(p.name), Some("Vendas"), Some(date))
  }

  function SalesRows(f: seq<Product>, now: int, draw: nat -> int): (rows: seq<ReportRow>)
    ensures |rows| == |f|
    ensures forall i :: 0 <= i < |f| ==> rows[i] == SalesRow(f[i], AddDays(now, -draw(i)))
  {
    seq(|f|, i requires 0 <= i < |f| => SalesRow(f[i], AddDays(now, -draw(i))))
  }

  /** `new Random().Next(1, 30)`: every draw is a whole number of days in [1, 29]. */
  ghost predicate ValidBackdate(draw: nat -> int) {
    forall i: nat :: 1 <= draw(i) < 30
  }

  /** `GenerateSalesReportAsync` */
  function SalesReport(products: seq<Product>, parameters: ReportParameters, now: int, draw: nat -> int): (r: CustomReport)
    ensures r.title == Some("Relatório de Vendas") && r.reportType == Some("Sales") && r.generatedAt == now
    ensures r.summary.Some? && r.summary.value.currency == "BRL"
    ensures var f := FilterProducts(products, parameters);
      && |r.data| == |f|
      && (forall i :: 0 <= i < |f| ==>
            && r.data[i].key == f[i].name
            && RowAmount(r.data[i]) == SalesValue(f[i])
            && r.data[i].date == Some(AddDays(now, -draw(i))))
      && r.summary.value.totalRecords == |r.data|
      && r.summary.value.totalValue == SumReal(r.data, RowAmount)
      && r.summary.value.additionalMetrics == map[
           "TotalOrders" := IntMetric(SumInt(f, OrdersOf)),
           "AverageOrderValue" := DecimalMetric(Ratio(r.summary.value.totalValue, SumInt(f, OrdersOf)))]
  {
    var f := FilterProducts(products, parameters);
    var rows := SalesRows(f, now, draw);
    var totalSales := SumReal(f, SalesValue);
    var totalOrders := SumInt(f, OrdersOf);
    SumRealMap(f, rows, SalesValue, RowAmount);
    NewCustomReport(now).(
      title := Some("Relatório de Vendas"),
      reportType := Some("Sales"),
      data := rows,
      summary := Some(NewReportSummary().(
        totalRecords := |rows|,
        totalValue := totalSales,
        additionalMetrics := map[
          "TotalOrders" := IntMetric(totalOrders),
          "AverageOrderValue" := DecimalMetric(Ratio(totalSales, totalOrders))])))
  }

  /** Every sales row is dated between one and twenty-nine days before the
      report. */
  lemma SalesDatesInWindow(products: seq<Product>, parameters: ReportParameters, now: int, draw: nat -> int)
    requires ValidBackdate(draw)
    ensures var r := SalesReport(products, parameters, now, draw);
      forall i :: 0 <= i < |r.data| ==>
        r.data[i].date.Some? && AddDays(now, -29) <= r.data[i].date.value <= AddDays(now, -1)
  {
    var r := SalesReport(products, parameters, now, draw);
    forall i | 0 <= i < |r.data|
      ensures r.data[i].date.Some? && AddDays(now, -29) <= r.data[i].date.value <= AddDays(now, -1)
    {
      assert 1 <= draw(i) < 30;
    }
  }

  /** The simulated orders add up to nothing exactly when no product in the list
      has stock, and each product contributes fewer than 100. */
  lemma {:induction false} SalesOrdersTotal(f: seq<Product>)
    ensures 0 <= SumInt(f, OrdersOf) <= 99 * |f|
    ensures SumInt(f, OrdersOf) == 0 <==> forall i :: 0 <= i < |f| ==> f[i].stock <= 0
    decreases |f|
  {
    if |f| > 0 {
      SalesOrdersTotal(f[..|f| - 1]);
      var init := f[..|f| - 1];
      if SumInt(f, OrdersOf) == 0 {
        assert forall i :: 0 <= i < |init| ==> init[i] == f[i];
      }
    }
  }

  // ---------------------------------------------------------------------------
  // Inventory report

  predicate IsLowStock(p: Product) {
    p.stock < LowStockThreshold
  }

  predicate IsLowStockRow(row: ReportRow) {
    row.category == Some(LowStockLabel)
  }

  function InventoryRow(p: Product, now: int): ReportRow {
    ReportRow(p.name, Count(p.stock), StockNote(p.stock, LineValue(p)),
              Some(if p.stock < LowStockThreshold then LowStockLabel else NormalStockLabel), Some(now))
  }

  function InventoryRows(f: seq<Product>, now: int): (rows: seq<ReportRow>)
    ensures |rows| == |f|
    ensures forall i :: 0 <= i < |f| ==> rows[i] == InventoryRow(f[i], now)
  {
    seq(|f|, i requires 0 <= i < |f| => InventoryRow(f[i], now))
  }

  /** `GenerateInventoryReportAsync` */
  function InventoryReport(products: seq<Product>, parameters: ReportParameters, now: int): (r: CustomReport)
    ensures r.title == Some("Relatório de Inventário") && r.reportType == Some("Inventory") && r.generatedAt == now
    ensures r.summary.Some? && r.summary.value.currency == "BRL"
    ensures var f := FilterProducts(products, parameters);
      && |r.data| == |f|
      && (forall i :: 0 <= i < |f| ==>
            && r.data[i].key == f[i].name
            && r.data[i].value == Count(f[i].stock)
            && (IsLowStockRow(r.data[i]) <==> f[i].stock < 10)
            && (!IsLowStockRow(r.data[i]) <==> r.data[i].category == Some(NormalStockLabel)))
      && r.summary.value.totalRecords == |r.data|
      && r.summary.value.totalValue == StockValue(f)
      && r.summary.value.totalValue == SumReal(r.data, NoteValue)
      && CountWhere(r.data, IsLowStockRow) == CountWhere(f, IsLowStock)
      && r.summary.value.additionalMetrics == map[
           "LowStockItems" := IntMetric(CountWhere(r.data, IsLowStockRow)),
           "AverageStockValue" := DecimalMetric(Ratio(StockValue(f), |r.data|))]
  {
    var f := FilterProducts(products, parameters);
    var rows := InventoryRows(f, now);
    var total := StockValue(f);
    var lowStockCount := CountWhere(f, IsLowStock);
    SumRealMap(f, rows, LineValue, NoteValue);
    CountWhereMap(f, rows, IsLowStock, IsLowStockRow);
    NewCustomReport(now).(
      title := Some("Relatório de Inventário"),
      reportType := Some("Inventory"),
      data := rows,
      summary := Some(NewReportSummary().(
        totalRecords := |rows|,
        totalValue := total,
        additionalMetrics := map[
          "LowStockItems" := IntMetric(lowStockCount),
          "AverageStockValue" := DecimalMetric(Ratio(total, |rows|))])))
  }

  // ---------------------------------------------------------------------------
  // Performance report

  /** `CalculatePerformanceScore`: the mean of a price score capped at 10, a
      stock score (stock / 10, truncating, capped at 10) and a fixed 5. */
  function PerformanceScore(p: Product): (s: real)
    ensures p.price >= 0.0 && p.stock >= 0 ==> 5.0 / 3.0 <= s <= 25.0 / 3.0
  {
    var priceScore := MinReal(p.price / 100.0, 10.0);
    var stockScore := MinInt(TruncDiv(p.stock, 10), 10);
    (priceScore + stockScore as real + 5.0) / 3.0
  }

  /** `GetPerformanceCategory`: four bands with inclusive lower bounds. */
  function PerformanceCategory(score: real): (band: string)
    ensures band == HighPerformance <==> score >= 8.0
    ensures band == MediumPerformance <==> 6.0 <= score < 8.0
    ensures band == LowPerformance <==> 4.0 <= score < 6.0
    ensures band == CriticalPerformance <==> score < 4.0
  {
    if score >= 8.0 then HighPerformance
    else if score >= 6.0 then MediumPerformance
    else if score >= 4.0 then LowPerformance
    else CriticalPerformance
  }

  /** Position of a band from worst (0) to best (3). */
  function BandRank(band: string): int {
    if band == HighPerformance then 3
    else if band == MediumPerformance then 2
    else if band == LowPerformance then 1
    else 0
  }

  /** A higher score never lands in a worse band. */
  lemma PerformanceCategoryMonotone(s1: real, s2: real)
    requires s1 <= s2
    ensures BandRank(PerformanceCategory(s1)) <= BandRank(PerformanceCategory(s2))
  {
  }

  /** Only an expensive, well-stocked product reaches the top band: a score of
      8 needs a price score of at least 9 and a stock score of at least 9. */
  lemma TopPerformerNeeds(p: Product)
    requires PerformanceScore(p) >= 8.0
    ensures p.price >= 900.0 && p.stock >= 90
  {
    var priceScore := MinReal(p.price / 100.0, 10.0);
    var stockScore := MinInt(TruncDiv(p.stock, 10), 10);
    assert priceScore + stockScore as real >= 19.0;
    assert stockScore >= 9;
    assert priceScore >= 9.0;
  }

  predicate IsTopPerformer(p: Product) {
    PerformanceScore(p) >= 8.0
  }

  predicate IsTopRow(row: ReportRow) {
    row.category == Some(HighPerformance)
  }

  function PerformanceRow(p: Product, now: int): ReportRow {
    var score := PerformanceScore(p);
    ReportRow(p.name, Fixed2(score), ScoreNote, Some(PerformanceCategory(score)), Some(now))
  }

  function PerformanceRows(f: seq<Product>, now: int): (rows: seq<ReportRow>)
    ensures |rows| == |f|
    ensures forall i :: 0 <= i < |f| ==> rows[i] == PerformanceRow(f[i], now)
  {
    seq(|f|, i requires 0 <= i < |f| => PerformanceRow(f[i], now))
  }

  /** `GenerateProductPerformanceReportAsync` */
  function PerformanceReport(products: seq<Product>, parameters: ReportParameters, now: int): (r: CustomReport)
    ensures r.title == Some("Relatório de Performance de Produtos") && r.reportType == Some("Performance")
    ensures r.generatedAt == now
    ensures r.summary.Some? && r.summary.value.currency == "BRL"
    ensures var f := FilterProducts(products, parameters);
      && |r.data| == |f|
      && (forall i :: 0 <= i < |f| ==>
            && r.data[i].key == f[i].name
            && RowAmount(r.data[i]) == PerformanceScore(f[i])
            && (IsTopRow(r.data[i]) <==> PerformanceScore(f[i]) >= 8.0))
      && r.summary.value.totalRecords == |r.data|
      && r.summary.value.totalValue == SumReal(f, PerformanceScore)
      && r.summary.value.totalValue == SumReal(r.data, RowAmount)
      && CountWhere(r.data, IsTopRow) == CountWhere(f, IsTopPerformer)
      && r.summary.value.additionalMetrics == map[
           "AverageScore" := DecimalMetric(Ratio(r.summary.value.totalValue, |f|)),
           "TopPerformers" := IntMetric(CountWhere(r.data, IsTopRow))]
  {
    var f := FilterProducts(products, parameters);
    var rows := PerformanceRows(f, now);
    var total := SumReal(f, PerformanceScore);
    SumRealMap(f, rows, PerformanceScore, RowAmount);
    CountWhereMap(f, rows, IsTopPerformer, IsTopRow);
    NewCustomReport(now).(
      title := Some("Relatório de Performance de Produtos"),
      reportType := Some("Performance"),
      data := rows,
      summary := Some(NewReportSummary().(
        totalRecords := |rows|,
        totalValue := total,
        additionalMetrics := map[
          "AverageScore" := DecimalMetric(Ratio(total, |f|)),
          "TopPerformers" := IntMetric(CountWhere(rows, IsTopRow))])))
  }

  /** With non-negative prices and stocks every score, and so the average
      score, lies in [5/3, 25/3]. */
  lemma {:induction false} PerformanceTotalBounds(f: seq<Product>)
    requires forall i :: 0 <= i < |f| ==> f[i].price >= 0.0 && f[i].stock >= 0
    ensures (5.0 / 3.0) * (|f| as real) <= SumReal(f, PerformanceScore) <= (25.0 / 3.0) * (|f| as real)
    decreases |f|
  {
    if |f| > 0 {
      PerformanceTotalBounds(f[..|f| - 1]);
      assert PerformanceScore(f[|f| - 1]) <= 25.0 / 3.0;
    }
  }

  // ---------------------------------------------------------------------------
  // Default report

  /** `GenerateDefaultReportAsync`: two fixed rows over the whole catalogue; the
      parameters are not consulted. */
  function DefaultReport(products: seq<Product>, now: int): (r: CustomReport)
    ensures r.title == Some("Relatório Personalizado") && r.reportType == Some("Default") && r.generatedAt == now
    ensures |r.data| == 2
    ensures r.data[0].key == "TotalProdutos" && r.data[0].value == Count(|products|)
    ensures r.data[1].key == "ValorTotalEstoque" && r.data[1].value == Currency(StockValue(products))
    ensures r.data[0].category.None? && r.data[0].date.None? && r.data[1].category.None? && r.data[1].date.None?
    ensures r.summary.Some?
    ensures r.summary.value.totalRecords == 2 && r.summary.value.totalValue == StockValue(products)
    ensures r.summary.value.currency == "BRL" && r.summary.value.additionalMetrics == map[]
  {
    var totalValue := StockValue(products);
    NewCustomReport(now).(
      title := Some("Relatório Personalizado"),
      reportType := Some("Default"),
      data := [
        ReportRow("TotalProdutos", Count(|products|), TotalProductsNote, None, None),
        ReportRow("ValorTotalEstoque", Currency(totalValue), TotalStockValueNote, None, None)],
      summary := Some(NewReportSummary().(totalRecords := 2, totalValue := totalValue)))
  }
}
