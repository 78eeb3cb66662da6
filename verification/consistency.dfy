/** Facts that tie separate views of the same catalogue together: the stock
    dashboard, the default report and an unfiltered inventory report. */
module CatalogueConsistency {
  import opened Wrappers
  import opened Sums
  import opened Catalog
  import opened ReportDto
  import opened CustomReports
  import opened ProductQueries

  /** On the same products, the dashboard, the default report and an
      unfiltered inventory report agree on the product count, the stock value
      and the number of low-stock products. */
  lemma DashboardAgreesWithReports(ps: seq<Product>, now: int)
    ensures var d := Dashboard(ps);
      var def := DefaultReport(ps, now);
      var inv := InventoryReport(ps, NewReportParameters(), now);
      && def.data[0].value == Count(d.totalProducts)
      && def.summary.value.totalValue == d.totalStockValue
      && inv.summary.value.totalValue == d.totalStockValue
      && inv.summary.value.totalRecords == d.totalProducts
      && inv.summary.value.additionalMetrics["LowStockItems"] == IntMetric(|d.lowStockProducts|)
  {
    CountWhereMap(ps, ps, IsLowStock, IsLow);
    var inv := InventoryReport(ps, NewReportParameters(), now);
    assert CountWhere(inv.data, IsLowStockRow) == CountWhere(ps, IsLowStock);
  }
}
