/** Read-only views of the catalogue: the stock dashboard and the product
    search. */
module ProductQueries {
  import opened Wrappers
  import opened Sums
  import opened Text
  import opened Catalog

  // ---------------------------------------------------------------------------
  // Dashboard

  datatype ProductStock = ProductStock(productName: string, stock: int)

  datatype DashboardStock = DashboardStock(totalProducts: int, totalStockValue: real, lowStockProducts: seq<ProductStock>)

  const DashboardLowStock: int := 10

  predicate IsLow(p: Product) {
    p.stock < DashboardLowStock
  }

  function StockEntry(p: Product): ProductStock {
    ProductStock(p.name, p.stock)
  }

  /** The low-stock entries, in catalogue order. */
  function LowStockEntries(ps: seq<Product>): (entries: seq<ProductStock>)
    ensures |entries| == CountWhere(ps, IsLow)
    ensures forall e :: e in entries <==> exists i :: 0 <= i < |ps| && ps[i].stock < 10 && e == StockEntry(ps[i])
    ensures forall k :: 0 <= k < |entries| ==> entries[k].stock < 10
  {
    if |ps| == 0 then []
    else
      var init, last := ps[..|ps| - 1], ps[|ps| - 1];
      assert forall i :: 0 <= i < |init| ==> init[i] == ps[i];
      LowStockEntries(init) + (if IsLow(last) then [StockEntry(last)] else [])
  }

  /** The aggregate of `GetDashboardstockData`. */
  function Dashboard(ps: seq<Product>): (d: DashboardStock)
    ensures d.totalProducts == |ps|
    ensures d.totalStockValue == StockValue(ps)
    ensures |d.lowStockProducts| == CountWhere(ps, IsLow)
    ensures forall e :: e in d.lowStockProducts <==>
      exists i :: 0 <= i < |ps| && ps[i].stock < 10 && e == ProductStock(ps[i].name, ps[i].stock)
    ensures forall k :: 0 <= k < |d.lowStockProducts| ==> d.lowStockProducts[k].stock < 10
  {
    DashboardStock(|ps|, StockValue(ps), LowStockEntries(ps))
  }

  /** An empty catalogue: no products, no value, no low-stock entries. */
  lemma DashboardEmpty()
    ensures Dashboard([]) == DashboardStock(0, 0.0, [])
  {
  }

  /** Stocks 5, 20 and 8 give exactly the entries for 5 and 8, in order. */
  lemma DashboardExample(x: Product, y: Product, z: Product)
    requires x.stock == 5 && y.stock == 20 && z.stock == 8
    ensures Dashboard([x, y, z]).lowStockProducts == [ProductStock(x.name, 5), ProductStock(z.name, 8)]
  {
    assert [x, y, z][..2] == [x, y];
    assert [x, y][..1] == [x];
    assert [x][..0] == [];
    assert LowStockEntries([x]) == [StockEntry(x)];
    assert LowStockEntries([x, y]) == [StockEntry(x)];
  }

  // ---------------------------------------------------------------------------
  // Search

  /** The three optional filters of `SearchAsync`; a null or blank name is no
      filter, and both price bounds are inclusive. */
  predicate MatchesSearch(p: Product, name: Option<string>, minPrice: Option<real>, maxPrice: Option<real>) {
    && (!IsNullOrWhiteSpace(name) ==> Contains(p.name, name.value))
    && (minPrice.Some? ==> p.price >= minPrice.value)
    && (maxPrice.Some? ==> p.price <= maxPrice.value)
  }

  /** `ProductRepository.SearchAsync` over the products table. */
  function Search(ps: seq<Product>, name: Option<string>, minPrice: Option<real>, maxPrice: Option<real>): (r: seq<Product>)
    ensures |r| <= |ps|
  {
    if |ps| == 0 then []
    else
      var init, last := ps[..|ps| - 1], ps[|ps| - 1];
      Search(init, name, minPrice, maxPrice) + (if MatchesSearch(last, name, minPrice, maxPrice) then [last] else [])
  }

  /** A product is found exactly when it is in the catalogue and passes every
      filter given. */
  lemma {:induction false} SearchMembers(ps: seq<Product>, name: Option<string>, minPrice: Option<real>, maxPrice: Option<real>, p: Product)
    ensures p in Search(ps, name, minPrice, maxPrice) <==> p in ps && MatchesSearch(p, name, minPrice, maxPrice)
    decreases |ps|
  {
    if |ps| > 0 {
      SearchMembers(ps[..|ps| - 1], name, minPrice, maxPrice, p);
      assert ps == ps[..|ps| - 1] + [ps[|ps| - 1]];
    }
  }

  /** The search keeps the catalogue order: it commutes with concatenation. */
  lemma {:induction false} SearchAppend(a: seq<Product>, b: seq<Product>, name: Option<string>, minPrice: Option<real>, maxPrice: Option<real>)
    ensures Search(a + b, name, minPrice, maxPrice) == Search(a, name, minPrice, maxPrice) + Search(b, name, minPrice, maxPrice)
    decreases |b|
  {
    if |b| == 0 {
      assert a + b == a;
    } else {
      assert (a + b)[..|a + b| - 1] == a + b[..|b| - 1];
      SearchAppend(a, b[..|b| - 1], name, minPrice, maxPrice);
    }
  }

  /** With no filter at all every product is returned. */
  lemma {:induction false} SearchUnfiltered(ps: seq<Product>, name: Option<string>)
    requires IsNullOrWhiteSpace(name)
    ensures Search(ps, name, None, None) == ps
    decreases |ps|
  {
    if |ps| > 0 {
      SearchUnfiltered(ps[..|ps| - 1], name);
      assert ps == ps[..|ps| - 1] + [ps[|ps| - 1]];
    }
  }

  /** Crossed price bounds select nothing. */
  lemma SearchCrossedBounds(ps: seq<Product>, name: Option<string>, lo: real, hi: real)
    requires lo > hi
    ensures Search(ps, name, Some(lo), Some(hi)) == []
  {
    var r := Search(ps, name, Some(lo), Some(hi));
    if |r| > 0 {
      SearchMembers(ps, name, Some(lo), Some(hi), r[0]);
    }
  }
}
