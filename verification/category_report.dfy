/** The category report: the products grouped by category id, one row per
    group in order of first appearance, the whole catalogue unfiltered. */
module CategoryReports {
  import opened Wrappers
  import opened Sums
  import opened Catalog
  import opened ReportDto

  const UnknownCategory: string := "Categoria Desconhecida"

  /** The distinct category ids of the products, in order of first appearance
      (the keys `GroupBy` produces). */
  function CategoryKeys(ps: seq<Product>): (keys: seq<int>)
    ensures forall i, j :: 0 <= i < j < |keys| ==> keys[i] != keys[j]
    ensures forall n :: 0 <= n < |ps| ==> ps[n].categoryId in keys
    ensures forall k :: k in keys ==> exists n :: 0 <= n < |ps| && ps[n].categoryId == k
    ensures |keys| <= |ps|
  {
    if |ps| == 0 then []
    else
      var init := ps[..|ps| - 1];
      var prior := CategoryKeys(init);
      var c := ps[|ps| - 1].categoryId;
      assert forall n :: 0 <= n < |init| ==> init[n] == ps[n];
      if c in prior then prior else prior + [c]
  }

  /** New products never reorder or drop the groups already seen. */
  lemma {:induction false} CategoryKeysPrefix(a: seq<Product>, b: seq<Product>)
    ensures CategoryKeys(a) <= CategoryKeys(a + b)
    decreases |b|
  {
    if |b| > 0 {
      assert (a + b)[..|a + b| - 1] == a + b[..|b| - 1];
      CategoryKeysPrefix(a, b[..|b| - 1]);
    } else {
      assert a + b == a;
    }
  }

  /** The products whose category id lies in `ids`, in their original order. */
  function GroupIn(ps: seq<Product>, ids: set<int>): (g: seq<Product>)
    ensures |g| <= |ps|
    ensures forall i :: 0 <= i < |g| ==> g[i].categoryId in ids
  {
    if |ps| == 0 then []
    else
      GroupIn(ps[..|ps| - 1], ids) + (if ps[|ps| - 1].categoryId in ids then [ps[|ps| - 1]] else [])
  }

  /** One group of `GroupBy(p => p.CategoryId)`. */
  function Group(ps: seq<Product>, k: int): seq<Product> {
    GroupIn(ps, {k})
  }

  /** Sum over the groups named by `keys` of `f` summed inside the group. */
  function GroupTotal(ps: seq<Product>, keys: seq<int>, f: Product -> real): real {
    if |keys| == 0 then 0.0
    else GroupTotal(ps, keys[..|keys| - 1], f) + SumReal(Group(ps, keys[|keys| - 1]), f)
  }

  /** Selecting by two disjoint id sets splits the sum in two. */
  lemma {:induction false} GroupInUnion(ps: seq<Product>, s: set<int>, t: set<int>, f: Product -> real)
    requires s !! t
    ensures SumReal(GroupIn(ps, s + t), f) == SumReal(GroupIn(ps, s), f) + SumReal(GroupIn(ps, t), f)
    decreases |ps|
  {
    if |ps| > 0 {
      var init, last := ps[..|ps| - 1], ps[|ps| - 1];
      GroupInUnion(init, s, t, f);
      var x := if last.categoryId in s + t then [last] else [];
      var xs := if last.categoryId in s then [last] else [];
      var xt := if last.categoryId in t then [last] else [];
      SumRealAppend(GroupIn(init, s + t), x, f);
      SumRealAppend(GroupIn(init, s), xs, f);
      SumRealAppend(GroupIn(init, t), xt, f);
    }
  }

  /** Selecting by a set that covers every product's id selects everything. */
  lemma {:induction false} GroupInAll(ps: seq<Product>, ids: set<int>)
    requires forall n :: 0 <= n < |ps| ==> ps[n].categoryId in ids
    ensures GroupIn(ps, ids) == ps
    decreases |ps|
  {
    if |ps| > 0 {
      GroupInAll(ps[..|ps| - 1], ids);
      assert ps == ps[..|ps| - 1] + [ps[|ps| - 1]];
    }
  }

  /** Summing group by group over distinct keys is summing over the products of
      all those groups at once. */
  lemma {:induction false} GroupTotalIsGroupIn(ps: seq<Product>, keys: seq<int>, f: Product -> real)
    requires forall i, j :: 0 <= i < j < |keys| ==> keys[i] != keys[j]
    ensures GroupTotal(ps, keys, f) == SumReal(GroupIn(ps, set k | k in keys), f)
    decreases |keys|
  {
    if |keys| == 0 {
      GroupInEmpty(ps);
    } else {
      var init, last := keys[..|keys| - 1], keys[|keys| - 1];
      GroupTotalIsGroupIn(ps, init, f);
      var prior := set k | k in init;
      assert keys == init + [last];
      KeySetSnoc(init, last);
      assert last !in prior;
      GroupInUnion(ps, prior, {last}, f);
      assert GroupTotal(ps, keys, f) == GroupTotal(ps, init, f) + SumReal(GroupIn(ps, {last}), f);
    }
  }

  lemma KeySetSnoc(init: seq<int>, last: int)
    ensures (set k | k in init + [last]) == (set k | k in init) + {last}
  {
  }

  lemma {:induction false} GroupInEmpty(ps: seq<Product>)
    ensures GroupIn(ps, {}) == []
    decreases |ps|
  {
    if |ps| > 0 {
      GroupInEmpty(ps[..|ps| - 1]);
    }
  }

  /** The groups of the category report partition the catalogue: any per-product
      quantity summed over the groups is its sum over all products. */
  lemma GroupsPartition(ps: seq<Product>, f: Product -> real)
    ensures GroupTotal(ps, CategoryKeys(ps), f) == SumReal(ps, f)
  {
    var keys := CategoryKeys(ps);
    GroupTotalIsGroupIn(ps, keys, f);
    GroupInAll(ps, set k | k in keys);
  }

  /** `categories[i]` is the first category registered under `id`. */
  predicate FirstWithId(categories: seq<Category>, id: int, i: int) {
    0 <= i < |categories| && categories[i].id == id && forall j :: 0 <= j < i ==> categories[j].id != id
  }

  /** The first category registered under `id`, like `FirstOrDefault`. */
  function FindCategory(categories: seq<Category>, id: int): (c: Option<Category>)
    ensures c.Some? ==> c.value in categories && c.value.id == id
    ensures c.None? <==> forall i :: 0 <= i < |categories| ==> categories[i].id != id
    ensures forall i :: FirstWithId(categories, id, i) ==> c == Some(categories[i])
  {
    if |categories| == 0 then None
    else if categories[0].id == id then Some(categories[0])
    else
      assert forall i :: FirstWithId(categories, id, i) ==> FirstWithId(categories[1..], id, i - 1);
      FindCategory(categories[1..], id)
  }

  /** The row key of a group: the name of the first category registered under
      the group's id, or the fallback label when there is no such category or
      it has no name. */
  function CategoryName(categories: seq<Category>, id: int): (name: string)
    ensures name != UnknownCategory ==> exists i :: 0 <= i < |categories| && categories[i].id == id && categories[i].name == Some(name)
    ensures forall i :: FirstWithId(categories, id, i) && categories[i].name.Some? ==> name == categories[i].name.value
    ensures forall i :: FirstWithId(categories, id, i) && categories[i].name.None? ==> name == UnknownCategory
    ensures (forall i :: 0 <= i < |categories| ==> categories[i].id != id) ==> name == UnknownCategory
  {
    match FindCategory(categories, id)
    case Some(Category(_, Some(n))) => n
    case _ => UnknownCategory
  }

  /** A registered id has a first registration. */
  lemma {:induction false} FirstWithIdExists(categories: seq<Category>, id: int, k: int)
    requires 0 <= k < |categories| && categories[k].id == id
    ensures exists i :: FirstWithId(categories, id, i)
    decreases |categories|
  {
    if categories[0].id == id {
      assert FirstWithId(categories, id, 0);
    } else {
      FirstWithIdExists(categories[1..], id, k - 1);
      var i :| FirstWithId(categories[1..], id, i);
      assert FirstWithId(categories, id, i + 1);
    }
  }

  /** Categories registered after one carrying `id` do not change the name a
      group with that id gets. */
  lemma CategoryNameIgnoresLater(categories: seq<Category>, later: seq<Category>, id: int, k: int)
    requires 0 <= k < |categories| && categories[k].id == id
    ensures CategoryName(categories + later, id) == CategoryName(categories, id)
  {
    FirstWithIdExists(categories, id, k);
    var i :| FirstWithId(categories, id, i);
    assert FirstWithId(categories + later, id, i);
  }

  function One(p: Product): real {
    1.0
  }

  lemma {:induction false} SumOneIsLength(s: seq<Product>)
    ensures SumReal(s, One) == |s| as real
    decreases |s|
  {
    if |s| > 0 {
      SumOneIsLength(s[..|s| - 1]);
    }
  }

  function CategoryRow(ps: seq<Product>, categories: seq<Category>, id: int, now: int): ReportRow {
    var group := Group(ps, id);
    var value := StockValue(group);
    ReportRow(CategoryName(categories, id), Count(|group|), CategoryNote(|group|, value), Some("Categoria"), Some(now))
  }

  function CategoryRows(ps: seq<Product>, categories: seq<Category>, keys: seq<int>, now: int): (rows: seq<ReportRow>)
    ensures |rows| == |keys|
    ensures forall i :: 0 <= i < |keys| ==> rows[i] == CategoryRow(ps, categories, keys[i], now)
  {
    seq(|keys|, i requires 0 <= i < |keys| => CategoryRow(ps, categories, keys[i], now))
  }

  /** The rows' stock values and product counts add up group by group. */
  lemma {:induction false} CategoryRowsTotals(ps: seq<Product>, categories: seq<Category>, keys: seq<int>, now: int)
    ensures SumReal(CategoryRows(ps, categories, keys, now), NoteValue) == GroupTotal(ps, keys, LineValue)
    ensures (SumInt(CategoryRows(ps, categories, keys, now), RowCount) as real) == GroupTotal(ps, keys, One)
    decreases |keys|
  {
    if |keys| > 0 {
      var init := keys[..|keys| - 1];
      var rows := CategoryRows(ps, categories, keys, now);
      var prior := CategoryRows(ps, categories, init, now);
      assert rows == prior + [rows[|rows| - 1]];
      CategoryRowsTotals(ps, categories, init, now);
      SumRealAppend(prior, [rows[|rows| - 1]], NoteValue);
      SumIntAppend(prior, [rows[|rows| - 1]], RowCount);
      SumOneIsLength(Group(ps, keys[|keys| - 1]));
    }
  }

  /** `GenerateCategoryReportAsync`: the filters of the parameters are not
      applied. */
  function CategoryReport(products: seq<Product>, categories: seq<Category>, now: int): (r: CustomReport)
    ensures r.title == Some("Relatório por Categoria") && r.reportType == Some("Category") && r.generatedAt == now
    ensures r.summary.Some? && r.summary.value.currency == "BRL"
    ensures var keys := CategoryKeys(products);
      && |r.data| == |keys|
      && (forall i :: 0 <= i < |keys| ==>
            && r.data[i].key == CategoryName(categories, keys[i])
            && r.data[i].value == Count(|Group(products, keys[i])|)
            && NoteValue(r.data[i]) == StockValue(Group(products, keys[i])))
      && r.summary.value.totalRecords == |r.data|
      && r.summary.value.totalValue == StockValue(products)
      && r.summary.value.totalValue == SumReal(r.data, NoteValue)
      && SumInt(r.data, RowCount) == |products|
      && r.summary.value.additionalMetrics == map[
           "TotalCategories" := IntMetric(|r.data|),
           "AverageCategoryValue" := DecimalMetric(Ratio(StockValue(products), |r.data|))]
  {
    var keys := CategoryKeys(products);
    var rows := CategoryRows(products, categories, keys, now);
    var total := GroupTotal(products, keys, LineValue);
    CategoryRowsTotals(products, categories, keys, now);
    GroupsPartition(products, LineValue);
    GroupsPartition(products, One);
    SumOneIsLength(products);
    NewCustomReport(now).(
      title := Some("Relatório por Categoria"),
      reportType := Some("Category"),
      data := rows,
      summary := Some(NewReportSummary().(
        totalRecords := |rows|,
        totalValue := total,
        additionalMetrics := map[
          "TotalCategories" := IntMetric(|rows|),
          "AverageCategoryValue" := DecimalMetric(Ratio(total, |rows|))])))
  }
}
