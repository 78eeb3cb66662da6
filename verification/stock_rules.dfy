/** The stock adjustment services: just-in-time levelling, threshold
    replenishment and customer returns. A repository `Update` is modelled as
    the updated product it receives; the list of those, in call order, is the
    observable effect of each service. */
module StockRules {
  import opened Wrappers
  import opened Sums
  import opened Catalog

  // ---------------------------------------------------------------------------
  // Just-in-time levelling

  const TargetStock: int := 10

  /** Outside the band [TargetStock / 2, TargetStock] a product is reset. */
  predicate NeedsLevelling(p: Product) {
    p.stock > TargetStock || p.stock < TruncDiv(TargetStock, 2)
  }

  /** The product as it stands after the levelling rule. */
  function Level(p: Product): (q: Product)
    ensures p.stock > 10 ==> q.stock == 10
    ensures p.stock < 5 ==> q.stock == 10
    ensures 5 <= p.stock <= 10 ==> q == p
    ensures 5 <= q.stock <= 10
    ensures q == p.(stock := q.stock)
  {
    if NeedsLevelling(p) then p.(stock := TargetStock) else p
  }

  function Levelled(ps: seq<Product>): (r: seq<Product>)
    ensures |r| == |ps|
    ensures forall i :: 0 <= i < |ps| ==> r[i] == Level(ps[i])
  {
    seq(|ps|, i requires 0 <= i < |ps| => Level(ps[i]))
  }

  /** The `Update` calls of a levelling run, in order: one per product that
      needed it, levelled. */
  function LevellingUpdates(ps: seq<Product>): (u: seq<Product>)
    ensures |u| == CountWhere(ps, NeedsLevelling)
    ensures forall i :: 0 <= i < |u| ==> u[i].stock == TargetStock
    ensures u == Levelled(Where(ps, NeedsLevelling))
  {
    if |ps| == 0 then []
    else
      var last := ps[|ps| - 1];
      LevelledAppend(Where(ps[..|ps| - 1], NeedsLevelling), if NeedsLevelling(last) then [last] else []);
      LevellingUpdates(ps[..|ps| - 1]) + (if NeedsLevelling(last) then [Level(last)] else [])
  }

  lemma LevelledAppend(a: seq<Product>, b: seq<Product>)
    ensures Levelled(a + b) == Levelled(a) + Levelled(b)
  {
    assert forall i :: 0 <= i < |a + b| ==> Levelled(a + b)[i] == (Levelled(a) + Levelled(b))[i];
  }

  /** `OptimizeInventoryAsync` over a snapshot of the products: returns the
      products as left by the run and the updates issued. */
  method OptimizeInventory(products: seq<Product>) returns (after: seq<Product>, updates: seq<Product>)
    ensures |after| == |products|
    ensures forall i :: 0 <= i < |products| ==> after[i] == products[i].(stock := after[i].stock)
    ensures forall i :: 0 <= i < |products| ==> 5 <= after[i].stock <= 10
    ensures forall i :: 0 <= i < |products| && 5 <= products[i].stock <= 10 ==> after[i] == products[i]
    ensures forall i :: 0 <= i < |products| && !(5 <= products[i].stock <= 10) ==> after[i].stock == 10
    ensures updates == LevellingUpdates(products)
    ensures updates == Levelled(Where(products, NeedsLevelling))
    ensures |updates| == CountWhere(products, NeedsLevelling)
  {
    after := [];
    updates := [];
    var i := 0;
    while i < |products|
      invariant 0 <= i <= |products|
      invariant after == Levelled(products[..i])
      invariant updates == LevellingUpdates(products[..i])
    {
      var product := products[i];
      LevellingStep(products, i);
      if product.stock > TargetStock {
        product := product.(stock := TargetStock);
        updates := updates + [product];
      } else if product.stock < TruncDiv(TargetStock, 2) {
        product := product.(stock := TargetStock);
        updates := updates + [product];
      }
      after := after + [product];
      i := i + 1;
    }
    assert products[..i] == products;
  }

  /** One more product extends the levelled products and the updates by that
      product's own outcome. */
  lemma LevellingStep(ps: seq<Product>, i: int)
    requires 0 <= i < |ps|
    ensures Levelled(ps[..i + 1]) == Levelled(ps[..i]) + [Level(ps[i])]
    ensures LevellingUpdates(ps[..i + 1]) ==
      LevellingUpdates(ps[..i]) + (if NeedsLevelling(ps[i]) then [Level(ps[i])] else [])
  {
    assert ps[..i + 1][..i] == ps[..i];
  }

  /** A second run over the levelled products changes nothing and issues no
      update. */
  lemma LevellingIdempotent(ps: seq<Product>)
    ensures Levelled(Levelled(ps)) == Levelled(ps)
    ensures LevellingUpdates(Levelled(ps)) == []
  {
    var once := Levelled(ps);
    NoLevellingNeeded(once);
  }

  lemma {:induction false} NoLevellingNeeded(ps: seq<Product>)
    requires forall i :: 0 <= i < |ps| ==> 5 <= ps[i].stock <= 10
    ensures LevellingUpdates(ps) == []
    decreases |ps|
  {
    if |ps| > 0 {
      NoLevellingNeeded(ps[..|ps| - 1]);
    }
  }

  /** An update is issued exactly for the products the run changes. */
  lemma LevellingUpdatesChanged(p: Product)
    ensures NeedsLevelling(p) <==> Level(p) != p
  {
  }

  // ---------------------------------------------------------------------------
  // Threshold replenishment

  /** Every listed product raised by `quantity`, nothing else changed. */
  function Replenished(low: seq<Product>, quantity: int): (updates: seq<Product>)
    ensures |updates| == |low|
    ensures forall i :: 0 <= i < |low| ==>
      && updates[i].stock == low[i].stock + quantity
      && updates[i] == low[i].(stock := updates[i].stock)
  {
    seq(|low|, i requires 0 <= i < |low| => low[i].(stock := low[i].stock + quantity))
  }

  /** `ReplenishStockAsync(threshold, replenishQuantity)`. `lowStock` stands for
      the repository's `GetLowStockAsync`, whose query is not part of this
      model; the result is the updates issued, one per product returned, in
      the order returned. */
  function ReplenishStock(lowStock: int -> seq<Product>, threshold: int, quantity: int): (updates: seq<Product>)
    ensures |updates| == |lowStock(threshold)|
    ensures forall i :: 0 <= i < |updates| ==>
      && updates[i].stock == lowStock(threshold)[i].stock + quantity
      && updates[i] == lowStock(threshold)[i].(stock := updates[i].stock)
  {
    Replenished(lowStock(threshold), quantity)
  }

  const DefaultThreshold: int := 10
  const DefaultReplenishQuantity: int := 50

  /** The parameterless `ReplenishStockAsync`. */
  function ReplenishStockDefault(lowStock: int -> seq<Product>): (updates: seq<Product>)
    ensures updates == ReplenishStock(lowStock, 10, 50)
  {
    Replenished(lowStock(DefaultThreshold), DefaultReplenishQuantity)
  }

  /** The store after the updates were saved one after the other. */
  function SaveAll(store: map<int, Product>, updates: seq<Product>): map<int, Product> {
    if |updates| == 0 then store
    else
      var last := updates[|updates| - 1];
      SaveAll(store, updates[..|updates| - 1])[last.id := last]
  }

  predicate DistinctIds(ps: seq<Product>) {
    forall i, j :: 0 <= i < j < |ps| ==> ps[i].id != ps[j].id
  }

  /** The ids of a list of products. */
  function Ids(ps: seq<Product>): (ids: set<int>)
    ensures forall i :: 0 <= i < |ps| ==> ps[i].id in ids
    ensures forall id :: id in ids ==> exists i :: 0 <= i < |ps| && ps[i].id == id
  {
    if |ps| == 0 then {}
    else
      var init := ps[..|ps| - 1];
      assert forall i :: 0 <= i < |init| ==> init[i] == ps[i];
      Ids(init) + {ps[|ps| - 1].id}
  }

  lemma {:induction false} SaveAllKeys(store: map<int, Product>, updates: seq<Product>)
    ensures SaveAll(store, updates).Keys == store.Keys + Ids(updates)
    decreases |updates|
  {
    if |updates| > 0 {
      SaveAllKeys(store, updates[..|updates| - 1]);
    }
  }

  lemma {:induction false} SaveAllOthers(store: map<int, Product>, updates: seq<Product>, id: int)
    requires id in store && id !in Ids(updates)
    ensures id in SaveAll(store, updates) && SaveAll(store, updates)[id] == store[id]
    decreases |updates|
  {
    if |updates| > 0 {
      SaveAllOthers(store, updates[..|updates| - 1], id);
    }
  }

  lemma {:induction false} SaveAllStored(store: map<int, Product>, updates: seq<Product>, i: int)
    requires DistinctIds(updates) && 0 <= i < |updates|
    ensures updates[i].id in SaveAll(store, updates) && SaveAll(store, updates)[updates[i].id] == updates[i]
    decreases |updates|
  {
    if i < |updates| - 1 {
      var init := updates[..|updates| - 1];
      assert init[i] == updates[i];
      SaveAllStored(store, init, i);
    }
  }

  /** Replenishing the products the store reports as low raises exactly those
      by the quantity; every other product, and every field but the stock, is
      left as it was. */
  lemma ReplenishStore(store: map<int, Product>, low: seq<Product>, quantity: int)
    requires DistinctIds(low)
    requires forall i :: 0 <= i < |low| ==> low[i].id in store && store[low[i].id] == low[i]
    ensures var after := SaveAll(store, Replenished(low, quantity));
      && after.Keys == store.Keys
      && (forall i :: 0 <= i < |low| ==> after[low[i].id] == low[i].(stock := low[i].stock + quantity))
      && (forall id :: id in store && id !in Ids(low) ==> after[id] == store[id])
  {
    var u := Replenished(low, quantity);
    assert forall i :: 0 <= i < |low| ==> u[i].id == low[i].id;
    assert Ids(u) == Ids(low);
    SaveAllKeys(store, u);
    forall i | 0 <= i < |low|
      ensures SaveAll(store, u)[low[i].id] == low[i].(stock := low[i].stock + quantity)
    {
      SaveAllStored(store, u, i);
    }
    forall id | id in store && id !in Ids(low)
      ensures SaveAll(store, u)[id] == store[id]
    {
      SaveAllOthers(store, u, id);
    }
  }

  /** Stocks 5 and 8 with the defaults become 55 and 58. */
  lemma ReplenishDefaultExample(a: Product, b: Product)
    requires a.stock == 5 && b.stock == 8
    ensures var u := ReplenishStockDefault(t => if t == 10 then [a, b] else []);
      |u| == 2 && u[0].stock == 55 && u[1].stock == 58
  {
  }

  // ---------------------------------------------------------------------------
  // Returns

  datatype ReturnProductRequest = ReturnProductRequest(orderId: int, productId: int, quantity: int, returnReason: Option<string>)

  datatype ReturnRecord = ReturnRecord(
    orderId: int, productId: int, quantity: int, returnReason: Option<string>, returnDate: int, status: string)

  /** The effect of a return: the answer, the product saved and the record
      added, if any. */
  datatype ReturnOutcome = ReturnOutcome(accepted: bool, updated: Option<Product>, record: Option<ReturnRecord>)

  /** `ProcessReturnAsync`; `found` is what `GetByIdAsync(ProductId)` answered. */
  function ProcessReturn(found: Option<Product>, request: ReturnProductRequest, now: int): (o: ReturnOutcome)
    ensures o.accepted <==> found.Some?
    ensures !o.accepted ==> o.updated.None? && o.record.None?
    ensures o.accepted ==> o.updated.Some? && o.record.Some?
    ensures o.accepted ==> o.updated.value == found.value.(stock := found.value.stock + request.quantity)
    ensures o.accepted ==>
      var rec := o.record.value;
      && rec.orderId == request.orderId && rec.productId == request.productId
      && rec.quantity == request.quantity && rec.returnReason == request.returnReason
      && rec.status == "Approved" && rec.returnDate == now
  {
    match found
    case None => ReturnOutcome(false, None, None)
    case Some(product) =>
      var record := ReturnRecord(request.orderId, request.productId, request.quantity, request.returnReason, now, "Approved");
      ReturnOutcome(true, Some(product.(stock := product.stock + request.quantity)), Some(record))
  }

  /** Two accepted returns of the same product add both quantities. */
  lemma ReturnsAccumulate(p: Product, r1: ReturnProductRequest, r2: ReturnProductRequest, t1: int, t2: int)
    ensures var first := ProcessReturn(Some(p), r1, t1).updated.value;
      ProcessReturn(Some(first), r2, t2).updated.value.stock == p.stock + r1.quantity + r2.quantity
  {
  }

  /** Stock 5 with a return of 2 gives 7. */
  lemma ReturnExample(p: Product, request: ReturnProductRequest, now: int)
    requires p.stock == 5 && request.quantity == 2
    ensures ProcessReturn(Some(p), request, now).updated.value.stock == 7
  {
  }
}
