/** The product and category records the report engine, the stock rules and
    the dashboard read. */
module Catalog {
  import opened Wrappers
  import opened Sums

  /** The fields of the `Product` entity the core reads or writes. */
  datatype Product = Product(id: int, name: string, price: real, stock: int, categoryId: int)

  /** The `Category` entity: its name may be null. */
  datatype Category = Category(id: int, name: Option<string>)

  /** `p.Price * p.Stock` */
  function LineValue(p: Product): real {
    p.price * (p.stock as real)
  }

  /** Σ price·stock over a list of products. */
  function StockValue(ps: seq<Product>): real {
    SumReal(ps, LineValue)
  }

  /** C# `int / int`, which truncates toward zero (Dafny's `/` is Euclidean). */
  function TruncDiv(a: int, b: int): (q: int)
    requires b > 0
    ensures a >= 0 ==> q == a / b
    ensures a < 0 ==> -q == (-a) / b
  {
    if a >= 0 then a / b else -((-a) / b)
  }

  /** `Math.Min` on integers */
  function MinInt(a: int, b: int): (m: int)
    ensures m <= a && m <= b && (m == a || m == b)
  {
    if a <= b then a else b
  }

  /** `Math.Min` on decimals */
  function MinReal(a: real, b: real): (m: real)
    ensures m <= a && m <= b && (m == a || m == b)
  {
    if a <= b then a else b
  }

  /** `Math.Max` on integers */
  function MaxInt(a: int, b: int): (m: int)
    ensures m >= a && m >= b && (m == a || m == b)
  {
    if a >= b then a else b
  }
}
