/** The database the handlers share: the tables the core reads and writes,
    and the serial counters that hand out new ids. Every call into it is one
    sequential step (the single client sits behind a mutex). */
module Store {
  import opened Base
  import opened Text
  import opened Links

  /** Prices are fixed-point integers (the source's `f64`, stored as numeric). */
  type Money = int

  /** Calendar dates, as day numbers. */
  type Date = int

  /** A `product_prices` row. `remaining` is an `int4` column; `Database.Valid`
      keeps it in range. */
  datatype PriceRow = PriceRow(productId: I32, price: Money, priceType: string,
                               packageQuantity: I32, remaining: int, deleted: bool)

  /** A `discounts` row. */
  datatype DiscountRow = DiscountRow(name: string, kind: string, value: Money,
                                     startDate: Date, endDate: Date,
                                     minQuantity: I32, maxQuantity: I32,
                                     conditions: string, deleted: bool)

  /** A `products` row. */
  datatype ProductRow = ProductRow(name: string, imageUrl: string, brandId: I32, deleted: bool)

  /** An `orders` row. */
  datatype OrderRow = OrderRow(shopId: I32, userId: I32, status: string, total: Money, deleted: bool)

  /** An `order_details` row. `discountId` is NULL when no single discount
      link matched. */
  datatype DetailRow = DetailRow(orderId: int, priceId: I32, quantity: I32,
                                 priceAtOrder: Money, discountId: Option<int>)

  class Database {
    var prices: map<int, PriceRow>
    var discounts: map<int, DiscountRow>
    /** `product_discounts`: owner = discount id, member = price id. */
    var discountLinks: seq<Link>
    var products: map<int, ProductRow>
    /** `product_categories`: owner = product id, member = category id. */
    var categoryLinks: seq<Link>
    /** `brands` and `categories`, by id, to their names. */
    var brands: map<int, string>
    var categories: map<int, string>
    var orders: map<int, OrderRow>
    var details: seq<DetailRow>

    /** The last id each serial column handed out. Sequences are not
        transactional: once taken, an id stays taken after a rollback. */
    var priceSerial: nat
    var discountSerial: nat
    var productSerial: nat
    var orderSerial: nat

    /** Every stored id was handed out by its serial, every order line
        belongs to an order id already handed out, and stock fits `int4`. */
    predicate Valid()
      reads this
    {
      PricesValid(prices, priceSerial) && IdsValid(discounts, discountSerial) &&
      IdsValid(products, productSerial) && IdsValid(orders, orderSerial) &&
      DetailsValid(details, orderSerial)
    }

    /** An empty database. */
    constructor ()
      ensures Valid()
      ensures prices == map[] && discounts == map[] && discountLinks == []
      ensures products == map[] && categoryLinks == [] && brands == map[] && categories == map[]
      ensures orders == map[] && details == []
      ensures priceSerial == 0 && discountSerial == 0 && productSerial == 0 && orderSerial == 0
    {
      prices := map[];
      discounts := map[];
      discountLinks := [];
      products := map[];
      categoryLinks := [];
      brands := map[];
      categories := map[];
      orders := map[];
      details := [];
      priceSerial := 0;
      discountSerial := 0;
      productSerial := 0;
      orderSerial := 0;
    }
  }

  /** Every key of `rows` is an id the serial has handed out. */
  predicate IdsValid<T>(rows: map<int, T>, serial: nat)
  {
    forall id :: id in rows ==> 1 <= id <= serial
  }

  /** Price ids come from their serial and stock fits `int4`. */
  predicate PricesValid(prices: map<int, PriceRow>, serial: nat)
  {
    IdsValid(prices, serial) && forall id :: id in prices ==> InI32(prices[id].remaining)
  }

  /** Every order line belongs to an order id already handed out. */
  predicate DetailsValid(details: seq<DetailRow>, serial: nat)
  {
    forall i :: 0 <= i < |details| ==> 1 <= details[i].orderId <= serial
  }

  /** Handing out more ids keeps every table's ids in range. */
  lemma SerialGrows(orders: map<int, OrderRow>, details: seq<DetailRow>, serial: nat, serial': nat)
    requires IdsValid(orders, serial) && DetailsValid(details, serial) && serial <= serial'
    ensures IdsValid(orders, serial') && DetailsValid(details, serial')
  {
  }

  /** Soft-delete visibility: the row exists and has no `deleted_at`. */
  predicate Live(prices: map<int, PriceRow>, id: int)
  {
    id in prices && !prices[id].deleted
  }

  /** The outcome of the `k`-th statement of a multi-statement operation that
      is not wrapped in a transaction: `fault` names the first statement that
      fails, if any. */
  predicate Fails(fault: Option<nat>, k: nat)
  {
    fault == Some(k)
  }

  /** How many of `n` statements numbered `first .. first + n - 1` run to
      completion before the failing one. */
  function Completed(fault: Option<nat>, first: nat, n: nat): (c: nat)
    ensures c <= n
    ensures c < n <==> fault.Some? && first <= fault.value < first + n
    ensures c < n ==> Fails(fault, first + c)
  {
    if fault.Some? && first <= fault.value < first + n then fault.value - first else n
  }

  /** The insert loop: append one link per member, stopping at the first
      insert that fails. Statement numbers start at `first`. */
  method InsertLinks(links: seq<Link>, owner: int, members: seq<int>, fault: Option<nat>, first: nat)
    returns (out: seq<Link>, ok: bool)
    ensures out == links + Fresh(owner, members[..Completed(fault, first, |members|)])
    ensures ok <==> Completed(fault, first, |members|) == |members|
  {
    out := links;
    var i := 0;
    while i < |members|
      invariant 0 <= i <= |members|
      invariant i <= Completed(fault, first, |members|)
      invariant out == links + Fresh(owner, members[..i])
    {
      if Fails(fault, first + i) {
        return out, false;
      }
      FreshSnoc(owner, members[..i], members[i]);
      assert members[..i + 1] == members[..i] + [members[i]];
      out := out + [Link(owner, members[i], false)];
      i := i + 1;
    }
    assert members[..|members|] == members;
    ok := true;
  }

  lemma {:induction false} FreshSnoc(owner: int, members: seq<int>, m: int)
    ensures Fresh(owner, members + [m]) == Fresh(owner, members) + [Link(owner, m, false)]
  {
    var f := Fresh(owner, members + [m]);
    var g := Fresh(owner, members) + [Link(owner, m, false)];
    assert |f| == |g|;
    assert forall i :: 0 <= i < |f| ==> f[i] == g[i];
  }

  /** No id occurs twice. */
  predicate Distinct(ids: seq<int>)
  {
    forall i, j :: 0 <= i < j < |ids| ==> ids[i] != ids[j]
  }

  /** The ids of the rows a query returns. Which order the query returns
      them in, the model leaves open; the scan below yields them in ascending
      id order, each exactly once. `serial` bounds every id, as the table's
      serial column does. */
  method ScanIds(s: set<int>, serial: nat) returns (ids: seq<int>)
    requires forall id :: id in s ==> 1 <= id <= serial
    ensures forall id :: id in ids <==> id in s
    ensures Distinct(ids) && |ids| == |s|
  {
    ids := [];
    var k := 1;
    ghost var seen: set<int> := {};
    while k <= serial
      invariant 1 <= k <= serial + 1
      invariant forall id :: id in seen <==> id in s && id < k
      invariant forall id :: id in ids <==> id in seen
      invariant forall i :: 0 <= i < |ids| ==> ids[i] < k
      invariant Distinct(ids) && |ids| == |seen|
    {
      if k in s {
        assert k !in seen;
        ids := ids + [k];
        seen := seen + {k};
      }
      k := k + 1;
    }
    assert forall id :: id in seen ==> id in s;
    assert forall id :: id in s ==> id in seen;
    assert seen == s;
  }
}
