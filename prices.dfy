/** The price ledger (src/models/product_price.rs): one row per sellable
    listing of a product, with its price, its type, its package size and the
    stock left. Rows are soft-deleted: every read filters on `deleted_at`, but
    the update does not. */
module Prices {
  import opened Base
  import opened Text
  import opened Store
  import opened Paging
  import opened Orders

  /** The fields a client sends to add or update a listing. */
  datatype PriceRequest = PriceRequest(productId: I32, price: Money, priceType: string,
                                       packageQuantity: I32, remaining: I32)

  /** What a read returns for a listing (`created_at` left out). */
  datatype Price = Price(priceId: int, productId: I32, price: Money, priceType: string,
                         packageQuantity: I32, remaining: int)

  /** The stored row `id`, as a read returns it. */
  function PriceOf(id: int, row: PriceRow): (p: Price)
    ensures p.priceId == id && p.productId == row.productId && p.price == row.price
    ensures p.priceType == row.priceType && p.packageQuantity == row.packageQuantity && p.remaining == row.remaining
  {
    Price(id, row.productId, row.price, row.priceType, row.packageQuantity, row.remaining)
  }

  /** `get_price_by_id`: the row, unless it is missing or soft-deleted.
      `queryFails` stands for a query the database answers with an error,
      which the read also turns into `None`. */
  function GetPriceById(prices: map<int, PriceRow>, id: int, queryFails: bool): (p: Option<Price>)
    ensures p.Some? <==> !queryFails && Live(prices, id)
    ensures p.Some? ==> p.value == PriceOf(id, prices[id])
  {
    if !queryFails && Live(prices, id) then Some(PriceOf(id, prices[id])) else None
  }

  /** The row `add_price` inserts: exactly the request's values, live. */
  function NewPriceRow(req: PriceRequest): PriceRow
  {
    PriceRow(req.productId, req.price, req.priceType, req.packageQuantity, req.remaining, false)
  }

  /** `add_price`: one insert with the request's values and no range checks.
      The new row takes the next id of the serial. `fails` stands for an
      insert the database refuses. */
  method AddPrice(db: Database, req: PriceRequest, fails: bool) returns (r: Outcome<Unit>)
    requires db.Valid()
    modifies db`prices, db`priceSerial
    ensures db.Valid()
    ensures r.Ok? <==> !fails && old(db.priceSerial) < MaxI32
    ensures r.Ok? ==> db.priceSerial == old(db.priceSerial) + 1 &&
                      old(db.priceSerial) + 1 !in old(db.prices) &&
                      db.prices == old(db.prices)[db.priceSerial := NewPriceRow(req)]
    ensures r.Err? ==> db.prices == old(db.prices) && db.priceSerial == old(db.priceSerial)
  {
    if fails || db.priceSerial >= MaxI32 {
      return Err;
    }
    db.priceSerial := db.priceSerial + 1;
    db.prices := db.prices[db.priceSerial := NewPriceRow(req)];
    r := Ok(Unit);
  }

  /** `update_price`'s statement: overwrite price, type, package size and
      stock of row `id`, whether or not it is soft-deleted; the product it
      belongs to is left as stored. No row matches a missing id. */
  function Overwritten(prices: map<int, PriceRow>, id: int, req: PriceRequest): map<int, PriceRow>
  {
    if id in prices then
      prices[id := prices[id].(price := req.price, priceType := req.priceType,
                               packageQuantity := req.packageQuantity, remaining := req.remaining)]
    else prices
  }

  /** `update_price`. */
  method UpdatePrice(db: Database, id: int, req: PriceRequest, fails: bool) returns (r: Outcome<Unit>)
    requires db.Valid()
    modifies db`prices
    ensures db.Valid()
    ensures r.Ok? <==> !fails
    ensures db.prices == if r.Ok? then Overwritten(old(db.prices), id, req) else old(db.prices)
  {
    if fails {
      return Err;
    }
    db.prices := Overwritten(db.prices, id, req);
    r := Ok(Unit);
  }

  /** `delete_price`'s statement: set the deleted marker of row `id`. */
  function SoftDeleted(prices: map<int, PriceRow>, id: int): map<int, PriceRow>
  {
    if id in prices then prices[id := prices[id].(deleted := true)] else prices
  }

  /** `delete_price`. */
  method DeletePrice(db: Database, id: int, fails: bool) returns (r: Outcome<Unit>)
    requires db.Valid()
    modifies db`prices
    ensures db.Valid()
    ensures r.Ok? <==> !fails
    ensures db.prices == if r.Ok? then SoftDeleted(old(db.prices), id) else old(db.prices)
  {
    if fails {
      return Err;
    }
    db.prices := SoftDeleted(db.prices, id);
    r := Ok(Unit);
  }

  /** `get_prices` always sorts by price type. */
  const PriceOrder: SortKey := ByPriceType

  /** A row `get_prices` lists for `productId`: live and of that product. */
  predicate Listed(prices: map<int, PriceRow>, productId: int, id: int)
  {
    Live(prices, id) && prices[id].productId == productId
  }

  /** `get_prices`: the live rows of one product, with the paging fields.
      `fails` stands for a count or row query that fails. The rows come out
      of the table in some order (the query orders them by `price_type`,
      `PriceOrder`). */
  method GetPrices(prices: map<int, PriceRow>, serial: nat, productId: I32,
                   page: Option<nat>, perPage: Option<nat>, fails: bool)
    returns (r: Outcome<Paged<Price>>)
    requires PricesValid(prices, serial)
    ensures r.Ok? <==> !fails
    ensures r.Ok? ==>
              var data := r.value.data;
              (forall i :: 0 <= i < |data| ==>
                 Listed(prices, productId, data[i].priceId) &&
                 data[i] == PriceOf(data[i].priceId, prices[data[i].priceId])) &&
              (forall id :: Listed(prices, productId, id) ==>
                 exists i :: 0 <= i < |data| && data[i].priceId == id) &&
              (forall i, j :: 0 <= i < j < |data| ==> data[i].priceId != data[j].priceId) &&
              PagedFor(r.value, page, perPage)
  {
    if fails {
      return Err;
    }
    ghost var listed := set id | id in prices && Listed(prices, productId, id);
    var ids := ScanIds((set id | id in prices && Listed(prices, productId, id)), serial);
    forall k | 0 <= k < |ids| ensures Listed(prices, productId, ids[k]) {
      assert ids[k] in ids;
    }
    var data: seq<Price> := [];
    var i := 0;
    while i < |ids|
      invariant 0 <= i <= |ids| && |data| == i
      invariant forall k :: 0 <= k < i ==> data[k] == PriceOf(ids[k], prices[ids[k]])
    {
      data := data + [PriceOf(ids[i], prices[ids[i]])];
      i := i + 1;
    }
    forall id | Listed(prices, productId, id)
      ensures exists k :: 0 <= k < |data| && data[k].priceId == id
    {
      assert id in listed;
      assert id in ids;
      var k :| 0 <= k < |ids| && ids[k] == id;
      assert data[k].priceId == id;
    }
    r := Ok(PagedResult(data, page, perPage));
  }

  // ---------------------------------------------------------------------------
  // What the reads see after a write

  /** After an add, the new id reads back as exactly the request's values. */
  lemma AddedPriceReads(prices: map<int, PriceRow>, id: int, req: PriceRequest)
    ensures GetPriceById(prices[id := NewPriceRow(req)], id, false) ==
            Some(Price(id, req.productId, req.price, req.priceType, req.packageQuantity, req.remaining))
  {
  }

  /** After an update, a live row reads back with the new price, type,
      package size and stock and its old product; a soft-deleted row stays
      hidden; every other row reads as before. */
  lemma UpdatedPriceReads(prices: map<int, PriceRow>, id: int, req: PriceRequest, other: int, queryFails: bool)
    requires other != id
    ensures GetPriceById(Overwritten(prices, id, req), id, false) ==
            if Live(prices, id) then
              Some(Price(id, prices[id].productId, req.price, req.priceType, req.packageQuantity, req.remaining))
            else None
    ensures GetPriceById(Overwritten(prices, id, req), other, queryFails) == GetPriceById(prices, other, queryFails)
  {
  }

  /** The update has no `deleted_at` condition: it rewrites a soft-deleted
      row too, which stays soft-deleted. */
  lemma UpdateReachesDeletedRows(prices: map<int, PriceRow>, id: int, req: PriceRequest)
    requires id in prices && prices[id].deleted
    ensures var row := Overwritten(prices, id, req)[id];
            row.deleted && row.remaining == req.remaining && row.price == req.price &&
            row.priceType == req.priceType && row.packageQuantity == req.packageQuantity
  {
  }

  /** After a delete the row is hidden from `get_price_by_id` and from every
      product's listing, every other row reads as before, and no row is
      removed. */
  lemma DeletedPriceHidden(prices: map<int, PriceRow>, id: int, other: int, productId: int, queryFails: bool)
    requires other != id
    ensures GetPriceById(SoftDeleted(prices, id), id, queryFails) == None
    ensures !Listed(SoftDeleted(prices, id), productId, id)
    ensures GetPriceById(SoftDeleted(prices, id), other, queryFails) == GetPriceById(prices, other, queryFails)
    ensures SoftDeleted(prices, id).Keys == prices.Keys
  {
  }

  /** After a delete, no order naming the listing is placed. */
  lemma DeletedPriceRefusesOrders(prices: map<int, PriceRow>, id: int, serial: nat,
                                  lines: seq<Line>, faults: set<Step>, i: nat)
    requires i < |lines| && lines[i].priceId == id
    ensures PlaceOutcome(SoftDeleted(prices, id), serial, lines, faults) != Placed
  {
    MissingPriceNeverPlaced(SoftDeleted(prices, id), serial, lines, faults, i);
  }
}
