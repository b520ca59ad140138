/** Discounts (src/models/discount.rs): a `discounts` row plus the
    `product_discounts` links that attach it to price listings. None of the
    multi-statement operations runs in a transaction: a statement that fails
    leaves the earlier ones applied. */
module Discounts {
  import opened Base
  import opened Text
  import opened Links
  import opened Store
  import opened Paging

  /** The fields a client sends to add or update a discount. */
  datatype DiscountRequest = DiscountRequest(name: string, kind: string, value: Money,
                                             startDate: Date, endDate: Date,
                                             minQuantity: I32, maxQuantity: I32,
                                             conditions: string, priceIds: seq<I32>)

  /** A linked listing as `get_discount_by_id` reports it. */
  datatype ProductPrice = ProductPrice(priceId: int, productId: int, productName: string)

  /** What a read returns for a discount (`created_at` left out). */
  datatype Discount = Discount(discountId: int, name: string, kind: string, value: Money,
                               startDate: Date, endDate: Date, minQuantity: I32, maxQuantity: I32,
                               conditions: string, productPrices: seq<ProductPrice>)

  /** The row `add_discount` inserts. */
  function NewDiscountRow(req: DiscountRequest): DiscountRow
  {
    DiscountRow(req.name, req.kind, req.value, req.startDate, req.endDate,
                req.minQuantity, req.maxQuantity, req.conditions, false)
  }

  /** `add_discount`: insert the discount (statement 0), then one link per
      entry of `price_ids`, in order (statements 1 .. n). `fault` names the
      first statement that fails; the statements before it stay applied. */
  method AddDiscount(db: Database, req: DiscountRequest, fault: Option<nat>) returns (r: Outcome<Unit>)
    requires db.Valid()
    modifies db`discounts, db`discountLinks, db`discountSerial
    ensures db.Valid()
    ensures var inserted := !Fails(fault, 0) && old(db.discountSerial) < MaxI32;
            (r.Ok? <==> inserted && Completed(fault, 1, |req.priceIds|) == |req.priceIds|) &&
            (inserted ==>
               var id := old(db.discountSerial) + 1;
               db.discountSerial == id && id !in old(db.discounts) &&
               db.discounts == old(db.discounts)[id := NewDiscountRow(req)] &&
               db.discountLinks == old(db.discountLinks) +
                                   Fresh(id, req.priceIds[..Completed(fault, 1, |req.priceIds|)])) &&
            (!inserted ==>
               db.discounts == old(db.discounts) && db.discountLinks == old(db.discountLinks) &&
               db.discountSerial == old(db.discountSerial))
  {
    if Fails(fault, 0) || db.discountSerial >= MaxI32 {
      return Err;
    }
    db.discountSerial := db.discountSerial + 1;
    var id := db.discountSerial;
    db.discounts := db.discounts[id := NewDiscountRow(req)];
    var links, ok := InsertLinks(db.discountLinks, id, req.priceIds, fault, 1);
    db.discountLinks := links;
    r := if ok then Ok(Unit) else Err;
  }

  /** The join of `get_discount_by_id`'s link query: for each link of the
      discount, in table order, its listing and that listing's product. A
      link whose listing or product row is gone drops out of the join. */
  function LinkedPrices(links: seq<Link>, prices: map<int, PriceRow>, products: map<int, ProductRow>,
                        id: int): (ps: seq<ProductPrice>)
    ensures |ps| <= |links|
  {
    if links == [] then []
    else
      var rest := LinkedPrices(links[1..], prices, products, id);
      var m := links[0].member;
      if links[0].owner == id && m in prices && prices[m].productId in products then
        [ProductPrice(m, prices[m].productId, products[prices[m].productId].name)] + rest
      else rest
  }

  /** The join applied to a list of listing ids: each id whose listing and
      product rows are there, with that product, in order. */
  function JoinIds(ids: seq<int>, prices: map<int, PriceRow>, products: map<int, ProductRow>): seq<ProductPrice>
  {
    if ids == [] then []
    else
      var rest := JoinIds(ids[1..], prices, products);
      var m := ids[0];
      if m in prices && prices[m].productId in products then
        [ProductPrice(m, prices[m].productId, products[prices[m].productId].name)] + rest
      else rest
  }

  /** The join depends on the links only through the discount's own linked
      listing ids, in order. */
  lemma {:induction false} LinkedPricesOwned(links: seq<Link>, prices: map<int, PriceRow>,
                                             products: map<int, ProductRow>, id: int)
    ensures LinkedPrices(links, prices, products, id) == JoinIds(OwnedBy(links, id), prices, products)
  {
    if links != [] {
      LinkedPricesOwned(links[1..], prices, products, id);
      if links[0].owner == id {
        assert OwnedBy(links, id) == [links[0].member] + OwnedBy(links[1..], id);
        assert ([links[0].member] + OwnedBy(links[1..], id))[1..] == OwnedBy(links[1..], id);
      }
    }
  }

  /** The listing ids among `ids` that the join keeps, in order. */
  function Joinable(ids: seq<int>, prices: map<int, PriceRow>, products: map<int, ProductRow>): seq<int>
  {
    if ids == [] then []
    else
      var rest := Joinable(ids[1..], prices, products);
      if ids[0] in prices && prices[ids[0]].productId in products then [ids[0]] + rest else rest
  }

  /** The listing ids of a list of linked listings. */
  function PriceIds(ps: seq<ProductPrice>): seq<int>
  {
    if ps == [] then [] else [ps[0].priceId] + PriceIds(ps[1..])
  }

  /** The join lists exactly the discount's linked listings whose rows are
      still there, in link order, each with its own product. */
  lemma {:induction false} LinkedPricesAre(links: seq<Link>, prices: map<int, PriceRow>,
                                           products: map<int, ProductRow>, id: int)
    ensures PriceIds(LinkedPrices(links, prices, products, id)) == Joinable(OwnedBy(links, id), prices, products)
    ensures forall i :: 0 <= i < |LinkedPrices(links, prices, products, id)| ==>
              var p := LinkedPrices(links, prices, products, id)[i];
              p.priceId in prices && p.productId == prices[p.priceId].productId &&
              p.productId in products && p.productName == products[p.productId].name
  {
    if links != [] {
      LinkedPricesAre(links[1..], prices, products, id);
      var ps := LinkedPrices(links, prices, products, id);
      var rest := LinkedPrices(links[1..], prices, products, id);
      if links[0].owner == id {
        assert OwnedBy(links, id) == [links[0].member] + OwnedBy(links[1..], id);
        assert ([links[0].member] + OwnedBy(links[1..], id))[1..] == OwnedBy(links[1..], id);
      }
      if ps != rest {
        assert ps[1..] == rest;
      }
    }
  }

  /** `get_discount_by_id`: the discount unless it is missing or
      soft-deleted or its query fails (`queryFails`), with its linked
      listings; a failed link query (`linkQueryFails`) gives an empty list,
      not a missing discount. */
  function GetDiscountById(discounts: map<int, DiscountRow>, links: seq<Link>, prices: map<int, PriceRow>,
                           products: map<int, ProductRow>, id: int, queryFails: bool, linkQueryFails: bool)
    : (d: Option<Discount>)
    ensures d.Some? <==> !queryFails && id in discounts && !discounts[id].deleted
    ensures d.Some? ==>
              var row := discounts[id];
              d.value.discountId == id && d.value.name == row.name && d.value.kind == row.kind &&
              d.value.value == row.value && d.value.startDate == row.startDate &&
              d.value.endDate == row.endDate && d.value.minQuantity == row.minQuantity &&
              d.value.maxQuantity == row.maxQuantity && d.value.conditions == row.conditions
    ensures d.Some? && linkQueryFails ==> d.value.productPrices == []
    ensures d.Some? && !linkQueryFails ==>
              PriceIds(d.value.productPrices) == Joinable(OwnedBy(links, id), prices, products)
    ensures d.Some? && !linkQueryFails ==>
              forall i :: 0 <= i < |d.value.productPrices| ==>
                var p := d.value.productPrices[i];
                p.priceId in prices && p.productId == prices[p.priceId].productId &&
                p.productId in products && p.productName == products[p.productId].name
  {
    var linked := if linkQueryFails then [] else LinkedPrices(links, prices, products, id);
    LinkedPricesAre(links, prices, products, id);
    if !queryFails && id in discounts && !discounts[id].deleted then
      var row := discounts[id];
      Some(Discount(id, row.name, row.kind, row.value, row.startDate, row.endDate,
                    row.minQuantity, row.maxQuantity, row.conditions, linked))
    else None
  }

  /** `update_discount`'s first statement: overwrite the seven scalar fields
      of row `id`, with no `deleted_at` condition. */
  function Rewritten(discounts: map<int, DiscountRow>, id: int, req: DiscountRequest): map<int, DiscountRow>
  {
    if id in discounts then
      discounts[id := discounts[id].(name := req.name, kind := req.kind, value := req.value,
                                     startDate := req.startDate, endDate := req.endDate,
                                     minQuantity := req.minQuantity, maxQuantity := req.maxQuantity,
                                     conditions := req.conditions)]
    else discounts
  }

  /** `update_discount`: overwrite the row (statement 0), delete all its links
      (statement 1), insert one link per entry of `price_ids` (statements
      2 .. n + 1). `fault` names the first statement that fails. */
  method UpdateDiscount(db: Database, id: int, req: DiscountRequest, fault: Option<nat>) returns (r: Outcome<Unit>)
    requires db.Valid()
    modifies db`discounts, db`discountLinks
    ensures db.Valid()
    ensures r.Ok? <==> Completed(fault, 0, |req.priceIds| + 2) == |req.priceIds| + 2
    ensures db.discounts == if Fails(fault, 0) then old(db.discounts) else Rewritten(old(db.discounts), id, req)
    ensures db.discountLinks ==
              if Fails(fault, 0) || Fails(fault, 1) then old(db.discountLinks)
              else Without(old(db.discountLinks), id) + Fresh(id, req.priceIds[..Completed(fault, 2, |req.priceIds|)])
    ensures r.Ok? ==> db.discountLinks == Replace(old(db.discountLinks), id, req.priceIds)
  {
    if Fails(fault, 0) {
      return Err;
    }
    db.discounts := Rewritten(db.discounts, id, req);
    if Fails(fault, 1) {
      return Err;
    }
    db.discountLinks := Without(db.discountLinks, id);
    var links, ok := InsertLinks(db.discountLinks, id, req.priceIds, fault, 2);
    db.discountLinks := links;
    r := if ok then Ok(Unit) else Err;
    if ok {
      assert req.priceIds[..|req.priceIds|] == req.priceIds;
    }
  }

  /** `delete_discount`: set the deleted marker (statement 0), then delete all
      the discount's links (statement 1). */
  method DeleteDiscount(db: Database, id: int, fault: Option<nat>) returns (r: Outcome<Unit>)
    requires db.Valid()
    modifies db`discounts, db`discountLinks
    ensures db.Valid()
    ensures r.Ok? <==> Completed(fault, 0, 2) == 2
    ensures db.discounts ==
              if Fails(fault, 0) || id !in old(db.discounts) then old(db.discounts)
              else old(db.discounts)[id := old(db.discounts)[id].(deleted := true)]
    ensures db.discountLinks ==
              if Fails(fault, 0) || Fails(fault, 1) then old(db.discountLinks) else Without(old(db.discountLinks), id)
  {
    if Fails(fault, 0) {
      return Err;
    }
    if id in db.discounts {
      db.discounts := db.discounts[id := db.discounts[id].(deleted := true)];
    }
    if Fails(fault, 1) {
      return Err;
    }
    db.discountLinks := Without(db.discountLinks, id);
    r := Ok(Unit);
  }

  /** `get_discounts`: every live discount, without its linked listings,
      with the paging fields. `fails` stands for a query that fails. */
  method GetDiscounts(discounts: map<int, DiscountRow>, serial: nat, role: string,
                      page: Option<nat>, perPage: Option<nat>, fails: bool)
    returns (r: Outcome<Paged<Discount>>, order: SortKey)
    requires IdsValid(discounts, serial)
    ensures order == RoleOrder(role)
    ensures r.Ok? <==> !fails
    ensures r.Ok? ==>
              var data := r.value.data;
              (forall i :: 0 <= i < |data| ==>
                 data[i].discountId in discounts && !discounts[data[i].discountId].deleted &&
                 data[i].productPrices == [] &&
                 data[i] == GetDiscountById(discounts, [], map[], map[], data[i].discountId, false, true).value) &&
              (forall id :: id in discounts && !discounts[id].deleted ==>
                 exists i :: 0 <= i < |data| && data[i].discountId == id) &&
              (forall i, j :: 0 <= i < j < |data| ==> data[i].discountId != data[j].discountId) &&
              PagedFor(r.value, page, perPage)
  {
    order := RoleOrder(role);
    if fails {
      return Err, order;
    }
    var ids := ScanIds((set id | id in discounts && !discounts[id].deleted), serial);
    forall k | 0 <= k < |ids| ensures ids[k] in discounts && !discounts[ids[k]].deleted {
      assert ids[k] in ids;
    }
    var data: seq<Discount> := [];
    var i := 0;
    while i < |ids|
      invariant 0 <= i <= |ids| && |data| == i
      invariant forall k :: 0 <= k < i ==> data[k].discountId == ids[k]
      invariant forall k :: 0 <= k < i ==>
                  data[k] == GetDiscountById(discounts, [], map[], map[], ids[k], false, true).value
    {
      var row := discounts[ids[i]];
      data := data + [Discount(ids[i], row.name, row.kind, row.value, row.startDate, row.endDate,
                               row.minQuantity, row.maxQuantity, row.conditions, [])];
      i := i + 1;
    }
    forall id | id in discounts && !discounts[id].deleted
      ensures exists k :: 0 <= k < |data| && data[k].discountId == id
    {
      assert id in ids;
      var k :| 0 <= k < |ids| && ids[k] == id;
    }
    r := Ok(PagedResult(data, page, perPage));
  }

  // ---------------------------------------------------------------------------
  // What the reads and the order workflow see after a write

  /** After an update that succeeds, the discount's links are exactly
      `price_ids`, in order, every other discount's links are as before, a
      read of the updated discount shows all seven rewritten fields and
      exactly the requested listings whose rows are there, and every other
      discount reads as before. */
  lemma UpdatedDiscountLinks(links: seq<Link>, discounts: map<int, DiscountRow>, prices: map<int, PriceRow>,
                             products: map<int, ProductRow>, id: int, req: DiscountRequest, other: int,
                             queryFails: bool, linkQueryFails: bool)
    requires other != id
    requires id in discounts && !discounts[id].deleted
    ensures OwnedBy(Replace(links, id, req.priceIds), id) == req.priceIds
    ensures OwnedBy(Replace(links, id, req.priceIds), other) == OwnedBy(links, other)
    ensures var d := GetDiscountById(Rewritten(discounts, id, req), Replace(links, id, req.priceIds),
                                     prices, products, id, false, false);
            d.Some? && d.value.discountId == id && d.value.name == req.name && d.value.kind == req.kind &&
            d.value.value == req.value && d.value.startDate == req.startDate &&
            d.value.endDate == req.endDate && d.value.minQuantity == req.minQuantity &&
            d.value.maxQuantity == req.maxQuantity && d.value.conditions == req.conditions &&
            PriceIds(d.value.productPrices) == Joinable(req.priceIds, prices, products) &&
            d.value.productPrices == JoinIds(req.priceIds, prices, products)
    ensures GetDiscountById(Rewritten(discounts, id, req), Replace(links, id, req.priceIds),
                            prices, products, other, queryFails, linkQueryFails) ==
            GetDiscountById(discounts, links, prices, products, other, queryFails, linkQueryFails)
  {
    ReplaceExact(links, id, req.priceIds, id);
    ReplaceExact(links, id, req.priceIds, other);
    LinkedPricesOwned(Replace(links, id, req.priceIds), prices, products, id);
    LinkedPricesOwned(Replace(links, id, req.priceIds), prices, products, other);
    LinkedPricesOwned(links, prices, products, other);
  }

  /** The live links of listing `p` once discount `d`'s links are deleted. */
  function Drop(owners: seq<int>, d: int): (out: seq<int>)
    ensures forall o :: o in out <==> o in owners && o != d
  {
    if owners == [] then []
    else if owners[0] == d then Drop(owners[1..], d)
    else [owners[0]] + Drop(owners[1..], d)
  }

  lemma {:induction false} OwnersOfWithout(links: seq<Link>, d: int, p: int)
    ensures OwnersOf(Without(links, d), p) == Drop(OwnersOf(links, p), d)
  {
    if links != [] {
      OwnersOfWithout(links[1..], d, p);
      var l := links[0];
      if l.owner != d {
        assert ([l] + Without(links[1..], d))[1..] == Without(links[1..], d);
      }
      if l.member == p && !l.deleted {
        assert OwnersOf(links, p) == [l.owner] + OwnersOf(links[1..], p);
        assert ([l.owner] + OwnersOf(links[1..], p))[1..] == OwnersOf(links[1..], p);
      }
    }
  }

  /** After a delete, an order line for a listing gets the discount of its
      one remaining live link, or NULL: the deleted discount is never
      recorded, and a listing linked only to it gets NULL. */
  lemma DeletedDiscountNotSnapshot(links: seq<Link>, d: int, p: int)
    ensures SoleOwner(Without(links, d), p) ==
            if |Drop(OwnersOf(links, p), d)| == 1 then Some(Drop(OwnersOf(links, p), d)[0]) else None
    ensures SoleOwner(Without(links, d), p) != Some(d)
    ensures OwnersOf(links, p) == [d] ==> SoleOwner(Without(links, d), p) == None
  {
    OwnersOfWithout(links, d, p);
    if OwnersOf(links, p) == [d] {
      assert Drop([d], d) == [];
    }
    var after := SoleOwner(Without(links, d), p);
    if after.Some? {
      assert after.value in Drop(OwnersOf(links, p), d);
    }
  }

  /** After a delete the discount is no longer found. */
  lemma DeletedDiscountHidden(discounts: map<int, DiscountRow>, links: seq<Link>, prices: map<int, PriceRow>,
                              products: map<int, ProductRow>, id: int, queryFails: bool, linkQueryFails: bool)
    requires id in discounts
    ensures GetDiscountById(discounts[id := discounts[id].(deleted := true)], Without(links, id),
                            prices, products, id, queryFails, linkQueryFails) == None
  {
  }
}
