/** The discount endpoints (src/api/discount.rs). All five are open to the
    role "Admin" only; add and update reject an empty name before touching
    the store, and update and delete answer 404 for a discount that is
    missing or soft-deleted, before any write. */
module DiscountApi {
  import opened Base
  import opened Text
  import opened Store
  import opened Paging
  import opened Http
  import opened Discounts
  import Links

  const Admins: set<string> := {Admin}
  const DiscountNotFound: string := "Discount not found!"

  /** A discount `get_discount_by_id` finds: stored and not soft-deleted. */
  predicate Active(discounts: map<int, DiscountRow>, id: int)
  {
    id in discounts && !discounts[id].deleted
  }

  /** The gate followed by the "Admin" check. */
  function Gate(header: Option<string>, verify: string -> Option<string>): (d: Decision)
    ensures d.Granted? <==> Authenticate(header, verify).Granted? && Authenticate(header, verify).fields[1] == Admin
    ensures d.Granted? ==> d == Authenticate(header, verify)
    ensures Authenticate(header, verify).Denied? ==> d == Authenticate(header, verify)
  {
    Admit(Authenticate(header, verify), Admins)
  }

  /** The reply add and update send before any store call, if any: the
      gate's refusal, then 400 with `emptyName` for an empty name. */
  function WriteCheck(header: Option<string>, verify: string -> Option<string>, name: string, emptyName: string)
    : (early: Option<Reply<Unit>>)
    ensures early.None? <==> Gate(header, verify).Granted? && name != ""
    ensures Gate(header, verify).Denied? ==> early == Some(Refusal(Gate(header, verify)))
    ensures Gate(header, verify).Granted? && name == "" ==> early == Some(Plain(400, emptyName))
  {
    var d := Gate(header, verify);
    if d.Denied? then Some(Refusal(d))
    else if name == "" then Some(Plain(400, emptyName))
    else None
  }

  /** `GET /api/discounts`: the live discounts with 200, or 500: each once,
      with its stored fields and no linked listings. The role handed to the
      model is the caller's, which the gate has fixed to "Admin", so the
      listing is always newest first. */
  method ListDiscounts(db: Database, header: Option<string>, verify: string -> Option<string>,
                       page: Option<nat>, perPage: Option<nat>, fails: bool)
    returns (reply: Reply<Paged<Discount>>, order: Option<SortKey>)
    requires db.Valid()
    ensures var d := Gate(header, verify);
            (d.Denied? ==> reply == Refusal(d) && order.None?) &&
            (d.Granted? ==> order == Some(NewestFirst)) &&
            (d.Granted? && fails ==> reply == Plain(500, "Error trying to read all discounts from database")) &&
            (d.Granted? && !fails ==>
               reply.Reply? && reply.http == 200 && reply.code == 200 && reply.data.Some? &&
               var data := reply.data.value.data;
               (forall i :: 0 <= i < |data| ==>
                  Active(db.discounts, data[i].discountId) && data[i].productPrices == [] &&
                  data[i] == GetDiscountById(db.discounts, [], map[], map[], data[i].discountId, false, true).value) &&
               (forall id :: Active(db.discounts, id) ==>
                  exists i :: 0 <= i < |data| && data[i].discountId == id) &&
               (forall i, j :: 0 <= i < j < |data| ==> data[i].discountId != data[j].discountId) &&
               PagedFor(reply.data.value, page, perPage))
  {
    var d := Gate(header, verify);
    if d.Denied? {
      return Refusal(d), None;
    }
    var r, key := GetDiscounts(db.discounts, db.discountSerial, d.fields[1], page, perPage, fails);
    order := Some(key);
    match r
    case Ok(paged) =>
      reply := Reply(200, 200, "Successful.", Some(paged));
    case Err =>
      reply := Plain(500, "Error trying to read all discounts from database");
  }

  /** `GET /api/discounts/{id}`: the discount with its linked listings and
      200, or 404, which is also the answer when the read fails
      (`queryFails`). */
  function FetchDiscount(db: Database, header: Option<string>, verify: string -> Option<string>,
                         id: int, queryFails: bool, linkQueryFails: bool): (reply: Reply<Discount>)
    reads db
    ensures var d := Gate(header, verify);
            (d.Denied? ==> reply == Refusal(d)) &&
            (d.Granted? && (queryFails || !Active(db.discounts, id)) ==> reply == Plain(404, DiscountNotFound)) &&
            (d.Granted? && !queryFails && Active(db.discounts, id) ==>
               reply.Reply? && reply.http == 200 && reply.code == 200 &&
               reply.data == GetDiscountById(db.discounts, db.discountLinks, db.prices, db.products, id, false,
                                             linkQueryFails))
  {
    var d := Gate(header, verify);
    if d.Denied? then Refusal(d)
    else
      match GetDiscountById(db.discounts, db.discountLinks, db.prices, db.products, id, queryFails, linkQueryFails)
      case Some(v) => Reply(200, 200, "Discount fetched successfully.", Some(v))
      case None => Plain(404, DiscountNotFound)
  }

  /** `POST /api/discounts`: 201 once the discount and all its links are in,
      500 otherwise, with what was written before the failure kept: the
      discount under the next id of the serial and the links inserted
      before the failing one. */
  method CreateDiscount(db: Database, header: Option<string>, verify: string -> Option<string>,
                        req: DiscountRequest, fault: Option<nat>)
    returns (reply: Reply<Unit>)
    requires db.Valid()
    modifies db`discounts, db`discountLinks, db`discountSerial
    ensures db.Valid()
    ensures var early := WriteCheck(header, verify, req.name, "Discount Name must not be empty!");
            (early.Some? ==>
               reply == early.value && db.discounts == old(db.discounts) &&
               db.discountLinks == old(db.discountLinks) && db.discountSerial == old(db.discountSerial)) &&
            (early.None? ==>
               var inserted := !Fails(fault, 0) && old(db.discountSerial) < MaxI32;
               var n := Completed(fault, 1, |req.priceIds|);
               (reply == Plain(201, "Discount added successfully") <==> inserted && n == |req.priceIds|) &&
               (reply != Plain(201, "Discount added successfully") ==> reply == Plain(500, "Error adding discount!")) &&
               (inserted ==>
                  db.discountSerial == old(db.discountSerial) + 1 && db.discountSerial !in old(db.discounts) &&
                  db.discounts == old(db.discounts)[db.discountSerial := NewDiscountRow(req)] &&
                  db.discountLinks == old(db.discountLinks) + Links.Fresh(db.discountSerial, req.priceIds[..n])) &&
               (!inserted ==>
                  db.discounts == old(db.discounts) && db.discountLinks == old(db.discountLinks) &&
                  db.discountSerial == old(db.discountSerial)))
  {
    var early := WriteCheck(header, verify, req.name, "Discount Name must not be empty!");
    if early.Some? {
      return early.value;
    }
    var r := AddDiscount(db, req, fault);
    reply := if r.Ok? then Plain(201, "Discount added successfully") else Plain(500, "Error adding discount!");
  }

  /** `PUT /api/discounts/{id}`: 404 and no change for a missing or deleted
      discount or a failed read (`queryFails`); otherwise the rewrite, 200
      when every statement went through (the links are then exactly the
      requested ones), 500 otherwise, with the statements before the
      failing one applied. */
  method ChangeDiscount(db: Database, header: Option<string>, verify: string -> Option<string>,
                        id: int, req: DiscountRequest, queryFails: bool, fault: Option<nat>)
    returns (reply: Reply<Unit>)
    requires db.Valid()
    modifies db`discounts, db`discountLinks
    ensures db.Valid()
    ensures var early := WriteCheck(header, verify, req.name, "Discount value must not be empty!");
            (early.Some? || queryFails || !Active(old(db.discounts), id) ==>
               db.discounts == old(db.discounts) && db.discountLinks == old(db.discountLinks)) &&
            (early.Some? ==> reply == early.value) &&
            (early.None? && (queryFails || !Active(old(db.discounts), id)) ==> reply == Plain(404, DiscountNotFound)) &&
            (early.None? && !queryFails && Active(old(db.discounts), id) ==>
               (reply == Plain(200, "Discount updated successfully") <==>
                  Completed(fault, 0, |req.priceIds| + 2) == |req.priceIds| + 2) &&
               (reply != Plain(200, "Discount updated successfully") ==> reply == Plain(500, "Error updating discount!")) &&
               db.discounts == (if Fails(fault, 0) then old(db.discounts) else Rewritten(old(db.discounts), id, req)) &&
               db.discountLinks ==
                 (if Fails(fault, 0) || Fails(fault, 1) then old(db.discountLinks)
                  else Links.Without(old(db.discountLinks), id) +
                       Links.Fresh(id, req.priceIds[..Completed(fault, 2, |req.priceIds|)])) &&
               (reply == Plain(200, "Discount updated successfully") ==>
                  db.discounts == Rewritten(old(db.discounts), id, req) &&
                  db.discountLinks == Links.Replace(old(db.discountLinks), id, req.priceIds)))
  {
    var early := WriteCheck(header, verify, req.name, "Discount value must not be empty!");
    if early.Some? {
      return early.value;
    }
    if GetDiscountById(db.discounts, db.discountLinks, db.prices, db.products, id, queryFails, true).None? {
      return Plain(404, DiscountNotFound);
    }
    var r := UpdateDiscount(db, id, req, fault);
    reply := if r.Ok? then Plain(200, "Discount updated successfully") else Plain(500, "Error updating discount!");
  }

  /** `DELETE /api/discounts/{id}`: 404 and no change for a missing or
      deleted discount or a failed read (`queryFails`); otherwise the soft
      delete and the removal of its links, answered with HTTP 200 and body
      code 204, or 500, which keeps the marker when only the link removal
      failed. */
  method RemoveDiscount(db: Database, header: Option<string>, verify: string -> Option<string>,
                        id: int, queryFails: bool, fault: Option<nat>)
    returns (reply: Reply<Unit>)
    requires db.Valid()
    modifies db`discounts, db`discountLinks
    ensures db.Valid()
    ensures var d := Gate(header, verify);
            (d.Denied? || queryFails || !Active(old(db.discounts), id) ==>
               db.discounts == old(db.discounts) && db.discountLinks == old(db.discountLinks)) &&
            (d.Denied? ==> reply == Refusal(d)) &&
            (d.Granted? && (queryFails || !Active(old(db.discounts), id)) ==> reply == Plain(404, DiscountNotFound)) &&
            (d.Granted? && !queryFails && Active(old(db.discounts), id) ==>
               (reply == Reply(200, 204, "Discount deleted successfully", None) <==> Completed(fault, 0, 2) == 2) &&
               (reply != Reply(200, 204, "Discount deleted successfully", None) ==>
                  reply == Plain(500, "Error deleting discount!")) &&
               db.discounts ==
                 (if Fails(fault, 0) then old(db.discounts)
                  else old(db.discounts)[id := old(db.discounts)[id].(deleted := true)]) &&
               db.discountLinks ==
                 (if Fails(fault, 0) || Fails(fault, 1) then old(db.discountLinks)
                  else Links.Without(old(db.discountLinks), id)) &&
               (reply == Reply(200, 204, "Discount deleted successfully", None) ==>
                  db.discounts == old(db.discounts)[id := old(db.discounts)[id].(deleted := true)] &&
                  db.discountLinks == Links.Without(old(db.discountLinks), id)))
  {
    var d := Gate(header, verify);
    if d.Denied? {
      return Refusal(d);
    }
    if GetDiscountById(db.discounts, db.discountLinks, db.prices, db.products, id, queryFails, true).None? {
      return Plain(404, DiscountNotFound);
    }
    var r := DeleteDiscount(db, id, fault);
    reply := if r.Ok? then Reply(200, 204, "Discount deleted successfully", None) else Plain(500, "Error deleting discount!");
  }

  /** Every discount endpoint answers 401 to a caller whose role is not
      "Admin", "Distributor" included, before looking at the body. */
  lemma AdminOnly(header: Option<string>, verify: string -> Option<string>, name: string, emptyName: string)
    requires Authenticate(header, verify).Granted? && Authenticate(header, verify).fields[1] != Admin
    ensures Gate(header, verify) == Denied(401, NotAllowed)
    ensures WriteCheck(header, verify, name, emptyName) == Some(Plain(401, NotAllowed))
  {
  }
}
