/** The price endpoints (src/api/product_price.rs). Reads are open to the
    roles "Admin" and "Distributor", writes to "Admin" only. The checks run
    in a fixed order: the gate, the role, the body, the existence of the
    listing, and only then the store call. (The file is not registered as a
    module of the API, so these endpoints are not served; the model follows
    the handlers as written.) */
module PriceApi {
  import opened Base
  import opened Text
  import opened Store
  import opened Paging
  import opened Http
  import opened Prices

  const Readers: set<string> := {Admin, Distributor}
  const Writers: set<string> := {Admin}

  /** The two kinds of listing. */
  const PriceTypes: set<string> := {"single_item", "package"}

  const EmptyPriceType: string := "Product Type must not be empty!"
  const InvalidPriceType: string := "Invalid Product Type!"
  const PriceNotFound: string := "Price not found!"

  /** The gate followed by the role check. */
  function Gate(header: Option<string>, verify: string -> Option<string>, allowed: set<string>): (d: Decision)
    ensures d.Granted? <==> Authenticate(header, verify).Granted? && Authenticate(header, verify).fields[1] in allowed
    ensures d.Granted? ==> d == Authenticate(header, verify)
    ensures Authenticate(header, verify).Denied? ==> d == Authenticate(header, verify)
  {
    Admit(Authenticate(header, verify), allowed)
  }

  /** The body check of add and update: an empty type first, then any type
      other than the two kinds. */
  function PriceTypeError(priceType: string): (e: Option<string>)
    ensures e.None? <==> priceType in PriceTypes
    ensures priceType == "" ==> e == Some(EmptyPriceType)
    ensures priceType != "" && priceType !in PriceTypes ==> e == Some(InvalidPriceType)
  {
    if priceType == "" then Some(EmptyPriceType)
    else if priceType != "single_item" && priceType != "package" then Some(InvalidPriceType)
    else None
  }

  /** The reply a write with a body sends before any store call, if any. */
  function WriteCheck(header: Option<string>, verify: string -> Option<string>, priceType: string): (early: Option<Reply<Unit>>)
    ensures early.None? <==> Gate(header, verify, Writers).Granted? && priceType in PriceTypes
    ensures Gate(header, verify, Writers).Denied? ==> early == Some(Refusal(Gate(header, verify, Writers)))
    ensures Gate(header, verify, Writers).Granted? && priceType !in PriceTypes ==>
              early == Some(Plain(400, PriceTypeError(priceType).value))
  {
    var d := Gate(header, verify, Writers);
    if d.Denied? then Some(Refusal(d))
    else if PriceTypeError(priceType).Some? then Some(Plain(400, PriceTypeError(priceType).value))
    else None
  }

  /** The role is checked before the body: a caller who is not "Admin" gets
      401 whatever the body holds. */
  lemma RoleBeforeBody(header: Option<string>, verify: string -> Option<string>, priceType: string)
    requires Authenticate(header, verify).Granted? && Authenticate(header, verify).fields[1] != Admin
    ensures WriteCheck(header, verify, priceType) == Some(Plain(401, NotAllowed))
  {
  }

  /** `GET /api/prices`: the listing of one product with 200, or 500: each
      live row of the product once, as stored. */
  method ListPrices(db: Database, header: Option<string>, verify: string -> Option<string>,
                    productId: I32, page: Option<nat>, perPage: Option<nat>, fails: bool)
    returns (reply: Reply<Paged<Price>>)
    requires db.Valid()
    ensures var d := Gate(header, verify, Readers);
            (d.Denied? ==> reply == Refusal(d)) &&
            (d.Granted? && fails ==> reply == Plain(500, "Error trying to read all prices from database")) &&
            (d.Granted? && !fails ==>
               reply.Reply? && reply.http == 200 && reply.code == 200 && reply.data.Some? &&
               var data := reply.data.value.data;
               (forall i :: 0 <= i < |data| ==>
                  Listed(db.prices, productId, data[i].priceId) &&
                  data[i] == PriceOf(data[i].priceId, db.prices[data[i].priceId])) &&
               (forall id :: Listed(db.prices, productId, id) ==>
                  exists i :: 0 <= i < |data| && data[i].priceId == id) &&
               (forall i, j :: 0 <= i < j < |data| ==> data[i].priceId != data[j].priceId) &&
               PagedFor(reply.data.value, page, perPage))
  {
    var d := Gate(header, verify, Readers);
    if d.Denied? {
      return Refusal(d);
    }
    var r := GetPrices(db.prices, db.priceSerial, productId, page, perPage, fails);
    match r
    case Ok(paged) =>
      reply := Reply(200, 200, "Successful.", Some(paged));
    case Err =>
      reply := Plain(500, "Error trying to read all prices from database");
  }

  /** `GET /api/prices/{id}`: the listing with 200, or 404, which is also
      the answer when the read fails (`queryFails`). */
  function FetchPrice(prices: map<int, PriceRow>, header: Option<string>, verify: string -> Option<string>,
                      id: int, queryFails: bool): (reply: Reply<Price>)
    ensures var d := Gate(header, verify, Readers);
            (d.Denied? ==> reply == Refusal(d)) &&
            (d.Granted? && (queryFails || !Live(prices, id)) ==> reply == Plain(404, PriceNotFound)) &&
            (d.Granted? && !queryFails && Live(prices, id) ==>
               reply == Reply(200, 200, "Price fetched successfully.", Some(PriceOf(id, prices[id]))))
  {
    var d := Gate(header, verify, Readers);
    if d.Denied? then Refusal(d)
    else
      match GetPriceById(prices, id, queryFails)
      case Some(p) => Reply(200, 200, "Price fetched successfully.", Some(p))
      case None => Plain(404, PriceNotFound)
  }

  /** `POST /api/prices`: 201 once the row is in under the next id of the
      serial, 500 on a store error; a refused or failed request changes
      nothing. */
  method CreatePrice(db: Database, header: Option<string>, verify: string -> Option<string>,
                     req: PriceRequest, fails: bool)
    returns (reply: Reply<Unit>)
    requires db.Valid()
    modifies db`prices, db`priceSerial
    ensures db.Valid()
    ensures var early := WriteCheck(header, verify, req.priceType);
            (early.Some? ==> reply == early.value &&
                             db.prices == old(db.prices) && db.priceSerial == old(db.priceSerial)) &&
            (early.None? ==>
               (reply == Plain(201, "Price added successfully") <==> !fails && old(db.priceSerial) < MaxI32) &&
               (reply != Plain(201, "Price added successfully") ==>
                  reply == Plain(500, "Error adding price!") &&
                  db.prices == old(db.prices) && db.priceSerial == old(db.priceSerial)) &&
               (reply == Plain(201, "Price added successfully") ==>
                  db.priceSerial == old(db.priceSerial) + 1 && db.priceSerial !in old(db.prices) &&
                  db.prices == old(db.prices)[db.priceSerial := NewPriceRow(req)]))
  {
    var early := WriteCheck(header, verify, req.priceType);
    if early.Some? {
      return early.value;
    }
    var r := AddPrice(db, req, fails);
    reply := if r.Ok? then Plain(201, "Price added successfully") else Plain(500, "Error adding price!");
  }

  /** `PUT /api/prices/{id}`: 404 and no change for a missing or deleted
      listing or a failed read (`queryFails`), otherwise the update with
      200, or 500. */
  method ChangePrice(db: Database, header: Option<string>, verify: string -> Option<string>,
                     id: int, req: PriceRequest, queryFails: bool, fails: bool)
    returns (reply: Reply<Unit>)
    requires db.Valid()
    modifies db`prices
    ensures db.Valid()
    ensures var early := WriteCheck(header, verify, req.priceType);
            (early.Some? ==> reply == early.value && db.prices == old(db.prices)) &&
            (early.None? && (queryFails || !Live(old(db.prices), id)) ==>
               reply == Plain(404, PriceNotFound) && db.prices == old(db.prices)) &&
            (early.None? && !queryFails && Live(old(db.prices), id) && fails ==>
               reply == Plain(500, "Error updating price!") && db.prices == old(db.prices)) &&
            (early.None? && !queryFails && Live(old(db.prices), id) && !fails ==>
               reply == Plain(200, "Price updated successfully") &&
               db.prices == Overwritten(old(db.prices), id, req))
  {
    var early := WriteCheck(header, verify, req.priceType);
    if early.Some? {
      return early.value;
    }
    if GetPriceById(db.prices, id, queryFails).None? {
      return Plain(404, PriceNotFound);
    }
    var r := UpdatePrice(db, id, req, fails);
    reply := if r.Ok? then Plain(200, "Price updated successfully") else Plain(500, "Error updating price!");
  }

  /** `DELETE /api/prices/{id}`: 404 and no change for a missing or deleted
      listing or a failed read (`queryFails`); otherwise the soft delete,
      answered with HTTP 200 and body code 204, or 500. */
  method RemovePrice(db: Database, header: Option<string>, verify: string -> Option<string>,
                     id: int, queryFails: bool, fails: bool)
    returns (reply: Reply<Unit>)
    requires db.Valid()
    modifies db`prices
    ensures db.Valid()
    ensures var d := Gate(header, verify, Writers);
            (d.Denied? ==> reply == Refusal(d) && db.prices == old(db.prices)) &&
            (d.Granted? && (queryFails || !Live(old(db.prices), id)) ==>
               reply == Plain(404, PriceNotFound) && db.prices == old(db.prices)) &&
            (d.Granted? && !queryFails && Live(old(db.prices), id) && fails ==>
               reply == Plain(500, "Error deleting price!") && db.prices == old(db.prices)) &&
            (d.Granted? && !queryFails && Live(old(db.prices), id) && !fails ==>
               reply == Reply(200, 204, "Price deleted successfully", None) &&
               db.prices == SoftDeleted(old(db.prices), id))
  {
    var d := Gate(header, verify, Writers);
    if d.Denied? {
      return Refusal(d);
    }
    if GetPriceById(db.prices, id, queryFails).None? {
      return Plain(404, PriceNotFound);
    }
    var r := DeletePrice(db, id, fails);
    reply := if r.Ok? then Reply(200, 204, "Price deleted successfully", None) else Plain(500, "Error deleting price!");
  }

  /** Once a delete has gone through, fetching the listing answers 404. */
  lemma DeletedPriceNotFound(prices: map<int, PriceRow>, header: Option<string>, verify: string -> Option<string>,
                             id: int, queryFails: bool)
    requires Gate(header, verify, Writers).Granted?
    ensures FetchPrice(SoftDeleted(prices, id), header, verify, id, queryFails) == Plain(404, PriceNotFound)
  {
    assert Writers <= Readers;
  }
}
