/** The order endpoints (src/api/order.rs): the shared gate, then the caller's
    user id from the first `sub` field, then the model call and the mapping
    of its result to a reply. Neither endpoint checks the role. */
module OrderApi {
  import opened Base
  import opened Text
  import opened Store
  import opened Paging
  import opened Http
  import opened Orders
  import opened OrderList

  const Successful: string := "Successful."
  const NotAvailable: string := "We're sorry, the products you requested are not available!"
  const AddFailed: string := "Error adding order to database!"
  const ListFailed: string := "Error trying to read all orders from database"

  /** Who a request comes from, once the gate has passed: the first `sub`
      field parsed as an `i32` and the role in the second field. `Crashed`
      stands for `parse().unwrap()` on a first field that is not a number. */
  datatype Identity = Identified(userId: I32, role: string) | Stopped(http: nat, message: string) | Crashed

  /** The gate of both order endpoints, followed by the user id parse. */
  function Identify(header: Option<string>, verify: string -> Option<string>): (c: Identity)
    ensures var d := Authenticate(header, verify);
            (d.Denied? ==> c == Stopped(d.http, d.message)) &&
            (d.Granted? ==> (c.Crashed? <==> ParseI32(d.fields[0]).None?)) &&
            (c.Identified? ==> d.Granted? && ParseI32(d.fields[0]) == Some(c.userId) && c.role == d.fields[1]) &&
            (d.Granted? && ParseI32(d.fields[0]).Some? ==> c == Identified(ParseI32(d.fields[0]).value, d.fields[1]))
  {
    match Authenticate(header, verify)
    case Denied(http, message) => Stopped(http, message)
    case Granted(fields) =>
      match ParseI32(fields[0])
      case None => Crashed
      case Some(id) => Identified(id, fields[1])
  }

  /** A token whose `sub` is "{id},{role},{rest}" identifies user `id` with
      that role, whatever the role is. */
  lemma IdentifiesSubject(token: string, verify: string -> Option<string>, id: I32, role: string, rest: string)
    requires token != [] && NoSpace(token) && VisibleAscii(token)
    requires verify(token) == Some(FormatInt(id) + "," + role + "," + rest)
    requires Lacks(role, ',') && Lacks(rest, ',')
    ensures Identify(Some("Bearer " + token), verify) == Identified(id, role)
  {
    BearerHeaderAccepted(token);
    var s := FormatInt(id);
    FormatIntHasNoComma(id);
    assert s + "," + role + "," + rest == s + [','] + (role + [','] + rest);
    SplitAround(s, role + [','] + rest, ',');
    SplitAround(role, rest, ',');
    SplitNoSep(s, ',');
    SplitNoSep(role, ',');
    SplitNoSep(rest, ',');
    ParseFormat(id);
  }

  /** The reply to a placement: the new id with 200, the sentinel 0 with 400
      and the apology, an error with 500. */
  function AddOrderReply(r: Outcome<int>): (reply: Reply<int>)
    ensures Reported(r) == Placed ==> reply == Reply(200, 200, Successful, Some(r.value)) && r.value != 0
    ensures Reported(r) == Unavailable ==> reply == Reply(400, 400, NotAvailable, Some(0))
    ensures Reported(r) == Failed ==> reply == Plain(500, AddFailed)
  {
    match r
    case Ok(id) => if id == 0 then Reply(400, 400, NotAvailable, Some(0)) else Reply(200, 200, Successful, Some(id))
    case Err => Plain(500, AddFailed)
  }

  /** `POST /api/orders`: a refused request or a crash changes nothing; an
      identified caller's order is placed for their user id, at the shop the
      body names, whatever their role. */
  method PlaceOrder(db: Database, header: Option<string>, verify: string -> Option<string>,
                    shopId: I32, lines: seq<Line>, faults: set<Step>)
    returns (reply: Reply<int>)
    requires db.Valid()
    modifies db`prices, db`orders, db`details, db`orderSerial
    ensures db.Valid()
    ensures var c := Identify(header, verify);
            (c.Stopped? ==> reply == Plain(c.http, c.message)) &&
            (c.Crashed? ==> reply.Panicked?) &&
            (!c.Identified? ==>
               db.prices == old(db.prices) && db.orders == old(db.orders) &&
               db.details == old(db.details) && db.orderSerial == old(db.orderSerial))
    ensures var c := Identify(header, verify);
            c.Identified? ==>
              var p := PlaceOutcome(old(db.prices), old(db.orderSerial), lines, faults);
              var id := old(db.orderSerial) + 1;
              (p == Placed ==>
                 reply == Reply(200, 200, Successful, Some(id)) &&
                 db.orders == old(db.orders)[id := OrderRow(shopId, c.userId, Pending,
                                                            LineTotal(old(db.prices), lines, |lines|), false)] &&
                 db.prices == StockAfter(old(db.prices), lines, |lines|) &&
                 db.details == old(db.details) + NewDetails(old(db.prices), old(db.discountLinks), id, lines, |lines|)) &&
              (p == Unavailable ==> reply == Reply(400, 400, NotAvailable, Some(0))) &&
              (p == Failed ==> reply == Plain(500, AddFailed)) &&
              (p != Placed ==>
                 db.prices == old(db.prices) && db.orders == old(db.orders) && db.details == old(db.details)) &&
              db.orderSerial ==
                old(db.orderSerial) + (if HeaderInserted(old(db.prices), old(db.orderSerial), lines, faults) then 1 else 0)
  {
    match Identify(header, verify)
    case Stopped(http, message) =>
      return Plain(http, message);
    case Crashed =>
      return Panicked;
    case Identified(userId, _) =>
      var r := AddOrder(db, shopId, userId, lines, faults);
      reply := AddOrderReply(r);
  }

  /** `GET /api/orders`: the identified caller's id and role go to the model
      unchanged; its rows and paging fields come back with 200, a failure
      with 500. `views` is the joined order table. */
  method ListOrders(header: Option<string>, verify: string -> Option<string>,
                    views: seq<OrderView>, q: OrderQuery, fails: bool)
    returns (reply: Reply<Paged<OrderView>>)
    ensures var c := Identify(header, verify);
            (c.Stopped? ==> reply == Plain(c.http, c.message)) &&
            (c.Crashed? ==> reply.Panicked?) &&
            (c.Identified? && fails ==> reply == Plain(500, ListFailed)) &&
            (c.Identified? && !fails ==>
               reply.Reply? && reply.http == 200 && reply.code == 200 && reply.data.Some? &&
               reply.data.value.data == Kept(views, q, c.userId, c.role) &&
               PagedFor(reply.data.value, q.page, q.perPage))
  {
    match Identify(header, verify)
    case Stopped(http, message) =>
      return Plain(http, message);
    case Crashed =>
      return Panicked;
    case Identified(userId, role) =>
      var r := GetOrders(views, q, userId, role, fails);
      match r
      case Ok(paged) =>
        reply := Reply(200, 200, Successful, Some(paged));
      case Err =>
        reply := Plain(500, ListFailed);
  }

  /** A caller whose token carries the role "Disributor" is shown only their
      own orders. */
  lemma ListingScope(token: string, verify: string -> Option<string>, id: I32, role: string, rest: string,
                     views: seq<OrderView>, q: OrderQuery, row: OrderView)
    requires token != [] && NoSpace(token) && VisibleAscii(token)
    requires verify(token) == Some(FormatInt(id) + "," + role + "," + rest)
    requires Lacks(role, ',') && Lacks(rest, ',')
    requires role == ScopedRole && row in Kept(views, q, id, role)
    ensures Identify(Some("Bearer " + token), verify) == Identified(id, role)
    ensures row.userId == id
  {
    IdentifiesSubject(token, verify, id, role, rest);
  }
}
