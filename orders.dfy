/** Placing an order (`add_order` in src/models/order.rs): one transaction
    that first checks every line against the stock it reads, then inserts the
    order header, decrements stock and inserts one detail row per line, and
    finally recomputes the order total. */
module Orders {
  import opened Base
  import opened Text
  import opened Links
  import opened Store

  /** One requested line: a price listing and a quantity. */
  datatype Line = Line(priceId: I32, quantity: I32)

  /** The statements of the transaction that can fail for reasons outside the
      model (connection loss, a constraint the model does not see). `Check(i)`
      is the stock read of line `i`, `Decrement(i)` and `InsertDetail(i)` its
      writes, `Rollback` the explicit rollback on a short line. */
  datatype Step = Check(i: nat) | Rollback | InsertHeader | Decrement(i: nat)
                | InsertDetail(i: nat) | Recompute | Commit

  /** What the validate loop concludes: every line fits, some line asks for
      more than is in stock, or some stock read fails. */
  datatype Verdict = Pass | Short | Broken

  /** The three ways `add_order` ends: an order id, the "not available"
      sentinel 0, or an error. */
  datatype Placement = Placed | Unavailable | Failed

  const Pending: string := "Pending"

  /** The validate loop from line `i` on. The read fails (`query_one` finds no
      row) for a price that is missing or soft-deleted. */
  function Validation(prices: map<int, PriceRow>, lines: seq<Line>, faults: set<Step>, i: nat): Verdict
    requires i <= |lines|
    decreases |lines| - i
  {
    if i == |lines| then Pass
    else if Check(i) in faults || !Live(prices, lines[i].priceId) then Broken
    else if lines[i].quantity > prices[lines[i].priceId].remaining then Short
    else Validation(prices, lines, faults, i + 1)
  }

  /** A line is accepted by the validate loop. */
  predicate Fits(prices: map<int, PriceRow>, line: Line)
  {
    Live(prices, line.priceId) && line.quantity <= prices[line.priceId].remaining
  }

  /** The validate loop passes exactly when every read succeeds and every line
      fits the stock read for it. */
  lemma {:induction false} ValidationPass(prices: map<int, PriceRow>, lines: seq<Line>, faults: set<Step>, i: nat)
    requires i <= |lines|
    ensures Validation(prices, lines, faults, i) == Pass <==>
            forall j :: i <= j < |lines| ==> Check(j) !in faults && Fits(prices, lines[j])
    decreases |lines| - i
  {
    if i < |lines| {
      ValidationPass(prices, lines, faults, i + 1);
    }
  }

  /** Every line names a stored price. */
  predicate Known(prices: map<int, PriceRow>, lines: seq<Line>)
  {
    forall i :: 0 <= i < |lines| ==> lines[i].priceId in prices
  }

  lemma PassKnown(prices: map<int, PriceRow>, lines: seq<Line>, faults: set<Step>)
    requires Validation(prices, lines, faults, 0) == Pass
    ensures Known(prices, lines)
  {
    ValidationPass(prices, lines, faults, 0);
  }

  /** One stock decrement. */
  function Decremented(prices: map<int, PriceRow>, line: Line): map<int, PriceRow>
    requires line.priceId in prices
  {
    prices[line.priceId := prices[line.priceId].(remaining := prices[line.priceId].remaining - line.quantity)]
  }

  /** The stock after the first `k` decrements. Only `remaining` changes. */
  function StockAfter(prices: map<int, PriceRow>, lines: seq<Line>, k: nat): (s: map<int, PriceRow>)
    requires k <= |lines| && Known(prices, lines)
    ensures s.Keys == prices.Keys
  {
    if k == 0 then prices else Decremented(StockAfter(prices, lines, k - 1), lines[k - 1])
  }

  /** Decrements touch nothing but `remaining`. */
  lemma {:induction false} StockAfterKeeps(prices: map<int, PriceRow>, lines: seq<Line>, k: nat, id: int)
    requires k <= |lines| && Known(prices, lines) && id in prices
    ensures StockAfter(prices, lines, k)[id] == prices[id].(remaining := StockAfter(prices, lines, k)[id].remaining)
  {
    if k > 0 {
      StockAfterKeeps(prices, lines, k - 1, id);
    }
  }

  /** Total quantity the lines ask of price `id`. */
  function QtySum(lines: seq<Line>, id: int): int
  {
    if lines == [] then 0
    else QtySum(lines[..|lines| - 1], id) + (if lines[|lines| - 1].priceId == id then lines[|lines| - 1].quantity else 0)
  }

  /** The first `k` commit steps succeed: no fault, and no decrement leaves
      the `int4` range (Postgres refuses such an update). */
  predicate StepsSucceed(prices: map<int, PriceRow>, lines: seq<Line>, faults: set<Step>, k: nat)
    requires k <= |lines| && Known(prices, lines)
  {
    k == 0 || (StepsSucceed(prices, lines, faults, k - 1) && StepSucceeds(prices, lines, faults, k - 1))
  }

  /** Commit step `j` succeeds. */
  predicate StepSucceeds(prices: map<int, PriceRow>, lines: seq<Line>, faults: set<Step>, j: nat)
    requires j < |lines| && Known(prices, lines)
  {
    Decrement(j) !in faults && InsertDetail(j) !in faults &&
    InI32(StockAfter(prices, lines, j)[lines[j].priceId].remaining - lines[j].quantity)
  }

  /** The steps succeed exactly when each one does. */
  lemma {:induction false} StepsSucceedEach(prices: map<int, PriceRow>, lines: seq<Line>, faults: set<Step>, k: nat)
    requires k <= |lines| && Known(prices, lines)
    ensures StepsSucceed(prices, lines, faults, k) <==> forall j :: 0 <= j < k ==> StepSucceeds(prices, lines, faults, j)
  {
    if k > 0 {
      StepsSucceedEach(prices, lines, faults, k - 1);
    }
  }

  /** Everything after the header insert succeeds. */
  predicate CommitSucceeds(prices: map<int, PriceRow>, lines: seq<Line>, faults: set<Step>)
    requires Known(prices, lines)
  {
    StepsSucceed(prices, lines, faults, |lines|) && Recompute !in faults && Commit !in faults
  }

  /** The header insert succeeds: validation passed, no fault, and the order
      serial (an `int4` sequence) is not exhausted. */
  predicate HeaderInserted(prices: map<int, PriceRow>, serial: nat, lines: seq<Line>, faults: set<Step>)
  {
    Validation(prices, lines, faults, 0) == Pass && InsertHeader !in faults && serial < MaxI32
  }

  /** How `add_order` ends, as a function of the state it starts from. */
  function PlaceOutcome(prices: map<int, PriceRow>, serial: nat, lines: seq<Line>, faults: set<Step>): (p: Placement)
    ensures p == Placed ==> Known(prices, lines) && HeaderInserted(prices, serial, lines, faults)
    ensures p == Unavailable <==> Validation(prices, lines, faults, 0) == Short && Rollback !in faults
  {
    var v := Validation(prices, lines, faults, 0);
    if v == Broken then Failed
    else if v == Short then (if Rollback in faults then Failed else Unavailable)
    else if InsertHeader in faults || serial >= MaxI32 then Failed
    else
      PassKnown(prices, lines, faults);
      if CommitSucceeds(prices, lines, faults) then Placed else Failed
  }

  /** The detail rows the commit loop inserts for the first `k` lines: one
      per line, in order, with the stored price and the line's discount. */
  function NewDetails(prices: map<int, PriceRow>, links: seq<Link>, orderId: int, lines: seq<Line>, k: nat): (d: seq<DetailRow>)
    requires k <= |lines| && Known(prices, lines)
    ensures |d| == k
  {
    if k == 0 then []
    else
      NewDetails(prices, links, orderId, lines, k - 1) +
      [DetailRow(orderId, lines[k - 1].priceId, lines[k - 1].quantity,
                 prices[lines[k - 1].priceId].price, SoleOwner(links, lines[k - 1].priceId))]
  }

  /** Detail row `i` records line `i`: its price id and quantity, the stored
      price and the line's discount. */
  lemma {:induction false} NewDetailsAt(prices: map<int, PriceRow>, links: seq<Link>, orderId: int, lines: seq<Line>, k: nat, i: nat)
    requires k <= |lines| && Known(prices, lines) && i < k
    ensures NewDetails(prices, links, orderId, lines, k)[i] ==
            DetailRow(orderId, lines[i].priceId, lines[i].quantity,
                      prices[lines[i].priceId].price, SoleOwner(links, lines[i].priceId))
  {
    if i < k - 1 {
      NewDetailsAt(prices, links, orderId, lines, k - 1, i);
    }
  }

  /** The inserted details belong to the new order, so order ids handed out
      stay an upper bound for the detail table. */
  lemma {:induction false} NewDetailsBelong(details: seq<DetailRow>, prices: map<int, PriceRow>, links: seq<Link>,
                                            orderId: int, lines: seq<Line>, k: nat)
    requires k <= |lines| && Known(prices, lines) && 1 <= orderId
    requires DetailsValid(details, orderId)
    ensures DetailsValid(details + NewDetails(prices, links, orderId, lines, k), orderId)
  {
    if k > 0 {
      NewDetailsBelong(details, prices, links, orderId, lines, k - 1);
      var d := details + NewDetails(prices, links, orderId, lines, k);
      assert d == details + NewDetails(prices, links, orderId, lines, k - 1) + [d[|d| - 1]];
    }
  }

  /** What the first `k` lines cost at the stored prices. */
  function LineTotal(prices: map<int, PriceRow>, lines: seq<Line>, k: nat): Money
    requires k <= |lines| && Known(prices, lines)
  {
    if k == 0 then 0
    else LineTotal(prices, lines, k - 1) + prices[lines[k - 1].priceId].price * lines[k - 1].quantity
  }

  /** `coalesce(sum(price_at_order * quantity), 0)` over the details of an order. */
  function AmountOf(details: seq<DetailRow>, orderId: int): Money
  {
    if details == [] then 0
    else
      var last := details[|details| - 1];
      AmountOf(details[..|details| - 1], orderId) +
      (if last.orderId == orderId then last.priceAtOrder * last.quantity else 0)
  }

  /** The placement a result reports: the sentinel 0 means the products are
      not available, any other id a placed order. */
  function Reported(r: Outcome<int>): Placement
  {
    match r
    case Ok(id) => if id == 0 then Unavailable else Placed
    case Err => Failed
  }

  /** Place an order for `userId` at shop `shopId`. Returns the new order id,
      0 when some line asks for more than is in stock, or an error. The
      transaction writes to its own view of the tables, which becomes the
      store's state only at commit; on any other ending no table changes. */
  method AddOrder(db: Database, shopId: I32, userId: I32, lines: seq<Line>, faults: set<Step>)
    returns (r: Outcome<int>)
    requires db.Valid()
    modifies db`prices, db`orders, db`details, db`orderSerial
    ensures db.Valid()
    ensures Reported(r) == PlaceOutcome(old(db.prices), old(db.orderSerial), lines, faults)
    ensures Reported(r) == Placed ==>
              r.value == old(db.orderSerial) + 1 &&
              db.prices == StockAfter(old(db.prices), lines, |lines|) &&
              db.details == old(db.details) + NewDetails(old(db.prices), old(db.discountLinks), r.value, lines, |lines|) &&
              db.orders == old(db.orders)[r.value := OrderRow(shopId, userId, Pending, LineTotal(old(db.prices), lines, |lines|), false)]
    ensures Reported(r) != Placed ==>
              db.prices == old(db.prices) && db.details == old(db.details) && db.orders == old(db.orders)
    ensures db.orderSerial ==
              old(db.orderSerial) + (if HeaderInserted(old(db.prices), old(db.orderSerial), lines, faults) then 1 else 0)
  {
    // Check available quantities first; a short line rolls back and
    // answers 0, unless the rollback itself fails.
    var verdict := CheckStock(db.prices, lines, faults);
    if verdict != Pass {
      r := if verdict == Short && Rollback !in faults then Ok(0) else Err;
      return;
    }
    var prices', orders', details', serial';
    r, prices', orders', details', serial' :=
      Transact(db.prices, db.orders, db.details, db.discountLinks, db.orderSerial, shopId, userId, lines, faults);
    TransactValid(db.prices, db.orders, db.details, db.discountLinks, db.orderSerial, shopId, userId, lines, faults,
                  r, prices', orders', details', serial', db.priceSerial);
    db.prices, db.orders, db.details, db.orderSerial := prices', orders', details', serial';
  }

  /** The result of a successful placement, as a function of the tables it
      starts from. */
  predicate PlacedTables(prices: map<int, PriceRow>, orders: map<int, OrderRow>, details: seq<DetailRow>,
                         links: seq<Link>, serial: nat, shopId: I32, userId: I32, lines: seq<Line>,
                         r: Outcome<int>, prices': map<int, PriceRow>, orders': map<int, OrderRow>, details': seq<DetailRow>)
    requires Known(prices, lines)
  {
    r == Ok(serial + 1) &&
    prices' == StockAfter(prices, lines, |lines|) &&
    details' == details + NewDetails(prices, links, serial + 1, lines, |lines|) &&
    orders' == orders[serial + 1 := OrderRow(shopId, userId, Pending, LineTotal(prices, lines, |lines|), false)]
  }

  /** `add_order` after the validate loop passed, on the transaction's view
      of the tables: insert the header (taking an id from the serial for good),
      run the commit loop, recompute the total and commit. */
  method Transact(prices: map<int, PriceRow>, orders: map<int, OrderRow>, details: seq<DetailRow>,
                  links: seq<Link>, serial: nat, shopId: I32, userId: I32, lines: seq<Line>, faults: set<Step>)
    returns (r: Outcome<int>, prices': map<int, PriceRow>, orders': map<int, OrderRow>, details': seq<DetailRow>, serial': nat)
    requires Validation(prices, lines, faults, 0) == Pass
    requires DetailsValid(details, serial)
    ensures Reported(r) == PlaceOutcome(prices, serial, lines, faults)
    ensures Reported(r) == Placed ==>
              Known(prices, lines) &&
              PlacedTables(prices, orders, details, links, serial, shopId, userId, lines, r, prices', orders', details')
    ensures Reported(r) != Placed ==> prices' == prices && details' == details && orders' == orders
    ensures serial' == serial + (if HeaderInserted(prices, serial, lines, faults) then 1 else 0)
  {
    prices', orders', details', serial' := prices, orders, details, serial;
    if InsertHeader in faults || serial >= MaxI32 {
      return Err, prices', orders', details', serial';
    }
    PassKnown(prices, lines, faults);
    serial' := serial + 1;
    var id: int := serial';
    var header := OrderRow(shopId, userId, Pending, 0, false);

    // Decrement stock and insert the details.
    var ok, stock, rows := CommitLines(prices, details, links, id, lines, faults);
    if !ok || Recompute in faults {
      return Err, prices', orders', details', serial';
    }

    // Recompute the total from the inserted details.
    OrderTotal(details, prices, links, id, lines);
    header := header.(total := AmountOf(rows, id));

    if Commit in faults {
      return Err, prices', orders', details', serial';
    }
    r, prices', orders', details' := Ok(id), stock, orders[id := header], rows;
  }

  /** A placement keeps the store's invariant. */
  lemma TransactValid(prices: map<int, PriceRow>, orders: map<int, OrderRow>, details: seq<DetailRow>,
                      links: seq<Link>, serial: nat, shopId: I32, userId: I32, lines: seq<Line>, faults: set<Step>,
                      r: Outcome<int>, prices': map<int, PriceRow>, orders': map<int, OrderRow>, details': seq<DetailRow>,
                      serial': nat, priceSerial: nat)
    requires PricesValid(prices, priceSerial) && IdsValid(orders, serial) && DetailsValid(details, serial)
    requires Validation(prices, lines, faults, 0) == Pass
    requires Reported(r) == PlaceOutcome(prices, serial, lines, faults)
    requires Reported(r) == Placed ==>
               Known(prices, lines) &&
               PlacedTables(prices, orders, details, links, serial, shopId, userId, lines, r, prices', orders', details')
    requires Reported(r) != Placed ==> prices' == prices && details' == details && orders' == orders
    requires serial' == serial + (if HeaderInserted(prices, serial, lines, faults) then 1 else 0)
    ensures PricesValid(prices', priceSerial) && IdsValid(orders', serial') && DetailsValid(details', serial')
  {
    SerialGrows(orders, details, serial, serial');
    if Reported(r) == Placed {
      StockInRange(prices, lines, faults, |lines|, priceSerial);
      NewDetailsBelong(details, prices, links, serial + 1, lines, |lines|);
    }
  }

  /** Decrements that all succeed keep every stock in the `int4` range. */
  lemma {:induction false} StockInRange(prices: map<int, PriceRow>, lines: seq<Line>, faults: set<Step>, k: nat, priceSerial: nat)
    requires k <= |lines| && Known(prices, lines)
    requires PricesValid(prices, priceSerial) && StepsSucceed(prices, lines, faults, k)
    ensures PricesValid(StockAfter(prices, lines, k), priceSerial)
  {
    if k > 0 {
      StockInRange(prices, lines, faults, k - 1, priceSerial);
    }
  }

  /** The validate loop: read each line's stock before anything is written. */
  method CheckStock(prices: map<int, PriceRow>, lines: seq<Line>, faults: set<Step>) returns (v: Verdict)
    ensures v == Validation(prices, lines, faults, 0)
  {
    var i := 0;
    while i < |lines|
      invariant 0 <= i <= |lines|
      invariant Validation(prices, lines, faults, 0) == Validation(prices, lines, faults, i)
    {
      var line := lines[i];
      if Check(i) in faults || line.priceId !in prices || prices[line.priceId].deleted {
        return Broken;
      }
      if line.quantity > prices[line.priceId].remaining {
        return Short;
      }
      i := i + 1;
    }
    return Pass;
  }

  /** The commit loop over the transaction's view of the stock and detail
      tables: decrement each line's stock, then append its detail row with the
      stored price and the discount of the single live link. It stops at the
      first statement that fails. */
  method CommitLines(prices: map<int, PriceRow>, details: seq<DetailRow>, links: seq<Link>,
                     id: int, lines: seq<Line>, faults: set<Step>)
    returns (ok: bool, prices': map<int, PriceRow>, details': seq<DetailRow>)
    requires Known(prices, lines)
    ensures ok <==> StepsSucceed(prices, lines, faults, |lines|)
    ensures ok ==> prices' == StockAfter(prices, lines, |lines|)
    ensures ok ==> details' == details + NewDetails(prices, links, id, lines, |lines|)
  {
    prices', details' := prices, details;
    var k := 0;
    while k < |lines|
      invariant 0 <= k <= |lines|
      invariant StepsSucceed(prices, lines, faults, k)
      invariant prices' == StockAfter(prices, lines, k)
      invariant details' == details + NewDetails(prices, links, id, lines, k)
    {
      var line := lines[k];
      if Decrement(k) in faults || !InI32(prices'[line.priceId].remaining - line.quantity) {
        StepFails(prices, lines, faults, k);
        return false, prices', details';
      }
      prices' := Decremented(prices', line);
      var discount := SoleOwner(links, line.priceId);
      if InsertDetail(k) in faults {
        StepFails(prices, lines, faults, k);
        return false, prices', details';
      }
      StockAfterKeeps(prices, lines, k + 1, line.priceId);
      details' := details' + [DetailRow(id, line.priceId, line.quantity, prices'[line.priceId].price, discount)];
      k := k + 1;
    }
    ok := true;
  }

  /** One failing commit step makes the whole commit loop fail. */
  lemma StepFails(prices: map<int, PriceRow>, lines: seq<Line>, faults: set<Step>, k: nat)
    requires k < |lines| && Known(prices, lines) && !StepSucceeds(prices, lines, faults, k)
    ensures !StepsSucceed(prices, lines, faults, |lines|)
  {
    StepsSucceedEach(prices, lines, faults, |lines|);
  }

  // ---------------------------------------------------------------------------
  // Sums

  lemma {:induction false} AmountOfAppend(a: seq<DetailRow>, b: seq<DetailRow>, orderId: int)
    ensures AmountOf(a + b, orderId) == AmountOf(a, orderId) + AmountOf(b, orderId)
    decreases |b|
  {
    if b == [] {
      assert a + b == a;
    } else {
      var b' := b[..|b| - 1];
      assert (a + b)[..|a + b| - 1] == a + b';
      AmountOfAppend(a, b', orderId);
    }
  }

  lemma {:induction false} AmountOfNewDetails(prices: map<int, PriceRow>, links: seq<Link>, orderId: int, lines: seq<Line>, k: nat)
    requires k <= |lines| && Known(prices, lines)
    ensures AmountOf(NewDetails(prices, links, orderId, lines, k), orderId) == LineTotal(prices, lines, k)
  {
    if k > 0 {
      var d := NewDetails(prices, links, orderId, lines, k);
      assert d[..|d| - 1] == NewDetails(prices, links, orderId, lines, k - 1);
      AmountOfNewDetails(prices, links, orderId, lines, k - 1);
    }
  }

  lemma {:induction false} AmountOfOther(details: seq<DetailRow>, orderId: int)
    requires forall i :: 0 <= i < |details| ==> details[i].orderId != orderId
    ensures AmountOf(details, orderId) == 0
  {
    if details != [] {
      AmountOfOther(details[..|details| - 1], orderId);
    }
  }

  /** The recomputed total of a fresh order is the cost of its lines at the
      stored prices: earlier orders' details do not count. */
  lemma OrderTotal(details: seq<DetailRow>, prices: map<int, PriceRow>, links: seq<Link>, orderId: int, lines: seq<Line>)
    requires Known(prices, lines)
    requires forall i :: 0 <= i < |details| ==> details[i].orderId < orderId
    ensures AmountOf(details + NewDetails(prices, links, orderId, lines, |lines|), orderId) == LineTotal(prices, lines, |lines|)
  {
    AmountOfAppend(details, NewDetails(prices, links, orderId, lines, |lines|), orderId);
    AmountOfOther(details, orderId);
    AmountOfNewDetails(prices, links, orderId, lines, |lines|);
  }

  /** An order with no lines costs nothing. */
  lemma EmptyOrderTotal(prices: map<int, PriceRow>, details: seq<DetailRow>, links: seq<Link>, orderId: int)
    requires forall i :: 0 <= i < |details| ==> details[i].orderId < orderId
    ensures AmountOf(details + NewDetails(prices, links, orderId, [], 0), orderId) == 0
  {
    OrderTotal(details, prices, links, orderId, []);
  }

  // ---------------------------------------------------------------------------
  // Stock

  /** Stock conservation: after `k` decrements each listing has lost exactly
      the quantities of the lines among the first `k` that name it. */
  lemma {:induction false} StockConservation(prices: map<int, PriceRow>, lines: seq<Line>, k: nat, id: int)
    requires k <= |lines| && Known(prices, lines) && id in prices
    ensures StockAfter(prices, lines, k)[id].remaining == prices[id].remaining - QtySum(lines[..k], id)
  {
    if k > 0 {
      StockConservation(prices, lines, k - 1, id);
      assert lines[..k][..k - 1] == lines[..k - 1];
    }
  }

  lemma {:induction false} QtySumAbsent(lines: seq<Line>, id: int)
    requires forall i :: 0 <= i < |lines| ==> lines[i].priceId != id
    ensures QtySum(lines, id) == 0
  {
    if lines != [] {
      QtySumAbsent(lines[..|lines| - 1], id);
    }
  }

  lemma {:induction false} QtySumSingle(lines: seq<Line>, i: nat)
    requires i < |lines|
    requires forall j :: 0 <= j < |lines| && j != i ==> lines[j].priceId != lines[i].priceId
    ensures QtySum(lines, lines[i].priceId) == lines[i].quantity
  {
    var front := lines[..|lines| - 1];
    if i == |lines| - 1 {
      QtySumAbsent(front, lines[i].priceId);
    } else {
      assert front[i] == lines[i];
      QtySumSingle(front, i);
    }
  }

  /** On success every listing's stock drops by the total quantity of the
      lines naming it; listings no line names are untouched. */
  lemma PlacedStock(prices: map<int, PriceRow>, serial: nat, lines: seq<Line>, faults: set<Step>, id: int)
    requires PlaceOutcome(prices, serial, lines, faults) == Placed
    requires id in prices
    ensures StockAfter(prices, lines, |lines|)[id].remaining == prices[id].remaining - QtySum(lines, id)
    ensures (forall i :: 0 <= i < |lines| ==> lines[i].priceId != id) ==>
              StockAfter(prices, lines, |lines|)[id] == prices[id]
  {
    StockConservation(prices, lines, |lines|, id);
    assert lines[..|lines|] == lines;
    if forall i :: 0 <= i < |lines| ==> lines[i].priceId != id {
      QtySumAbsent(lines, id);
      StockAfterKeeps(prices, lines, |lines|, id);
    }
  }

  /** With pairwise distinct price ids, an order that is placed leaves no
      listing it touches below zero. */
  lemma DistinctNeverOversell(prices: map<int, PriceRow>, serial: nat, lines: seq<Line>, faults: set<Step>, i: nat)
    requires PlaceOutcome(prices, serial, lines, faults) == Placed
    requires forall a, b :: 0 <= a < b < |lines| ==> lines[a].priceId != lines[b].priceId
    requires i < |lines|
    ensures StockAfter(prices, lines, |lines|)[lines[i].priceId].remaining >= 0
  {
    ValidationPass(prices, lines, faults, 0);
    PlacedStock(prices, serial, lines, faults, lines[i].priceId);
    forall j | 0 <= j < |lines| && j != i
      ensures lines[j].priceId != lines[i].priceId
    {
      if j < i {
        assert lines[j].priceId != lines[i].priceId;
      } else {
        assert lines[i].priceId != lines[j].priceId;
      }
    }
    QtySumSingle(lines, i);
  }

  /** Each line is checked against the stock as stored, before any decrement,
      so two lines of 3 against a stock of 5 both pass and leave -1. */
  lemma DuplicateLinesOversell()
    ensures var prices := map[7 := PriceRow(1, 100, "single_item", 1, 5, false)];
            var lines := [Line(7, 3), Line(7, 3)];
            PlaceOutcome(prices, 0, lines, {}) == Placed &&
            StockAfter(prices, lines, |lines|)[7].remaining == -1
  {
    var prices := map[7 := PriceRow(1, 100, "single_item", 1, 5, false)];
    var lines := [Line(7, 3), Line(7, 3)];
    assert Validation(prices, lines, {}, 2) == Pass;
    assert Validation(prices, lines, {}, 0) == Pass;
    assert StockAfter(prices, lines, 1)[7].remaining == 2;
    assert StockAfter(prices, lines, 2)[7].remaining == -1;
    assert StepsSucceed(prices, lines, {}, 2);
  }

  // ---------------------------------------------------------------------------
  // Refusals

  /** A line asking for more than is in stock means the order is never
      placed. */
  lemma ShortLineNeverPlaced(prices: map<int, PriceRow>, serial: nat, lines: seq<Line>, faults: set<Step>, i: nat)
    requires i < |lines| && Live(prices, lines[i].priceId)
    requires lines[i].quantity > prices[lines[i].priceId].remaining
    ensures PlaceOutcome(prices, serial, lines, faults) != Placed
  {
    ValidationPass(prices, lines, faults, 0);
  }

  /** When the lines before a short line all fit and nothing fails, the
      result is the "not available" sentinel. */
  lemma {:induction false} ShortLineUnavailable(prices: map<int, PriceRow>, serial: nat, lines: seq<Line>, i: nat)
    requires i < |lines| && Live(prices, lines[i].priceId)
    requires lines[i].quantity > prices[lines[i].priceId].remaining
    requires forall j :: 0 <= j < i ==> Fits(prices, lines[j])
    ensures PlaceOutcome(prices, serial, lines, {}) == Unavailable
  {
    ShortFrom(prices, lines, i, 0);
  }

  lemma {:induction false} ShortFrom(prices: map<int, PriceRow>, lines: seq<Line>, i: nat, j: nat)
    requires j <= i < |lines| && Live(prices, lines[i].priceId)
    requires lines[i].quantity > prices[lines[i].priceId].remaining
    requires forall l :: j <= l < i ==> Fits(prices, lines[l])
    ensures Validation(prices, lines, {}, j) == Short
    decreases i - j
  {
    if j < i {
      ShortFrom(prices, lines, i, j + 1);
    }
  }

  /** A line naming a missing or soft-deleted price means the order is never
      placed. */
  lemma MissingPriceNeverPlaced(prices: map<int, PriceRow>, serial: nat, lines: seq<Line>, faults: set<Step>, i: nat)
    requires i < |lines| && !Live(prices, lines[i].priceId)
    ensures PlaceOutcome(prices, serial, lines, faults) != Placed
  {
    ValidationPass(prices, lines, faults, 0);
  }

  /** When the lines before it fit, a missing or soft-deleted price makes the
      stock read fail, and the result is an error. */
  lemma {:induction false} MissingPriceFails(prices: map<int, PriceRow>, serial: nat, lines: seq<Line>, faults: set<Step>, i: nat)
    requires i < |lines| && !Live(prices, lines[i].priceId)
    requires forall j :: 0 <= j < i ==> Check(j) !in faults && Fits(prices, lines[j])
    ensures PlaceOutcome(prices, serial, lines, faults) == Failed
  {
    BrokenFrom(prices, lines, faults, i, 0);
  }

  lemma {:induction false} BrokenFrom(prices: map<int, PriceRow>, lines: seq<Line>, faults: set<Step>, i: nat, j: nat)
    requires j <= i < |lines| && !Live(prices, lines[i].priceId)
    requires forall l :: j <= l < i ==> Check(l) !in faults && Fits(prices, lines[l])
    ensures Validation(prices, lines, faults, j) == Broken
    decreases i - j
  {
    if j < i {
      BrokenFrom(prices, lines, faults, i, j + 1);
    }
  }

  /** Every placed line records the listing's stored price, whatever the
      client sent, and the discount of the single live link to that price. */
  lemma PlacedDetails(prices: map<int, PriceRow>, links: seq<Link>, serial: nat, lines: seq<Line>, faults: set<Step>, i: nat)
    requires PlaceOutcome(prices, serial, lines, faults) == Placed
    requires i < |lines|
    ensures var d := NewDetails(prices, links, serial + 1, lines, |lines|)[i];
            d.priceAtOrder == prices[lines[i].priceId].price &&
            (d.discountId.Some? <==> |OwnersOf(links, lines[i].priceId)| == 1) &&
            (d.discountId.Some? ==> OwnersOf(links, lines[i].priceId) == [d.discountId.value])
  {
    NewDetailsAt(prices, links, serial + 1, lines, |lines|, i);
  }
}
