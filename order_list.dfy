/** Listing orders (`get_orders` in src/models/order.rs): the filter is built
    one clause at a time, each clause that needs a bound value pushing it onto
    the parameter list and naming it by its position `$k`. */
module OrderList {
  import opened Base
  import opened Text
  import opened Store
  import opened Paging

  /** A bound query parameter. */
  datatype Param = UserParam(id: I32) | DateParam(day: Date) | StatusParam(status: string)

  /** A filter clause. Slots are 1-based positions in the parameter list; the
      amount bounds are written into the query text itself. */
  datatype Cond = UserIs(slot: nat) | CreatedBetween(from: nat, to: nat)
                | AmountBetween(low: Money, high: Money) | StatusIs(slot: nat)

  /** The optional filters of a listing request. */
  datatype OrderQuery = OrderQuery(fromDate: Option<Date>, toDate: Option<Date>,
                                   fromAmount: Option<Money>, toAmount: Option<Money>,
                                   status: Option<string>, page: Option<nat>, perPage: Option<nat>)

  /** A row of the orders ⋈ shops ⋈ users join, with what the filters read.
      `live` is false when the order, its shop or its user is soft-deleted. */
  datatype OrderView = OrderView(orderId: I32, userId: I32, createdOn: Date, total: Money,
                                 status: string, live: bool)

  /** The role literal the source compares with (sic). */
  const ScopedRole: string := "Disributor"

  /** Parameter `$k`, when there is one. */
  function Slot(params: seq<Param>, k: nat): (p: Option<Param>)
    ensures p.Some? <==> 1 <= k <= |params|
  {
    if 1 <= k <= |params| then Some(params[k - 1]) else None
  }

  /** What one clause demands of a row, given the bound parameters. SQL
      `between` is inclusive on both ends. */
  predicate Holds(c: Cond, params: seq<Param>, row: OrderView)
  {
    match c
    case UserIs(k) => Slot(params, k) == Some(UserParam(row.userId))
    case CreatedBetween(a, b) =>
      Slot(params, a).Some? && Slot(params, a).value.DateParam? &&
      Slot(params, b).Some? && Slot(params, b).value.DateParam? &&
      Slot(params, a).value.day <= row.createdOn <= Slot(params, b).value.day
    case AmountBetween(lo, hi) => lo <= row.total <= hi
    case StatusIs(k) => Slot(params, k) == Some(StatusParam(row.status))
  }

  /** The rows the composed query admits. */
  predicate Admits(conds: seq<Cond>, params: seq<Param>, row: OrderView)
  {
    row.live && forall i :: 0 <= i < |conds| ==> Holds(conds[i], params, row)
  }

  /** The rows a listing request asks for, stated directly on the request:
      live rows, of the caller when the role is the scoped literal, created
      within the dates when both are given, costing within the amounts when
      both are given, and of the status when one is given. */
  predicate Wanted(q: OrderQuery, userId: I32, role: string, row: OrderView)
  {
    row.live && InScope(role, userId, row) && InDates(q, row) && InAmounts(q, row) && OfStatus(q, row)
  }

  predicate InScope(role: string, userId: I32, row: OrderView)
  {
    role == ScopedRole ==> row.userId == userId
  }

  predicate InDates(q: OrderQuery, row: OrderView)
  {
    q.fromDate.Some? && q.toDate.Some? ==> q.fromDate.value <= row.createdOn <= q.toDate.value
  }

  predicate InAmounts(q: OrderQuery, row: OrderView)
  {
    q.fromAmount.Some? && q.toAmount.Some? ==> q.fromAmount.value <= row.total <= q.toAmount.value
  }

  predicate OfStatus(q: OrderQuery, row: OrderView)
  {
    q.status.Some? ==> row.status == q.status.value
  }

  /** The largest slot a clause names. */
  function MaxSlot(c: Cond): nat
  {
    match c
    case UserIs(k) => k
    case CreatedBetween(a, b) => if a < b then b else a
    case AmountBetween(_, _) => 0
    case StatusIs(k) => k
  }

  /** No clause names a slot past `n`. */
  predicate Bounded(conds: seq<Cond>, n: nat)
  {
    forall i :: 0 <= i < |conds| ==> MaxSlot(conds[i]) <= n
  }

  /** A clause whose slots are all bound reads the same parameters however
      many more are pushed later. */
  lemma HoldsLater(c: Cond, params: seq<Param>, more: seq<Param>, row: OrderView)
    requires MaxSlot(c) <= |params|
    ensures Holds(c, params + more, row) <==> Holds(c, params, row)
  {
    match c
    case UserIs(k) =>
      if 1 <= k { assert (params + more)[k - 1] == params[k - 1]; }
    case CreatedBetween(x, y) =>
      if 1 <= x { assert (params + more)[x - 1] == params[x - 1]; }
      if 1 <= y { assert (params + more)[y - 1] == params[y - 1]; }
    case AmountBetween(_, _) =>
    case StatusIs(k) =>
      if 1 <= k { assert (params + more)[k - 1] == params[k - 1]; }
  }

  /** Appending a clause (and pushing its parameters) narrows the admitted
      rows by exactly that clause. */
  lemma AdmitsAppend(conds: seq<Cond>, params: seq<Param>, more: seq<Param>, c: Cond, row: OrderView)
    requires Bounded(conds, |params|)
    ensures Admits(conds + [c], params + more, row) <==>
            Admits(conds, params, row) && Holds(c, params + more, row)
  {
    var cs := conds + [c];
    forall i | 0 <= i < |conds|
      ensures Holds(cs[i], params + more, row) <==> Holds(conds[i], params, row)
    {
      assert cs[i] == conds[i];
      HoldsLater(conds[i], params, more, row);
    }
    if Admits(cs, params + more, row) {
      assert Holds(cs[|conds|], params + more, row);
      forall i | 0 <= i < |conds| ensures Holds(conds[i], params, row) {
        assert Holds(cs[i], params + more, row);
      }
    }
    if Admits(conds, params, row) && Holds(c, params + more, row) {
      forall i | 0 <= i < |cs| ensures Holds(cs[i], params + more, row) {
        if i < |conds| {
          assert Holds(conds[i], params, row);
        }
      }
    }
  }

  /** How many parameters a clause binds. */
  function Binds(c: Cond): nat
  {
    match c
    case UserIs(_) => 1
    case CreatedBetween(_, _) => 2
    case AmountBetween(_, _) => 0
    case StatusIs(_) => 1
  }

  function BindsAll(conds: seq<Cond>): nat
  {
    if conds == [] then 0 else BindsAll(conds[..|conds| - 1]) + Binds(conds[|conds| - 1])
  }

  /** A clause names the parameters it has just pushed, `n` being the length
      of the list after the push: its last slot is `n`, and a date range takes
      the two newest slots. */
  predicate NamesNewest(c: Cond, n: nat)
  {
    match c
    case UserIs(k) => k == n
    case CreatedBetween(a, b) => b == n && a == n - 1
    case AmountBetween(_, _) => true
    case StatusIs(k) => k == n
  }

  /** Every clause names the parameters pushed with it. */
  predicate Numbered(conds: seq<Cond>)
  {
    conds == [] ||
    (Numbered(conds[..|conds| - 1]) && NamesNewest(conds[|conds| - 1], BindsAll(conds)))
  }

  /** A numbered clause list binds as many parameters as the largest slot it
      names, so it reads only parameters that are already there. */
  lemma {:induction false} NumberedBounded(conds: seq<Cond>)
    requires Numbered(conds)
    ensures Bounded(conds, BindsAll(conds))
  {
    if conds != [] {
      var front := conds[..|conds| - 1];
      NumberedBounded(front);
      forall i | 0 <= i < |conds| ensures MaxSlot(conds[i]) <= BindsAll(conds) {
        if i < |front| {
          assert conds[i] == front[i];
        }
      }
    }
  }

  /** Pushing `more` and appending a clause that names exactly those new
      slots keeps the list numbered. */
  lemma NumberedAppend(conds: seq<Cond>, params: seq<Param>, more: seq<Param>, c: Cond)
    requires Numbered(conds) && |params| == BindsAll(conds)
    requires |more| == Binds(c) && NamesNewest(c, |params| + |more|)
    ensures Numbered(conds + [c]) && |params + more| == BindsAll(conds + [c])
  {
    assert (conds + [c])[..|conds|] == conds;
  }

  /** The rows wanted once the first `stage` filters have been applied, in
      the order the source applies them: user scope, dates, amounts, status. */
  predicate WantedSoFar(q: OrderQuery, userId: I32, role: string, stage: nat, row: OrderView)
  {
    row.live && (stage >= 1 ==> InScope(role, userId, row)) && (stage >= 2 ==> InDates(q, row)) &&
    (stage >= 3 ==> InAmounts(q, row)) && (stage >= 4 ==> OfStatus(q, row))
  }

  /** The clauses and parameters built so far admit exactly the rows wanted
      after `stage` filters, and are numbered. */
  ghost predicate Composed(conds: seq<Cond>, params: seq<Param>, q: OrderQuery, userId: I32, role: string, stage: nat)
  {
    Numbered(conds) && |params| == BindsAll(conds) &&
    forall row :: Admits(conds, params, row) <==> WantedSoFar(q, userId, role, stage, row)
  }

  /** One step of the composer: append clause `c` after pushing `more`, where
      `c` demands exactly what filter `stage + 1` demands. */
  lemma ComposeStep(conds: seq<Cond>, params: seq<Param>, more: seq<Param>, c: Cond,
                    q: OrderQuery, userId: I32, role: string, stage: nat)
    requires Composed(conds, params, q, userId, role, stage)
    requires |more| == Binds(c) && NamesNewest(c, |params| + |more|)
    requires forall row :: WantedSoFar(q, userId, role, stage + 1, row) <==>
               WantedSoFar(q, userId, role, stage, row) && Holds(c, params + more, row)
    ensures Composed(conds + [c], params + more, q, userId, role, stage + 1)
  {
    NumberedAppend(conds, params, more, c);
    NumberedBounded(conds);
    forall row ensures Admits(conds + [c], params + more, row) <==> WantedSoFar(q, userId, role, stage + 1, row) {
      AdmitsAppend(conds, params, more, c, row);
    }
  }

  /** A filter that is not applied: the wanted rows do not change. */
  lemma SkipStep(conds: seq<Cond>, params: seq<Param>, q: OrderQuery, userId: I32, role: string, stage: nat)
    requires Composed(conds, params, q, userId, role, stage)
    requires forall row :: WantedSoFar(q, userId, role, stage, row) ==> WantedSoFar(q, userId, role, stage + 1, row)
    ensures Composed(conds, params, q, userId, role, stage + 1)
  {
  }

  /** Build the filter of `get_orders`: a user scope for the role literal
      "Disributor", a date range only when both dates are given, an amount
      range only when both amounts are given, and a status match. Each
      clause that binds values pushes them first and names them by the new
      length of the parameter list. */
  method ComposeOrderFilter(q: OrderQuery, userId: I32, role: string)
    returns (conds: seq<Cond>, params: seq<Param>)
    ensures forall row :: Admits(conds, params, row) <==> Wanted(q, userId, role, row)
    ensures Numbered(conds) && |params| == BindsAll(conds)
    ensures (exists i :: 0 <= i < |conds| && conds[i].UserIs?) <==> role == ScopedRole
    ensures (exists i :: 0 <= i < |conds| && conds[i].CreatedBetween?) <==> q.fromDate.Some? && q.toDate.Some?
  {
    assert Composed([], [], q, userId, role, 0);
    var scoped, p1 := ScopeClause([], [], q, userId, role);
    var dated, p2 := DateClause(scoped, p1, q, userId, role);
    var priced, p3 := AmountClause(dated, p2, q, userId, role);
    conds, params := StatusClause(priced, p3, q, userId, role);
    ClauseKinds(scoped, dated, priced, conds, role, q);
  }

  /** `if role == "Disributor"`: push the user id and require `o.user_id` to
      equal it. */
  method ScopeClause(conds: seq<Cond>, params: seq<Param>, q: OrderQuery, userId: I32, role: string)
    returns (conds': seq<Cond>, params': seq<Param>)
    requires Composed(conds, params, q, userId, role, 0)
    ensures Composed(conds', params', q, userId, role, 1)
    ensures Grows(conds, conds', role == ScopedRole, (c: Cond) => c.UserIs?)
  {
    conds', params' := conds, params;
    if role == ScopedRole {
      var more := [UserParam(userId)];
      var c := UserIs(|params| + 1);
      forall row ensures Holds(c, params + more, row) <==> InScope(role, userId, row) {
        assert (params + more)[|params|] == more[0];
      }
      ComposeStep(conds, params, more, c, q, userId, role, 0);
      conds', params' := conds + [c], params + more;
    } else {
      SkipStep(conds, params, q, userId, role, 0);
    }
  }

  /** When both dates are given: push them and require the creation date to
      lie between them. */
  method DateClause(conds: seq<Cond>, params: seq<Param>, q: OrderQuery, userId: I32, role: string)
    returns (conds': seq<Cond>, params': seq<Param>)
    requires Composed(conds, params, q, userId, role, 1)
    ensures Composed(conds', params', q, userId, role, 2)
    ensures Grows(conds, conds', q.fromDate.Some? && q.toDate.Some?, (c: Cond) => c.CreatedBetween?)
  {
    conds', params' := conds, params;
    if q.fromDate.Some? && q.toDate.Some? {
      var more := [DateParam(q.fromDate.value), DateParam(q.toDate.value)];
      var c := CreatedBetween(|params| + 1, |params| + 2);
      forall row ensures Holds(c, params + more, row) <==> InDates(q, row) {
        assert (params + more)[|params|] == more[0] && (params + more)[|params| + 1] == more[1];
      }
      ComposeStep(conds, params, more, c, q, userId, role, 1);
      conds', params' := conds + [c], params + more;
    } else {
      SkipStep(conds, params, q, userId, role, 1);
    }
  }

  /** When both amounts are given: require the total to lie between them.
      The bounds are written into the query text, so nothing is pushed. */
  method AmountClause(conds: seq<Cond>, params: seq<Param>, q: OrderQuery, userId: I32, role: string)
    returns (conds': seq<Cond>, params': seq<Param>)
    requires Composed(conds, params, q, userId, role, 2)
    ensures Composed(conds', params', q, userId, role, 3)
    ensures params' == params
    ensures Grows(conds, conds', q.fromAmount.Some? && q.toAmount.Some?, (c: Cond) => c.AmountBetween?)
  {
    conds', params' := conds, params;
    if q.fromAmount.Some? && q.toAmount.Some? {
      var c := AmountBetween(q.fromAmount.value, q.toAmount.value);
      assert params + [] == params;
      ComposeStep(conds, params, [], c, q, userId, role, 2);
      conds' := conds + [c];
    } else {
      SkipStep(conds, params, q, userId, role, 2);
    }
  }

  /** When a status is given: push it and require `o.status` to equal it. */
  method StatusClause(conds: seq<Cond>, params: seq<Param>, q: OrderQuery, userId: I32, role: string)
    returns (conds': seq<Cond>, params': seq<Param>)
    requires Composed(conds, params, q, userId, role, 3)
    ensures Composed(conds', params', q, userId, role, 4)
    ensures Grows(conds, conds', q.status.Some?, (c: Cond) => c.StatusIs?)
  {
    conds', params' := conds, params;
    if q.status.Some? {
      var more := [StatusParam(q.status.value)];
      var c := StatusIs(|params| + 1);
      forall row ensures Holds(c, params + more, row) <==> OfStatus(q, row) {
        assert (params + more)[|params|] == more[0];
      }
      ComposeStep(conds, params, more, c, q, userId, role, 3);
      conds', params' := conds + [c], params + more;
    } else {
      SkipStep(conds, params, q, userId, role, 3);
    }
  }

  /** `after` is `before` with clauses of kind `kind` appended: one when
      `step` holds, none otherwise. */
  predicate Grows(before: seq<Cond>, after: seq<Cond>, step: bool, kind: Cond -> bool)
  {
    |after| == |before| + (if step then 1 else 0) && after[..|before|] == before &&
    forall i :: |before| <= i < |after| ==> kind(after[i])
  }

  /** Which kinds of clause the composer produced: the user scope comes
      first when there is one, then the date range, then the amount range,
      then the status match. */
  lemma ClauseKinds(scoped: seq<Cond>, dated: seq<Cond>, priced: seq<Cond>, conds: seq<Cond>, role: string, q: OrderQuery)
    requires Grows([], scoped, role == ScopedRole, (c: Cond) => c.UserIs?)
    requires Grows(scoped, dated, q.fromDate.Some? && q.toDate.Some?, (c: Cond) => c.CreatedBetween?)
    requires Grows(dated, priced, q.fromAmount.Some? && q.toAmount.Some?, (c: Cond) => c.AmountBetween?)
    requires Grows(priced, conds, q.status.Some?, (c: Cond) => c.StatusIs?)
    ensures (exists i :: 0 <= i < |conds| && conds[i].UserIs?) <==> role == ScopedRole
    ensures (exists i :: 0 <= i < |conds| && conds[i].CreatedBetween?) <==> q.fromDate.Some? && q.toDate.Some?
  {
    assert conds[..|dated|] == dated by {
      assert conds[..|priced|][..|dated|] == dated;
    }
    assert conds[..|scoped|] == scoped by {
      assert dated[..|scoped|] == scoped;
      assert conds[..|dated|][..|scoped|] == scoped;
    }
    forall i | 0 <= i < |conds|
      ensures conds[i].UserIs? <==> i < |scoped|
      ensures conds[i].CreatedBetween? <==> |scoped| <= i < |dated|
    {
      if i < |scoped| {
        assert conds[i] == scoped[i];
      } else if i < |dated| {
        assert conds[i] == dated[i];
      } else if i < |priced| {
        assert conds[i] == priced[i];
      }
    }
    if role == ScopedRole {
      assert conds[0].UserIs?;
    }
    if q.fromDate.Some? && q.toDate.Some? {
      assert conds[|scoped|].CreatedBetween?;
    }
  }

  /** `get_orders` sorts newest first. */
  const OrderOrder: SortKey := NewestFirst

  /** The rows of `views` a listing request asks for, in their order. */
  function Kept(views: seq<OrderView>, q: OrderQuery, userId: I32, role: string): (kept: seq<OrderView>)
    ensures |kept| <= |views|
    ensures forall row :: row in kept <==> row in views && Wanted(q, userId, role, row)
  {
    if views == [] then []
    else
      var last := views[|views| - 1];
      Kept(views[..|views| - 1], q, userId, role) + (if Wanted(q, userId, role, last) then [last] else [])
  }

  /** The rows of `views` the composed query admits, in their order. */
  function Selected(views: seq<OrderView>, conds: seq<Cond>, params: seq<Param>): (sel: seq<OrderView>)
    ensures forall row :: row in sel <==> row in views && Admits(conds, params, row)
  {
    if views == [] then []
    else
      var last := views[|views| - 1];
      Selected(views[..|views| - 1], conds, params) + (if Admits(conds, params, last) then [last] else [])
  }

  /** A query that admits exactly the wanted rows selects exactly the rows
      the request keeps. */
  lemma {:induction false} SelectedIsKept(views: seq<OrderView>, conds: seq<Cond>, params: seq<Param>,
                                          q: OrderQuery, userId: I32, role: string)
    requires forall row :: Admits(conds, params, row) <==> Wanted(q, userId, role, row)
    ensures Selected(views, conds, params) == Kept(views, q, userId, role)
  {
    if views != [] {
      SelectedIsKept(views[..|views| - 1], conds, params, q, userId, role);
    }
  }

  /** The row loop of `get_orders`: push every row the query admits. */
  method SelectRows(views: seq<OrderView>, conds: seq<Cond>, params: seq<Param>) returns (data: seq<OrderView>)
    ensures data == Selected(views, conds, params)
  {
    data := [];
    var i := 0;
    while i < |views|
      invariant 0 <= i <= |views|
      invariant data == Selected(views[..i], conds, params)
    {
      assert views[..i + 1][..i] == views[..i];
      if Admits(conds, params, views[i]) {
        data := data + [views[i]];
      }
      i := i + 1;
    }
    assert views[..|views|] == views;
  }

  /** `get_orders`: compose the filter, keep the rows of the joined table
      (`views`, in table order) that it admits, and add the paging fields.
      `fails` stands for a count or row query that fails. */
  method GetOrders(views: seq<OrderView>, q: OrderQuery, userId: I32, role: string, fails: bool)
    returns (r: Outcome<Paged<OrderView>>)
    ensures r.Ok? <==> !fails
    ensures r.Ok? ==> r.value.data == Kept(views, q, userId, role) && PagedFor(r.value, q.page, q.perPage)
  {
    var conds, params := ComposeOrderFilter(q, userId, role);
    if fails {
      return Err;
    }
    var data := SelectRows(views, conds, params);
    SelectedIsKept(views, conds, params, q, userId, role);
    r := Ok(PagedResult(data, q.page, q.perPage));
  }

  /** A caller with the scoped role sees only their own orders; any other
      role sees every user's live orders that match the filters. */
  lemma ScopedCallerSeesOwnOrders(views: seq<OrderView>, q: OrderQuery, userId: I32, role: string, row: OrderView)
    requires row in Kept(views, q, userId, role)
    ensures row.live
    ensures role == ScopedRole ==> row.userId == userId
  {
  }

  /** The correctly spelled role "Distributor" is not scoped: such a caller
      is shown other users' orders too. */
  lemma DistributorNotScoped(views: seq<OrderView>, q: OrderQuery, userId: I32, row: OrderView)
    requires row in views && row.live && row.userId != userId
    requires q == OrderQuery(None, None, None, None, None, None, None)
    ensures row in Kept(views, q, userId, "Distributor")
  {
  }
}
