/**
 The orders table: what each SQL statement of internal/store/db/orders.sql.go does to it, and the store in
 front of it (internal/store/store.go). A statement is one transaction; the table's constraints are those of
 db/migrations/000001_create_orders_table.up.sql.
 */
module OrderStore {
  import opened Wrappers
  import opened Uuids
  import opened Amounts
  import opened OrderStatus

  type Time = int

  datatype Row = Row(
    status: string, createdAt: Time, updatedAt: Time,
    customerName: Option<string>, notes: Option<string>, totalAmount: Option<Cents>)

  type Table = map<Uuid, Row>

  /** storedb.Order: None stands for a pgtype value that is not Valid. */
  datatype Order = Order(
    id: Option<Uuid>, status: string, createdAt: Option<Time>, updatedAt: Option<Time>,
    customerName: Option<string>, notes: Option<string>, totalAmount: Option<Cents>)

  datatype CreateOrderParams = CreateOrderParams(
    status: string, customerName: Option<string>, notes: Option<string>, totalAmount: Option<Decimal>)

  datatype ListOrdersParams = ListOrdersParams(
    filterStatus: Option<string>, createdFrom: Option<Time>, createdTo: Option<Time>)

  datatype DbError = NoRows | ConstraintViolation | ConnectionFailure

  datatype StoreError = NotFound | StatusConflict | Db(error: DbError)

  /** Whether a statement's answer arrives; when it is lost, the statement may or may not have committed. */
  datatype Fate = Answered | AnswerLost(committed: bool)

  function Scanned(id: Uuid, row: Row): Order {
    Order(Some(id), row.status, Some(row.createdAt), Some(row.updatedAt),
          row.customerName, row.notes, row.totalAmount)
  }

  // ---------------------------------------------------------------- SQL

  function InsertOrder(t: Table, id: Uuid, now: Time, arg: CreateOrderParams): Result<Table, DbError> {
    if id in t || !IsKnown(arg.status) then Err(ConstraintViolation)
    else if arg.totalAmount.Some? && ToColumn(arg.totalAmount.value).None? then Err(ConstraintViolation)
    else
      var amount := if arg.totalAmount.None? then None else ToColumn(arg.totalAmount.value);
      Ok(t[id := Row(arg.status, now, now, arg.customerName, arg.notes, amount)])
  }

  /** UPDATE ... SET status, updated_at = now() WHERE id AND status: now is the start of the transaction. */
  function CompareAndSet(t: Table, id: Uuid, current: string, new_: string, now: Time): Result<Table, DbError> {
    if id !in t || t[id].status != current then Err(NoRows)
    else if !IsKnown(new_) then Err(ConstraintViolation)
    else Ok(t[id := t[id].(status := new_, updatedAt := now)])
  }

  predicate Matches(row: Row, arg: ListOrdersParams) {
    && (arg.filterStatus.None? || row.status == arg.filterStatus.value)
    && (arg.createdFrom.None? || row.createdAt >= arg.createdFrom.value)
    && (arg.createdTo.None? || row.createdAt <= arg.createdTo.value)
  }

  ghost function Matching(t: Table, arg: ListOrdersParams): set<Order> {
    set id | id in t && Matches(t[id], arg) :: Scanned(id, t[id])
  }

  ghost predicate NewestFirst(rows: seq<Order>) {
    && (forall i :: 0 <= i < |rows| ==> rows[i].createdAt.Some?)
    && (forall i, j :: 0 <= i < j < |rows| ==> rows[i].createdAt.value >= rows[j].createdAt.value)
  }

  /** Any answer of ListOrders: every matching row once, newest first, ties in any order. */
  ghost predicate IsListing(rows: seq<Order>, t: Table, arg: ListOrdersParams) {
    multiset(rows) == multiset(Matching(t, arg)) && NewestFirst(rows)
  }

  lemma ListedAreMatching(rows: seq<Order>, t: Table, arg: ListOrdersParams)
    requires IsListing(rows, t, arg)
    ensures forall o :: o in rows <==> o in Matching(t, arg)
  {
    forall o ensures o in rows <==> o in Matching(t, arg) {
      assert o in rows <==> o in multiset(rows);
    }
  }

  ghost function WithIds(t: Table, ids: seq<Uuid>): set<Order> {
    set id | id in t && id in ids :: Scanned(id, t[id])
  }

  /** Any answer of GetOrdersByIDs: every row with a wanted id once, in any order. */
  ghost predicate IsSelection(rows: seq<Order>, t: Table, ids: seq<Uuid>) {
    multiset(rows) == multiset(WithIds(t, ids))
  }

  ghost function TableAfter(t: Table, attempt: Result<Table, DbError>, fate: Fate): Table {
    if fate == AnswerLost(false) || attempt.Err? then t else attempt.value
  }

  lemma {:induction false} NewestExists(t: Table, ids: set<Uuid>)
    requires ids != {} && ids <= t.Keys
    ensures exists id :: id in ids && forall other :: other in ids ==> t[other].createdAt <= t[id].createdAt
    decreases ids
  {
    var x :| x in ids;
    var rest := ids - {x};
    if rest != {} {
      NewestExists(t, rest);
      var y :| y in rest && forall other :: other in rest ==> t[other].createdAt <= t[y].createdAt;
      var z := if t[x].createdAt > t[y].createdAt then x else y;
      assert z in ids && forall other :: other in ids ==> t[other].createdAt <= t[z].createdAt;
    } else {
      assert ids == {x};
    }
  }

  /** Reading rows one by one adds one row to those already read. */
  lemma OneMoreRow(t: Table, done: set<Uuid>, id: Uuid)
    requires done + {id} <= t.Keys && id !in done
    ensures (set i | i in done + {id} :: Scanned(i, t[i]))
         == (set i | i in done :: Scanned(i, t[i])) + {Scanned(id, t[id])}
    ensures Scanned(id, t[id]) !in (set i | i in done :: Scanned(i, t[i]))
  {
  }

  lemma OlderRowAppends(items: seq<Order>, o: Order)
    requires NewestFirst(items) && o.createdAt.Some?
    requires forall i :: 0 <= i < |items| ==> items[i].createdAt.value >= o.createdAt.value
    ensures NewestFirst(items + [o])
  {
  }

  /** Every row already read is at least as new as every row still to read. */
  ghost predicate ReadBefore(items: seq<Order>, t: Table, unread: set<Uuid>) {
    && NewestFirst(items) && unread <= t.Keys
    && forall i, id :: 0 <= i < |items| && id in unread ==> items[i].createdAt.value >= t[id].createdAt
  }

  lemma ReadNewest(items: seq<Order>, t: Table, unread: set<Uuid>, id: Uuid)
    requires ReadBefore(items, t, unread) && id in unread
    requires forall other :: other in unread ==> t[other].createdAt <= t[id].createdAt
    ensures ReadBefore(items + [Scanned(id, t[id])], t, unread - {id})
  {
    OlderRowAppends(items, Scanned(id, t[id]));
  }

  method CollectByIds(t: Table, ids: seq<Uuid>) returns (items: seq<Order>)
    ensures IsSelection(items, t, ids)
  {
    items := [];
    var wanted := set id | id in ids && id in t;
    var unread := wanted;
    while unread != {}
      invariant unread <= wanted
      invariant multiset(items) == multiset(set i | i in wanted - unread :: Scanned(i, t[i]))
      decreases unread
    {
      var id :| id in unread;
      OneMoreRow(t, wanted - unread, id);
      assert wanted - (unread - {id}) == (wanted - unread) + {id};
      unread := unread - {id};
      items := items + [Scanned(id, t[id])];
    }
    assert (set i | i in wanted - unread :: Scanned(i, t[i])) == WithIds(t, ids);
  }

  method CollectNewestFirst(t: Table, arg: ListOrdersParams) returns (items: seq<Order>)
    ensures IsListing(items, t, arg)
  {
    items := [];
    var wanted := set id | id in t && Matches(t[id], arg);
    var unread := wanted;
    while unread != {}
      invariant unread <= wanted
      invariant multiset(items) == multiset(set i | i in wanted - unread :: Scanned(i, t[i]))
      invariant ReadBefore(items, t, unread)
      decreases unread
    {
      NewestExists(t, unread);
      var id :| id in unread && forall other :: other in unread ==> t[other].createdAt <= t[id].createdAt;
      OneMoreRow(t, wanted - unread, id);
      ReadNewest(items, t, unread, id);
      assert wanted - (unread - {id}) == (wanted - unread) + {id};
      unread := unread - {id};
      items := items + [Scanned(id, t[id])];
    }
    assert (set i | i in wanted - unread :: Scanned(i, t[i])) == Matching(t, arg);
  }

  // ---------------------------------------------------------------- the store

  class Store {
    var orders: Table
    ghost var queries: nat

    constructor ()
      ensures orders == map[] && queries == 0
    {
      orders := map[];
      queries := 0;
    }

    method CreateOrder(arg: CreateOrderParams, id: Uuid, now: Time, fate: Fate) returns (r: Result<Order, StoreError>)
      modifies this
      ensures queries == old(queries) + 1
      ensures orders == TableAfter(old(orders), InsertOrder(old(orders), id, now, arg), fate)
      ensures r.Ok? <==> fate == Answered && InsertOrder(old(orders), id, now, arg).Ok?
      ensures r.Ok? ==> id in orders && r.value == Scanned(id, orders[id])
      ensures r.Err? ==> r.error == Db(
        if fate != Answered then ConnectionFailure else InsertOrder(old(orders), id, now, arg).error)
    {
      queries := queries + 1;
      var attempt := InsertOrder(orders, id, now, arg);
      if attempt.Ok? && fate != AnswerLost(false) {
        orders := attempt.value;
      }
      if fate != Answered {
        return Err(Db(ConnectionFailure));
      }
      if attempt.Err? {
        return Err(Db(attempt.error));
      }
      return Ok(Scanned(id, orders[id]));
    }

    method GetOrderByID(id: Uuid, fate: Fate) returns (r: Result<Order, StoreError>)
      modifies this`queries
      ensures queries == old(queries) + 1
      ensures r == if fate != Answered then Err(Db(ConnectionFailure))
                   else if id in orders then Ok(Scanned(id, orders[id]))
                   else Err(NotFound)
    {
      queries := queries + 1;
      if fate != Answered {
        return Err(Db(ConnectionFailure));
      }
      if id !in orders {
        return Err(NotFound);
      }
      return Ok(Scanned(id, orders[id]));
    }

    /** An empty id list is answered without a query. */
    method GetOrdersByIDs(ids: seq<Uuid>, fate: Fate) returns (r: Result<seq<Order>, StoreError>)
      modifies this`queries
      ensures queries == if ids == [] then old(queries) else old(queries) + 1
      ensures ids == [] ==> r.Ok?
      ensures ids != [] ==> (r.Ok? <==> fate == Answered)
      ensures r.Err? ==> r.error == Db(ConnectionFailure)
      ensures r.Ok? ==> IsSelection(r.value, orders, ids)
    {
      if ids == [] {
        assert WithIds(orders, ids) == {};
        return Ok([]);
      }
      queries := queries + 1;
      if fate != Answered {
        return Err(Db(ConnectionFailure));
      }
      var items := CollectByIds(orders, ids);
      return Ok(items);
    }

    method ListOrders(arg: ListOrdersParams, fate: Fate) returns (r: Result<seq<Order>, StoreError>)
      modifies this`queries
      ensures queries == old(queries) + 1
      ensures r.Ok? <==> fate == Answered
      ensures r.Err? ==> r.error == Db(ConnectionFailure)
      ensures r.Ok? ==> IsListing(r.value, orders, arg)
    {
      queries := queries + 1;
      if fate != Answered {
        return Err(Db(ConnectionFailure));
      }
      var items := CollectNewestFirst(orders, arg);
      return Ok(items);
    }

    method UpdateOrderStatus(id: Uuid, current: string, new_: string, now: Time, fate: Fate)
      returns (r: Result<Order, StoreError>)
      modifies this
      ensures queries == old(queries) + 1
      ensures orders == TableAfter(old(orders), CompareAndSet(old(orders), id, current, new_, now), fate)
      ensures r.Ok? <==> fate == Answered && CompareAndSet(old(orders), id, current, new_, now).Ok?
      ensures r.Ok? ==> id in orders && r.value == Scanned(id, orders[id])
      ensures r.Err? && fate != Answered ==> r.error == Db(ConnectionFailure)
      ensures r.Err? && fate == Answered ==>
        var e := CompareAndSet(old(orders), id, current, new_, now).error;
        r.error == if e == NoRows then StatusConflict else Db(e)
    {
      queries := queries + 1;
      var attempt := CompareAndSet(orders, id, current, new_, now);
      if attempt.Ok? && fate != AnswerLost(false) {
        orders := attempt.value;
      }
      if fate != Answered {
        return Err(Db(ConnectionFailure));
      }
      if attempt == Err(NoRows) {
        return Err(StatusConflict);
      }
      if attempt.Err? {
        return Err(Db(attempt.error));
      }
      return Ok(Scanned(id, orders[id]));
    }
  }
}
