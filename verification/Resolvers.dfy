/** The GraphQL resolvers (internal/graph/schema.resolvers.go), one call at a time. */
module Resolvers {
  import opened Wrappers
  import opened Uuids
  import opened OrderStatus
  import opened OrderStore
  import opened Mappers
  import opened Events
  import opened Pipeline
  import opened Creation
  import opened Filters
  import opened Updates
  import Dataloader

  /** The publisher: SQS keeps what it accepts, the no-op publisher drops everything. */
  class EventQueue {
    const publisher: Publisher
    var sent: seq<Event>

    constructor (publisher: Publisher)
      ensures this.publisher == publisher && sent == []
    {
      this.publisher := publisher;
      sent := [];
    }

    method PublishOrderCreated(id: Uuid, fate: SendFate) returns (ok: bool)
      modifies this
      ensures ok <==> publisher != Sqs || fate == Accepted
      ensures sent == old(sent) + if publisher == Sqs && fate != Rejected then [CreatedEvent(id)] else []
    {
      if publisher == Sqs {
        if fate != Rejected {
          sent := sent + [CreatedEvent(id)];
        }
        return fate == Accepted;
      }
      return true;
    }
  }

  function StoreFailure(e: StoreError): GraphError {
    match e
    case NotFound => OrderNotFound
    case StatusConflict => ConcurrentChange
    case Db(dbError) => Database(dbError)
  }

  function PublisherOf(queue: EventQueue?): Publisher {
    if queue == null then Absent else queue.publisher
  }

  class Resolver {
    const store: Store?
    const queue: EventQueue?

    constructor (store: Store?, queue: EventQueue?)
      ensures this.store == store && this.queue == queue
    {
      this.store := store;
      this.queue := queue;
    }

    /** Insert, then publish. */
    method CreateOrder(input: CreateOrderInput, id: Uuid, now: Time, fate: Fate, sendFate: SendFate)
      returns (r: Result<GraphOrder, GraphError>)
      modifies store, queue
      ensures store == null ==> r == Err(NotConfigured) && (queue != null ==> queue.sent == old(queue.sent))
      ensures store != null ==>
        var (after, sent, answer) := Create(old(store.orders), PublisherOf(queue), input, id, now, fate, sendFate);
        store.orders == after && r == answer && (queue != null ==> queue.sent == old(queue.sent) + sent)
    {
      if store == null {
        return Err(NotConfigured);
      }
      var amount := OptionalAmount(input.totalAmount);
      if amount.Err? {
        return Err(amount.error);
      }
      var o := store.CreateOrder(InsertParams(input, amount.value), id, now, fate);
      if o.Err? {
        return Err(StoreFailure(o.error));
      }
      MappingSucceedsExactly(o.value);
      if queue != null {
        if o.value.id.None? {
          return Err(OrderHasNoId);
        }
        var ok := queue.PublishOrderCreated(o.value.id.value, sendFate);
        if !ok {
          return Err(PublishFailed);
        }
      }
      return OrderToGraph(o.value);
    }

    /** With nothing running beside it, an update is the atomic update the concurrent protocol linearizes to. */
    method UpdateOrderStatus(text: string, status: string, now: Time, readFate: Fate, writeFate: Fate)
      returns (r: Result<GraphOrder, GraphError>)
      modifies store
      ensures store == null ==> r == Err(NotConfigured)
      ensures store != null ==> (store.orders, r) == Update(old(store.orders), text, status, now, readFate, writeFate)
    {
      if store == null {
        return Err(NotConfigured);
      }
      var id := Parse(text);
      if id.None? {
        return Err(InvalidId);
      }
      var to := GraphStatusToDomain(status);
      if to.None? {
        return Err(UnknownGraphStatus);
      }
      var cur := store.GetOrderByID(id.value, readFate);
      if cur.Err? {
        return Err(StoreFailure(cur.error));
      }
      var from := ParseStatus(cur.value.status);
      if from.Err? {
        return Err(BadStatus(from.error));
      }
      var invalid := ValidateTransition(from.value, to.value);
      if invalid.Some? {
        return Err(BadStatus(invalid.value));
      }
      r := WriteStatus(id.value, from.value, to.value, now, writeFate);
    }

    /** The second half of an update, on whatever other clients have made of the table since the read. */
    method WriteStatus(id: Uuid, from: Status, to: Status, now: Time, fate: Fate)
      returns (r: Result<GraphOrder, GraphError>)
      requires store != null
      modifies store
      ensures (store.orders, r) == Write(old(store.orders), id, from, to, now, fate)
    {
      var o := store.UpdateOrderStatus(id, from, to, now, fate);
      if o.Err? {
        return Err(StoreFailure(o.error));
      }
      return OrderToGraph(o.value);
    }

    /** The lookup used when no dataloader is at hand: not found is no error. */
    method Order(text: string, fate: Fate) returns (r: Result<Option<GraphOrder>, GraphError>)
      modifies store
      ensures store != null ==> store.orders == old(store.orders)
      ensures r == if store == null then Err(NotConfigured) else Dataloader.Lookup(store.orders, text, fate)
    {
      if store == null {
        return Err(NotConfigured);
      }
      var id := Parse(text);
      if id.None? {
        return Err(InvalidId);
      }
      var o := store.GetOrderByID(id.value, fate);
      if o.Err? {
        if o.error == NotFound {
          return Ok(None);
        }
        return Err(StoreFailure(o.error));
      }
      var g := OrderToGraph(o.value);
      if g.Err? {
        return Err(g.error);
      }
      return Ok(Some(g.value));
    }

    /** All matching orders, newest first, each as it maps; one order that does not map fails the listing. */
    method Orders(filter: Option<OrdersFilter>, fate: Fate) returns (r: Result<seq<GraphOrder>, GraphError>)
      modifies store
      ensures store != null ==> store.orders == old(store.orders)
      ensures store == null ==> r == Err(NotConfigured)
      ensures store != null && ListParams(filter).Err? ==> r == Err(UnknownGraphStatus)
      ensures store != null && ListParams(filter).Ok? && fate != Answered ==> r == Err(Database(ConnectionFailure))
      ensures store != null && ListParams(filter).Ok? && fate == Answered ==>
        && (r.Ok? <==> forall o :: o in Matching(store.orders, ListParams(filter).value) ==> OrderToGraph(o).Ok?)
        && (exists rows :: IsListing(rows, store.orders, ListParams(filter).value) && MapsInOrder(rows, r))
    {
      if store == null {
        return Err(NotConfigured);
      }
      var arg := ListParams(filter);
      if arg.Err? {
        return Err(arg.error);
      }
      var rows := store.ListOrders(arg.value, fate);
      if rows.Err? {
        return Err(StoreFailure(rows.error));
      }
      ListedAreMatching(rows.value, store.orders, arg.value);
      var out: seq<GraphOrder> := [];
      for k := 0 to |rows.value|
        invariant |out| == k
        invariant forall i :: 0 <= i < k ==> OrderToGraph(rows.value[i]) == Ok(out[i])
      {
        var o := OrderToGraph(rows.value[k]);
        if o.Err? {
          assert FirstToFail(rows.value, k) && OrderToGraph(rows.value[k]) == Err(o.error);
          return Err(o.error);
        }
        out := out + [o.value];
      }
      return Ok(out);
    }
  }
}
