/** What the orders query selects and shows for a filter (internal/graph/schema.resolvers.go). */
module Filters {
  import opened Wrappers
  import opened Uuids
  import opened OrderStatus
  import opened OrderStore
  import opened Mappers

  datatype OrdersFilter =
    OrdersFilter(status: Option<string>, createdFrom: Option<Time>, createdTo: Option<Time>)

  function ListParams(filter: Option<OrdersFilter>): Result<ListOrdersParams, GraphError> {
    match filter
    case None => Ok(ListOrdersParams(None, None, None))
    case Some(f) =>
      if f.status.None? then Ok(ListOrdersParams(None, f.createdFrom, f.createdTo))
      else match GraphStatusToDomain(f.status.value)
        case None => Err(UnknownGraphStatus)
        case Some(s) => Ok(ListOrdersParams(Some(s), f.createdFrom, f.createdTo))
  }

  /** What a filter asks of an order. */
  ghost predicate Wanted(row: Row, filter: Option<OrdersFilter>) {
    filter.Some? ==>
      && (filter.value.status.Some? ==> IsKnown(row.status) && filter.value.status.value == Upper(row.status))
      && (filter.value.createdFrom.Some? ==> filter.value.createdFrom.value <= row.createdAt)
      && (filter.value.createdTo.Some? ==> row.createdAt <= filter.value.createdTo.value)
  }

  /** A filter is refused exactly if it names no status; otherwise the rows it asks for are selected, and no others. */
  lemma FilterSelectsWanted(t: Table, filter: Option<OrdersFilter>)
    ensures ListParams(filter).Err? <==>
      filter.Some? && filter.value.status.Some? && forall s :: IsKnown(s) ==> filter.value.status.value != Upper(s)
    ensures ListParams(filter).Ok? ==> forall o :: o in Matching(t, ListParams(filter).value) <==>
      exists id :: id in t && o == Scanned(id, t[id]) && Wanted(t[id], filter)
  {
    if filter.Some? && filter.value.status.Some? {
      forall s ensures GraphStatusToDomain(filter.value.status.value) == Some(s) <==>
        IsKnown(s) && filter.value.status.value == Upper(s)
      {
        StatusNames(s, filter.value.status.value);
      }
    }
  }

  /** The rows one by one as they map, or the error of the first that does not. */
  ghost predicate MapsInOrder(rows: seq<Order>, r: Result<seq<GraphOrder>, GraphError>) {
    match r
    case Ok(out) => |out| == |rows| && forall i :: 0 <= i < |rows| ==> OrderToGraph(rows[i]) == Ok(out[i])
    case Err(e) => exists k :: 0 <= k < |rows| && OrderToGraph(rows[k]) == Err(e) && FirstToFail(rows, k)
  }

  ghost predicate FirstToFail(rows: seq<Order>, k: nat)
    requires k < |rows|
  {
    OrderToGraph(rows[k]).Err? && forall i :: 0 <= i < k ==> OrderToGraph(rows[i]).Ok?
  }

  lemma RowIsShown(t: Table, filter: Option<OrdersFilter>, rows: seq<Order>, out: seq<GraphOrder>, i: nat)
    returns (id: Uuid)
    requires ListParams(filter).Ok? && IsListing(rows, t, ListParams(filter).value) && MapsInOrder(rows, Ok(out))
    requires i < |rows|
    ensures id in t && rows[i] == Scanned(id, t[id]) && Wanted(t[id], filter) && Shows(out[i], id, t[id])
  {
    FilterSelectsWanted(t, filter);
    ListedAreMatching(rows, t, ListParams(filter).value);
    assert rows[i] in rows;
    id :| id in t && rows[i] == Scanned(id, t[id]) && Wanted(t[id], filter);
    MappingShowsRow(id, t[id], out[i]);
  }

  lemma WantedIsShown(t: Table, filter: Option<OrdersFilter>, rows: seq<Order>, out: seq<GraphOrder>, id: Uuid)
    returns (i: nat)
    requires ListParams(filter).Ok? && IsListing(rows, t, ListParams(filter).value) && MapsInOrder(rows, Ok(out))
    requires id in t && Wanted(t[id], filter)
    ensures i < |out| && Shows(out[i], id, t[id])
  {
    FilterSelectsWanted(t, filter);
    ListedAreMatching(rows, t, ListParams(filter).value);
    assert Scanned(id, t[id]) in rows;
    i :| 0 <= i < |rows| && rows[i] == Scanned(id, t[id]);
    MappingShowsRow(id, t[id], out[i]);
  }

  lemma DuplicateCounts<T>(rows: seq<T>, i: nat, j: nat)
    requires i < j < |rows| && rows[i] == rows[j]
    ensures multiset(rows)[rows[i]] >= 2
  {
    assert rows == rows[..j] + [rows[j]] + rows[j + 1..];
    assert rows[..j][i] == rows[i];
  }

  lemma ListedOnce(rows: seq<Order>, t: Table, arg: ListOrdersParams, i: nat, j: nat)
    requires IsListing(rows, t, arg) && i < j < |rows|
    ensures rows[i] != rows[j]
  {
    assert multiset(Matching(t, arg))[rows[i]] <= 1;
    if rows[i] == rows[j] {
      DuplicateCounts(rows, i, j);
      assert false;
    }
  }

  /** It shows an order that the filter asks for. */
  ghost predicate ShowsWanted(g: GraphOrder, t: Table, filter: Option<OrdersFilter>) {
    exists id :: id in t && Wanted(t[id], filter) && Shows(g, id, t[id])
  }

  /** What a listing that maps shows: every order the filter asks for, once, newest first, and no others. */
  lemma ListingIsShown(t: Table, filter: Option<OrdersFilter>, rows: seq<Order>, out: seq<GraphOrder>)
    requires ListParams(filter).Ok? && IsListing(rows, t, ListParams(filter).value) && MapsInOrder(rows, Ok(out))
    ensures forall i :: 0 <= i < |out| ==> ShowsWanted(out[i], t, filter)
    ensures forall id :: id in t && Wanted(t[id], filter) ==> exists i :: 0 <= i < |out| && Shows(out[i], id, t[id])
    ensures forall i, j :: 0 <= i < j < |out| ==> out[i].createdAt >= out[j].createdAt && out[i].id != out[j].id
  {
    forall i | 0 <= i < |out| ensures ShowsWanted(out[i], t, filter) {
      var id := RowIsShown(t, filter, rows, out, i);
    }
    forall id | id in t && Wanted(t[id], filter) ensures exists i :: 0 <= i < |out| && Shows(out[i], id, t[id]) {
      var i := WantedIsShown(t, filter, rows, out, id);
    }
    forall i, j | 0 <= i < j < |out| ensures out[i].createdAt >= out[j].createdAt && out[i].id != out[j].id {
      var a := RowIsShown(t, filter, rows, out, i);
      var b := RowIsShown(t, filter, rows, out, j);
      ListedOnce(rows, t, ListParams(filter).value, i, j);
      FormatRoundTrips(a);
      FormatRoundTrips(b);
    }
  }
}
