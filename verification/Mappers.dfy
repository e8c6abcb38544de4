/** Between stored orders and the GraphQL model (internal/graph/mappers.go). */
module Mappers {
  import opened Wrappers
  import opened Uuids
  import opened Amounts
  import opened OrderStatus
  import opened OrderStore

  datatype GraphError =
    | NotConfigured
    | InvalidId
    | UnknownGraphStatus
    | InvalidAmount
    | OrderHasNoId
    | OrderNotFound
    | BadStatus(error: StatusError)
    | ConcurrentChange
    | Database(dbError: DbError)
    | PublishFailed

  datatype GraphOrder = GraphOrder(
    id: string, status: string, createdAt: Time, updatedAt: Time,
    customerName: Option<string>, notes: Option<string>, totalAmount: Option<string>)

  // time.Time{}: the first moment of the year 1, in microseconds from 1970.
  const ZERO_TIME: Time := -62_135_596_800_000_000

  function TimeOrZero(t: Option<Time>): Time {
    match t
    case Some(value) => value
    case None => ZERO_TIME
  }

  const GRAPH_STATUSES: seq<string> := ["PENDING", "CONFIRMED", "PREPARING", "READY", "DELIVERED", "CANCELLED"]

  /** Anything unknown is shown as pending. */
  function DomainStatusToGraph(s: Status): string {
    if s == PENDING then GRAPH_STATUSES[0]
    else if s == CONFIRMED then GRAPH_STATUSES[1]
    else if s == PREPARING then GRAPH_STATUSES[2]
    else if s == READY then GRAPH_STATUSES[3]
    else if s == DELIVERED then GRAPH_STATUSES[4]
    else if s == CANCELLED then GRAPH_STATUSES[5]
    else GRAPH_STATUSES[0]
  }

  function GraphStatusToDomain(g: string): Option<Status> {
    if g == GRAPH_STATUSES[0] then Some(PENDING)
    else if g == GRAPH_STATUSES[1] then Some(CONFIRMED)
    else if g == GRAPH_STATUSES[2] then Some(PREPARING)
    else if g == GRAPH_STATUSES[3] then Some(READY)
    else if g == GRAPH_STATUSES[4] then Some(DELIVERED)
    else if g == GRAPH_STATUSES[5] then Some(CANCELLED)
    else None
  }

  function OrderToGraph(o: Order): Result<GraphOrder, GraphError> {
    if o.id.None? then Err(OrderHasNoId)
    else match ParseStatus(o.status)
      case Err(e) => Err(BadStatus(e))
      case Ok(status) =>
        var amount := match o.totalAmount
          case None => None
          case Some(cents) => Some(AmountText(cents));
        Ok(GraphOrder(Format(o.id.value), DomainStatusToGraph(status), TimeOrZero(o.createdAt),
                      TimeOrZero(o.updatedAt), o.customerName, o.notes, amount))
  }

  lemma GraphStatusesAreDistinct(i: nat, j: nat)
    requires i < j < 6
    ensures GRAPH_STATUSES[i] != GRAPH_STATUSES[j]
  {
    assert GRAPH_STATUSES[1][0] == 'C' && GRAPH_STATUSES[1][1] == 'O' && GRAPH_STATUSES[2][0] == 'P';
    assert GRAPH_STATUSES[4][0] == 'D' && GRAPH_STATUSES[5][1] == 'A';
  }

  /** A known status comes back from its GraphQL name, so the fallback to pending hides nothing. */
  lemma StatusNameRoundTrips(s: Status)
    ensures IsKnown(s) <==> GraphStatusToDomain(DomainStatusToGraph(s)) == Some(s)
  {
    forall i, j | 0 <= i < j < 6 ensures GRAPH_STATUSES[i] != GRAPH_STATUSES[j] {
      GraphStatusesAreDistinct(i, j);
    }
  }

  function UpperChar(c: char): char {
    if 'a' <= c <= 'z' then 'A' + (c - 'a') else c
  }

  function Upper(s: string): (t: string)
    ensures |t| == |s|
    ensures forall i :: 0 <= i < |s| ==> t[i] == UpperChar(s[i])
  {
    seq(|s|, i requires 0 <= i < |s| => UpperChar(s[i]))
  }

  lemma NamesAreUpperCase(i: nat)
    requires i < 6
    ensures GRAPH_STATUSES[i] == Upper(ALL_STATUSES[i])
  {
    assert Upper(PENDING) == "PENDING" && Upper(CONFIRMED) == "CONFIRMED" && Upper(PREPARING) == "PREPARING";
    assert Upper(READY) == "READY" && Upper(DELIVERED) == "DELIVERED" && Upper(CANCELLED) == "CANCELLED";
  }

  lemma KnownStatusHasNumber(s: Status) returns (i: nat)
    requires IsKnown(s)
    ensures i < 6 && ALL_STATUSES[i] == s
  {
    i :| 0 <= i < |ALL_STATUSES| && ALL_STATUSES[i] == s;
  }

  lemma DomainByNumber(i: nat)
    requires i < 6
    ensures DomainStatusToGraph(ALL_STATUSES[i]) == GRAPH_STATUSES[i]
  {
    forall j | 0 <= j < i ensures ALL_STATUSES[j] != ALL_STATUSES[i] {
      StatusesAreDistinct(j, i);
    }
  }

  lemma GraphByNumber(i: nat)
    requires i < 6
    ensures GraphStatusToDomain(GRAPH_STATUSES[i]) == Some(ALL_STATUSES[i])
  {
    forall j | 0 <= j < i ensures GRAPH_STATUSES[j] != GRAPH_STATUSES[i] {
      GraphStatusesAreDistinct(j, i);
    }
  }

  lemma NamedIsNumbered(g: string) returns (i: nat)
    requires GraphStatusToDomain(g).Some?
    ensures i < 6 && g == GRAPH_STATUSES[i]
  {
    i :| 0 <= i < 6 && g == GRAPH_STATUSES[i];
  }

  /** The GraphQL name of a status is its text in upper case, and nothing else names a status. */
  lemma StatusNames(s: Status, g: string)
    ensures GraphStatusToDomain(g) == Some(s) <==> IsKnown(s) && g == Upper(s)
    ensures IsKnown(s) ==> DomainStatusToGraph(s) == Upper(s)
  {
    if IsKnown(s) {
      var i := KnownStatusHasNumber(s);
      DomainByNumber(i);
      GraphByNumber(i);
      NamesAreUpperCase(i);
    }
    if GraphStatusToDomain(g) == Some(s) {
      var i := NamedIsNumbered(g);
      GraphByNumber(i);
      NamesAreUpperCase(i);
    }
  }

  /** What a client is shown of a row: every column, under its own name. */
  ghost predicate Shows(g: GraphOrder, id: Uuid, row: Row) {
    && g.id == Format(id)
    && g.status == Upper(row.status)
    && g.createdAt == row.createdAt
    && g.updatedAt == row.updatedAt
    && g.customerName == row.customerName
    && g.notes == row.notes
    && g.totalAmount == match row.totalAmount
       case None => None
       case Some(cents) => Some(CentsText(cents))
  }

  /** An order of the table is mapped, if its status is known, to what shows its row, and to nothing else. */
  lemma MappingShowsRow(id: Uuid, row: Row, g: GraphOrder)
    ensures OrderToGraph(Scanned(id, row)) == Ok(g) <==> IsKnown(row.status) && Shows(g, id, row)
  {
    StatusNames(row.status, "");
    if row.totalAmount.Some? {
      AmountTextIsExact(row.totalAmount.value);
    }
  }

  /** Which error an order that cannot be mapped is answered with; a missing id is noticed first. */
  lemma MappingErrors(o: Order)
    ensures o.id.None? ==> OrderToGraph(o) == Err(OrderHasNoId)
    ensures o.id.Some? && !IsKnown(o.status) ==> OrderToGraph(o) == Err(BadStatus(UnknownStatus))
  {
  }

  /** An order read without its times is shown with the zero time. */
  lemma MissingTimesAreZero(o: Order)
    requires OrderToGraph(o).Ok?
    ensures o.createdAt.None? ==> OrderToGraph(o).value.createdAt == ZERO_TIME
    ensures o.updatedAt.None? ==> OrderToGraph(o).value.updatedAt == ZERO_TIME
  {
  }

  /** Mapping fails exactly on an order without an id or with an unknown status; what it returns names the order. */
  lemma MappingSucceedsExactly(o: Order)
    ensures OrderToGraph(o).Ok? <==> o.id.Some? && IsKnown(o.status)
    ensures OrderToGraph(o).Ok? ==>
      var g := OrderToGraph(o).value;
      Parse(g.id) == o.id && GraphStatusToDomain(g.status) == Some(o.status)
  {
    if OrderToGraph(o).Ok? {
      FormatRoundTrips(o.id.value);
      StatusNameRoundTrips(o.status);
    }
  }

  /** Nothing of a stored order is lost: two rows that look the same through the API are the same. */
  lemma MappingLosesNothing(id: Uuid, row: Row, id': Uuid, row': Row)
    requires OrderToGraph(Scanned(id, row)).Ok?
    requires OrderToGraph(Scanned(id, row)) == OrderToGraph(Scanned(id', row'))
    ensures id == id' && row == row'
  {
    MappingSucceedsExactly(Scanned(id, row));
    MappingSucceedsExactly(Scanned(id', row'));
    if row.totalAmount.Some? && row'.totalAmount.Some? {
      AmountTextIsInjective(row.totalAmount.value, row'.totalAmount.value);
    }
  }
}
