/** updateOrderStatus as a function of the table (internal/graph/schema.resolvers.go), alone and in concurrent runs. */
module Updates {
  import opened Wrappers
  import opened Uuids
  import opened OrderStatus
  import opened OrderStore
  import opened Mappers
  import Linearization
  import StatusProtocol
  import StatusTheorems

  /** The second half of updateOrderStatus: the compare-and-set on the table as it is by then. */
  ghost function Write(t: Table, id: Uuid, from: Status, to: Status, now: Time, fate: Fate)
    : (Table, Result<GraphOrder, GraphError>)
  {
    var attempt := CompareAndSet(t, id, from, to, now);
    var after := TableAfter(t, attempt, fate);
    if fate != Answered then (after, Err(Database(ConnectionFailure)))
    else match attempt
      case Err(NoRows) => (after, Err(ConcurrentChange))
      case Err(e) => (after, Err(Database(e)))
      case Ok(_) => (after, OrderToGraph(Scanned(id, after[id])))
  }

  /** updateOrderStatus by its atomic update: the table it leaves and what it answers. */
  function Update(t: Table, text: string, status: string, now: Time, readFate: Fate, writeFate: Fate)
    : (Table, Result<GraphOrder, GraphError>)
  {
    match (Parse(text), GraphStatusToDomain(status))
    case (None, _) => (t, Err(InvalidId))
    case (_, None) => (t, Err(UnknownGraphStatus))
    case (Some(id), Some(to)) =>
      if readFate != Answered then (t, Err(Database(ConnectionFailure)))
      else
        var (after, outcome) := Linearization.AtomicUpdate(t, id, to, now);
        match outcome
        case Updated(row) =>
          if writeFate == Answered then (after, OrderToGraph(Scanned(id, row)))
          else (if writeFate.committed then after else t, Err(Database(ConnectionFailure)))
        case Rejected(e) => (t, Err(BadStatus(e)))
        case _ => (t, Err(OrderNotFound))
  }

  /** What the request asks for: a move the life of the order allows, of an order that exists. */
  ghost predicate AsksFor(t: Table, text: string, status: string, id: Uuid, to: Status) {
    && Parse(text) == Some(id) && id in t
    && IsKnown(to) && status == Upper(to)
    && StepsOn(t[id].status, to)
  }

  ghost predicate MovesTo(t: Table, after: Table, id: Uuid, to: Status, now: Time) {
    id in t && after == t[id := t[id].(status := to, updatedAt := now)]
  }

  lemma AskedIsUpdated(t: Table, text: string, status: string, now: Time, id: Uuid, to: Status)
    requires AsksFor(t, text, status, id, to)
    ensures var (after, answer) := Update(t, text, status, now, Answered, Answered);
            MovesTo(t, after, id, to, now) && answer.Ok? && Shows(answer.value, id, after[id])
  {
    StatusNames(to, status);
    AllowedMoves(t[id].status, to);
    ValidationAnswers(t[id].status, to);
    var row := t[id].(status := to, updatedAt := now);
    MappingSucceedsExactly(Scanned(id, row));
    MappingShowsRow(id, row, OrderToGraph(Scanned(id, row)).value);
  }

  /** The move an update that wrote something, or answered with an order, was asked for. */
  lemma UpdatedWasAsked(t: Table, text: string, status: string, now: Time, readFate: Fate, writeFate: Fate)
    returns (id: Uuid, to: Status)
    requires var (after, answer) := Update(t, text, status, now, readFate, writeFate); after != t || answer.Ok?
    ensures AsksFor(t, text, status, id, to) && readFate == Answered
    ensures var (after, answer) := Update(t, text, status, now, readFate, writeFate);
            && (after == t || MovesTo(t, after, id, to, now))
            && (answer.Ok? <==> writeFate == Answered)
  {
    id, to := Parse(text).value, GraphStatusToDomain(status).value;
    StatusNames(to, status);
    ValidationAnswers(t[id].status, to);
    MappingSucceedsExactly(Scanned(id, t[id].(status := to, updatedAt := now)));
  }

  /** An order is answered exactly for an allowed move of an existing order, if both statements are answered. */
  lemma UpdateSucceedsExactly(t: Table, text: string, status: string, now: Time, readFate: Fate, writeFate: Fate)
    ensures Update(t, text, status, now, readFate, writeFate).1.Ok? <==>
      readFate == Answered && writeFate == Answered && exists id, to :: AsksFor(t, text, status, id, to)
  {
    if Update(t, text, status, now, readFate, writeFate).1.Ok? {
      var id, to := UpdatedWasAsked(t, text, status, now, readFate, writeFate);
    }
    if readFate == Answered && writeFate == Answered {
      if id, to :| AsksFor(t, text, status, id, to) {
        AskedIsUpdated(t, text, status, now, id, to);
      }
    }
  }

  /** Which error an update that is not made is answered with. */
  lemma UpdateErrors(t: Table, text: string, id: Uuid, status: string, to: Status, now: Time, writeFate: Fate)
    ensures Parse(text).None? ==> forall fate: Fate ::
      Update(t, text, status, now, fate, writeFate) == (t, Err(InvalidId))
    ensures Parse(text).Some? && (forall s :: IsKnown(s) ==> status != Upper(s)) ==> forall fate: Fate ::
      Update(t, text, status, now, fate, writeFate) == (t, Err(UnknownGraphStatus))
    ensures Parse(text) == Some(id) && IsKnown(to) && status == Upper(to) ==>
      && (forall fate: Fate :: fate != Answered ==>
            Update(t, text, status, now, fate, writeFate) == (t, Err(Database(ConnectionFailure))))
      && var update := Update(t, text, status, now, Answered, writeFate);
         && (id !in t ==> update == (t, Err(OrderNotFound)))
         && (id in t && !IsKnown(t[id].status) ==> update == (t, Err(BadStatus(UnknownStatus))))
         && (id in t && IsKnown(t[id].status) && !StepsOn(t[id].status, to) ==>
               update == (t, Err(BadStatus(InvalidTransition))))
  {
    StatusNames(to, status);
    if GraphStatusToDomain(status).Some? {
      StatusNames(GraphStatusToDomain(status).value, status);
    }
    if id in t {
      ValidationAnswers(t[id].status, to);
    }
  }

  /**
   A client whose statement commits in any concurrent run is told of a concurrent change exactly if another client
   overtook it, and otherwise shown the row it wrote.
   */
  lemma CommitIsAnswered(s: StatusProtocol.State, c: StatusProtocol.ClientId)
    requires StatusProtocol.Reachable(s) && StatusProtocol.PhaseOf(s, c).Updating?
    ensures var p := StatusProtocol.PhaseOf(s, c);
            var (after, answer) := Write(s.table, p.id, p.from, p.to, p.stamp, Answered);
            && after == StatusProtocol.Next(s, StatusProtocol.CommitUpdate(c)).table
            && (answer == Err(ConcurrentChange) <==> StatusTheorems.Overtaken(s, c, p.id, p.version))
            && (!StatusTheorems.Overtaken(s, c, p.id, p.version) ==>
                  MovesTo(s.table, after, p.id, p.to, p.stamp) && answer.Ok? && Shows(answer.value, p.id, after[p.id]))
  {
    StatusTheorems.ConflictsAreReal(s, c);
    StatusProtocol.ReachableInv(s);
    StatusTheorems.CommitDecides(s, c);
    var p := StatusProtocol.PhaseOf(s, c);
    assert StatusProtocol.ClientOk(s.history, s.clock, c, p);
    StatusTheorems.CompareAndSetDecides(s, c, p);
    AllowedMoves(p.from, p.to);
    var row := s.table[p.id].(status := p.to, updatedAt := p.stamp);
    MappingSucceedsExactly(Scanned(p.id, row));
    MappingShowsRow(p.id, row, OrderToGraph(Scanned(p.id, row)).value);
  }
}
