/**
 createOrder as a function of the table (internal/graph/schema.resolvers.go): what is stored of what was submitted,
 what is enqueued, and what is answered.
 */
module Creation {
  import opened Wrappers
  import opened Uuids
  import opened Amounts
  import opened OrderStatus
  import opened OrderStore
  import opened Mappers
  import opened Events
  import opened Pipeline

  datatype CreateOrderInput =
    CreateOrderInput(customerName: Option<string>, notes: Option<string>, totalAmount: Option<string>)

  /** optionalNumericString: no text and empty text mean no amount. */
  function OptionalAmount(text: Option<string>): Result<Option<Decimal>, GraphError> {
    if text.None? || text.value == "" then Ok(None)
    else match Scan(text.value)
      case None => Err(InvalidAmount)
      case Some(d) => Ok(Some(d))
  }

  function InsertParams(input: CreateOrderInput, amount: Option<Decimal>): CreateOrderParams {
    CreateOrderParams(PENDING, input.customerName, input.notes, amount)
  }

  /** createOrder: the table it leaves, the events it enqueues and what it answers. */
  ghost function Create(t: Table, pub: Publisher, input: CreateOrderInput, id: Uuid, now: Time,
                        fate: Fate, sendFate: SendFate): (Table, seq<Event>, Result<GraphOrder, GraphError>)
  {
    match OptionalAmount(input.totalAmount)
    case Err(e) => (t, [], Err(e))
    case Ok(amount) =>
      var attempt := InsertOrder(t, id, now, InsertParams(input, amount));
      var after := TableAfter(t, attempt, fate);
      if fate != Answered then (after, [], Err(Database(ConnectionFailure)))
      else if attempt.Err? then (after, [], Err(Database(attempt.error)))
      else if pub != Sqs then (after, [], OrderToGraph(Scanned(id, after[id])))
      else match sendFate
        case Accepted => (after, [CreatedEvent(id)], OrderToGraph(Scanned(id, after[id])))
        case Rejected => (after, [], Err(PublishFailed))
        case AcceptedSilently => (after, [CreatedEvent(id)], Err(PublishFailed))
  }

  predicate HasAmount(text: Option<string>) {
    text.Some? && text.value != ""
  }

  /** No text and empty text give no amount; any other is read as the decimal it stands for, or refused. */
  lemma OptionalAmountReads(text: Option<string>)
    ensures !HasAmount(text) ==> OptionalAmount(text) == Ok(None)
    ensures HasAmount(text) ==> forall d :: OptionalAmount(text) == Ok(Some(d)) <==> Reads(text.value, d)
    ensures HasAmount(text) && (forall d :: !Reads(text.value, d)) ==> OptionalAmount(text) == Err(InvalidAmount)
    ensures HasAmount(text) && OptionalAmount(text).Ok? ==> OptionalAmount(text).value.Some?
    ensures OptionalAmount(text).Err? ==> HasAmount(text) && forall d :: !Reads(text.value, d)
  {
    if HasAmount(text) {
      forall d ensures Scan(text.value) == Some(d) <==> Reads(text.value, d) {
        ScanReads(text.value, d);
      }
    }
  }

  /** The cents a new order gets for its amount text: the decimal it stands for, rounded to the nearest cent. */
  ghost predicate StoresAmount(text: Option<string>, cents: Option<Cents>) {
    if HasAmount(text) then cents.Some? && exists d :: Reads(text.value, d) && IsRounding(d, cents.value)
    else cents == None
  }

  ghost function NewRow(input: CreateOrderInput, now: Time, cents: Option<Cents>): Row {
    Row(PENDING, now, now, input.customerName, input.notes, cents)
  }

  /** A row is inserted under a new id, with the amount the text stands for; otherwise the statement is refused. */
  lemma InsertStoresInput(t: Table, input: CreateOrderInput, id: Uuid, now: Time)
    requires OptionalAmount(input.totalAmount).Ok?
    ensures var attempt := InsertOrder(t, id, now, InsertParams(input, OptionalAmount(input.totalAmount).value));
            && (forall cents :: id !in t && StoresAmount(input.totalAmount, cents) ==>
                  attempt == Ok(t[id := NewRow(input, now, cents)]))
            && (id in t || (forall cents :: !StoresAmount(input.totalAmount, cents)) ==>
                  attempt == Err(ConstraintViolation))
  {
    PendingIsKnown();
    OptionalAmountReads(input.totalAmount);
    if HasAmount(input.totalAmount) {
      var d := OptionalAmount(input.totalAmount).value.value;
      assert Reads(input.totalAmount.value, d);
      forall cents: Cents ensures ToColumn(d) == Some(cents) <==> IsRounding(d, cents) {
        ColumnRounds(d, cents);
      }
      if ToColumn(d).Some? {
        assert StoresAmount(input.totalAmount, Some(ToColumn(d).value));
      }
    } else {
      assert StoresAmount(input.totalAmount, None);
    }
  }

  /** Whether and with what amount the statement inserts a row, whether or not its answer arrives. */
  ghost predicate Inserts(t: Table, input: CreateOrderInput, id: Uuid, cents: Option<Cents>) {
    id !in t && StoresAmount(input.totalAmount, cents)
  }

  ghost predicate InsertSucceeds(t: Table, input: CreateOrderInput, id: Uuid) {
    exists cents :: Inserts(t, input, id, cents)
  }

  lemma StoredAmountReads(text: Option<string>, cents: Option<Cents>)
    requires StoresAmount(text, cents)
    ensures OptionalAmount(text).Ok?
  {
    OptionalAmountReads(text);
  }

  /** The new order as submitted, its event if SQS is to have one, and the answer that shows it. */
  lemma CreationStoresInput(t: Table, pub: Publisher, input: CreateOrderInput, id: Uuid, now: Time,
                            cents: Option<Cents>, sendFate: SendFate)
    requires Inserts(t, input, id, cents)
    ensures var (after, sent, answer) := Create(t, pub, input, id, now, Answered, sendFate);
            && after == t[id := NewRow(input, now, cents)]
            && sent == (if pub == Sqs && sendFate != Rejected then [CreatedEvent(id)] else [])
            && (pub != Sqs || sendFate == Accepted ==> answer.Ok? && Shows(answer.value, id, after[id]))
            && (pub == Sqs && sendFate != Accepted ==> answer == Err(PublishFailed))
  {
    StoredAmountReads(input.totalAmount, cents);
    InsertStoresInput(t, input, id, now);
    PendingIsKnown();
    var row := NewRow(input, now, cents);
    MappingSucceedsExactly(Scanned(id, row));
    MappingShowsRow(id, row, OrderToGraph(Scanned(id, row)).value);
  }

  /** An amount submitted as the API prints it is stored as that number of cents. */
  lemma CreationStoresCents(t: Table, pub: Publisher, input: CreateOrderInput, id: Uuid, now: Time, c: Cents)
    requires id !in t && input.totalAmount == Some(CentsText(c))
    ensures Create(t, pub, input, id, now, Answered, Accepted).0 == t[id := NewRow(input, now, Some(c))]
  {
    CentsTextShape(c);
    ScanReadsCentsText(c);
    ScanReads(CentsText(c), Decimal(c, 2));
    CentsFitColumn(c);
    ColumnRounds(Decimal(c, 2), c);
    assert StoresAmount(input.totalAmount, Some(c));
    CreationStoresInput(t, pub, input, id, now, Some(c), Accepted);
  }

  lemma NothingInserted(t: Table, pub: Publisher, input: CreateOrderInput, id: Uuid, now: Time,
                        fate: Fate, sendFate: SendFate)
    requires !InsertSucceeds(t, input, id)
    ensures var (after, sent, answer) := Create(t, pub, input, id, now, fate, sendFate);
            && after == t && sent == [] && answer.Err?
            && (OptionalAmount(input.totalAmount).Ok? && fate == Answered ==>
                  answer == Err(Database(ConstraintViolation)))
  {
    if OptionalAmount(input.totalAmount).Ok? {
      InsertStoresInput(t, input, id, now);
      forall cents | id !in t ensures !StoresAmount(input.totalAmount, cents) {
        assert !Inserts(t, input, id, cents);
      }
    }
  }

  /** Which error is answered when nothing is inserted, or when the statement's answer is lost. */
  lemma CreationErrors(t: Table, pub: Publisher, input: CreateOrderInput, id: Uuid, now: Time,
                       fate: Fate, sendFate: SendFate)
    ensures var unreadable := HasAmount(input.totalAmount) && forall d :: !Reads(input.totalAmount.value, d);
            var (after, sent, answer) := Create(t, pub, input, id, now, fate, sendFate);
            && (unreadable ==> after == t && sent == [] && answer == Err(InvalidAmount))
            && (!unreadable && fate != Answered ==> sent == [] && answer == Err(Database(ConnectionFailure)))
            && (!unreadable && fate == Answered && !InsertSucceeds(t, input, id) ==>
                  after == t && sent == [] && answer == Err(Database(ConstraintViolation)))
  {
    OptionalAmountReads(input.totalAmount);
    if !InsertSucceeds(t, input, id) {
      NothingInserted(t, pub, input, id, now, fate, sendFate);
    }
  }

  /** The row is there if the statement committed, although its answer was lost. */
  lemma LostInsert(t: Table, pub: Publisher, input: CreateOrderInput, id: Uuid, now: Time,
                   cents: Option<Cents>, committed: bool, sendFate: SendFate)
    requires Inserts(t, input, id, cents)
    ensures var (after, sent, answer) := Create(t, pub, input, id, now, AnswerLost(committed), sendFate);
            && after == (if committed then t[id := NewRow(input, now, cents)] else t)
            && sent == [] && answer == Err(Database(ConnectionFailure))
  {
    StoredAmountReads(input.totalAmount, cents);
    InsertStoresInput(t, input, id, now);
  }

  /** Success exactly if the row is inserted, that is answered, and the publisher reports no failure. */
  lemma CreationSucceedsExactly(t: Table, pub: Publisher, input: CreateOrderInput, id: Uuid, now: Time,
                                fate: Fate, sendFate: SendFate)
    ensures Create(t, pub, input, id, now, fate, sendFate).2.Ok? <==>
      InsertSucceeds(t, input, id) && fate == Answered && (pub != Sqs || sendFate == Accepted)
  {
    if InsertSucceeds(t, input, id) {
      var cents :| Inserts(t, input, id, cents);
      if fate == Answered {
        CreationStoresInput(t, pub, input, id, now, cents, sendFate);
      } else {
        LostInsert(t, pub, input, id, now, cents, fate.committed, sendFate);
      }
    } else {
      NothingInserted(t, pub, input, id, now, fate, sendFate);
    }
  }

  /** A success means a new pending order as submitted, shown column by column, and its event enqueued. */
  lemma CreationIsAnswered(t: Table, pub: Publisher, input: CreateOrderInput, id: Uuid, now: Time,
                           fate: Fate, sendFate: SendFate) returns (cents: Option<Cents>)
    requires Create(t, pub, input, id, now, fate, sendFate).2.Ok?
    ensures Inserts(t, input, id, cents)
    ensures var (after, sent, answer) := Create(t, pub, input, id, now, fate, sendFate);
            && after == t[id := NewRow(input, now, cents)]
            && sent == (if pub == Sqs then [CreatedEvent(id)] else [])
            && Shows(answer.value, id, NewRow(input, now, cents))
  {
    CreationSucceedsExactly(t, pub, input, id, now, fate, sendFate);
    cents :| Inserts(t, input, id, cents);
    CreationStoresInput(t, pub, input, id, now, cents, sendFate);
  }

  /** Whatever fails, no other order is touched and no event is sent without its row. */
  lemma CreationIsContained(t: Table, pub: Publisher, input: CreateOrderInput, id: Uuid, now: Time,
                            fate: Fate, sendFate: SendFate)
    ensures var (after, sent, _) := Create(t, pub, input, id, now, fate, sendFate);
            && (after == t || (id !in t && id in after && after == t[id := after[id]] && IsKnown(after[id].status)))
            && (sent == [] || (sent == [CreatedEvent(id)] && id in after && id !in t && pub == Sqs))
  {
    PendingIsKnown();
  }

  /** When createOrder answers with an error although the order now exists, and although its event was enqueued. */
  lemma ErrorsThoughCreated(t: Table, pub: Publisher, input: CreateOrderInput, id: Uuid, now: Time,
                            fate: Fate, sendFate: SendFate)
    requires id !in t
    ensures var (after, sent, answer) := Create(t, pub, input, id, now, fate, sendFate);
            && (answer.Err? && id in after <==>
                  && InsertSucceeds(t, input, id)
                  && (fate == AnswerLost(true) || (fate == Answered && pub == Sqs && sendFate != Accepted)))
            && (answer.Err? && sent != [] <==>
                  InsertSucceeds(t, input, id) && fate == Answered && pub == Sqs && sendFate == AcceptedSilently)
  {
    if InsertSucceeds(t, input, id) {
      var cents :| Inserts(t, input, id, cents);
      if fate == Answered {
        CreationStoresInput(t, pub, input, id, now, cents, sendFate);
      } else {
        LostInsert(t, pub, input, id, now, cents, fate.committed, sendFate);
      }
    } else {
      NothingInserted(t, pub, input, id, now, fate, sendFate);
    }
  }

  /** The steps of the pipeline that a createOrder call stands for, if it inserts its row. */
  function PipelineSteps(c: ClientId, id: Uuid, m: MessageId, answered: bool, sendFate: SendFate): seq<Step> {
    if answered then [Insert(c, id, true), Publish(c, m, sendFate)] else [Insert(c, id, false)]
  }

  function CallAfter(pub: Publisher, answered: bool, sendFate: SendFate): CallState {
    if !answered then Unreported
    else if pub != Sqs || sendFate == Accepted then Succeeded
    else if sendFate == Rejected then Refused
    else Unanswered
  }

  lemma TwoSteps(pub: Publisher, s: State, first: Step, second: Step)
    requires Enabled(s, first) && Enabled(Next(pub, s, first), second)
    ensures Feasible(pub, s, [first, second])
    ensures Run(pub, s, [first, second]) == Next(pub, Next(pub, s, first), second)
  {
    var a := Next(pub, s, first);
    var b := Next(pub, a, second);
    assert [first, second][1..] == [second] && [second][1..] == [];
    assert Feasible(pub, b, []) && Run(pub, b, []) == b;
    assert Feasible(pub, a, [second]) && Run(pub, a, [second]) == b;
  }

  /** What those steps make of the call, and the message they send. */
  lemma PipelineCall(s: State, pub: Publisher, c: ClientId, id: Uuid, m: MessageId, answered: bool, sendFate: SendFate)
    requires c !in s.clients && id !in s.orders && m !in s.sent
    ensures Feasible(pub, s, PipelineSteps(c, id, m, answered, sendFate))
    ensures var u := Run(pub, s, PipelineSteps(c, id, m, answered, sendFate));
            && u.orders == s.orders[id := CallAfter(pub, answered, sendFate)]
            && u.clients == s.clients
            && u.sent == if answered && pub == Sqs && sendFate != Rejected
                         then s.sent[m := Some(Json(CreatedEvent(id)))] else s.sent
  {
    var a := Next(pub, s, Insert(c, id, answered));
    if answered {
      TwoSteps(pub, s, Insert(c, id, true), Publish(c, m, sendFate));
      assert s.clients[c := id] - {c} == s.clients;
    } else {
      assert [Insert(c, id, false)][1..] == [] && Feasible(pub, a, []) && Run(pub, a, []) == a;
    }
  }

  /** The pipeline's call succeeds exactly if createOrder answers with the order, and sends what createOrder sends. */
  lemma PipelineIsCreate(t: Table, pub: Publisher, input: CreateOrderInput, id: Uuid, now: Time,
                         fate: Fate, sendFate: SendFate)
    requires InsertSucceeds(t, input, id) && fate != AnswerLost(false)
    ensures var (after, sent, answer) := Create(t, pub, input, id, now, fate, sendFate);
            var answered := fate == Answered;
            && id in after
            && (CallAfter(pub, answered, sendFate) == Succeeded <==> answer.Ok?)
            && sent == if answered && pub == Sqs && sendFate != Rejected then [CreatedEvent(id)] else []
  {
    var cents :| Inserts(t, input, id, cents);
    if fate == Answered {
      CreationStoresInput(t, pub, input, id, now, cents, sendFate);
    } else {
      LostInsert(t, pub, input, id, now, cents, true, sendFate);
    }
  }

  /** It happens: any order without an amount, when the send goes through and its answer is lost. */
  lemma ErrorCanFollowEvent(customerName: Option<string>, notes: Option<string>, id: Uuid, now: Time)
    ensures var input := CreateOrderInput(customerName, notes, None);
            var (after, sent, answer) := Create(map[], Sqs, input, id, now, Answered, AcceptedSilently);
            id in after && sent == [CreatedEvent(id)] && answer == Err(PublishFailed)
  {
    PendingIsKnown();
  }
}
