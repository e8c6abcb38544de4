/**
 From createOrder to the workers, as a step system: clients insert an order and then publish its event
 (internal/graph/schema.resolvers.go), workers receive batches, handle each message and then delete it
 (internal/queue/sqs.go, cmd/worker/main.go). Any call may fail, with or without effect, any process may stop at
 any moment, and the queue may show a received message again at any time until it is deleted.
 */
module Pipeline {
  import opened Wrappers
  import opened Uuids
  import opened Events

  type ClientId = nat
  type WorkerId = nat
  type MessageId = nat

  /** What the resolver's Queue field holds: an SQS client, the no-op publisher, or nothing. */
  datatype Publisher = Sqs | NoOp | Absent

  /** What has become of the createOrder call that inserted an order. */
  datatype CallState =
    | Pending     // the insert committed, nothing has been published yet
    | Unreported  // the insert committed but its answer was lost: an error was returned, nothing was sent
    | Succeeded   // the call returned the order
    | Refused     // the send failed: an error was returned and nothing was enqueued
    | Unanswered  // the send failed: an error was returned although the message was enqueued
    | Crashed     // the process stopped between insert and send

  datatype SendFate = Accepted | Rejected | AcceptedSilently

  /** Ignored: answered with success, but the receipt was out of date and the message stays. */
  datatype DeleteFate = Deleted | NotDeleted | DeletedSilently | Ignored

  /** A worker's place in its receive loop; in Acking the first message of the batch has just been handled. */
  datatype Phase =
    | Stopped
    | Polling
    | Processing(batch: seq<MessageId>)
    | Acking(batch: seq<MessageId>)

  /** `acknowledged` counts the OrderCreated deletes that succeeded; `processed` is the program's counter. */
  datatype Worker = Worker(phase: Phase, processed: nat, acknowledged: nat)

  datatype State = State(
    orders: map<Uuid, CallState>,           // committed inserts
    clients: map<ClientId, Uuid>,           // clients between insert and send
    sent: map<MessageId, Option<Body>>,     // every message ever enqueued
    queue: set<MessageId>,                  // those not deleted
    inFlight: set<MessageId>,               // those received and not yet visible again
    handled: set<Event>,                    // events some worker's handler has returned from
    workers: map<WorkerId, Worker>)

  datatype Step =
    | Insert(client: ClientId, id: Uuid, answered: bool)
    | Publish(client: ClientId, message: MessageId, sendFate: SendFate)
    | CrashClient(client: ClientId)
    | Foreign(message: MessageId, body: Option<Body>)  // a message from another sender
    | Start(worker: WorkerId)
    | Receive(worker: WorkerId, batch: seq<MessageId>)
    | Process(worker: WorkerId)
    | Delete(worker: WorkerId, deleteFate: DeleteFate)
    | Stop(worker: WorkerId)
    | Reappear(message: MessageId)

  const BATCH_LIMIT := 10

  function Init(): State {
    State(map[], map[], map[], {}, {}, {}, map[])
  }

  function WorkerOf(s: State, w: WorkerId): Worker {
    if w in s.workers then s.workers[w] else Worker(Stopped, 0, 0)
  }

  predicate Enabled(s: State, e: Step) {
    match e
    case Insert(c, id, _) => c !in s.clients && id !in s.orders
    case Publish(c, m, _) => c in s.clients && s.clients[c] in s.orders && m !in s.sent
    case CrashClient(c) => c in s.clients && s.clients[c] in s.orders
    case Foreign(m, _) => m !in s.sent
    case Start(w) => WorkerOf(s, w).phase.Stopped?
    case Receive(w, batch) =>
      && WorkerOf(s, w).phase.Polling? && |batch| <= BATCH_LIMIT
      && forall m :: m in batch ==> m in s.queue && m in s.sent && m !in s.inFlight
    case Process(w) =>
      var p := WorkerOf(s, w).phase;
      p.Processing? && (p.batch != [] ==> p.batch[0] in s.sent)
    case Delete(w, _) =>
      var p := WorkerOf(s, w).phase;
      p.Acking? && p.batch != [] && p.batch[0] in s.sent
    case Stop(w) => true
    case Reappear(m) => true
  }

  function Enqueued(s: State, m: MessageId, body: Option<Body>): State {
    s.(sent := s.sent[m := body], queue := s.queue + {m})
  }

  function Sending(s: State, c: ClientId, m: MessageId, fate: SendFate): State
    requires c in s.clients
  {
    var id := s.clients[c];
    var body := Some(Json(CreatedEvent(id)));
    var t := s.(clients := s.clients - {c});
    match fate
    case Accepted => Enqueued(t, m, body).(orders := s.orders[id := Succeeded])
    case Rejected => t.(orders := s.orders[id := Refused])
    case AcceptedSilently => Enqueued(t, m, body).(orders := s.orders[id := Unanswered])
  }

  function WithWorker(s: State, w: WorkerId, worker: Worker): State {
    s.(workers := s.workers[w := worker])
  }

  function IsCreated(body: Option<Body>): nat {
    if body.Some? && body.value.Json? && body.value.event.kind == ORDER_CREATED then 1 else 0
  }

  /** The loop body up to the handler's return: skip, stop on an undecodable message, or handle. */
  function Processed(s: State, w: WorkerId): State
    requires Enabled(s, Process(w))
  {
    var worker := WorkerOf(s, w);
    var batch := worker.phase.batch;
    if batch == [] then WithWorker(s, w, worker.(phase := Polling))
    else match s.sent[batch[0]]
      case None => WithWorker(s, w, worker.(phase := Processing(batch[1..])))
      case Some(Malformed) => WithWorker(s, w, worker.(phase := Stopped))
      case Some(Json(event)) =>
        WithWorker(s, w, Worker(Acking(batch), worker.processed + IsCreated(s.sent[batch[0]]), worker.acknowledged))
          .(handled := s.handled + {event})
  }

  function Acknowledged(s: State, w: WorkerId, fate: DeleteFate): State
    requires Enabled(s, Delete(w, fate))
  {
    var worker := WorkerOf(s, w);
    var m, rest := worker.phase.batch[0], worker.phase.batch[1..];
    match fate
    case Deleted =>
      WithWorker(s, w, Worker(Processing(rest), worker.processed, worker.acknowledged + IsCreated(s.sent[m])))
        .(queue := s.queue - {m})
    case Ignored =>
      WithWorker(s, w, Worker(Processing(rest), worker.processed, worker.acknowledged + IsCreated(s.sent[m])))
    case NotDeleted => WithWorker(s, w, worker.(phase := Stopped))
    case DeletedSilently => WithWorker(s, w, worker.(phase := Stopped)).(queue := s.queue - {m})
  }

  function Next(pub: Publisher, s: State, e: Step): State
    requires Enabled(s, e)
  {
    match e
    case Insert(c, id, answered) =>
      if answered then s.(orders := s.orders[id := Pending], clients := s.clients[c := id])
      else s.(orders := s.orders[id := Unreported])
    case Publish(c, m, fate) =>
      if pub == Sqs then Sending(s, c, m, fate)
      else s.(clients := s.clients - {c}, orders := s.orders[s.clients[c] := Succeeded])
    case CrashClient(c) => s.(clients := s.clients - {c}, orders := s.orders[s.clients[c] := Crashed])
    case Foreign(m, body) => Enqueued(s, m, body)
    case Start(w) => WithWorker(s, w, Worker(Polling, 0, 0))
    case Receive(w, batch) =>
      WithWorker(s, w, WorkerOf(s, w).(phase := Processing(batch)))
        .(inFlight := s.inFlight + set m | m in batch)
    case Process(w) => Processed(s, w)
    case Delete(w, fate) => Acknowledged(s, w, fate)
    case Stop(w) => WithWorker(s, w, WorkerOf(s, w).(phase := Stopped))
    case Reappear(m) => s.(inFlight := s.inFlight - {m})
  }

  ghost predicate Feasible(pub: Publisher, s: State, steps: seq<Step>)
    decreases |steps|
  {
    steps == [] || (Enabled(s, steps[0]) && Feasible(pub, Next(pub, s, steps[0]), steps[1..]))
  }

  ghost function Run(pub: Publisher, s: State, steps: seq<Step>): State
    requires Feasible(pub, s, steps)
    decreases |steps|
  {
    if steps == [] then s else Run(pub, Next(pub, s, steps[0]), steps[1..])
  }

  // ---------------------------------------------------------------- the invariant

  ghost predicate HasEvent(s: State, m: MessageId, event: Event) {
    m in s.sent && s.sent[m] == Some(Json(event))
  }

  /** A message that left the queue was handled before. */
  ghost predicate Settled(s: State, m: MessageId)
    requires m in s.sent
  {
    m in s.queue || (s.sent[m].Some? && s.sent[m].value.Json? && s.sent[m].value.event in s.handled)
  }

  ghost predicate WorkerOk(sent: map<MessageId, Option<Body>>, handled: set<Event>, worker: Worker) {
    match worker.phase
    case Stopped => worker.acknowledged <= worker.processed <= worker.acknowledged + 1
    case Polling => worker.processed == worker.acknowledged
    case Processing(batch) =>
      worker.processed == worker.acknowledged && forall m :: m in batch ==> m in sent
    case Acking(batch) =>
      && batch != [] && (forall m :: m in batch ==> m in sent)
      && sent[batch[0]].Some? && sent[batch[0]].value.Json? && sent[batch[0]].value.event in handled
      && worker.processed == worker.acknowledged + IsCreated(sent[batch[0]])
  }

  ghost predicate WorkersOk(sent: map<MessageId, Option<Body>>, handled: set<Event>, workers: map<WorkerId, Worker>) {
    forall w :: w in workers ==> WorkerOk(sent, handled, workers[w])
  }

  /** Clients between insert and send, one per order, and exactly the orders that are pending. */
  ghost predicate ClientsOk(s: State) {
    && (forall c :: c in s.clients ==> s.clients[c] in s.orders && s.orders[s.clients[c]] == Pending)
    && (forall c, c' :: c in s.clients && c' in s.clients && s.clients[c] == s.clients[c'] ==> c == c')
  }

  /** The call that created the order has sent its event, whatever it answered. */
  predicate Announced(s: State, id: Uuid) {
    id in s.orders && (s.orders[id] == Succeeded || s.orders[id] == Unanswered)
  }

  /** With SQS, an order whose event was enqueued has it among the messages ever sent. */
  ghost predicate EventsSent(pub: Publisher, s: State) {
    pub == Sqs ==> forall id :: Announced(s, id) ==> exists m :: HasEvent(s, m, CreatedEvent(id))
  }

  ghost predicate Inv(pub: Publisher, s: State) {
    && s.queue <= s.sent.Keys
    && (forall m :: m in s.sent ==> Settled(s, m))
    && WorkersOk(s.sent, s.handled, s.workers)
    && ClientsOk(s)
    && EventsSent(pub, s)
  }

  /** Everything a worker relies on survives when messages are sent and events handled. */
  lemma WorkersUnaffected(sent: map<MessageId, Option<Body>>, sent': map<MessageId, Option<Body>>,
                          handled: set<Event>, handled': set<Event>, workers: map<WorkerId, Worker>)
    requires WorkersOk(sent, handled, workers) && handled <= handled'
    requires forall m :: m in sent ==> m in sent' && sent'[m] == sent[m]
    ensures WorkersOk(sent', handled', workers)
  {
    forall w | w in workers ensures WorkerOk(sent', handled', workers[w]) {
      assert WorkerOk(sent, handled, workers[w]);
    }
  }

  lemma ProcessKeepsWorkers(s: State, w: WorkerId)
    requires WorkersOk(s.sent, s.handled, s.workers) && Enabled(s, Process(w))
    ensures var t := Processed(s, w); WorkersOk(t.sent, t.handled, t.workers)
  {
    assert WorkerOk(s.sent, s.handled, s.workers[w]);
    WorkersUnaffected(s.sent, s.sent, s.handled, Processed(s, w).handled, s.workers);
  }

  lemma DeleteKeepsWorkers(s: State, w: WorkerId, fate: DeleteFate)
    requires WorkersOk(s.sent, s.handled, s.workers) && Enabled(s, Delete(w, fate))
    ensures var t := Acknowledged(s, w, fate); WorkersOk(t.sent, t.handled, t.workers)
  {
    assert WorkerOk(s.sent, s.handled, s.workers[w]);
  }

  lemma StepKeepsWorkers(pub: Publisher, s: State, e: Step)
    requires Inv(pub, s) && Enabled(s, e)
    ensures var t := Next(pub, s, e); WorkersOk(t.sent, t.handled, t.workers)
  {
    var t := Next(pub, s, e);
    match e
    case Process(w) => ProcessKeepsWorkers(s, w);
    case Delete(w, fate) => DeleteKeepsWorkers(s, w, fate);
    case Stop(w) => assert w in s.workers ==> WorkerOk(s.sent, s.handled, s.workers[w]);
    case Start(w) =>
    case Receive(w, _) => assert WorkerOk(s.sent, s.handled, s.workers[w]);
    case _ => WorkersUnaffected(s.sent, t.sent, s.handled, t.handled, s.workers);
  }

  lemma StepSettles(pub: Publisher, s: State, e: Step)
    requires Inv(pub, s) && Enabled(s, e)
    ensures var t := Next(pub, s, e); t.queue <= t.sent.Keys && forall m :: m in t.sent ==> Settled(t, m)
  {
    var t := Next(pub, s, e);
    if e.Delete? {
      assert WorkerOk(s.sent, s.handled, s.workers[e.worker]);
    }
    forall m | m in t.sent ensures Settled(t, m) {
      assert m in s.sent ==> Settled(s, m);
    }
  }

  lemma InsertKeepsClients(s: State, c: ClientId, id: Uuid)
    requires ClientsOk(s) && Enabled(s, Insert(c, id, true))
    ensures ClientsOk(s.(orders := s.orders[id := Pending], clients := s.clients[c := id]))
  {
  }

  lemma SettlingKeepsClients(s: State, c: ClientId, call: CallState)
    requires ClientsOk(s) && c in s.clients
    ensures ClientsOk(s.(clients := s.clients - {c}, orders := s.orders[s.clients[c] := call]))
  {
  }

  lemma UnansweredInsertKeepsClients(s: State, c: ClientId, id: Uuid)
    requires ClientsOk(s) && Enabled(s, Insert(c, id, false))
    ensures ClientsOk(s.(orders := s.orders[id := Unreported]))
  {
  }

  lemma OtherStepsLeaveClients(pub: Publisher, s: State, e: Step)
    requires Enabled(s, e) && !e.Insert? && !e.Publish? && !e.CrashClient?
    ensures Next(pub, s, e).orders == s.orders && Next(pub, s, e).clients == s.clients
  {
  }

  lemma StepKeepsClients(pub: Publisher, s: State, e: Step)
    requires ClientsOk(s) && Enabled(s, e)
    ensures ClientsOk(Next(pub, s, e))
  {
    match e
    case Insert(c, id, answered) =>
      if answered {
        InsertKeepsClients(s, c, id);
      } else {
        UnansweredInsertKeepsClients(s, c, id);
      }
    case Publish(c, _, _) => SettlingKeepsClients(s, c, Next(pub, s, e).orders[s.clients[c]]);
    case CrashClient(c) => SettlingKeepsClients(s, c, Crashed);
    case _ => OtherStepsLeaveClients(pub, s, e);
  }

  lemma MessageStays(pub: Publisher, s: State, e: Step, m: MessageId, event: Event)
    requires Enabled(s, e) && HasEvent(s, m, event)
    ensures HasEvent(Next(pub, s, e), m, event)
  {
  }

  lemma OnlyPublishAnnounces(pub: Publisher, s: State, e: Step, id: Uuid)
    requires Enabled(s, e) && Announced(Next(pub, s, e), id) && !(e.Publish? && id == s.clients[e.client])
    ensures Announced(s, id)
  {
  }

  lemma StepKeepsEventsSent(pub: Publisher, s: State, e: Step)
    requires EventsSent(pub, s) && Enabled(s, e)
    ensures EventsSent(pub, Next(pub, s, e))
  {
    var t := Next(pub, s, e);
    if pub == Sqs {
      forall id | Announced(t, id) ensures exists m :: HasEvent(t, m, CreatedEvent(id)) {
        if e.Publish? && id == s.clients[e.client] {
          assert HasEvent(t, e.message, CreatedEvent(id));
        } else {
          OnlyPublishAnnounces(pub, s, e, id);
          var m :| HasEvent(s, m, CreatedEvent(id));
          MessageStays(pub, s, e, m, CreatedEvent(id));
        }
      }
    }
  }

  lemma StepKeepsInv(pub: Publisher, s: State, e: Step)
    requires Inv(pub, s) && Enabled(s, e)
    ensures Inv(pub, Next(pub, s, e))
  {
    StepKeepsWorkers(pub, s, e);
    StepSettles(pub, s, e);
    StepKeepsClients(pub, s, e);
    StepKeepsEventsSent(pub, s, e);
  }

  lemma {:induction false} RunKeepsInv(pub: Publisher, s: State, steps: seq<Step>)
    requires Inv(pub, s) && Feasible(pub, s, steps)
    ensures Inv(pub, Run(pub, s, steps))
    decreases |steps|
  {
    if steps == [] {
    } else {
      StepKeepsInv(pub, s, steps[0]);
      RunKeepsInv(pub, Next(pub, s, steps[0]), steps[1..]);
    }
  }

  // ---------------------------------------------------------------- what every run guarantees

  /** A queue fed by createOrder alone. */
  ghost predicate OwnMessages(steps: seq<Step>) {
    forall i :: 0 <= i < |steps| ==> !steps[i].Foreign?
  }

  /** The event of an order is still in the queue, or some worker has handled it. */
  ghost predicate EventNotLost(s: State, id: Uuid) {
    (exists m :: m in s.queue && HasEvent(s, m, CreatedEvent(id))) || CreatedEvent(id) in s.handled
  }

  ghost predicate KeepsEvents(s: State) {
    forall id :: id in s.orders && s.orders[id] == Succeeded ==> EventNotLost(s, id)
  }

  ghost predicate LosesNoEvent(pub: Publisher) {
    forall steps :: Feasible(pub, Init(), steps) ==> KeepsEvents(Run(pub, Init(), steps))
  }

  lemma SqsLosesNoEvent(steps: seq<Step>)
    requires Feasible(Sqs, Init(), steps)
    ensures KeepsEvents(Run(Sqs, Init(), steps))
  {
    RunKeepsInv(Sqs, Init(), steps);
    var s := Run(Sqs, Init(), steps);
    forall id | id in s.orders && s.orders[id] == Succeeded ensures EventNotLost(s, id) {
      var m :| HasEvent(s, m, CreatedEvent(id));
      assert Settled(s, m);
    }
  }

  lemma OthersLoseEvents(pub: Publisher, id: Uuid)
    requires pub != Sqs
    ensures !LosesNoEvent(pub)
  {
    var steps := [Insert(0, id, true), Publish(0, 0, Accepted)];
    var s := Next(pub, Init(), steps[0]);
    assert steps[1..] == [steps[1]];
    assert Feasible(pub, Next(pub, s, steps[1]), []);
    assert Feasible(pub, s, steps[1..]);
    assert Run(pub, s, steps[1..]) == Next(pub, s, steps[1]);
    var t := Run(pub, Init(), steps);
    assert t == Next(pub, s, steps[1]);
    assert t.orders[id] == Succeeded && !EventNotLost(t, id);
    assert Feasible(pub, Init(), steps);
  }

  /** No order whose creation was reported loses its event, in any run, exactly when SQS is the publisher. */
  lemma NoEventLostExactlyWithSqs(pub: Publisher)
    ensures LosesNoEvent(pub) <==> pub == Sqs
  {
    if pub == Sqs {
      forall steps | Feasible(pub, Init(), steps) ensures KeepsEvents(Run(pub, Init(), steps)) {
        SqsLosesNoEvent(steps);
      }
    } else {
      OthersLoseEvents(pub, seq(16, _ => 0));
    }
  }

  ghost predicate NothingSent(s: State) {
    s.sent == map[] && s.queue == {} && s.handled == {}
  }

  lemma {:induction false} NothingIsSent(pub: Publisher, s: State, steps: seq<Step>)
    requires pub != Sqs && NothingSent(s) && Feasible(pub, s, steps) && OwnMessages(steps)
    ensures NothingSent(Run(pub, s, steps))
    decreases |steps|
  {
    if steps == [] {
    } else {
      NothingIsSent(pub, Next(pub, s, steps[0]), steps[1..]);
    }
  }

  /** Without SQS, and without other senders, every order loses its event. */
  lemma OthersLoseEveryEvent(pub: Publisher, steps: seq<Step>, id: Uuid)
    requires pub != Sqs && Feasible(pub, Init(), steps) && OwnMessages(steps)
    ensures !EventNotLost(Run(pub, Init(), steps), id)
  {
    NothingIsSent(pub, Init(), steps);
  }

  /** Only decoded and handled messages ever leave the queue: one without a body, or undecodable, stays for good. */
  lemma UnhandledMessagesStay(pub: Publisher, steps: seq<Step>, m: MessageId)
    requires Feasible(pub, Init(), steps) && m in Run(pub, Init(), steps).sent
    ensures var s := Run(pub, Init(), steps);
            && (m !in s.queue ==> exists event :: HasEvent(s, m, event) && event in s.handled)
            && (s.sent[m].None? || s.sent[m].value.Malformed? ==> m in s.queue)
  {
    RunKeepsInv(pub, Init(), steps);
    var s := Run(pub, Init(), steps);
    assert Settled(s, m);
    if m !in s.queue {
      assert HasEvent(s, m, s.sent[m].value.event);
    }
  }

  /** A worker has counted every OrderCreated message it deleted, and at most one it could not delete. */
  lemma WorkersCountWhatTheyDelete(pub: Publisher, steps: seq<Step>, w: WorkerId)
    requires Feasible(pub, Init(), steps)
    ensures var worker := WorkerOf(Run(pub, Init(), steps), w);
            && worker.acknowledged <= worker.processed <= worker.acknowledged + 1
            && (worker.phase.Polling? || worker.phase.Processing? ==> worker.processed == worker.acknowledged)
  {
    RunKeepsInv(pub, Init(), steps);
    var s := Run(pub, Init(), steps);
    assert w in s.workers ==> WorkerOk(s.sent, s.handled, s.workers[w]);
  }

  /** A worker that handles and acknowledges the message of an order has counted it, once. */
  lemma AnnouncedOrderIsCounted(s: State, w: WorkerId, batch: seq<MessageId>, id: Uuid)
    requires WorkerOf(s, w).phase == Processing(batch) && batch != [] && HasEvent(s, batch[0], CreatedEvent(id))
    ensures Feasible(Sqs, s, [Process(w), Delete(w, Deleted)])
    ensures var t := Run(Sqs, s, [Process(w), Delete(w, Deleted)]);
            && WorkerOf(t, w).processed == WorkerOf(s, w).processed + 1
            && WorkerOf(t, w).acknowledged == WorkerOf(s, w).acknowledged + 1
            && WorkerOf(t, w).phase == Processing(batch[1..])
            && t.handled == s.handled + {CreatedEvent(id)} && t.queue == s.queue - {batch[0]}
  {
    CreatedEventSays(id);
    var a := Next(Sqs, s, Process(w));
    var b := Next(Sqs, a, Delete(w, Deleted));
    var steps := [Process(w), Delete(w, Deleted)];
    assert steps[1..] == [steps[1]] && steps[1..][1..] == [];
    assert Feasible(Sqs, b, []) && Run(Sqs, b, []) == b;
    assert Feasible(Sqs, a, steps[1..]) && Run(Sqs, a, steps[1..]) == b;
  }

  /** A received message is hidden from every worker until it reappears; at most ten come at a time. */
  lemma ReceivedIsHidden(pub: Publisher, s: State, w: WorkerId, batch: seq<MessageId>, m: MessageId,
                         other: WorkerId, more: seq<MessageId>)
    requires Enabled(s, Receive(w, batch)) && m in batch && m in more
    ensures |batch| <= 10 && m in s.queue && m !in s.inFlight
    ensures var t := Next(pub, s, Receive(w, batch));
            && !Enabled(t, Receive(other, more))
            && (other != w && WorkerOf(s, other).phase.Polling? ==>
                  Enabled(Next(pub, t, Reappear(m)), Receive(other, [m])))
  {
  }

  /** Another sender's message waits in the queue like any other, with its text. */
  lemma ForeignIsReceivable(pub: Publisher, s: State, m: MessageId, body: Option<Body>, w: WorkerId)
    requires Enabled(s, Foreign(m, body)) && m !in s.inFlight && WorkerOf(s, w).phase.Polling?
    ensures var t := Next(pub, s, Foreign(m, body));
            && t.sent == s.sent[m := body] && t.queue == s.queue + {m}
            && Enabled(t, Receive(w, [m]))
  {
  }

  /** What becomes of the message and what the worker is told need not agree; a worker told of a failure stops. */
  lemma DeleteAnswers(pub: Publisher, s: State, w: WorkerId, fate: DeleteFate)
    requires Enabled(s, Delete(w, fate))
    ensures var t := Next(pub, s, Delete(w, fate)); var m := WorkerOf(s, w).phase.batch[0];
            var told := fate == Deleted || fate == Ignored;
            && (WorkerOf(t, w).phase.Processing? <==> told) && (WorkerOf(t, w).phase.Stopped? <==> !told)
            && WorkerOf(t, w).processed == WorkerOf(s, w).processed
            && WorkerOf(t, w).acknowledged == WorkerOf(s, w).acknowledged + (if told then IsCreated(s.sent[m]) else 0)
            && t.queue == (if fate == Deleted || fate == DeletedSilently then s.queue - {m} else s.queue)
  {
  }

  /** Nobody is ever stuck: a client can publish or crash, a worker can go on, whatever the queue answers. */
  lemma NobodyIsStuck(pub: Publisher, s: State, c: ClientId, m: MessageId, w: WorkerId)
    requires Inv(pub, s) && m !in s.sent
    ensures c in s.clients ==> Enabled(s, CrashClient(c)) && forall fate :: Enabled(s, Publish(c, m, fate))
    ensures c !in s.clients ==> forall id, answered :: id !in s.orders ==> Enabled(s, Insert(c, id, answered))
    ensures Enabled(s, Foreign(m, None)) && Enabled(s, Stop(w)) && Enabled(s, Reappear(m))
    ensures match WorkerOf(s, w).phase
            case Stopped => Enabled(s, Start(w))
            case Polling => forall n :: n in s.queue && n !in s.inFlight ==> Enabled(s, Receive(w, [n]))
            case Processing(_) => Enabled(s, Process(w))
            case Acking(_) => forall fate :: Enabled(s, Delete(w, fate))
  {
    assert w in s.workers ==> WorkerOk(s.sent, s.handled, s.workers[w]);
  }

  // ---------------------------------------------------------------- a queue fed by createOrder alone

  /** The order whose event a message is. */
  ghost predicate IsFor(s: State, m: MessageId, id: Uuid) {
    HasEvent(s, m, CreatedEvent(id)) && Announced(s, id)
  }

  ghost predicate OwnInv(s: State) {
    && (forall m :: m in s.sent ==> exists id :: IsFor(s, m, id))
    && (forall m, m', id :: HasEvent(s, m, CreatedEvent(id)) && HasEvent(s, m', CreatedEvent(id)) ==> m == m')
    && (forall event :: event in s.handled ==> exists m :: HasEvent(s, m, event))
  }

  lemma SendKeepsOwnInv(s: State, e: Step)
    requires Inv(Sqs, s) && OwnInv(s) && Enabled(s, e) && e.Publish? && e.sendFate != Rejected
    ensures OwnInv(Next(Sqs, s, e))
  {
    var t, own := Next(Sqs, s, e), s.clients[e.client];
    assert IsFor(t, e.message, own);
    forall m | m in t.sent ensures exists id :: IsFor(t, m, id) {
      if m != e.message {
        var id :| IsFor(s, m, id);
        assert IsFor(t, m, id);
      }
    }
    forall m, m', id | HasEvent(t, m, CreatedEvent(id)) && HasEvent(t, m', CreatedEvent(id)) ensures m == m' {
      NotYetSent(s, own, m);
      NotYetSent(s, own, m');
      assert m != e.message ==> HasEvent(s, m, CreatedEvent(id));
      assert m' != e.message ==> HasEvent(s, m', CreatedEvent(id));
    }
    forall event | event in t.handled ensures exists m :: HasEvent(t, m, event) {
      var m :| HasEvent(s, m, event);
      assert HasEvent(t, m, event);
    }
  }

  /** A pending order has no message yet. */
  lemma NotYetSent(s: State, own: Uuid, m: MessageId)
    requires OwnInv(s) && own in s.orders && s.orders[own] == Pending
    ensures !HasEvent(s, m, CreatedEvent(own))
  {
    if HasEvent(s, m, CreatedEvent(own)) {
      EventMeansAnnounced(s, m, own);
    }
  }

  lemma StepKeepsOwnInv(s: State, e: Step)
    requires Inv(Sqs, s) && OwnInv(s) && Enabled(s, e) && !e.Foreign?
    ensures OwnInv(Next(Sqs, s, e))
  {
    if e.Publish? && e.sendFate != Rejected {
      SendKeepsOwnInv(s, e);
    } else {
      QuietStepKeepsOwnInv(s, e);
    }
  }

  lemma HandledWasSent(s: State, e: Step)
    requires Enabled(s, e) && Next(Sqs, s, e).sent == s.sent
    requires forall event :: event in s.handled ==> exists m :: HasEvent(s, m, event)
    ensures var t := Next(Sqs, s, e); forall event :: event in t.handled ==> exists m :: HasEvent(t, m, event)
  {
    var t := Next(Sqs, s, e);
    forall event | event in t.handled ensures exists m :: HasEvent(t, m, event) {
      if event in s.handled {
        var m :| HasEvent(s, m, event);
        assert HasEvent(t, m, event);
      } else {
        assert HasEvent(t, WorkerOf(s, e.worker).phase.batch[0], event);
      }
    }
  }

  lemma OrderStaysAnnounced(s: State, e: Step, m: MessageId, id: Uuid)
    requires Inv(Sqs, s) && Enabled(s, e) && Next(Sqs, s, e).sent == s.sent && IsFor(s, m, id)
    ensures IsFor(Next(Sqs, s, e), m, id)
  {
  }

  lemma QuietStepKeepsOwnInv(s: State, e: Step)
    requires Inv(Sqs, s) && OwnInv(s) && Enabled(s, e) && Next(Sqs, s, e).sent == s.sent
    ensures OwnInv(Next(Sqs, s, e))
  {
    var t := Next(Sqs, s, e);
    forall m | m in t.sent ensures exists id :: IsFor(t, m, id) {
      var id :| IsFor(s, m, id);
      OrderStaysAnnounced(s, e, m, id);
    }
    forall m, m', id | HasEvent(t, m, CreatedEvent(id)) && HasEvent(t, m', CreatedEvent(id)) ensures m == m' {
      assert HasEvent(s, m, CreatedEvent(id)) && HasEvent(s, m', CreatedEvent(id));
    }
    HandledWasSent(s, e);
  }

  lemma {:induction false} RunKeepsOwnInv(s: State, steps: seq<Step>)
    requires Inv(Sqs, s) && OwnInv(s) && Feasible(Sqs, s, steps) && OwnMessages(steps)
    ensures OwnInv(Run(Sqs, s, steps)) && Inv(Sqs, Run(Sqs, s, steps))
    decreases |steps|
  {
    if steps == [] {
    } else {
      StepKeepsInv(Sqs, s, steps[0]);
      StepKeepsOwnInv(s, steps[0]);
      RunKeepsOwnInv(Next(Sqs, s, steps[0]), steps[1..]);
    }
  }

  lemma {:induction false} SentStays(s: State, steps: seq<Step>, m: MessageId)
    requires Feasible(Sqs, s, steps) && m in s.sent
    ensures m in Run(Sqs, s, steps).sent && Run(Sqs, s, steps).sent[m] == s.sent[m]
    decreases |steps|
  {
    if steps == [] {
    } else {
      SentStays(Next(Sqs, s, steps[0]), steps[1..], m);
    }
  }

  /** Step k publishes the event of an order that was inserted before it. */
  ghost predicate PublishesAt(s: State, steps: seq<Step>, k: nat, id: Uuid, m: MessageId) {
    && k < |steps| && Feasible(Sqs, s, steps[..k])
    && steps[k].Publish? && steps[k].message == m && steps[k].sendFate != Rejected
    && var before := Run(Sqs, s, steps[..k]);
       && steps[k].client in before.clients && before.clients[steps[k].client] == id
       && id in before.orders && before.orders[id] == Pending
  }

  /** The step that sent a message, in a queue fed by createOrder alone. */
  lemma {:induction false} SentBySomeStep(s: State, steps: seq<Step>, m: MessageId) returns (k: nat, id: Uuid)
    requires Inv(Sqs, s) && Feasible(Sqs, s, steps) && OwnMessages(steps)
    requires m !in s.sent && m in Run(Sqs, s, steps).sent
    ensures PublishesAt(s, steps, k, id, m)
    ensures Run(Sqs, s, steps).sent[m] == Some(Json(CreatedEvent(id)))
    decreases |steps|
  {
    var e, rest := steps[0], steps[1..];
    var t := Next(Sqs, s, e);
    StepKeepsInv(Sqs, s, e);
    if m in t.sent {
      k, id := 0, s.clients[e.client];
      SentStays(t, rest, m);
      assert steps[..0] == [];
    } else {
      var j: nat;
      j, id := SentBySomeStep(t, rest, m);
      k := j + 1;
      assert steps[..k][1..] == rest[..j] && steps[..k][0] == e;
    }
  }

  /** Every event a worker handles was published for an order whose insert had committed before the send. */
  lemma HandledEventsNameOrders(steps: seq<Step>, event: Event) returns (k: nat, id: Uuid, m: MessageId)
    requires Feasible(Sqs, Init(), steps) && OwnMessages(steps) && event in Run(Sqs, Init(), steps).handled
    ensures event == CreatedEvent(id) && PublishesAt(Init(), steps, k, id, m)
  {
    RunKeepsOwnInv(Init(), steps);
    var s := Run(Sqs, Init(), steps);
    m :| HasEvent(s, m, event);
    k, id := SentBySomeStep(Init(), steps, m);
  }

  lemma EventMeansAnnounced(s: State, m: MessageId, id: Uuid)
    requires OwnInv(s) && HasEvent(s, m, CreatedEvent(id))
    ensures Announced(s, id)
  {
    var other :| IsFor(s, m, other);
    CreatedEventNamesOneOrder(id, other);
  }

  /** The orders with no event ever sent: the call is pending, got no answer to its insert, was refused or crashed. */
  lemma OrdersWithoutEvent(steps: seq<Step>, id: Uuid)
    requires Feasible(Sqs, Init(), steps) && OwnMessages(steps) && id in Run(Sqs, Init(), steps).orders
    ensures var s := Run(Sqs, Init(), steps);
            (forall m :: !HasEvent(s, m, CreatedEvent(id))) <==> s.orders[id] in {Pending, Unreported, Refused, Crashed}
  {
    RunKeepsOwnInv(Init(), steps);
    var s := Run(Sqs, Init(), steps);
    if Announced(s, id) {
      var m :| HasEvent(s, m, CreatedEvent(id));
    } else {
      forall m ensures !HasEvent(s, m, CreatedEvent(id)) {
        if HasEvent(s, m, CreatedEvent(id)) {
          EventMeansAnnounced(s, m, id);
        }
      }
    }
  }

  /** An order is announced at most once: no two messages carry its event. */
  lemma OneMessagePerOrder(steps: seq<Step>, m: MessageId, m': MessageId, id: Uuid)
    requires Feasible(Sqs, Init(), steps) && OwnMessages(steps)
    requires var s := Run(Sqs, Init(), steps); HasEvent(s, m, CreatedEvent(id)) && HasEvent(s, m', CreatedEvent(id))
    ensures m == m'
  {
    RunKeepsOwnInv(Init(), steps);
  }
}
