/**
 The concurrent protocol behind createOrder and updateOrderStatus (internal/graph/schema.resolvers.go) as a step
 system: any number of clients and orders, interleaved in any way. A status update is a read, a validation of the
 status read, the start of the UPDATE statement (which fixes its now()) and its compare-and-set, four moments that
 other clients may fall between. The history of every order is kept as a record of the run: steps extend it and note its
 length, and nothing a step decides or answers depends on it.
 */
module StatusProtocol {
  import opened Wrappers
  import opened Uuids
  import opened Amounts
  import opened OrderStatus
  import opened OrderStore

  type ClientId = nat

  datatype Outcome =
    | Created(row: Row)
    | Updated(row: Row)
    | NotFound
    | Rejected(error: StatusError)
    | Conflict
    | Failed

  /** Where a client stands in its call; `version` is the length of the order's history when it read the order. */
  datatype Phase =
    | Idle
    | Inserting(arg: CreateOrderParams, stamp: Time)
    | HasRead(id: Uuid, from: Status, to: Status, version: nat)
    | Updating(id: Uuid, from: Status, to: Status, version: nat, stamp: Time)
    | Done(outcome: Outcome)

  /** One committed write of an order's status, and the version its client had read. */
  datatype Commit = Commit(status: Status, stamp: Time, author: ClientId, readVersion: nat)

  datatype State = State(clock: Time, table: Table, history: map<Uuid, seq<Commit>>, clients: map<ClientId, Phase>)

  datatype Step =
    | Tick(elapsed: nat)
    | BeginInsert(client: ClientId, customerName: Option<string>, notes: Option<string>, amount: Option<Decimal>)
    | CommitInsert(client: ClientId, id: Uuid)
    | Read(client: ClientId, id: Uuid, to: Status)
    | BeginUpdate(client: ClientId)
    | CommitUpdate(client: ClientId)
    | Leave(client: ClientId)  // the call returns, fails or is abandoned, whatever it was doing

  function PhaseOf(s: State, c: ClientId): Phase {
    if c in s.clients then s.clients[c] else Idle
  }

  function InPhase(s: State, c: ClientId, p: Phase): State {
    s.(clients := s.clients[c := p])
  }

  /** Reading and validating: the resolver answers at once unless the move is allowed from the status read. */
  function AfterRead(s: State, id: Uuid, to: Status): Phase {
    if id !in s.table then Done(Outcome.NotFound)
    else match ParseStatus(s.table[id].status)
      case Err(e) => Done(Rejected(e))
      case Ok(from) =>
        match ValidateTransition(from, to)
        case Some(e) => Done(Rejected(e))
        case None => HasRead(id, from, to, if id in s.history then |s.history[id]| else 0)
  }

  function AfterCommitInsert(s: State, c: ClientId, id: Uuid, p: Phase): State
    requires p.Inserting?
  {
    match InsertOrder(s.table, id, p.stamp, p.arg)
    case Err(_) => InPhase(s, c, Done(Failed))
    case Ok(t) =>
      var history := s.history[id := [Commit(p.arg.status, p.stamp, c, 0)]];
      State(s.clock, t, history, s.clients[c := Done(Created(t[id]))])
  }

  function AfterCommitUpdate(s: State, c: ClientId, p: Phase): State
    requires p.Updating?
  {
    match CompareAndSet(s.table, p.id, p.from, p.to, p.stamp)
    case Err(NoRows) => InPhase(s, c, Done(Conflict))
    case Err(_) => InPhase(s, c, Done(Failed))
    case Ok(t) =>
      var before := if p.id in s.history then s.history[p.id] else [];
      var history := s.history[p.id := before + [Commit(p.to, p.stamp, c, p.version)]];
      State(s.clock, t, history, s.clients[c := Done(Updated(t[p.id]))])
  }

  /** A step that its client is not ready for changes nothing, so every sequence of steps is a run. */
  function Next(s: State, e: Step): State {
    match e
    case Tick(d) => s.(clock := s.clock + d)
    case BeginInsert(c, customerName, notes, amount) =>
      if PhaseOf(s, c) != Idle then s
      else InPhase(s, c, Inserting(CreateOrderParams(PENDING, customerName, notes, amount), s.clock))
    case CommitInsert(c, id) =>
      if !PhaseOf(s, c).Inserting? then s else AfterCommitInsert(s, c, id, PhaseOf(s, c))
    case Read(c, id, to) =>
      if PhaseOf(s, c) != Idle then s else InPhase(s, c, AfterRead(s, id, to))
    case BeginUpdate(c) =>
      var p := PhaseOf(s, c);
      if !p.HasRead? then s else InPhase(s, c, Updating(p.id, p.from, p.to, p.version, s.clock))
    case CommitUpdate(c) =>
      if !PhaseOf(s, c).Updating? then s else AfterCommitUpdate(s, c, PhaseOf(s, c))
    case Leave(c) => InPhase(s, c, Idle)
  }

  function Run(s: State, steps: seq<Step>): State
    decreases |steps|
  {
    if steps == [] then s else Run(Next(s, steps[0]), steps[1..])
  }

  function Init(clock: Time): State {
    State(clock, map[], map[], map[])
  }

  ghost predicate Reachable(s: State) {
    exists clock: Time, steps: seq<Step> :: s == Run(Init(clock), steps)
  }

  // ---------------------------------------------------------------- the invariant

  /** The history of an order explains its row: a life, stamps in order, every write at the version read. */
  ghost predicate Explains(h: seq<Commit>, row: Row, clock: Time) {
    && |h| > 0
    && h[0].status == PENDING && h[0].stamp == row.createdAt
    && h[|h| - 1].status == row.status && h[|h| - 1].stamp == row.updatedAt
    && (forall i :: 0 < i < |h| ==> CanTransition(h[i - 1].status, h[i].status))
    && (forall i :: 0 < i < |h| ==> h[i - 1].stamp <= h[i].stamp)
    && (forall i :: 0 < i < |h| ==> h[i].readVersion == i)
    && (forall i :: 0 <= i < |h| ==> h[i].stamp <= clock)
  }

  /** What a client that has read version `version` of an order still knows. */
  ghost predicate StillKnows(h: seq<Commit>, c: ClientId, from: Status, to: Status, version: nat) {
    && 1 <= version <= |h|
    && h[version - 1].status == from
    && CanTransition(from, to)
    && forall i :: version <= i < |h| ==> h[i].author != c
  }

  ghost predicate ClientOk(history: map<Uuid, seq<Commit>>, clock: Time, c: ClientId, p: Phase) {
    match p
    case Inserting(arg, stamp) => arg.status == PENDING && stamp <= clock
    case HasRead(id, from, to, version) =>
      id in history && StillKnows(history[id], c, from, to, version)
    case Updating(id, from, to, version, stamp) =>
      && id in history && StillKnows(history[id], c, from, to, version)
      && history[id][version - 1].stamp <= stamp <= clock
    case _ => true
  }

  ghost predicate RowsOk(table: Table, history: map<Uuid, seq<Commit>>, clock: Time) {
    && table.Keys == history.Keys
    && forall id :: id in table ==> Explains(history[id], table[id], clock)
  }

  ghost predicate ClientsOk(history: map<Uuid, seq<Commit>>, clock: Time, clients: map<ClientId, Phase>) {
    forall c :: c in clients ==> ClientOk(history, clock, c, clients[c])
  }

  ghost predicate Inv(s: State) {
    RowsOk(s.table, s.history, s.clock) && ClientsOk(s.history, s.clock, s.clients)
  }

  function Statuses(h: seq<Commit>): (r: seq<Status>)
    ensures |r| == |h| && forall i :: 0 <= i < |h| ==> r[i] == h[i].status
  {
    seq(|h|, i requires 0 <= i < |h| => h[i].status)
  }

  lemma ExplainedIsLife(h: seq<Commit>, row: Row, clock: Time)
    requires Explains(h, row, clock)
    ensures IsLife(Statuses(h))
  {
  }

  /** ABA freedom: comparing the status read decides exactly as comparing the version read would. */
  lemma StatusDecidesVersion(h: seq<Commit>, row: Row, clock: Time, from: Status, version: nat)
    requires Explains(h, row, clock) && 1 <= version <= |h| && h[version - 1].status == from
    ensures row.status == from <==> version == |h|
  {
    ExplainedIsLife(h, row, clock);
    if version < |h| {
      LifeDescends(Statuses(h), version - 1, |h| - 1);
    }
  }

  lemma {:induction false} StampsAscend(h: seq<Commit>, row: Row, clock: Time, i: nat, j: nat)
    requires Explains(h, row, clock) && i <= j < |h|
    ensures h[i].stamp <= h[j].stamp
    decreases j
  {
    if i < j {
      StampsAscend(h, row, clock, i, j - 1);
    }
  }

  /** History only grows, and what it grew by is one client's doing. */
  ghost predicate GrewBy(h: map<Uuid, seq<Commit>>, h': map<Uuid, seq<Commit>>, c: ClientId) {
    forall id :: id in h ==>
      && id in h' && h[id] <= h'[id]
      && forall i :: |h[id]| <= i < |h'[id]| ==> h'[id][i].author == c
  }

  /** A step of client c leaves every other client knowing what it knew. */
  lemma OthersUnaffected(h: map<Uuid, seq<Commit>>, h': map<Uuid, seq<Commit>>, clock: Time,
                         clients: map<ClientId, Phase>, c: ClientId, p: Phase)
    requires ClientsOk(h, clock, clients) && GrewBy(h, h', c)
    requires ClientOk(h', clock, c, p)
    ensures ClientsOk(h', clock, clients[c := p])
  {
    forall d | d in clients && d != c ensures ClientOk(h', clock, d, clients[d]) {
      assert ClientOk(h, clock, d, clients[d]);
    }
  }

  lemma PhaseChangeKeepsInv(s: State, c: ClientId, p: Phase)
    requires Inv(s) && ClientOk(s.history, s.clock, c, p)
    ensures Inv(InPhase(s, c, p))
  {
    OthersUnaffected(s.history, s.history, s.clock, s.clients, c, p);
  }

  lemma InsertKeepsRowsOk(s: State, c: ClientId, id: Uuid, p: Phase)
    requires Inv(s) && p.Inserting? && ClientOk(s.history, s.clock, c, p)
    requires InsertOrder(s.table, id, p.stamp, p.arg).Ok?
    ensures id !in s.history
    ensures RowsOk(InsertOrder(s.table, id, p.stamp, p.arg).value,
                   s.history[id := [Commit(p.arg.status, p.stamp, c, 0)]], s.clock)
  {
  }

  lemma CommitInsertKeepsInv(s: State, c: ClientId, id: Uuid)
    requires Inv(s) && PhaseOf(s, c).Inserting?
    ensures Inv(AfterCommitInsert(s, c, id, PhaseOf(s, c)))
  {
    var p := PhaseOf(s, c);
    assert ClientOk(s.history, s.clock, c, p);
    match InsertOrder(s.table, id, p.stamp, p.arg)
    case Err(_) => PhaseChangeKeepsInv(s, c, Done(Failed));
    case Ok(t) =>
      var h' := s.history[id := [Commit(p.arg.status, p.stamp, c, 0)]];
      InsertKeepsRowsOk(s, c, id, p);
      assert GrewBy(s.history, h', c);
      OthersUnaffected(s.history, h', s.clock, s.clients, c, Done(Created(t[id])));
  }

  lemma AppendExplains(h: seq<Commit>, row: Row, clock: Time, e: Commit)
    requires Explains(h, row, clock)
    requires CanTransition(row.status, e.status) && row.updatedAt <= e.stamp <= clock && e.readVersion == |h|
    ensures Explains(h + [e], row.(status := e.status, updatedAt := e.stamp), clock)
  {
    var g := h + [e];
    forall i | 0 < i < |g|
      ensures CanTransition(g[i - 1].status, g[i].status) && g[i - 1].stamp <= g[i].stamp && g[i].readVersion == i
    {
      if i == |h| {
        assert g[i] == e && g[i - 1] == h[i - 1];
      } else {
        assert g[i] == h[i] && g[i - 1] == h[i - 1];
      }
    }
  }

  lemma AppendGrows(history: map<Uuid, seq<Commit>>, id: Uuid, e: Commit)
    requires id in history
    ensures GrewBy(history, history[id := history[id] + [e]], e.author)
  {
  }

  /** A successful compare-and-set, seen as a write at the current version. */
  lemma CommitKeepsRowsOk(s: State, c: ClientId, p: Phase)
    requires Inv(s) && p.Updating? && ClientOk(s.history, s.clock, c, p)
    requires p.id in s.table && s.table[p.id].status == p.from
    ensures var e := Commit(p.to, p.stamp, c, p.version);
            && p.version == |s.history[p.id]|
            && IsKnown(p.to)
            && RowsOk(s.table[p.id := s.table[p.id].(status := p.to, updatedAt := p.stamp)],
                      s.history[p.id := s.history[p.id] + [e]], s.clock)
  {
    var h, row := s.history[p.id], s.table[p.id];
    StatusDecidesVersion(h, row, s.clock, p.from, p.version);
    AppendExplains(h, row, s.clock, Commit(p.to, p.stamp, c, p.version));
  }

  lemma CommitUpdateKeepsInv(s: State, c: ClientId)
    requires Inv(s) && PhaseOf(s, c).Updating?
    ensures Inv(AfterCommitUpdate(s, c, PhaseOf(s, c)))
  {
    var p := PhaseOf(s, c);
    assert ClientOk(s.history, s.clock, c, p);
    match CompareAndSet(s.table, p.id, p.from, p.to, p.stamp)
    case Err(NoRows) => PhaseChangeKeepsInv(s, c, Done(Conflict));
    case Err(_) => PhaseChangeKeepsInv(s, c, Done(Failed));
    case Ok(t) =>
      var e := Commit(p.to, p.stamp, c, p.version);
      CommitKeepsRowsOk(s, c, p);
      AppendGrows(s.history, p.id, e);
      OthersUnaffected(s.history, s.history[p.id := s.history[p.id] + [e]], s.clock, s.clients,
                       c, Done(Updated(t[p.id])));
  }

  lemma ReadKeepsInv(s: State, c: ClientId, id: Uuid, to: Status)
    requires Inv(s)
    ensures Inv(InPhase(s, c, AfterRead(s, id, to)))
  {
    var p := AfterRead(s, id, to);
    if p.HasRead? {
      assert Explains(s.history[id], s.table[id], s.clock);
      assert StillKnows(s.history[id], c, p.from, p.to, p.version);
    }
    PhaseChangeKeepsInv(s, c, p);
  }

  lemma TickKeepsInv(s: State, elapsed: nat)
    requires Inv(s)
    ensures Inv(s.(clock := s.clock + elapsed))
  {
    forall c | c in s.clients ensures ClientOk(s.history, s.clock + elapsed, c, s.clients[c]) {
      assert ClientOk(s.history, s.clock, c, s.clients[c]);
    }
  }

  lemma BeginUpdateKeepsInv(s: State, c: ClientId)
    requires Inv(s)
    ensures Inv(Next(s, BeginUpdate(c)))
  {
    var p := PhaseOf(s, c);
    if p.HasRead? {
      assert ClientOk(s.history, s.clock, c, p);
      assert Explains(s.history[p.id], s.table[p.id], s.clock);
      PhaseChangeKeepsInv(s, c, Updating(p.id, p.from, p.to, p.version, s.clock));
    }
  }

  lemma StepKeepsInv(s: State, e: Step)
    requires Inv(s)
    ensures Inv(Next(s, e))
  {
    match e
    case Tick(d) => TickKeepsInv(s, d);
    case BeginInsert(c, customerName, notes, amount) =>
      PhaseChangeKeepsInv(s, c, Inserting(CreateOrderParams(PENDING, customerName, notes, amount), s.clock));
    case CommitInsert(c, id) =>
      if PhaseOf(s, c).Inserting? {
        CommitInsertKeepsInv(s, c, id);
      }
    case Read(c, id, to) => ReadKeepsInv(s, c, id, to);
    case BeginUpdate(c) => BeginUpdateKeepsInv(s, c);
    case CommitUpdate(c) =>
      if PhaseOf(s, c).Updating? {
        CommitUpdateKeepsInv(s, c);
      }
    case Leave(c) => PhaseChangeKeepsInv(s, c, Idle);
  }

  lemma {:induction false} RunKeepsInv(s: State, steps: seq<Step>)
    requires Inv(s)
    ensures Inv(Run(s, steps))
    decreases |steps|
  {
    if steps == [] {
    } else {
      StepKeepsInv(s, steps[0]);
      RunKeepsInv(Next(s, steps[0]), steps[1..]);
    }
  }

  lemma ReachableInv(s: State)
    requires Reachable(s)
    ensures Inv(s)
  {
    var clock: Time, steps: seq<Step> :| s == Run(Init(clock), steps);
    RunKeepsInv(Init(clock), steps);
  }
}
