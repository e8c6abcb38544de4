/**
 Every concurrent run of the order API is a sequential run of atomic calls. An atomic update reads, validates and
 writes in one step; it takes effect where the concurrent call's statement committed, or where it read the order
 if it was answered there. A call that ends in a conflict or a failure has no effect and no atomic counterpart.
 */
module Linearization {
  import opened Wrappers
  import opened Uuids
  import opened Amounts
  import opened OrderStatus
  import opened OrderStore
  import opened StatusProtocol
  import opened StatusTheorems

  datatype Call =
    | CreateCall(id: Uuid, arg: CreateOrderParams, stamp: Time)
    | UpdateCall(id: Uuid, to: Status, stamp: Time)

  /** UpdateOrderStatus as if nothing ran beside it. */
  function AtomicUpdate(t: Table, id: Uuid, to: Status, stamp: Time): (Table, Outcome) {
    if id !in t then (t, Outcome.NotFound)
    else match ParseStatus(t[id].status)
      case Err(e) => (t, Rejected(e))
      case Ok(from) =>
        match ValidateTransition(from, to)
        case Some(e) => (t, Rejected(e))
        case None =>
          var row := t[id].(status := to, updatedAt := stamp);
          (t[id := row], Updated(row))
  }

  function Atomic(t: Table, call: Call): (Table, Outcome) {
    match call
    case UpdateCall(id, to, stamp) => AtomicUpdate(t, id, to, stamp)
    case CreateCall(id, arg, stamp) =>
      match InsertOrder(t, id, stamp, arg)
      case Err(_) => (t, Failed)
      case Ok(t') => (t', Created(t'[id]))
  }

  /** Atomic calls one after the other: the table they leave and what each answers. */
  function Sequential(t: Table, calls: seq<Call>): (Table, seq<Outcome>)
    decreases |calls|
  {
    if calls == [] then (t, [])
    else
      var first := Atomic(t, calls[0]);
      var rest := Sequential(first.0, calls[1..]);
      (rest.0, [first.1] + rest.1)
  }

  /** The call, if any, that takes effect in a step: the one whose client the step answers without a conflict. */
  function Effect(s: State, e: Step): Option<Call> {
    match e
    case CommitInsert(c, id) =>
      var p := PhaseOf(s, c);
      if p.Inserting? && PhaseOf(Next(s, e), c) != Done(Failed) then Some(CreateCall(id, p.arg, p.stamp)) else None
    case Read(c, id, to) =>
      if PhaseOf(s, c).Idle? && PhaseOf(Next(s, e), c).Done? then Some(UpdateCall(id, to, s.clock)) else None
    case CommitUpdate(c) =>
      var p := PhaseOf(s, c);
      if p.Updating? && PhaseOf(Next(s, e), c) != Done(Conflict) then Some(UpdateCall(p.id, p.to, p.stamp)) else None
    case _ => None
  }

  function CallsOf(s: State, e: Step): seq<Call> {
    match Effect(s, e)
    case Some(call) => [call]
    case None => []
  }

  /** What the concurrent step answers to the client of its effect. */
  function AnswersOf(s: State, e: Step): seq<Outcome> {
    if Effect(s, e).None? then []
    else match PhaseOf(Next(s, e), e.client)
      case Done(outcome) => [outcome]
      case _ => []
  }

  function Calls(s: State, steps: seq<Step>): seq<Call>
    decreases |steps|
  {
    if steps == [] then [] else CallsOf(s, steps[0]) + Calls(Next(s, steps[0]), steps[1..])
  }

  function Answers(s: State, steps: seq<Step>): seq<Outcome>
    decreases |steps|
  {
    if steps == [] then [] else AnswersOf(s, steps[0]) + Answers(Next(s, steps[0]), steps[1..])
  }

  lemma StepWithoutEffect(s: State, e: Step)
    requires Inv(s) && Effect(s, e).None?
    ensures Next(s, e).table == s.table
  {
    if e.CommitUpdate? && PhaseOf(s, e.client).Updating? {
      CommitDecides(s, e.client);
    }
  }

  lemma UpdateTakesEffectAtomically(s: State, c: ClientId)
    requires Inv(s) && PhaseOf(s, c).Updating? && PhaseOf(Next(s, CommitUpdate(c)), c) != Done(Conflict)
    ensures var p := PhaseOf(s, c); var t := Next(s, CommitUpdate(c));
            && PhaseOf(t, c).Done?
            && AtomicUpdate(s.table, p.id, p.to, p.stamp) == (t.table, PhaseOf(t, c).outcome)
  {
    var p := PhaseOf(s, c);
    CommitDecides(s, c);
    assert ClientOk(s.history, s.clock, c, p);
    StatusDecidesVersion(s.history[p.id], s.table[p.id], s.clock, p.from, p.version);
    assert ParseStatus(p.from) == Ok(p.from) && ValidateTransition(p.from, p.to).None?;
  }

  lemma StepWithEffect(s: State, e: Step)
    requires Inv(s) && Effect(s, e).Some?
    ensures (e.CommitInsert? || e.Read? || e.CommitUpdate?) && PhaseOf(Next(s, e), e.client).Done?
    ensures Atomic(s.table, Effect(s, e).value) == (Next(s, e).table, PhaseOf(Next(s, e), e.client).outcome)
  {
    if e.CommitUpdate? {
      UpdateTakesEffectAtomically(s, e.client);
    }
  }

  /** The step in which a call takes effect does to the table, and answers, what the atomic call would. */
  lemma StepLinearizes(s: State, e: Step)
    requires Inv(s)
    ensures Sequential(s.table, CallsOf(s, e)) == (Next(s, e).table, AnswersOf(s, e))
  {
    if Effect(s, e).None? {
      StepWithoutEffect(s, e);
    } else {
      StepWithEffect(s, e);
      var call := Effect(s, e).value;
      var (t, answer) := Atomic(s.table, call);
      assert [call][1..] == [] && [answer] + Sequential(t, []).1 == [answer];
    }
  }

  /** Nothing is left out: an answer other than a conflict or a failure is given by the effect of its call. */
  lemma EveryAnswerIsAnEffect(s: State, e: Step, c: ClientId)
    requires Inv(s) && !PhaseOf(s, c).Done? && PhaseOf(Next(s, e), c).Done?
    requires PhaseOf(Next(s, e), c).outcome !in {Conflict, Failed}
    ensures Effect(s, e).Some? && (e.CommitInsert? || e.Read? || e.CommitUpdate?) && e.client == c
  {
  }

  lemma {:induction false} SequentialConcat(t: Table, first: seq<Call>, second: seq<Call>)
    ensures var a := Sequential(t, first); var b := Sequential(a.0, second);
            Sequential(t, first + second) == (b.0, a.1 + b.1)
    decreases |first|
  {
    if first == [] {
      assert first + second == second;
      assert [] + Sequential(t, second).1 == Sequential(t, second).1;
    } else {
      var step := Atomic(t, first[0]);
      var a := Sequential(step.0, first[1..]);
      var b := Sequential(a.0, second);
      assert (first + second)[1..] == first[1..] + second;
      SequentialConcat(step.0, first[1..], second);
      assert [step.1] + (a.1 + b.1) == ([step.1] + a.1) + b.1;
    }
  }

  lemma {:induction false} RunLinearizes(s: State, steps: seq<Step>)
    requires Inv(s)
    ensures Sequential(s.table, Calls(s, steps)) == (Run(s, steps).table, Answers(s, steps))
    decreases |steps|
  {
    if steps == [] {
    } else {
      var e := steps[0];
      StepKeepsInv(s, e);
      StepLinearizes(s, e);
      RunLinearizes(Next(s, e), steps[1..]);
      SequentialConcat(s.table, CallsOf(s, e), Calls(Next(s, e), steps[1..]));
    }
  }

  /** From the empty table, any interleaving leaves the table and gives the answers of the atomic calls in order. */
  lemma ConcurrentRunsAreSequential(clock: Time, steps: seq<Step>)
    ensures Sequential(map[], Calls(Init(clock), steps))
         == (Run(Init(clock), steps).table, Answers(Init(clock), steps))
  {
    RunLinearizes(Init(clock), steps);
  }

  // ---------------------------------------------------------------- and back

  /** What a client's call consists of when nothing comes between. */
  function UpdateSteps(c: ClientId, id: Uuid, to: Status): seq<Step> {
    [Read(c, id, to), BeginUpdate(c), CommitUpdate(c)]
  }

  function CreateSteps(c: ClientId, id: Uuid, customerName: Option<string>, notes: Option<string>,
                       amount: Option<Decimal>): seq<Step> {
    [BeginInsert(c, customerName, notes, amount), CommitInsert(c, id)]
  }

  lemma {:induction false} RunAppends(s: State, steps: seq<Step>, e: Step)
    ensures Run(s, steps + [e]) == Next(Run(s, steps), e)
    decreases |steps|
  {
    if steps == [] {
      assert Run(Next(s, e), []) == Next(s, e);
    } else {
      assert (steps + [e])[1..] == steps[1..] + [e];
      RunAppends(Next(s, steps[0]), steps[1..], e);
    }
  }

  lemma TwoSteps(s: State, first: Step, second: Step)
    ensures Run(s, [first, second]) == Next(Next(s, first), second)
  {
    RunAppends(s, [], first);
    RunAppends(s, [first], second);
    assert [] + [first] == [first] && [first] + [second] == [first, second];
  }

  lemma ThreeSteps(s: State, first: Step, second: Step, third: Step)
    ensures Run(s, [first, second, third]) == Next(Next(Next(s, first), second), third)
  {
    TwoSteps(s, first, second);
    RunAppends(s, [first, second], third);
    assert [first, second] + [third] == [first, second, third];
  }

  /** The read of an undisturbed update either answers, or leaves the client knowing the row as it is. */
  lemma ReadKnowsRow(s: State, c: ClientId, id: Uuid, to: Status)
    requires Inv(s) && PhaseOf(s, c) == Idle
    ensures var t := Next(s, Read(c, id, to)); var p := PhaseOf(t, c);
            && Inv(t) && t.table == s.table && t.history == s.history && t.clock == s.clock
            && (p.Done? ==> AtomicUpdate(s.table, id, to, s.clock) == (s.table, p.outcome))
            && (p.Done? || (id in t.history && p == HasRead(id, p.from, to, |t.history[id]|)))
  {
    StepKeepsInv(s, Read(c, id, to));
  }

  /** With nothing committed since the read, the write is that of the atomic update. */
  lemma WriteFollowsRead(s: State, c: ClientId)
    requires Inv(s) && PhaseOf(s, c).HasRead?
    requires PhaseOf(s, c).id in s.history && PhaseOf(s, c).version == |s.history[PhaseOf(s, c).id]|
    ensures var p := PhaseOf(s, c); var t := Next(Next(s, BeginUpdate(c)), CommitUpdate(c));
            && PhaseOf(t, c).Done?
            && AtomicUpdate(s.table, p.id, p.to, s.clock) == (t.table, PhaseOf(t, c).outcome)
  {
    StepKeepsInv(s, BeginUpdate(c));
    var b := Next(s, BeginUpdate(c));
    CommitDecides(b, c);
    UpdateTakesEffectAtomically(b, c);
  }

  lemma DoneStays(s: State, c: ClientId)
    requires PhaseOf(s, c).Done?
    ensures Next(Next(s, BeginUpdate(c)), CommitUpdate(c)) == s
  {
  }

  lemma LeavingFrees(s: State, c: ClientId)
    ensures PhaseOf(Next(s, Leave(c)), c) == Idle && Next(s, Leave(c)).table == s.table
  {
  }

  /** The three steps of an undisturbed update. */
  lemma UndisturbedUpdate(s: State, c: ClientId, id: Uuid, to: Status)
    requires Inv(s) && PhaseOf(s, c) == Idle
    ensures var t := Next(Next(Next(s, Read(c, id, to)), BeginUpdate(c)), CommitUpdate(c));
            && PhaseOf(t, c).Done?
            && AtomicUpdate(s.table, id, to, s.clock) == (t.table, PhaseOf(t, c).outcome)
  {
    ReadKnowsRow(s, c, id, to);
    var a := Next(s, Read(c, id, to));
    if PhaseOf(a, c).Done? {
      DoneStays(a, c);
    } else {
      WriteFollowsRead(a, c);
    }
  }

  /** The concurrent protocol can do whatever an atomic update can: an undisturbed call is one. */
  lemma AtomicUpdateIsARun(s: State, c: ClientId, id: Uuid, to: Status)
    requires Inv(s) && PhaseOf(s, c) == Idle
    ensures var t := Run(s, UpdateSteps(c, id, to));
            && PhaseOf(t, c).Done?
            && Atomic(s.table, UpdateCall(id, to, s.clock)) == (t.table, PhaseOf(t, c).outcome)
            && PhaseOf(Next(t, Leave(c)), c) == Idle && Next(t, Leave(c)).table == t.table
  {
    ThreeSteps(s, Read(c, id, to), BeginUpdate(c), CommitUpdate(c));
    UndisturbedUpdate(s, c, id, to);
    LeavingFrees(Run(s, UpdateSteps(c, id, to)), c);
  }

  /** And whatever an atomic create can. */
  lemma AtomicCreateIsARun(s: State, c: ClientId, id: Uuid, customerName: Option<string>, notes: Option<string>,
                           amount: Option<Decimal>)
    requires PhaseOf(s, c) == Idle
    ensures var t := Run(s, CreateSteps(c, id, customerName, notes, amount));
            && PhaseOf(t, c).Done?
            && Atomic(s.table, CreateCall(id, CreateOrderParams(PENDING, customerName, notes, amount), s.clock))
               == (t.table, PhaseOf(t, c).outcome)
            && PhaseOf(Next(t, Leave(c)), c) == Idle && Next(t, Leave(c)).table == t.table
  {
    TwoSteps(s, BeginInsert(c, customerName, notes, amount), CommitInsert(c, id));
  }

  // ---------------------------------------------------------------- the budget of updates

  /** The moves all orders of a table still have before them. */
  ghost function TotalPotential(t: Table): nat {
    if t == map[] then 0
    else
      var id :| id in t;
      Potential(t[id].status) + TotalPotential(t - {id})
  }

  lemma {:induction false} TotalSplitsAt(t: Table, id: Uuid)
    requires id in t
    ensures TotalPotential(t) == Potential(t[id].status) + TotalPotential(t - {id})
    decreases |t|
  {
    var first :| first in t && TotalPotential(t) == Potential(t[first].status) + TotalPotential(t - {first});
    if first != id {
      TotalSplitsAt(t - {first}, id);
      TotalSplitsAt(t - {id}, first);
      assert t - {first} - {id} == t - {id} - {first};
    }
  }

  lemma TotalAfterWrite(t: Table, id: Uuid, row: Row)
    ensures TotalPotential(t[id := row])
         == TotalPotential(t) - (if id in t then Potential(t[id].status) else 0) + Potential(row.status)
  {
    var t' := t[id := row];
    TotalSplitsAt(t', id);
    assert t' - {id} == t - {id};
    if id in t {
      TotalSplitsAt(t, id);
    } else {
      assert t - {id} == t;
    }
  }

  function CountCreated(answers: seq<Outcome>): nat {
    if answers == [] then 0 else (if answers[0].Created? then 1 else 0) + CountCreated(answers[1..])
  }

  function CountUpdated(answers: seq<Outcome>): nat {
    if answers == [] then 0 else (if answers[0].Updated? then 1 else 0) + CountUpdated(answers[1..])
  }

  /** A successful update spends potential, a create adds four if it starts at pending, nothing else moves it. */
  lemma CallMovesPotential(t: Table, call: Call)
    ensures var (t', outcome) := Atomic(t, call);
            && (outcome.Updated? ==> TotalPotential(t') < TotalPotential(t))
            && (outcome.Created? ==> TotalPotential(t') <= TotalPotential(t) + 4)
            && (outcome.Created? && outcome.row.status == PENDING ==> TotalPotential(t') == TotalPotential(t) + 4)
            && (!outcome.Updated? && !outcome.Created? ==> t' == t)
  {
    var (t', outcome) := Atomic(t, call);
    if outcome.Updated? {
      TransitionLowersPotential(t[call.id].status, call.to);
      TotalAfterWrite(t, call.id, outcome.row);
    } else if outcome.Created? {
      TotalAfterWrite(t, call.id, outcome.row);
    }
  }

  lemma {:induction false} SequentialBudget(t: Table, calls: seq<Call>)
    ensures var (t', answers) := Sequential(t, calls);
            CountUpdated(answers) + TotalPotential(t') <= TotalPotential(t) + 4 * CountCreated(answers)
    decreases |calls|
  {
    if calls == [] {
    } else {
      var first := Atomic(t, calls[0]);
      var rest := Sequential(first.0, calls[1..]);
      CallMovesPotential(t, calls[0]);
      SequentialBudget(first.0, calls[1..]);
      assert ([first.1] + rest.1)[1..] == rest.1;
    }
  }

  /** However calls interleave, at most four updates succeed for every order created. */
  lemma UpdatesAreBudgeted(clock: Time, steps: seq<Step>)
    ensures var answers := Answers(Init(clock), steps);
            CountUpdated(answers) + TotalPotential(Run(Init(clock), steps).table) <= 4 * CountCreated(answers)
  {
    ConcurrentRunsAreSequential(clock, steps);
    SequentialBudget(map[], Calls(Init(clock), steps));
  }
}
