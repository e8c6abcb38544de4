/** What every interleaving of createOrder and updateOrderStatus calls guarantees. */
module StatusTheorems {
  import opened Wrappers
  import opened Uuids
  import opened OrderStatus
  import opened OrderStore
  import opened StatusProtocol

  // ---------------------------------------------------------------- rows over time

  /** An order earlier and later in a run: it stays, its history is extended, only status and updated_at move. */
  ghost predicate Evolves(s: State, t: State, id: Uuid) {
    && id in s.table && id in s.history
    && id in t.table && id in t.history
    && s.history[id] <= t.history[id]
    && t.table[id] == s.table[id].(status := t.table[id].status, updatedAt := t.table[id].updatedAt)
  }

  lemma UpdateEvolves(s: State, c: ClientId, id: Uuid)
    requires Inv(s) && id in s.table && PhaseOf(s, c).Updating?
    ensures Evolves(s, AfterCommitUpdate(s, c, PhaseOf(s, c)), id)
  {
  }

  lemma StepEvolves(s: State, e: Step, id: Uuid)
    requires Inv(s) && id in s.table
    ensures Evolves(s, Next(s, e), id)
  {
    if e.CommitUpdate? && PhaseOf(s, e.client).Updating? {
      UpdateEvolves(s, e.client, id);
    }
  }

  lemma {:induction false} RunEvolves(s: State, steps: seq<Step>, id: Uuid)
    requires Inv(s) && id in s.table
    ensures Evolves(s, Run(s, steps), id) && Inv(Run(s, steps))
    decreases |steps|
  {
    if steps == [] {
    } else {
      var t := Next(s, steps[0]);
      StepKeepsInv(s, steps[0]);
      StepEvolves(s, steps[0], id);
      RunEvolves(t, steps[1..], id);
    }
  }

  lemma LaterHistoryLaterStamp(h: seq<Commit>, row: Row, clock: Time, h': seq<Commit>, row': Row, clock': Time)
    requires Explains(h, row, clock) && Explains(h', row', clock') && h <= h'
    ensures row.createdAt <= row.updatedAt <= row'.updatedAt <= clock' && row'.createdAt == row.createdAt
  {
    StampsAscend(h, row, clock, 0, |h| - 1);
    StampsAscend(h', row', clock', |h| - 1, |h'| - 1);
  }

  /** updated_at never runs backwards, although every statement's now() is fixed before it commits. */
  lemma UpdatedAtNeverDecreases(s: State, steps: seq<Step>, id: Uuid)
    requires Reachable(s) && id in s.table
    ensures var t := Run(s, steps);
            && id in t.table
            && t.table[id].createdAt == s.table[id].createdAt
            && s.table[id].createdAt <= s.table[id].updatedAt <= t.table[id].updatedAt <= t.clock
  {
    ReachableInv(s);
    RunEvolves(s, steps, id);
    var t := Run(s, steps);
    assert Explains(s.history[id], s.table[id], s.clock) && Explains(t.history[id], t.table[id], t.clock);
    LaterHistoryLaterStamp(s.history[id], s.table[id], s.clock, t.history[id], t.table[id], t.clock);
  }

  /** The protocol with one more step: an UPDATE begun on a guess, without reading the order first. */
  datatype BlindStep =
    | Protocol(step: Step)
    | BeginBlind(client: ClientId, id: Uuid, from: Status, to: Status)

  function NextBlind(s: State, e: BlindStep): State {
    match e
    case Protocol(step) => Next(s, step)
    case BeginBlind(c, id, from, to) =>
      if PhaseOf(s, c) != Idle then s else InPhase(s, c, Updating(id, from, to, 0, s.clock))
  }

  function RunBlind(s: State, steps: seq<BlindStep>): State
    decreases |steps|
  {
    if steps == [] then s else RunBlind(NextBlind(s, steps[0]), steps[1..])
  }

  lemma {:induction false} RunBlindAppends(s: State, steps: seq<BlindStep>, e: BlindStep)
    ensures RunBlind(s, steps + [e]) == NextBlind(RunBlind(s, steps), e)
    decreases |steps|
  {
    if steps == [] {
      assert RunBlind(NextBlind(s, e), []) == NextBlind(s, e);
    } else {
      assert (steps + [e])[1..] == steps[1..] + [e];
      RunBlindAppends(NextBlind(s, steps[0]), steps[1..], e);
    }
  }

  /** An update begun before the order exists and committed after it: five steps from the empty table. */
  function BlindUpdate(id: Uuid, elapsed: nat): seq<BlindStep> {
    [BeginBlind(0, id, PENDING, CONFIRMED)] + [Protocol(Tick(elapsed))] + [Protocol(BeginInsert(1, None, None, None))]
    + [Protocol(CommitInsert(1, id))] + [Protocol(CommitUpdate(0))]
  }

  /** The read is needed: were an update allowed to begin without it, updated_at could fall below created_at. */
  lemma BlindUpdateRunsBackwards(clock: Time, id: Uuid, elapsed: nat)
    requires elapsed > 0
    ensures var t := RunBlind(Init(clock), BlindUpdate(id, elapsed));
            && id in t.table
            && t.table[id].status == CONFIRMED
            && t.table[id].createdAt == clock + elapsed
            && t.table[id].updatedAt == clock
  {
    var a := [BeginBlind(0, id, PENDING, CONFIRMED)];
    var b := a + [Protocol(Tick(elapsed))];
    var c := b + [Protocol(BeginInsert(1, None, None, None))];
    var d := c + [Protocol(CommitInsert(1, id))];
    RunBlindAppends(Init(clock), [], a[0]);
    RunBlindAppends(Init(clock), a, Protocol(Tick(elapsed)));
    RunBlindAppends(Init(clock), b, Protocol(BeginInsert(1, None, None, None)));
    RunBlindAppends(Init(clock), c, Protocol(CommitInsert(1, id)));
    RunBlindAppends(Init(clock), d, Protocol(CommitUpdate(0)));
  }

  lemma TerminalHistoryEnds(h: seq<Commit>, row: Row, clock: Time, h': seq<Commit>, row': Row, clock': Time)
    requires Explains(h, row, clock) && Explains(h', row', clock') && h <= h' && IsTerminal(row.status)
    ensures row'.status == row.status && row'.updatedAt == row.updatedAt
  {
    ExplainedIsLife(h', row', clock');
    LifeVisitsOnce(Statuses(h'));
    assert Statuses(h')[|h| - 1] == h[|h| - 1].status;
  }

  /** Once delivered or cancelled, a row never changes again in any column. */
  lemma TerminalIsFinal(s: State, steps: seq<Step>, id: Uuid)
    requires Reachable(s) && id in s.table && IsTerminal(s.table[id].status)
    ensures id in Run(s, steps).table && Run(s, steps).table[id] == s.table[id]
  {
    ReachableInv(s);
    RunEvolves(s, steps, id);
    var t := Run(s, steps);
    TerminalHistoryEnds(s.history[id], s.table[id], s.clock, t.history[id], t.table[id], t.clock);
  }

  /** Every order lives a path of the transition table from pending, and leaves no status twice. */
  lemma StatusesFollowTheTable(s: State, id: Uuid)
    requires Reachable(s) && id in s.table
    ensures id in s.history
    ensures var life := Statuses(s.history[id]);
            && IsLife(life)
            && life[|life| - 1] == s.table[id].status
            && IsKnown(s.table[id].status)
            && |life| + Potential(s.table[id].status) <= 5
            && forall i, j :: 0 <= i < j < |life| ==> life[i] != life[j]
  {
    ReachableInv(s);
    ExplainedIsLife(s.history[id], s.table[id], s.clock);
    LifeVisitsOnce(Statuses(s.history[id]));
  }

  // ---------------------------------------------------------------- status versus version

  /** The same protocol with an UPDATE that compares a version number instead of the status. */
  function NextVersioned(s: State, e: Step): State {
    if e.CommitUpdate? && PhaseOf(s, e.client).Updating? then
      var p := PhaseOf(s, e.client);
      if p.id !in s.table || p.id !in s.history || |s.history[p.id]| != p.version then
        InPhase(s, e.client, Done(Conflict))
      else
        var row := s.table[p.id].(status := p.to, updatedAt := p.stamp);
        var h := s.history[p.id] + [Commit(p.to, p.stamp, e.client, p.version)];
        State(s.clock, s.table[p.id := row], s.history[p.id := h], s.clients[e.client := Done(Updated(row))])
    else Next(s, e)
  }

  function RunVersioned(s: State, steps: seq<Step>): State
    decreases |steps|
  {
    if steps == [] then s else RunVersioned(NextVersioned(s, steps[0]), steps[1..])
  }

  /** A compare-and-set finds its row exactly when nothing was written since the client's read. */
  lemma CompareAndSetDecides(s: State, c: ClientId, p: Phase)
    requires Inv(s) && p.Updating? && ClientOk(s.history, s.clock, c, p)
    ensures p.id in s.table && p.id in s.history
    ensures CompareAndSet(s.table, p.id, p.from, p.to, p.stamp) ==
      if |s.history[p.id]| != p.version then Err(NoRows)
      else Ok(s.table[p.id := s.table[p.id].(status := p.to, updatedAt := p.stamp)])
  {
    assert Explains(s.history[p.id], s.table[p.id], s.clock);
    StatusDecidesVersion(s.history[p.id], s.table[p.id], s.clock, p.from, p.version);
    if s.table[p.id].status == p.from {
      CommitKeepsRowsOk(s, c, p);
    }
  }

  /** An update succeeds exactly when nothing was written since the client's read; otherwise it is a conflict. */
  lemma CommitDecides(s: State, c: ClientId)
    requires Inv(s) && PhaseOf(s, c).Updating?
    ensures var p := PhaseOf(s, c);
            && p.id in s.table && p.id in s.history
            && Next(s, CommitUpdate(c)) ==
               if |s.history[p.id]| != p.version then InPhase(s, c, Done(Conflict))
               else
                 var row := s.table[p.id].(status := p.to, updatedAt := p.stamp);
                 var h := s.history[p.id] + [Commit(p.to, p.stamp, c, p.version)];
                 State(s.clock, s.table[p.id := row], s.history[p.id := h], s.clients[c := Done(Updated(row))])
  {
    var p := PhaseOf(s, c);
    assert ClientOk(s.history, s.clock, c, p);
    CompareAndSetDecides(s, c, p);
  }

  lemma StepIsVersioned(s: State, e: Step)
    requires Inv(s)
    ensures NextVersioned(s, e) == Next(s, e)
  {
    if e.CommitUpdate? && PhaseOf(s, e.client).Updating? {
      CommitDecides(s, e.client);
    }
  }

  lemma {:induction false} RunIsVersioned(s: State, steps: seq<Step>)
    requires Inv(s)
    ensures RunVersioned(s, steps) == Run(s, steps)
    decreases |steps|
  {
    if steps == [] {
    } else {
      StepIsVersioned(s, steps[0]);
      StepKeepsInv(s, steps[0]);
      RunIsVersioned(Next(s, steps[0]), steps[1..]);
    }
  }

  /** Comparing the status alone is as good as comparing a version: every run is the same, step for step. */
  lemma StatusCompareIsVersionCompare(clock: Time, steps: seq<Step>)
    ensures RunVersioned(Init(clock), steps) == Run(Init(clock), steps)
  {
    RunIsVersioned(Init(clock), steps);
  }

  /** Some other client's write of this order committed after the read of version `version`. */
  ghost predicate Overtaken(s: State, c: ClientId, id: Uuid, version: nat) {
    id in s.history && exists i :: version <= i < |s.history[id]| && s.history[id][i].author != c
  }

  /** A conflict is answered exactly to a client that another client overtook; every other update succeeds. */
  lemma ConflictsAreReal(s: State, c: ClientId)
    requires Reachable(s) && PhaseOf(s, c).Updating?
    ensures var p := PhaseOf(s, c); var q := PhaseOf(Next(s, CommitUpdate(c)), c);
            && q.Done?
            && (q.outcome == Conflict <==> Overtaken(s, c, p.id, p.version))
            && (q.outcome.Updated? <==> !Overtaken(s, c, p.id, p.version))
  {
    ReachableInv(s);
    CommitDecides(s, c);
    var p := PhaseOf(s, c);
    assert ClientOk(s.history, s.clock, c, p);
    if |s.history[p.id]| > p.version {
      assert s.history[p.id][p.version].author != c;
    }
  }

  /** Of two clients that read the same order at the same version, the one that commits second gets a conflict. */
  lemma OneWinnerPerVersion(s: State, winner: ClientId, steps: seq<Step>, loser: ClientId)
    requires Reachable(s) && PhaseOf(s, winner).Updating?
    requires PhaseOf(Next(s, CommitUpdate(winner)), winner).outcome.Updated?
    requires var t := Run(Next(s, CommitUpdate(winner)), steps);
             && PhaseOf(t, loser).Updating?
             && PhaseOf(t, loser).id == PhaseOf(s, winner).id
             && PhaseOf(t, loser).version <= PhaseOf(s, winner).version
    ensures var t := Run(Next(s, CommitUpdate(winner)), steps);
            PhaseOf(Next(t, CommitUpdate(loser)), loser) == Done(Conflict)
  {
    ReachableInv(s);
    CommitDecides(s, winner);
    StepKeepsInv(s, CommitUpdate(winner));
    var p, u := PhaseOf(s, winner), Next(s, CommitUpdate(winner));
    RunEvolves(u, steps, p.id);
    CommitDecides(Run(u, steps), loser);
  }
}
