/** The worker steps of the pipeline are the receive loop: batch by batch, and over all the rounds of a run. */
module WorkerRefinement {
  import opened Wrappers
  import opened Sequences
  import opened Events
  import opened Pipeline
  import RL = ReceiveLoop

  /** The deliveries a batch stands for: each message with its text, and what its delete will do. */
  ghost predicate Delivers(s: State, batch: seq<MessageId>, ds: seq<RL.Delivery>) {
    && |batch| == |ds|
    && forall i :: 0 <= i < |ds| ==> batch[i] in s.sent && s.sent[batch[i]] == ds[i].body && !ds[i].handlerFails
  }

  /** The steps of one worker through a batch, up to its end or its first failure. */
  function BatchSteps(w: WorkerId, ds: seq<RL.Delivery>): seq<Step> {
    if ds == [] then []
    else if ds[0].body.None? then [Process(w)] + BatchSteps(w, ds[1..])
    else if ds[0].body.value.Malformed? then [Process(w)]
    else if ds[0].deleteFails then [Process(w), Delete(w, NotDeleted)]
    else [Process(w), Delete(w, Deleted)] + BatchSteps(w, ds[1..])
  }

  function AsSet(events: seq<Event>): set<Event> {
    set e | e in events
  }

  /** The messages deleted: those with a body before the stopping index. */
  ghost function DeletedIds(batch: seq<MessageId>, ds: seq<RL.Delivery>, n: nat): set<MessageId>
    requires n <= |ds| == |batch|
  {
    set i | 0 <= i < n && ds[i].body.Some? :: batch[i]
  }

  /** The worker and the queue after a stretch of deliveries that handled `events` and deleted `gone`. */
  ghost predicate Did(s: State, t: State, w: WorkerId, events: seq<Event>, counted: nat, gone: set<MessageId>) {
    var before, after := WorkerOf(s, w), WorkerOf(t, w);
    && t.sent == s.sent
    && t.handled == s.handled + AsSet(events)
    && t.queue == s.queue - gone
    && after.processed == before.processed + RL.CountCreated(events)
    && after.acknowledged == before.acknowledged + counted
  }

  lemma DoneInTurn(s: State, t: State, u: State, w: WorkerId,
                   events: seq<Event>, counted: nat, gone: set<MessageId>,
                   events': seq<Event>, counted': nat, gone': set<MessageId>)
    requires Did(s, t, w, events, counted, gone) && Did(t, u, w, events', counted', gone')
    ensures Did(s, u, w, events + events', counted + counted', gone + gone')
  {
    RL.CountCreatedConcat(events, events');
    assert AsSet(events + events') == AsSet(events) + AsSet(events');
  }

  lemma {:induction false} SpliceSteps(s: State, a: seq<Step>, b: seq<Step>)
    requires Feasible(Sqs, s, a) && Feasible(Sqs, Run(Sqs, s, a), b)
    ensures Feasible(Sqs, s, a + b) && Run(Sqs, s, a + b) == Run(Sqs, Run(Sqs, s, a), b)
    decreases |a|
  {
    if a == [] {
      assert a + b == b;
    } else {
      assert (a + b)[1..] == a[1..] + b && (a + b)[0] == a[0];
      SpliceSteps(Next(Sqs, s, a[0]), a[1..], b);
    }
  }

  lemma {:induction false} EventsAfterFirst(ds: seq<RL.Delivery>, n: nat)
    requires ds != [] && n < |ds|
    ensures RL.EventsUpTo(ds, n + 1) == RL.EventIn(ds[0]) + RL.EventsUpTo(ds[1..], n)
    decreases n
  {
    if n == 0 {
      assert RL.EventsUpTo(ds, 0) == [] && RL.EventsUpTo(ds[1..], 0) == [];
    } else {
      EventsAfterFirst(ds, n - 1);
      ConcatAssociates(RL.EventIn(ds[0]), RL.EventsUpTo(ds[1..], n - 1), RL.EventIn(ds[n]));
    }
  }

  /** What a first delivery that passes adds in front of the rest. */
  lemma PassingFirst(ds: seq<RL.Delivery>, n: nat)
    requires ds != [] && RL.Passes(ds[0]) && RL.StopsAt(ds[1..], n)
    ensures RL.StopsAt(ds, n + 1)
    ensures RL.HandledUpTo(ds, n + 1) == RL.EventIn(ds[0]) + RL.HandledUpTo(ds[1..], n)
  {
    EventsAfterFirst(ds, n);
    ConcatAssociates(RL.EventIn(ds[0]), RL.EventsUpTo(ds[1..], n),
                     if n < |ds[1..]| && RL.OnlyHandled(ds[1..][n]) then RL.EventIn(ds[1..][n]) else []);
  }

  function PassingOne(w: WorkerId, d: RL.Delivery): seq<Step> {
    if d.body.None? then [Process(w)] else [Process(w), Delete(w, Deleted)]
  }

  /** One delivery that passes, in the steps of the machine. */
  lemma PassingSteps(s: State, w: WorkerId, batch: seq<MessageId>, d: RL.Delivery)
    requires WorkerOf(s, w).phase == Processing(batch) && batch != [] && batch[0] in s.sent
    requires s.sent[batch[0]] == d.body && !d.handlerFails && RL.Passes(d)
    ensures var steps := PassingOne(w, d);
            && Feasible(Sqs, s, steps)
            && var t := Run(Sqs, s, steps);
               && WorkerOf(t, w).phase == Processing(batch[1..])
               && Did(s, t, w, RL.EventIn(d), RL.CountCreated(RL.EventIn(d)), if d.body.None? then {} else {batch[0]})
  {
    var a := Next(Sqs, s, Process(w));
    assert [Process(w)][1..] == [] && Feasible(Sqs, a, []);
    if d.body.Some? {
      RL.CountOne(d.body.value.event);
      var b := Next(Sqs, a, Delete(w, Deleted));
      assert [Process(w), Delete(w, Deleted)][1..] == [Delete(w, Deleted)];
      assert [Delete(w, Deleted)][1..] == [] && Feasible(Sqs, b, []) && Run(Sqs, b, []) == b;
      assert Feasible(Sqs, a, [Delete(w, Deleted)]) && Run(Sqs, a, [Delete(w, Deleted)]) == b;
    } else {
      assert RL.EventIn(d) == [] && RL.CountCreated([]) == 0;
    }
  }

  /** The delivery that stops a batch, in the steps of the machine. */
  lemma FailingSteps(s: State, w: WorkerId, batch: seq<MessageId>, ds: seq<RL.Delivery>)
    requires WorkerOf(s, w).phase == Processing(batch) && Delivers(s, batch, ds)
    requires ds != [] && !RL.Passes(ds[0])
    ensures Feasible(Sqs, s, BatchSteps(w, ds))
    ensures var t := Run(Sqs, s, BatchSteps(w, ds));
            && WorkerOf(t, w).phase == Stopped
            && RL.StopsAt(ds, 0)
            && Did(s, t, w, RL.HandledUpTo(ds, 0), 0, {})
  {
    var a := Next(Sqs, s, Process(w));
    assert [Process(w)][1..] == [] && Feasible(Sqs, a, []) && Run(Sqs, a, []) == a;
    assert RL.EventsUpTo(ds, 0) == [];
    if ds[0].body.value.Json? {
      RL.CountOne(ds[0].body.value.event);
      assert RL.HandledUpTo(ds, 0) == [ds[0].body.value.event];
      var b := Next(Sqs, a, Delete(w, NotDeleted));
      assert [Process(w), Delete(w, NotDeleted)][1..] == [Delete(w, NotDeleted)];
      assert [Delete(w, NotDeleted)][1..] == [] && Feasible(Sqs, b, []) && Run(Sqs, b, []) == b;
      assert Feasible(Sqs, a, [Delete(w, NotDeleted)]) && Run(Sqs, a, [Delete(w, NotDeleted)]) == b;
    }
  }

  lemma FirstDeleted(batch: seq<MessageId>, ds: seq<RL.Delivery>, n: nat)
    requires |batch| == |ds| > n
    ensures DeletedIds(batch, ds, n + 1)
         == (if ds[0].body.None? then {} else {batch[0]}) + DeletedIds(batch[1..], ds[1..], n)
  {
    forall m | m in DeletedIds(batch[1..], ds[1..], n) ensures m in DeletedIds(batch, ds, n + 1) {
      var i :| 0 <= i < n && ds[1..][i].body.Some? && batch[1..][i] == m;
      assert batch[i + 1] == m;
    }
    var first: set<MessageId> := if ds[0].body.None? then {} else {batch[0]};
    var rest := DeletedIds(batch[1..], ds[1..], n);
    forall m | m in DeletedIds(batch, ds, n + 1) ensures m in first || m in rest {
      var i :| 0 <= i < n + 1 && ds[i].body.Some? && batch[i] == m;
      if i > 0 {
        assert batch[1..][i - 1] == m && ds[1..][i - 1] == ds[i];
      }
    }
  }

  lemma ThenTheRest(s: State, t: State, u: State, w: WorkerId, batch: seq<MessageId>, ds: seq<RL.Delivery>, n: nat)
    requires |batch| == |ds| > n && RL.Passes(ds[0]) && RL.StopsAt(ds[1..], n)
    requires Did(s, t, w, RL.EventIn(ds[0]), RL.CountCreated(RL.EventIn(ds[0])),
                 if ds[0].body.None? then {} else {batch[0]})
    requires Did(t, u, w, RL.HandledUpTo(ds[1..], n), RL.CountCreated(RL.EventsUpTo(ds[1..], n)),
                 DeletedIds(batch[1..], ds[1..], n))
    ensures Did(s, u, w, RL.HandledUpTo(ds, n + 1), RL.CountCreated(RL.EventsUpTo(ds, n + 1)),
                DeletedIds(batch, ds, n + 1))
  {
    var d := ds[0];
    PassingFirst(ds, n);
    EventsAfterFirst(ds, n);
    RL.CountCreatedConcat(RL.EventIn(d), RL.EventsUpTo(ds[1..], n));
    FirstDeleted(batch, ds, n);
    DoneInTurn(s, t, u, w, RL.EventIn(d), RL.CountCreated(RL.EventIn(d)), if d.body.None? then {} else {batch[0]},
               RL.HandledUpTo(ds[1..], n), RL.CountCreated(RL.EventsUpTo(ds[1..], n)),
               DeletedIds(batch[1..], ds[1..], n));
  }

  /**
   The batch steps can all be taken, and leave the worker and the queue as the receive loop would: stopped at the
   same index, with the same events handled and counted and the same messages deleted.
   */
  ghost predicate EndsAsLoop(s: State, w: WorkerId, batch: seq<MessageId>, ds: seq<RL.Delivery>)
    requires |batch| == |ds|
  {
    && Feasible(Sqs, s, BatchSteps(w, ds))
    && var t := Run(Sqs, s, BatchSteps(w, ds)); var n := RL.StoppingIndex(ds);
       && WorkerOf(t, w).phase == (if n < |ds| then Stopped else Processing([]))
       && Did(s, t, w, RL.HandledUpTo(ds, n), RL.CountCreated(RL.EventsUpTo(ds, n)), DeletedIds(batch, ds, n))
  }

  lemma PassingThenLoop(s: State, t: State, w: WorkerId, batch: seq<MessageId>, ds: seq<RL.Delivery>)
    requires |batch| == |ds| > 0 && RL.Passes(ds[0])
    requires Feasible(Sqs, s, PassingOne(w, ds[0])) && t == Run(Sqs, s, PassingOne(w, ds[0]))
    requires Did(s, t, w, RL.EventIn(ds[0]), RL.CountCreated(RL.EventIn(ds[0])),
                 if ds[0].body.None? then {} else {batch[0]})
    requires EndsAsLoop(t, w, batch[1..], ds[1..])
    ensures EndsAsLoop(s, w, batch, ds)
  {
    var n := RL.StoppingIndex(ds[1..]);
    assert BatchSteps(w, ds) == PassingOne(w, ds[0]) + BatchSteps(w, ds[1..]);
    SpliceSteps(s, PassingOne(w, ds[0]), BatchSteps(w, ds[1..]));
    ThenTheRest(s, t, Run(Sqs, t, BatchSteps(w, ds[1..])), w, batch, ds, n);
    assert RL.StoppingIndex(ds) == n + 1;
  }

  /** A worker alone with a batch handles, counts and deletes what the receive loop does, and stops where it stops. */
  lemma {:induction false} BatchIsReceiveLoop(s: State, w: WorkerId, batch: seq<MessageId>, ds: seq<RL.Delivery>)
    requires WorkerOf(s, w).phase == Processing(batch) && Delivers(s, batch, ds)
    ensures EndsAsLoop(s, w, batch, ds)
    decreases |ds|
  {
    if ds == [] {
      assert RL.EventsUpTo(ds, 0) == [] && RL.CountCreated([]) == 0;
    } else if !RL.Passes(ds[0]) {
      FailingSteps(s, w, batch, ds);
      assert RL.EventsUpTo(ds, 0) == [] && RL.CountCreated([]) == 0 && DeletedIds(batch, ds, 0) == {};
    } else {
      PassingSteps(s, w, batch, ds[0]);
      var t := Run(Sqs, s, PassingOne(w, ds[0]));
      BatchIsReceiveLoop(t, w, batch[1..], ds[1..]);
      PassingThenLoop(s, t, w, batch, ds);
    }
  }

  // ---------------------------------------------------------------- a whole run of the loop

  /** A stretch of steps can be taken, and handles `events` and deletes `gone` on the way. */
  ghost predicate Does(s: State, steps: seq<Step>, w: WorkerId,
                       events: seq<Event>, counted: nat, gone: set<MessageId>)
  {
    Feasible(Sqs, s, steps) && Did(s, Run(Sqs, s, steps), w, events, counted, gone)
  }

  lemma DoesInTurn(s: State, a: seq<Step>, b: seq<Step>, w: WorkerId,
                   events: seq<Event>, counted: nat, gone: set<MessageId>,
                   events': seq<Event>, counted': nat, gone': set<MessageId>)
    requires Does(s, a, w, events, counted, gone) && Does(Run(Sqs, s, a), b, w, events', counted', gone')
    ensures Does(s, a + b, w, events + events', counted + counted', gone + gone')
    ensures Run(Sqs, s, a + b) == Run(Sqs, Run(Sqs, s, a), b)
  {
    SpliceSteps(s, a, b);
    DoneInTurn(s, Run(Sqs, s, a), Run(Sqs, s, a + b), w, events, counted, gone, events', counted', gone');
  }

  /** Messages that can be received as this batch: not deleted, and with the texts of the deliveries. */
  ghost predicate BatchOffered(sent: map<MessageId, Option<Body>>, queue: set<MessageId>,
                               batch: seq<MessageId>, ds: seq<RL.Delivery>) {
    && |batch| == |ds| <= BATCH_LIMIT
    && forall i :: 0 <= i < |ds| ==>
      batch[i] in queue && batch[i] in sent && sent[batch[i]] == ds[i].body && !ds[i].handlerFails
  }

  /** Each round's batch can be received once the rounds before it have deleted what they delete. */
  ghost predicate Offered(sent: map<MessageId, Option<Body>>, queue: set<MessageId>,
                          rounds: seq<RL.Round>, ids: seq<seq<MessageId>>)
    decreases |rounds|
  {
    rounds != [] && rounds[0].Received? ==>
      && ids != []
      && BatchOffered(sent, queue, ids[0], rounds[0].batch)
      && var n := RL.StoppingIndex(rounds[0].batch);
         n == |rounds[0].batch| ==>
           Offered(sent, queue - DeletedIds(ids[0], rounds[0].batch, n), rounds[1..], ids[1..])
  }

  function Reappearing(batch: seq<MessageId>): seq<Step> {
    if batch == [] then [] else [Reappear(batch[0])] + Reappearing(batch[1..])
  }

  /** The queue shows the messages again, and the worker receives them and works through them. */
  function RoundSteps(w: WorkerId, batch: seq<MessageId>, ds: seq<RL.Delivery>): seq<Step> {
    Reappearing(batch) + [Receive(w, batch)] + BatchSteps(w, ds)
  }

  /** The rounds of a run, up to the one that stops it. */
  function LoopSteps(w: WorkerId, rounds: seq<RL.Round>, ids: seq<seq<MessageId>>): seq<Step>
    decreases |rounds|
  {
    if rounds == [] then []
    else if !rounds[0].Received? || ids == [] then [Stop(w)]
    else
      var batch := rounds[0].batch;
      RoundSteps(w, ids[0], batch)
      + if RL.StoppingIndex(batch) < |batch| then [] else [Process(w)] + LoopSteps(w, rounds[1..], ids[1..])
  }

  ghost function LoopDeletedIds(rounds: seq<RL.Round>, ids: seq<seq<MessageId>>): set<MessageId>
    decreases |rounds|
  {
    if rounds == [] || !rounds[0].Received? || ids == [] || |ids[0]| != |rounds[0].batch| then {}
    else
      var batch := rounds[0].batch;
      var n := RL.StoppingIndex(batch);
      DeletedIds(ids[0], batch, n) + if n < |batch| then {} else LoopDeletedIds(rounds[1..], ids[1..])
  }

  lemma {:induction false} AllReappear(s: State, batch: seq<MessageId>)
    ensures Feasible(Sqs, s, Reappearing(batch))
    ensures Run(Sqs, s, Reappearing(batch)) == s.(inFlight := s.inFlight - set m | m in batch)
    decreases |batch|
  {
    if batch == [] {
      assert s.inFlight - (set m | m in batch) == s.inFlight;
    } else {
      var t := Next(Sqs, s, Reappear(batch[0]));
      AllReappear(t, batch[1..]);
      assert Reappearing(batch)[1..] == Reappearing(batch[1..]);
      assert (set m | m in batch) == {batch[0]} + set m | m in batch[1..];
      assert t.inFlight - (set m | m in batch[1..]) == s.inFlight - set m | m in batch;
    }
  }

  lemma OneStep(s: State, e: Step)
    requires Enabled(s, e)
    ensures Feasible(Sqs, s, [e]) && Run(Sqs, s, [e]) == Next(Sqs, s, e)
  {
    assert [e][1..] == [] && Feasible(Sqs, Next(Sqs, s, e), []);
  }

  /** Steps that handle and delete nothing. */
  lemma DoesNothing(s: State, steps: seq<Step>, w: WorkerId)
    requires Feasible(Sqs, s, steps)
    requires var t := Run(Sqs, s, steps); var before, after := WorkerOf(s, w), WorkerOf(t, w);
             && t.sent == s.sent && t.queue == s.queue && t.handled == s.handled
             && after.processed == before.processed && after.acknowledged == before.acknowledged
    ensures Does(s, steps, w, [], 0, {})
  {
    assert RL.CountCreated([]) == 0;
  }

  /** Receiving a batch that is offered. */
  lemma BatchIsReceived(s: State, w: WorkerId, batch: seq<MessageId>, ds: seq<RL.Delivery>)
    requires WorkerOf(s, w).phase == Polling && BatchOffered(s.sent, s.queue, batch, ds)
    ensures var steps := Reappearing(batch) + [Receive(w, batch)];
            && Does(s, steps, w, [], 0, {})
            && WorkerOf(Run(Sqs, s, steps), w).phase == Processing(batch)
            && Delivers(Run(Sqs, s, steps), batch, ds)
  {
    AllReappear(s, batch);
    var t := Run(Sqs, s, Reappearing(batch));
    OneStep(t, Receive(w, batch));
    SpliceSteps(s, Reappearing(batch), [Receive(w, batch)]);
    DoesNothing(s, Reappearing(batch) + [Receive(w, batch)], w);
  }

  lemma NothingThenDoes(s: State, a: seq<Step>, b: seq<Step>, w: WorkerId,
                        events: seq<Event>, counted: nat, gone: set<MessageId>)
    requires Does(s, a, w, [], 0, {}) && Does(Run(Sqs, s, a), b, w, events, counted, gone)
    ensures Does(s, a + b, w, events, counted, gone)
    ensures Run(Sqs, s, a + b) == Run(Sqs, Run(Sqs, s, a), b)
  {
    DoesInTurn(s, a, b, w, [], 0, {}, events, counted, gone);
    assert [] + events == events && {} + gone == gone;
  }

  lemma BatchDoes(s: State, w: WorkerId, batch: seq<MessageId>, ds: seq<RL.Delivery>)
    requires WorkerOf(s, w).phase == Processing(batch) && Delivers(s, batch, ds)
    ensures var n := RL.StoppingIndex(ds);
            && Does(s, BatchSteps(w, ds), w, RL.HandledUpTo(ds, n), RL.CountCreated(RL.EventsIn(RL.BodiedUpTo(ds, n))),
                    DeletedIds(batch, ds, n))
            && WorkerOf(Run(Sqs, s, BatchSteps(w, ds)), w).phase == if n < |ds| then Stopped else Processing([])
  {
    BatchIsReceiveLoop(s, w, batch, ds);
    RL.BodiedHoldEvents(ds, RL.StoppingIndex(ds));
  }

  /** One round of the loop, received and worked through. */
  lemma RoundIsReceiveLoop(s: State, w: WorkerId, batch: seq<MessageId>, ds: seq<RL.Delivery>)
    requires WorkerOf(s, w).phase == Polling && BatchOffered(s.sent, s.queue, batch, ds)
    ensures var steps := RoundSteps(w, batch, ds); var n := RL.StoppingIndex(ds);
            && Does(s, steps, w, RL.HandledUpTo(ds, n), RL.CountCreated(RL.EventsIn(RL.BodiedUpTo(ds, n))),
                    DeletedIds(batch, ds, n))
            && WorkerOf(Run(Sqs, s, steps), w).phase == if n < |ds| then Stopped else Processing([])
  {
    var received, n := Reappearing(batch) + [Receive(w, batch)], RL.StoppingIndex(ds);
    BatchIsReceived(s, w, batch, ds);
    BatchDoes(Run(Sqs, s, received), w, batch, ds);
    NothingThenDoes(s, received, BatchSteps(w, ds), w, RL.HandledUpTo(ds, n),
                    RL.CountCreated(RL.EventsIn(RL.BodiedUpTo(ds, n))), DeletedIds(batch, ds, n));
  }

  /** After a batch without failure the worker polls again. */
  lemma BatchIsOver(s: State, w: WorkerId)
    requires WorkerOf(s, w).phase == Processing([])
    ensures Does(s, [Process(w)], w, [], 0, {}) && WorkerOf(Run(Sqs, s, [Process(w)]), w).phase == Polling
  {
    OneStep(s, Process(w));
    DoesNothing(s, [Process(w)], w);
  }

  /**
   A run of the loop in the step system: it stops if the loop stops, having handled and counted the loop's events
   and deleted its messages, or it is polling for the next batch.
   */
  ghost predicate RunsAsLoop(s: State, w: WorkerId, rounds: seq<RL.Round>, ids: seq<seq<MessageId>>) {
    var steps := LoopSteps(w, rounds, ids);
    && Does(s, steps, w, RL.LoopHandled(rounds), RL.CountCreated(RL.EventsIn(RL.LoopDeleted(rounds))),
            LoopDeletedIds(rounds, ids))
    && WorkerOf(Run(Sqs, s, steps), w).phase == if RL.LoopStop(rounds) == RL.StillRunning then Polling else Stopped
  }

  lemma StoppingRound(s: State, w: WorkerId, rounds: seq<RL.Round>, ids: seq<seq<MessageId>>)
    requires WorkerOf(s, w).phase == Polling && Offered(s.sent, s.queue, rounds, ids)
    requires rounds != [] && rounds[0].Received? && RL.StoppingIndex(rounds[0].batch) < |rounds[0].batch|
    ensures RunsAsLoop(s, w, rounds, ids)
  {
    var batch := rounds[0].batch;
    var n := RL.StoppingIndex(batch);
    RoundIsReceiveLoop(s, w, ids[0], batch);
    RL.ReceivedRound(rounds, batch, n);
    assert LoopSteps(w, rounds, ids) == RoundSteps(w, ids[0], batch);
    assert RL.LoopHandled(rounds) == RL.HandledUpTo(batch, n);
    assert RL.LoopDeleted(rounds) == RL.BodiedUpTo(batch, n);
    assert LoopDeletedIds(rounds, ids) == DeletedIds(ids[0], batch, n);
  }

  /** The first round and the end of its batch, before the rest of the run. */
  lemma PassingRound(s: State, w: WorkerId, rounds: seq<RL.Round>, ids: seq<seq<MessageId>>)
    requires WorkerOf(s, w).phase == Polling && Offered(s.sent, s.queue, rounds, ids)
    requires rounds != [] && rounds[0].Received? && RL.StoppingIndex(rounds[0].batch) == |rounds[0].batch|
    ensures var batch := rounds[0].batch; var n := |batch|;
            var first := RoundSteps(w, ids[0], batch) + [Process(w)];
            && Does(s, first, w, RL.HandledUpTo(batch, n), RL.CountCreated(RL.EventsIn(RL.BodiedUpTo(batch, n))),
                    DeletedIds(ids[0], batch, n))
            && WorkerOf(Run(Sqs, s, first), w).phase == Polling
            && Offered(Run(Sqs, s, first).sent, Run(Sqs, s, first).queue, rounds[1..], ids[1..])
  {
    var batch := rounds[0].batch;
    var n := |batch|;
    var events, gone := RL.HandledUpTo(batch, n), DeletedIds(ids[0], batch, n);
    RoundIsReceiveLoop(s, w, ids[0], batch);
    BatchIsOver(Run(Sqs, s, RoundSteps(w, ids[0], batch)), w);
    DoesInTurn(s, RoundSteps(w, ids[0], batch), [Process(w)], w,
               events, RL.CountCreated(RL.EventsIn(RL.BodiedUpTo(batch, n))), gone, [], 0, {});
    assert events + [] == events && gone + {} == gone;
  }

  lemma PassingRoundThenLoop(s: State, t: State, w: WorkerId, rounds: seq<RL.Round>, ids: seq<seq<MessageId>>)
    requires rounds != [] && rounds[0].Received? && ids != [] && |ids[0]| == |rounds[0].batch|
    requires RL.StoppingIndex(rounds[0].batch) == |rounds[0].batch|
    requires var batch := rounds[0].batch; var n := |batch|;
             var first := RoundSteps(w, ids[0], batch) + [Process(w)];
             && Does(s, first, w, RL.HandledUpTo(batch, n), RL.CountCreated(RL.EventsIn(RL.BodiedUpTo(batch, n))),
                     DeletedIds(ids[0], batch, n))
             && t == Run(Sqs, s, first)
    requires RunsAsLoop(t, w, rounds[1..], ids[1..])
    ensures RunsAsLoop(s, w, rounds, ids)
  {
    var batch, rest := rounds[0].batch, rounds[1..];
    var n := |batch|;
    var bodied, gone := RL.BodiedUpTo(batch, n), DeletedIds(ids[0], batch, n);
    var first := RoundSteps(w, ids[0], batch) + [Process(w)];
    DoesInTurn(s, first, LoopSteps(w, rest, ids[1..]), w,
               RL.HandledUpTo(batch, n), RL.CountCreated(RL.EventsIn(bodied)), gone,
               RL.LoopHandled(rest), RL.CountCreated(RL.EventsIn(RL.LoopDeleted(rest))),
               LoopDeletedIds(rest, ids[1..]));
    RL.ReceivedRound(rounds, batch, n);
    RL.EventsInConcat(bodied, RL.LoopDeleted(rest));
    RL.CountCreatedConcat(RL.EventsIn(bodied), RL.EventsIn(RL.LoopDeleted(rest)));
    ConcatAssociates(RoundSteps(w, ids[0], batch), [Process(w)], LoopSteps(w, rest, ids[1..]));
    assert LoopSteps(w, rounds, ids) == first + LoopSteps(w, rest, ids[1..]);
  }

  /** What is proved of the receive loop holds of a worker alone in the step system, over all rounds of a run. */
  lemma {:induction false} LoopIsReceiveLoop(s: State, w: WorkerId, rounds: seq<RL.Round>, ids: seq<seq<MessageId>>)
    requires WorkerOf(s, w).phase == Polling && Offered(s.sent, s.queue, rounds, ids)
    ensures RunsAsLoop(s, w, rounds, ids)
    decreases |rounds|
  {
    if rounds == [] {
      DoesNothing(s, [], w);
    } else if !rounds[0].Received? {
      OneStep(s, Stop(w));
      DoesNothing(s, [Stop(w)], w);
    } else if RL.StoppingIndex(rounds[0].batch) < |rounds[0].batch| {
      StoppingRound(s, w, rounds, ids);
    } else {
      PassingRound(s, w, rounds, ids);
      var t := Run(Sqs, s, RoundSteps(w, ids[0], rounds[0].batch) + [Process(w)]);
      LoopIsReceiveLoop(t, w, rounds[1..], ids[1..]);
      PassingRoundThenLoop(s, t, w, rounds, ids);
    }
  }
}
