/**
 The worker's receive loop (internal/queue/sqs.go) with its counting handler (cmd/worker/main.go). What the
 outside world does, a cancelled context, a failed receive, the messages received, a failed delete, is given to
 the loop as a list of rounds; when the list ends, the loop is still running.
 */
module ReceiveLoop {
  import opened Wrappers
  import opened Sequences
  import opened Events

  /** A received message, and whether handling it and deleting it will fail. */
  datatype Delivery = Delivery(receipt: nat, body: Option<Body>, handlerFails: bool, deleteFails: bool)

  datatype Round = Cancelled | ReceiveFails | Received(batch: seq<Delivery>)

  datatype Stop = ContextDone | ReceiveError | DecodeError | HandlerError | DeleteError | StillRunning

  // ---------------------------------------------------------------- one batch, specified

  predicate Passes(d: Delivery) {
    d.body.None? || (d.body.value.Json? && !d.handlerFails && !d.deleteFails)
  }

  /** Handled, but its delete failed. */
  predicate OnlyHandled(d: Delivery) {
    d.body.Some? && d.body.value.Json? && !d.handlerFails && d.deleteFails
  }

  function FailureOf(d: Delivery): Stop
    requires !Passes(d)
  {
    if d.body.value.Malformed? then DecodeError
    else if d.handlerFails then HandlerError
    else DeleteError
  }

  function EventIn(d: Delivery): seq<Event> {
    if d.body.Some? && d.body.value.Json? then [d.body.value.event] else []
  }

  function BodyIn(d: Delivery): seq<Delivery> {
    if d.body.Some? then [d] else []
  }

  /** The events of the first n messages that have a body and decode. */
  function EventsUpTo(batch: seq<Delivery>, n: nat): seq<Event>
    requires n <= |batch|
  {
    if n == 0 then [] else EventsUpTo(batch, n - 1) + EventIn(batch[n - 1])
  }

  function EventsIn(batch: seq<Delivery>): seq<Event> {
    EventsUpTo(batch, |batch|)
  }

  /** Those of the first n messages that have a body. */
  function BodiedUpTo(batch: seq<Delivery>, n: nat): seq<Delivery>
    requires n <= |batch|
  {
    if n == 0 then [] else BodiedUpTo(batch, n - 1) + BodyIn(batch[n - 1])
  }

  /** The stopping index: the first message that does not pass. */
  ghost predicate StopsAt(batch: seq<Delivery>, n: nat) {
    && n <= |batch|
    && (forall j :: 0 <= j < n ==> Passes(batch[j]))
    && (n < |batch| ==> !Passes(batch[n]))
  }

  /** The events handled: those before the stopping index, and the one there if only its delete failed. */
  function HandledUpTo(batch: seq<Delivery>, n: nat): seq<Event>
    requires n <= |batch|
  {
    EventsUpTo(batch, n) + if n < |batch| && OnlyHandled(batch[n]) then EventIn(batch[n]) else []
  }

  function CountUpTo(events: seq<Event>, n: nat): nat
    requires n <= |events|
  {
    if n == 0 then 0 else CountUpTo(events, n - 1) + if events[n - 1].kind == ORDER_CREATED then 1 else 0
  }

  function CountCreated(events: seq<Event>): nat {
    CountUpTo(events, |events|)
  }

  lemma {:induction false} CountOfPrefix(a: seq<Event>, b: seq<Event>, n: nat)
    requires n <= |a|
    ensures CountUpTo(a + b, n) == CountUpTo(a, n)
    decreases n
  {
    if n == 0 {
    } else {
      CountOfPrefix(a, b, n - 1);
    }
  }

  lemma {:induction false} CountPastPrefix(a: seq<Event>, b: seq<Event>, n: nat)
    requires n <= |b|
    ensures CountUpTo(a + b, |a| + n) == CountCreated(a) + CountUpTo(b, n)
    decreases n
  {
    if n == 0 {
      CountOfPrefix(a, b, |a|);
    } else {
      CountPastPrefix(a, b, n - 1);
    }
  }

  lemma CountCreatedConcat(a: seq<Event>, b: seq<Event>)
    ensures CountCreated(a + b) == CountCreated(a) + CountCreated(b)
  {
    CountPastPrefix(a, b, |b|);
  }

  lemma CountOne(e: Event)
    ensures CountCreated([e]) == if e.kind == ORDER_CREATED then 1 else 0
  {
    assert CountUpTo([e], 0) == 0;
  }

  lemma {:induction false} EventsOfPrefix(a: seq<Delivery>, b: seq<Delivery>, n: nat)
    requires n <= |a|
    ensures EventsUpTo(a + b, n) == EventsUpTo(a, n)
    decreases n
  {
    if n == 0 {
    } else {
      EventsOfPrefix(a, b, n - 1);
    }
  }

  lemma {:induction false} EventsPastPrefix(a: seq<Delivery>, b: seq<Delivery>, n: nat)
    requires n <= |b|
    ensures EventsUpTo(a + b, |a| + n) == EventsIn(a) + EventsUpTo(b, n)
    decreases n
  {
    if n == 0 {
      EventsOfPrefix(a, b, |a|);
      assert EventsIn(a) + [] == EventsIn(a);
    } else {
      EventsPastPrefix(a, b, n - 1);
      ConcatAssociates(EventsIn(a), EventsUpTo(b, n - 1), EventIn(b[n - 1]));
    }
  }

  lemma EventsInConcat(a: seq<Delivery>, b: seq<Delivery>)
    ensures EventsIn(a + b) == EventsIn(a) + EventsIn(b)
  {
    EventsPastPrefix(a, b, |b|);
  }

  lemma EventsInOne(d: Delivery)
    ensures EventsIn([d]) == EventIn(d)
  {
    assert EventsUpTo([d], 0) == [];
  }

  lemma BodyAppends(bodied: seq<Delivery>, d: Delivery)
    ensures EventsIn(bodied + BodyIn(d)) == EventsIn(bodied) + EventIn(d)
  {
    EventsInConcat(bodied, BodyIn(d));
    if d.body.Some? {
      EventsInOne(d);
    }
  }

  lemma {:induction false} BodiedHoldEvents(batch: seq<Delivery>, n: nat)
    requires n <= |batch|
    ensures EventsIn(BodiedUpTo(batch, n)) == EventsUpTo(batch, n)
    decreases n
  {
    if n == 0 {
    } else {
      BodiedHoldEvents(batch, n - 1);
      BodyAppends(BodiedUpTo(batch, n - 1), batch[n - 1]);
    }
  }

  lemma {:induction false} BodiedMembers(batch: seq<Delivery>, n: nat, d: Delivery)
    requires n <= |batch|
    ensures d in BodiedUpTo(batch, n) <==> d.body.Some? && d in batch[..n]
    decreases n
  {
    if n == 0 {
    } else {
      BodiedMembers(batch, n - 1, d);
      assert batch[..n] == batch[..n - 1] + [batch[n - 1]];
    }
  }

  /** One event for each message handled, in the same order. */
  ghost predicate EventsMatch(events: seq<Event>, handled: seq<Delivery>) {
    |events| == |handled| && forall i :: 0 <= i < |handled| ==> handled[i].body == Some(Json(events[i]))
  }

  lemma MatchAppends(events: seq<Event>, handled: seq<Delivery>, d: Delivery)
    requires EventsMatch(events, handled) && Passes(d)
    ensures EventsMatch(events + EventIn(d), handled + BodyIn(d))
  {
  }

  lemma {:induction false} PassedMatch(batch: seq<Delivery>, n: nat)
    requires n <= |batch| && forall j :: 0 <= j < n ==> Passes(batch[j])
    ensures EventsMatch(EventsUpTo(batch, n), BodiedUpTo(batch, n))
    decreases n
  {
    if n == 0 {
    } else {
      PassedMatch(batch, n - 1);
      MatchAppends(EventsUpTo(batch, n - 1), BodiedUpTo(batch, n - 1), batch[n - 1]);
    }
  }

  /** Of a stretch that passed, exactly the messages with a body were handled, one event each, and deleted. */
  lemma PassedAreBodied(batch: seq<Delivery>, n: nat)
    requires n <= |batch| && forall j :: 0 <= j < n ==> Passes(batch[j])
    ensures EventsMatch(EventsUpTo(batch, n), BodiedUpTo(batch, n))
    ensures forall d :: d in BodiedUpTo(batch, n) <==> d.body.Some? && d in batch[..n]
  {
    forall d ensures d in BodiedUpTo(batch, n) <==> d.body.Some? && d in batch[..n] {
      BodiedMembers(batch, n, d);
    }
    PassedMatch(batch, n);
  }

  lemma StoppingIndexIsUnique(batch: seq<Delivery>, m: nat, n: nat)
    requires StopsAt(batch, m) && StopsAt(batch, n)
    ensures m == n
  {
  }

  // ---------------------------------------------------------------- a whole run, specified

  function StoppingIndex(batch: seq<Delivery>): (n: nat)
    ensures StopsAt(batch, n)
  {
    if batch == [] || !Passes(batch[0]) then 0 else 1 + StoppingIndex(batch[1..])
  }

  ghost function LoopStop(rounds: seq<Round>): Stop {
    if rounds == [] then StillRunning
    else match rounds[0]
      case Cancelled => ContextDone
      case ReceiveFails => ReceiveError
      case Received(batch) =>
        var n := StoppingIndex(batch);
        if n < |batch| then FailureOf(batch[n]) else LoopStop(rounds[1..])
  }

  ghost function LoopHandled(rounds: seq<Round>): seq<Event> {
    if rounds == [] || !rounds[0].Received? then []
    else
      var batch := rounds[0].batch;
      var n := StoppingIndex(batch);
      HandledUpTo(batch, n) + if n < |batch| then [] else LoopHandled(rounds[1..])
  }

  ghost function LoopDeleted(rounds: seq<Round>): seq<Delivery> {
    if rounds == [] || !rounds[0].Received? then []
    else
      var batch := rounds[0].batch;
      var n := StoppingIndex(batch);
      BodiedUpTo(batch, n) + if n < |batch| then [] else LoopDeleted(rounds[1..])
  }

  /** A round that neither ends the loop nor holds a message that does. */
  ghost predicate GoesOn(r: Round) {
    r.Received? && forall d :: d in r.batch && d.body.Some? ==>
      d.body.value.Json? && !d.handlerFails && !d.deleteFails
  }

  /** Why a round ends the loop: by itself, or by its first message that does not decode, handle and delete. */
  ghost predicate EndsWith(r: Round, stop: Stop) {
    match r
    case Cancelled => stop == ContextDone
    case ReceiveFails => stop == ReceiveError
    case Received(batch) =>
      exists n :: 0 <= n < |batch| && GoesOn(Received(batch[..n])) && batch[n].body.Some?
        && (stop == DecodeError <==> batch[n].body == Some(Malformed))
        && (stop == HandlerError <==> batch[n].body != Some(Malformed) && batch[n].handlerFails)
        && (stop == DeleteError <==>
              batch[n].body != Some(Malformed) && !batch[n].handlerFails && batch[n].deleteFails)
        && stop in {DecodeError, HandlerError, DeleteError}
  }

  /** The loop goes through k rounds, and ends for the reason the next one gives, or is still running. */
  lemma {:induction false} LoopEnds(rounds: seq<Round>) returns (k: nat)
    ensures k <= |rounds| && forall i :: 0 <= i < k ==> GoesOn(rounds[i])
    ensures k < |rounds| ==> EndsWith(rounds[k], LoopStop(rounds))
    ensures k == |rounds| <==> LoopStop(rounds) == StillRunning
    decreases |rounds|
  {
    k := 0;
    if rounds != [] && rounds[0].Received? {
      var batch := rounds[0].batch;
      var n := StoppingIndex(batch);
      if n == |batch| {
        var rest := LoopEnds(rounds[1..]);
        k := rest + 1;
      } else {
        assert GoesOn(Received(batch[..n]));
      }
    }
  }

  /** What the first round of a run contributes, when it received a batch that stops at n. */
  lemma ReceivedRound(rounds: seq<Round>, batch: seq<Delivery>, n: nat)
    requires rounds != [] && rounds[0] == Received(batch) && StopsAt(batch, n)
    ensures LoopStop(rounds) == if n < |batch| then FailureOf(batch[n]) else LoopStop(rounds[1..])
    ensures LoopHandled(rounds) == HandledUpTo(batch, n) + if n < |batch| then [] else LoopHandled(rounds[1..])
    ensures LoopDeleted(rounds) == BodiedUpTo(batch, n) + if n < |batch| then [] else LoopDeleted(rounds[1..])
  {
    StoppingIndexIsUnique(batch, n, StoppingIndex(batch));
  }

  /** The events handled are those of the messages deleted, and `extra`. */
  ghost predicate Accounts(handled: seq<Event>, deleted: seq<Delivery>, extra: seq<Event>) {
    handled == EventsIn(deleted) + extra
  }

  lemma AccountsAdd(h: seq<Event>, d: seq<Delivery>, h': seq<Event>, d': seq<Delivery>, extra: seq<Event>)
    requires Accounts(h, d, []) && Accounts(h', d', extra)
    ensures Accounts(h + h', d + d', extra)
  {
    EventsInConcat(d, d');
    ConcatAssociates(EventsIn(d), EventsIn(d'), extra);
    assert EventsIn(d) + [] == EventsIn(d);
  }

  lemma BatchAccounts(batch: seq<Delivery>, n: nat) returns (extra: seq<Event>)
    requires n <= |batch|
    ensures Accounts(HandledUpTo(batch, n), BodiedUpTo(batch, n), extra)
    ensures |extra| == if n < |batch| && OnlyHandled(batch[n]) then 1 else 0
  {
    BodiedHoldEvents(batch, n);
    extra := if n < |batch| && OnlyHandled(batch[n]) then EventIn(batch[n]) else [];
  }

  /** Over a whole run, the events handled are those of the messages deleted, plus one if a delete failed. */
  lemma {:induction false} HandledAreDeleted(rounds: seq<Round>) returns (extra: seq<Event>)
    ensures Accounts(LoopHandled(rounds), LoopDeleted(rounds), extra)
    ensures |extra| == if LoopStop(rounds) == DeleteError then 1 else 0
    decreases |rounds|
  {
    if rounds == [] || !rounds[0].Received? {
      extra := [];
    } else {
      var batch := rounds[0].batch;
      var n := StoppingIndex(batch);
      var h, d := HandledUpTo(batch, n), BodiedUpTo(batch, n);
      extra := BatchAccounts(batch, n);
      if n < |batch| {
        assert h + [] == h && d + [] == d;
      } else {
        extra := HandledAreDeleted(rounds[1..]);
        AccountsAdd(h, d, LoopHandled(rounds[1..]), LoopDeleted(rounds[1..]), extra);
      }
    }
  }

  /** The processed counter is the number of OrderCreated messages deleted, plus at most one. */
  lemma ProcessedIsDeletedPlusAtMostOne(rounds: seq<Round>)
    ensures var created := CountCreated(EventsIn(LoopDeleted(rounds)));
            var processed := CountCreated(LoopHandled(rounds));
            && created <= processed <= created + 1
            && (LoopStop(rounds) != DeleteError ==> processed == created)
  {
    var extra := HandledAreDeleted(rounds);
    CountCreatedConcat(EventsIn(LoopDeleted(rounds)), extra);
    if |extra| == 1 {
      assert extra == [extra[0]];
      CountOne(extra[0]);
    }
  }

  // ---------------------------------------------------------------- the worker

  class Worker {
    var processed: nat
    ghost var handled: seq<Event>      // events whose handler returned without an error
    ghost var deleted: seq<Delivery>   // messages whose delete was acknowledged

    constructor ()
      ensures Valid() && processed == 0 && handled == [] && deleted == []
    {
      processed := 0;
      handled := [];
      deleted := [];
    }

    /** The counter has counted the OrderCreated events, each once. */
    ghost predicate Valid()
      reads this
    {
      processed == CountCreated(handled)
    }

    method Handle(e: Event)
      requires Valid()
      modifies this`processed, this`handled
      ensures Valid() && handled == old(handled) + [e]
    {
      if e.kind == ORDER_CREATED {
        processed := processed + 1;
      }
      CountCreatedConcat(handled, [e]);
      CountOne(e);
      handled := handled + [e];
    }

    /** One message: skipped without a body, otherwise decoded, handled and then deleted. */
    method Process(m: Delivery) returns (failure: Option<Stop>)
      requires Valid()
      modifies this
      ensures Valid()
      ensures failure == if Passes(m) then None else Some(FailureOf(m))
      ensures handled == old(handled) + if Passes(m) || OnlyHandled(m) then EventIn(m) else []
      ensures deleted == old(deleted) + if Passes(m) then BodyIn(m) else []
    {
      if m.body.None? {
        return None;
      }
      if m.body.value.Malformed? {
        return Some(DecodeError);
      }
      if m.handlerFails {
        return Some(HandlerError);
      }
      Handle(m.body.value.event);
      if m.deleteFails {
        return Some(DeleteError);
      }
      deleted := deleted + [m];
      return None;
    }

    method ProcessBatch(batch: seq<Delivery>) returns (n: nat, stop: Option<Stop>)
      requires Valid()
      modifies this
      ensures Valid()
      ensures StopsAt(batch, n)
      ensures stop == if n < |batch| then Some(FailureOf(batch[n])) else None
      ensures handled == old(handled) + HandledUpTo(batch, n)
      ensures deleted == old(deleted) + BodiedUpTo(batch, n)
    {
      n := 0;
      stop := None;
      ghost var before, gone := handled, deleted;
      while n < |batch|
        invariant n <= |batch| && Valid() && stop == None
        invariant forall j :: 0 <= j < n ==> Passes(batch[j])
        invariant handled == before + EventsUpTo(batch, n)
        invariant deleted == gone + BodiedUpTo(batch, n)
      {
        ConcatAssociates(before, EventsUpTo(batch, n), EventIn(batch[n]));
        ConcatAssociates(gone, BodiedUpTo(batch, n), BodyIn(batch[n]));
        stop := Process(batch[n]);
        if stop.Some? {
          return;
        }
        n := n + 1;
      }
    }

    /** Runs until something stops it or the rounds are used up. */
    method Loop(rounds: seq<Round>) returns (stop: Stop)
      requires Valid()
      modifies this
      ensures Valid()
      ensures stop == LoopStop(rounds)
      ensures handled == old(handled) + LoopHandled(rounds)
      ensures deleted == old(deleted) + LoopDeleted(rounds)
    {
      var k := 0;
      ghost var allHandled := handled + LoopHandled(rounds);
      ghost var allDeleted := deleted + LoopDeleted(rounds);
      assert rounds[..] == rounds;
      while k < |rounds|
        invariant k <= |rounds| && Valid()
        invariant LoopStop(rounds[k..]) == LoopStop(rounds)
        invariant allHandled == handled + LoopHandled(rounds[k..])
        invariant allDeleted == deleted + LoopDeleted(rounds[k..])
      {
        assert rounds[k..][1..] == rounds[k + 1..];
        match rounds[k] {
          case Cancelled => return ContextDone;
          case ReceiveFails => return ReceiveError;
          case Received(batch) =>
            ghost var before, gone := handled, deleted;
            var n, failure := ProcessBatch(batch);
            ReceivedRound(rounds[k..], batch, n);
            if failure.Some? {
              assert HandledUpTo(batch, n) + [] == HandledUpTo(batch, n);
              assert BodiedUpTo(batch, n) + [] == BodiedUpTo(batch, n);
              return failure.value;
            }
            ConcatAssociates(before, HandledUpTo(batch, n), LoopHandled(rounds[k + 1..]));
            ConcatAssociates(gone, BodiedUpTo(batch, n), LoopDeleted(rounds[k + 1..]));
        }
        k := k + 1;
      }
      return StillRunning;
    }
  }
}
