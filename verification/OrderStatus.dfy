/** The order life cycle: known statuses, the transition table and its validation (internal/orders/status.go). */
module OrderStatus {
  import opened Wrappers

  // Go declares `type Status string`: any text is a Status, six of them are known.
  type Status = string

  const PENDING: Status := "pending"
  const CONFIRMED: Status := "confirmed"
  const PREPARING: Status := "preparing"
  const READY: Status := "ready"
  const DELIVERED: Status := "delivered"
  const CANCELLED: Status := "cancelled"

  const ALL_STATUSES: seq<Status> := [PENDING, CONFIRMED, PREPARING, READY, DELIVERED, CANCELLED]

  datatype StatusError = UnknownStatus | InvalidTransition

  predicate IsKnown(s: Status) {
    s in ALL_STATUSES
  }

  predicate IsTerminal(s: Status) {
    s == DELIVERED || s == CANCELLED
  }

  /** The allowed next statuses; a status missing from the Go map has none. */
  function Transitions(from: Status): seq<Status> {
    if from == PENDING then [CONFIRMED, CANCELLED]
    else if from == CONFIRMED then [PREPARING, CANCELLED]
    else if from == PREPARING then [READY, CANCELLED]
    else if from == READY then [DELIVERED, CANCELLED]
    else []
  }

  predicate CanTransition(from: Status, to: Status) {
    && from != to
    && IsKnown(from) && IsKnown(to)
    && !IsTerminal(from)
    && to in Transitions(from)
  }

  function ParseStatus(s: string): Result<Status, StatusError> {
    if IsKnown(s) then Ok(s) else Err(UnknownStatus)
  }

  /** None when the move is allowed, otherwise the error. */
  function ValidateTransition(from: Status, to: Status): Option<StatusError> {
    if !IsKnown(from) || !IsKnown(to) then Some(UnknownStatus)
    else if CanTransition(from, to) then None
    else Some(InvalidTransition)
  }

  /** The number of moves on the longest way from a status to the end of its life. */
  function Potential(s: Status): (p: nat)
    ensures p <= 4
  {
    if s == PENDING then 4
    else if s == CONFIRMED then 3
    else if s == PREPARING then 2
    else if s == READY then 1
    else 0
  }

  /** The table is acyclic: every allowed move lowers the potential, and nothing leaves a terminal status. */
  lemma TransitionLowersPotential(from: Status, to: Status)
    requires CanTransition(from, to)
    ensures Potential(to) < Potential(from)
    ensures to != PENDING && IsKnown(to) && !IsTerminal(from)
  {
    assert CONFIRMED[0] == 'c' && PREPARING[0] == 'p' && READY[0] == 'r' && DELIVERED[0] == 'd';
    assert CANCELLED[1] == 'a' && CONFIRMED[1] == 'o';
    assert |PENDING| == 7 && |CONFIRMED| == 9 && |PREPARING| == 9 && |READY| == 5;
  }

  /** One step down the life of an order, or its cancellation, while it is not over. */
  predicate StepsOn(from: Status, to: Status) {
    && IsKnown(from) && IsKnown(to) && !IsTerminal(from)
    && (to == CANCELLED || Potential(from) == Potential(to) + 1)
  }

  /** The table allows exactly these moves. */
  lemma AllowedMoves(from: Status, to: Status)
    ensures CanTransition(from, to) <==> StepsOn(from, to)
  {
    assert CONFIRMED[0] == 'c' && PREPARING[0] == 'p' && READY[0] == 'r' && DELIVERED[0] == 'd';
    assert CANCELLED[1] == 'a' && CONFIRMED[1] == 'o';
    assert |PENDING| == 7 && |CONFIRMED| == 9 && |PREPARING| == 9 && |READY| == 5;
  }

  lemma StatusesAreDistinct(i: nat, k: nat)
    requires i < k < |ALL_STATUSES|
    ensures ALL_STATUSES[i] != ALL_STATUSES[k]
  {
    assert PENDING[0] == 'p' && CONFIRMED[0] == 'c' && READY[0] == 'r' && DELIVERED[0] == 'd';
    assert CONFIRMED[1] == 'o' && CANCELLED[1] == 'a' && |PENDING| == 7 && |PREPARING| == 9;
  }

  /** Which moves are refused, and with which error. */
  lemma ValidationAnswers(from: Status, to: Status)
    ensures ValidateTransition(from, to) == None <==> StepsOn(from, to)
    ensures ValidateTransition(from, to) == Some(UnknownStatus) <==> !IsKnown(from) || !IsKnown(to)
    ensures ValidateTransition(from, to) == Some(InvalidTransition) <==>
      IsKnown(from) && IsKnown(to) && !StepsOn(from, to)
  {
    AllowedMoves(from, to);
  }

  lemma PendingIsKnown()
    ensures IsKnown(PENDING) && Potential(PENDING) == 4
  {
  }

  /** A status history: starts at pending, every entry one allowed move after the entry before it. */
  ghost predicate IsLife(h: seq<Status>) {
    && |h| > 0
    && h[0] == PENDING
    && forall i :: 0 < i < |h| ==> CanTransition(h[i - 1], h[i])
  }

  lemma {:induction false} LifeDescends(h: seq<Status>, i: nat, j: nat)
    requires IsLife(h) && i < j < |h|
    ensures Potential(h[j]) < Potential(h[i]) && h[i] != h[j]
    decreases j
  {
    TransitionLowersPotential(h[j - 1], h[j]);
    if i < j - 1 {
      LifeDescends(h, i, j - 1);
    }
  }

  lemma {:induction false} LifeIsShort(h: seq<Status>)
    requires IsLife(h)
    ensures |h| + Potential(h[|h| - 1]) <= 5
    decreases |h|
  {
    if |h| == 1 {
      PendingIsKnown();
    } else {
      LifeIsShort(h[..|h| - 1]);
      TransitionLowersPotential(h[|h| - 2], h[|h| - 1]);
    }
  }

  lemma LifeIsKnown(h: seq<Status>, i: nat)
    requires IsLife(h) && i < |h|
    ensures IsKnown(h[i]) && (i < |h| - 1 ==> !IsTerminal(h[i]))
  {
    if i == 0 {
      PendingIsKnown();
    } else {
      TransitionLowersPotential(h[i - 1], h[i]);
    }
    if i < |h| - 1 {
      TransitionLowersPotential(h[i], h[i + 1]);
    }
  }

  /** No status is ever left twice, and no life is longer than five entries. */
  lemma LifeVisitsOnce(h: seq<Status>)
    requires IsLife(h)
    ensures forall i, j :: 0 <= i < j < |h| ==> h[i] != h[j]
    ensures |h| + Potential(h[|h| - 1]) <= 5
    ensures forall i :: 0 <= i < |h| - 1 ==> !IsTerminal(h[i])
    ensures forall i :: 0 <= i < |h| ==> IsKnown(h[i])
  {
    forall i, j | 0 <= i < j < |h| ensures h[i] != h[j] {
      LifeDescends(h, i, j);
    }
    forall i | 0 <= i < |h| ensures IsKnown(h[i]) && (i < |h| - 1 ==> !IsTerminal(h[i])) {
      LifeIsKnown(h, i);
    }
    LifeIsShort(h);
  }
}
