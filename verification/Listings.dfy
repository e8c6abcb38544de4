/** What clients see of a table that createOrder and updateOrderStatus have built, in any interleaving. */
module Listings {
  import opened Wrappers
  import opened Uuids
  import opened OrderStatus
  import opened OrderStore
  import opened Mappers
  import opened StatusProtocol
  import opened StatusTheorems
  import opened Dataloader

  ghost predicate AllKnown(t: Table) {
    forall id :: id in t ==> IsKnown(t[id].status)
  }

  lemma ReachableIsKnown(s: State)
    requires Reachable(s)
    ensures AllKnown(s.table)
  {
    forall id | id in s.table ensures IsKnown(s.table[id].status) {
      StatusesFollowTheTable(s, id);
    }
  }

  function WithStatus(arg: ListOrdersParams, i: nat): ListOrdersParams
    requires i < |ALL_STATUSES|
  {
    arg.(filterStatus := Some(ALL_STATUSES[i]))
  }

  /** The rows whose status is one of the first k. */
  ghost function FirstStatuses(t: Table, arg: ListOrdersParams, k: nat): set<Order>
    requires k <= |ALL_STATUSES|
  {
    set o | o in Matching(t, arg.(filterStatus := None)) && o.status in ALL_STATUSES[..k]
  }

  lemma OneMoreStatus(t: Table, arg: ListOrdersParams, k: nat)
    requires k < |ALL_STATUSES|
    ensures FirstStatuses(t, arg, k + 1) == FirstStatuses(t, arg, k) + Matching(t, WithStatus(arg, k))
    ensures FirstStatuses(t, arg, k) !! Matching(t, WithStatus(arg, k))
  {
    forall o ensures o in Matching(t, WithStatus(arg, k))
      <==> o in Matching(t, arg.(filterStatus := None)) && o.status == ALL_STATUSES[k] {}
    forall i | 0 <= i < k ensures ALL_STATUSES[i] != ALL_STATUSES[k] {
      StatusesAreDistinct(i, k);
    }
    assert ALL_STATUSES[..k + 1] == ALL_STATUSES[..k] + [ALL_STATUSES[k]];
  }

  lemma MultisetOfUnion<T>(a: set<T>, b: set<T>)
    requires a !! b
    ensures multiset(a + b) == multiset(a) + multiset(b)
  {
  }

  ghost function Sum(parts: seq<multiset<Order>>): multiset<Order> {
    if parts == [] then multiset{} else Sum(parts[..|parts| - 1]) + parts[|parts| - 1]
  }

  lemma {:induction false} PartsSumUp(t: Table, arg: ListOrdersParams, parts: seq<multiset<Order>>)
    requires |parts| <= |ALL_STATUSES|
    requires forall i :: 0 <= i < |parts| ==> parts[i] == multiset(Matching(t, WithStatus(arg, i)))
    ensures Sum(parts) == multiset(FirstStatuses(t, arg, |parts|))
    decreases |parts|
  {
    if parts == [] {
    } else {
      var k := |parts| - 1;
      PartsSumUp(t, arg, parts[..k]);
      OneMoreStatus(t, arg, k);
      MultisetOfUnion(FirstStatuses(t, arg, k), Matching(t, WithStatus(arg, k)));
    }
  }

  /**
   In every reachable state, for any creation range, the unfiltered listing is as a multiset the sum of the six
   listings by status, whatever order each came in.
   */
  lemma ListingIsSumOfStatuses(s: State, arg: ListOrdersParams, all: seq<Order>, listings: seq<seq<Order>>)
    requires Reachable(s) && arg.filterStatus == None && IsListing(all, s.table, arg)
    requires |listings| == |ALL_STATUSES|
    requires forall i :: 0 <= i < |listings| ==> IsListing(listings[i], s.table, WithStatus(arg, i))
    ensures multiset(all) == Sum(seq(|listings|, i requires 0 <= i < |listings| => multiset(listings[i])))
  {
    ReachableIsKnown(s);
    var parts := seq(|listings|, i requires 0 <= i < |listings| => multiset(listings[i]));
    PartsSumUp(s.table, arg, parts);
    assert ALL_STATUSES[..|ALL_STATUSES|] == ALL_STATUSES;
    assert arg.(filterStatus := None) == arg;
    assert FirstStatuses(s.table, arg, |ALL_STATUSES|) == Matching(s.table, arg);
  }

  /** Every reachable order maps, under its own status name. */
  lemma ReachableOrdersMap(s: State, id: Uuid)
    requires Reachable(s) && id in s.table
    ensures var mapped := OrderToGraph(Scanned(id, s.table[id]));
            mapped.Ok? && GraphStatusToDomain(mapped.value.status) == Some(s.table[id].status)
  {
    ReachableIsKnown(s);
    MappingSucceedsExactly(Scanned(id, s.table[id]));
  }

  /** No listing of reachable orders, with whatever filter, is cut short by an order that does not map. */
  lemma ReachableListingsMap(s: State, arg: ListOrdersParams, rows: seq<Order>)
    requires Reachable(s) && IsListing(rows, s.table, arg)
    ensures forall o :: o in Matching(s.table, arg) ==> OrderToGraph(o).Ok?
    ensures forall i :: 0 <= i < |rows| ==> OrderToGraph(rows[i]).Ok?
  {
    forall o | o in Matching(s.table, arg) ensures OrderToGraph(o).Ok? {
      ReachableOrdersMap(s, o.id.value);
    }
    ListedAreMatching(rows, s.table, arg);
  }

  /** The id shown for an order finds that order, and shows it the same way. */
  lemma ShownIdFindsItsOrder(s: State, id: Uuid)
    requires Reachable(s) && id in s.table
    ensures var mapped := OrderToGraph(Scanned(id, s.table[id]));
            mapped.Ok? && Lookup(s.table, mapped.value.id, Answered) == Ok(Some(mapped.value))
  {
    ReachableOrdersMap(s, id);
    FormatRoundTrips(id);
  }
}
