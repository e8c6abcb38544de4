/** The batch function behind order(id) (internal/graph/dataloader.go), against one lookup at a time. */
module Dataloader {
  import opened Wrappers
  import opened Uuids
  import opened OrderStatus
  import opened OrderStore
  import opened Mappers

  /** What order(id) answers for one id, looked up alone: an order, nothing, or an error. */
  function Lookup(t: Table, text: string, fate: Fate): Result<Option<GraphOrder>, GraphError> {
    match Parse(text)
    case None => Err(InvalidId)
    case Some(id) => if fate != Answered then Err(Database(ConnectionFailure)) else LookupId(t, id)
  }

  function LookupId(t: Table, id: Uuid): Result<Option<GraphOrder>, GraphError> {
    if id !in t then Ok(None)
    else match OrderToGraph(Scanned(id, t[id]))
      case Ok(g) => Ok(Some(g))
      case Err(e) => Err(e)
  }

  /** An order is found exactly for a text of the id of a row that can be shown, and the answer shows that row. */
  lemma LookupShowsRow(t: Table, text: string, g: GraphOrder)
    ensures Lookup(t, text, Answered) == Ok(Some(g)) <==>
      exists id :: id in t && Parse(text) == Some(id) && IsKnown(t[id].status) && Shows(g, id, t[id])
  {
    if Parse(text).Some? && Parse(text).value in t {
      var id := Parse(text).value;
      MappingShowsRow(id, t[id], g);
    }
  }

  /** A result and error pair says what a lookup says. */
  predicate Agrees(out: Option<GraphOrder>, err: Option<GraphError>, lookup: Result<Option<GraphOrder>, GraphError>) {
    match lookup
    case Ok(g) => out == g && err == None
    case Err(e) => out == None && err == Some(e)
  }

  /** The ids that parse, and the positions they stand at. */
  ghost predicate Valid(texts: seq<string>, upTo: nat, ids: seq<Uuid>, positions: seq<nat>) {
    && upTo <= |texts| && |ids| == |positions|
    && (forall j :: 0 <= j < |ids| ==> positions[j] < upTo && Parse(texts[positions[j]]) == Some(ids[j]))
    && (forall i :: 0 <= i < upTo && Parse(texts[i]).Some? ==> i in positions)
    && (forall j, k :: 0 <= j < k < |positions| ==> positions[j] < positions[k])
  }

  /** The rows of a selection, by id. */
  method IndexRows(rows: seq<Order>, ghost t: Table, ghost ids: seq<Uuid>) returns (byId: map<Uuid, Order>)
    requires IsSelection(rows, t, ids)
    ensures forall id :: id in byId <==> id in t && id in ids
    ensures forall id :: id in byId ==> byId[id] == Scanned(id, t[id])
  {
    byId := map[];
    SelectedRows(rows, t, ids);
    for k := 0 to |rows|
      invariant forall id :: id in byId ==> id in t && id in ids && byId[id] == Scanned(id, t[id])
      invariant forall j :: 0 <= j < k ==> rows[j].id.value in byId
    {
      var o := rows[k];
      byId := byId[o.id.value := o];
    }
  }

  lemma SelectedRows(rows: seq<Order>, t: Table, ids: seq<Uuid>)
    requires IsSelection(rows, t, ids)
    ensures forall k :: 0 <= k < |rows| ==>
      && rows[k].id.Some? && rows[k].id.value in t && rows[k].id.value in ids
      && rows[k] == Scanned(rows[k].id.value, t[rows[k].id.value])
    ensures forall id :: id in t && id in ids ==> exists k :: 0 <= k < |rows| && rows[k].id == Some(id)
  {
    forall k | 0 <= k < |rows| ensures rows[k] in WithIds(t, ids) {
      assert rows[k] in multiset(rows);
    }
    forall id | id in t && id in ids ensures exists k :: 0 <= k < |rows| && rows[k].id == Some(id) {
      assert Scanned(id, t[id]) in WithIds(t, ids);
      assert Scanned(id, t[id]) in multiset(rows);
    }
  }

  method ParseAll(texts: seq<string>, errs: array<Option<GraphError>>) returns (ids: seq<Uuid>, positions: seq<nat>)
    requires errs.Length == |texts| && forall i :: 0 <= i < errs.Length ==> errs[i] == None
    modifies errs
    ensures Valid(texts, |texts|, ids, positions)
    ensures forall i :: 0 <= i < |texts| ==> errs[i] == if Parse(texts[i]).None? then Some(InvalidId) else None
  {
    ids, positions := [], [];
    for i := 0 to |texts|
      invariant Valid(texts, i, ids, positions)
      invariant forall k :: 0 <= k < i ==> errs[k] == if Parse(texts[k]).None? then Some(InvalidId) else None
      invariant forall k :: i <= k < |texts| ==> errs[k] == None
    {
      var parsed := Parse(texts[i]);
      if parsed.None? {
        errs[i] := Some(InvalidId);
      } else {
        ids := ids + [parsed.value];
        positions := positions + [i];
      }
    }
  }

  /** The query failed: every position that parsed gets the error. */
  method FailAll(texts: seq<string>, ghost ids: seq<Uuid>, positions: seq<nat>, error: GraphError,
                 errs: array<Option<GraphError>>)
    requires errs.Length == |texts| && Valid(texts, |texts|, ids, positions)
    modifies errs
    ensures forall i :: 0 <= i < |texts| ==> errs[i] == if Parse(texts[i]).Some? then Some(error) else old(errs[i])
  {
    for j := 0 to |positions|
      invariant forall k :: 0 <= k < j ==> errs[positions[k]] == Some(error)
      invariant forall i :: 0 <= i < |texts| && i !in positions[..j] ==> errs[i] == old(errs[i])
    {
      errs[positions[j]] := Some(error);
    }
  }

  method AlignOne(t: Table, id: Uuid, byId: map<Uuid, Order>, i: nat,
                  out: array<Option<GraphOrder>>, errs: array<Option<GraphError>>)
    requires i < out.Length && i < errs.Length && out[i] == None && errs[i] == None
    requires id in byId <==> id in t
    requires id in byId ==> byId[id] == Scanned(id, t[id])
    modifies out, errs
    ensures Agrees(out[i], errs[i], LookupId(t, id))
    ensures forall k :: 0 <= k < out.Length && k != i ==> out[k] == old(out[k])
    ensures forall k :: 0 <= k < errs.Length && k != i ==> errs[k] == old(errs[k])
  {
    if id in byId {
      var mapped := OrderToGraph(byId[id]);
      if mapped.Err? {
        errs[i] := Some(mapped.error);
      } else {
        out[i] := Some(mapped.value);
      }
    }
  }

  /** The query succeeded: every position that parsed gets its order, nothing, or a mapping error. */
  method AlignAll(t: Table, ids: seq<Uuid>, positions: seq<nat>, byId: map<Uuid, Order>,
                  out: array<Option<GraphOrder>>, errs: array<Option<GraphError>>)
    requires |ids| == |positions|
    requires forall j :: 0 <= j < |positions| ==> positions[j] < out.Length && positions[j] < errs.Length
    requires forall j, k :: 0 <= j < k < |positions| ==> positions[j] < positions[k]
    requires forall id :: id in byId <==> id in t && id in ids
    requires forall id :: id in byId ==> byId[id] == Scanned(id, t[id])
    requires forall k :: 0 <= k < |positions| ==> out[positions[k]] == None && errs[positions[k]] == None
    modifies out, errs
    ensures forall k :: 0 <= k < |positions| ==>
      Agrees(out[positions[k]], errs[positions[k]], LookupId(t, ids[k]))
    ensures forall i :: 0 <= i < out.Length && i !in positions ==> out[i] == old(out[i])
    ensures forall i :: 0 <= i < errs.Length && i !in positions ==> errs[i] == old(errs[i])
  {
    for j := 0 to |positions|
      invariant forall k :: 0 <= k < j ==>
        Agrees(out[positions[k]], errs[positions[k]], LookupId(t, ids[k]))
      invariant forall k :: j <= k < |positions| ==> out[positions[k]] == None && errs[positions[k]] == None
      invariant forall i :: 0 <= i < out.Length && i !in positions ==> out[i] == old(out[i])
      invariant forall i :: 0 <= i < errs.Length && i !in positions ==> errs[i] == old(errs[i])
    {
      assert forall k :: 0 <= k < |positions| && k != j ==> positions[k] != positions[j];
      AlignOne(t, ids[j], byId, positions[j], out, errs);
    }
  }

  method Load(s: Store, texts: seq<string>, fate: Fate)
    returns (out: array<Option<GraphOrder>>, errs: array<Option<GraphError>>)
    modifies s`queries
    ensures fresh(out) && fresh(errs) && out.Length == errs.Length == |texts|
    ensures forall i :: 0 <= i < |texts| ==> Agrees(out[i], errs[i], Lookup(s.orders, texts[i], fate))
    ensures s.queries == old(s.queries) + if exists i :: 0 <= i < |texts| && Parse(texts[i]).Some? then 1 else 0
  {
    out := new Option<GraphOrder>[|texts|](_ => None);
    errs := new Option<GraphError>[|texts|](_ => None);
    var ids, positions := ParseAll(texts, errs);
    assert ids != [] ==> Parse(texts[positions[0]]).Some?;
    var found := s.GetOrdersByIDs(ids, fate);
    if found.Err? {
      FailAll(texts, ids, positions, Database(ConnectionFailure), errs);
    } else {
      var byId := IndexRows(found.value, s.orders, ids);
      AlignAll(s.orders, ids, positions, byId, out, errs);
      forall i | 0 <= i < |texts| ensures Agrees(out[i], errs[i], Lookup(s.orders, texts[i], fate)) {
        if i in positions {
          var k :| 0 <= k < |positions| && positions[k] == i;
        }
      }
    }
  }
}
