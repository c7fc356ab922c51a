/** The storage collaborator, as an abstract map-backed store with one id counter. */
module Storage {
  import opened Lists
  import opened Diagram

  /** Id the store gives a record with id `id` when `next` is its next fresh id. */
  function AssignedId(id: int, next: int): int {
    if id == Unsaved then next else id
  }

  /** Fresh-id counter after saving a record that was given id `id`. */
  function NextAfter(next: int, id: int): int {
    if id < next then next else id + 1
  }

  class StorageService {
    /** Diagram aggregates by id. */
    var diagrams: map<int, DiagramRecord>
    /** The keys of `diagrams`, in the order they were first saved. */
    var diagramIds: seq<int>
    /** Connection records by id. */
    var connections: map<int, ConnectionRecord>
    /** The item records written so far, in order (nothing in the engine reads them back). */
    var itemRecords: seq<DiagramItemData>
    /** Next fresh id; every id in use is below it. */
    var nextId: int

    ghost predicate Valid()
      reads this
    {
      && Unsaved < nextId
      && Distinct(diagramIds)
      && (forall k :: k in diagramIds <==> k in diagrams)
      && (forall k | k in diagrams ::
            k != Unsaved && k < nextId && diagrams[k].id == k && Distinct(diagrams[k].connectionIds))
      && (forall k | k in connections :: k != Unsaved && k < nextId && connections[k].id == k)
    }

    constructor ()
      ensures Valid()
      ensures diagrams == map[] && diagramIds == [] && connections == map[] && itemRecords == []
      ensures nextId == Unsaved + 1
    {
      diagrams, diagramIds, connections, itemRecords, nextId := map[], [], map[], [], Unsaved + 1;
    }

    /** FetchAllDiagram: every stored diagram once, in the order they were first saved. */
    function FetchAllDiagram(): (all: seq<DiagramRecord>)
      reads this
      requires Valid()
      ensures |all| == |diagramIds|
      ensures forall i | 0 <= i < |all| :: all[i].id == diagramIds[i] && all[i] == diagrams[diagramIds[i]]
    {
      assert Valid();
      assert forall k :: k in diagramIds ==> k in diagrams;
      assert forall i | 0 <= i < |diagramIds| :: diagramIds[i] in diagrams;
      var ids, ds := diagramIds, diagrams;
      seq(|ids|, i requires 0 <= i < |ids| && ids[i] in ds => ds[ids[i]])
    }

    /** FetchDiagram: the diagram stored under `id`, or NotFound. */
    function FetchDiagram(id: int): (r: Result<DiagramRecord>)
      reads this
      ensures r.Ok? <==> id in diagrams
      ensures r.Err? ==> r.error == NotFound(id)
      ensures r.Ok? ==> r.value == diagrams[id]
      ensures r.Ok? && Valid() ==> r.value.id == id
    {
      if id in diagrams then Ok(diagrams[id]) else Err(NotFound(id))
    }

    /** FetchConnection: the connection record stored under `id`, or NotFound. */
    function FetchConnection(id: int): (r: Result<ConnectionRecord>)
      reads this
      ensures r.Ok? <==> id in connections
      ensures r.Err? ==> r.error == NotFound(id)
      ensures r.Ok? ==> r.value == connections[id]
      ensures r.Ok? && Valid() ==> r.value.id == id
    {
      if id in connections then Ok(connections[id]) else Err(NotFound(id))
    }

    /** SaveDiagram: stores `d`, under a fresh id when it has none, and returns that id. */
    method SaveDiagram(d: DiagramRecord) returns (id: int)
      requires Valid()
      requires Distinct(d.connectionIds)
      modifies this
      ensures Valid()
      ensures id == AssignedId(d.id, old(nextId)) && id != Unsaved
      ensures d.id == Unsaved ==> id !in old(diagrams)
      ensures diagrams == old(diagrams)[id := d.(id := id)]
      ensures diagramIds == if id in old(diagrams) then old(diagramIds) else old(diagramIds) + [id]
      ensures nextId == NextAfter(old(nextId), id)
      ensures connections == old(connections) && itemRecords == old(itemRecords)
    {
      id := AssignedId(d.id, nextId);
      if id !in diagrams {
        diagramIds := diagramIds + [id];
      }
      diagrams := diagrams[id := d.(id := id)];
      nextId := NextAfter(nextId, id);
    }

    /** SaveDiagramItem: records an item record and returns the id the store gives
        it, a fresh one when it has none. The record is logged as passed. */
    method SaveDiagramItem(item: DiagramItemData) returns (id: int)
      requires Valid()
      modifies this
      ensures Valid()
      ensures id == AssignedId(item.itemId, old(nextId)) && id != Unsaved
      ensures item.itemId == Unsaved ==> id !in old(diagrams) && id !in old(connections)
      ensures itemRecords == old(itemRecords) + [item]
      ensures nextId == NextAfter(old(nextId), id)
      ensures diagrams == old(diagrams) && diagramIds == old(diagramIds) && connections == old(connections)
    {
      id := AssignedId(item.itemId, nextId);
      itemRecords := itemRecords + [item];
      nextId := NextAfter(nextId, id);
    }

    /** SaveConnection: stores `c`, under a fresh id when it has none, and returns that id. */
    method SaveConnection(c: ConnectionRecord) returns (id: int)
      requires Valid()
      modifies this
      ensures Valid()
      ensures id == AssignedId(c.id, old(nextId)) && id != Unsaved
      ensures c.id == Unsaved ==> id !in old(connections)
      ensures connections == old(connections)[id := c.(id := id)]
      ensures nextId == NextAfter(old(nextId), id)
      ensures diagrams == old(diagrams) && diagramIds == old(diagramIds) && itemRecords == old(itemRecords)
    {
      id := AssignedId(c.id, nextId);
      connections := connections[id := c.(id := id)];
      nextId := NextAfter(nextId, id);
    }

    /** DeleteConnection: drops the connection record `id`, if there is one. */
    method DeleteConnection(id: int)
      requires Valid()
      modifies this
      ensures Valid()
      ensures connections == old(connections) - {id}
      ensures diagrams == old(diagrams) && diagramIds == old(diagramIds)
      ensures itemRecords == old(itemRecords) && nextId == old(nextId)
    {
      connections := connections - {id};
    }
  }
}
