/** Rebuilding a diagram's item list from the store, as the load task does:
    every item record first, then every connection wired onto node connectors. */
module Loader {
  import opened Orientations
  import opened Diagram
  import opened Resolution
  import Lists

  /** A fresh view model of the recorded type (Activator.CreateInstance ... as
      DesignerItemViewModelBase), with its Id set: only a designer-item type yields one. */
  function Instantiate(handle: nat, data: DiagramItemData, id: int): (r: Result<Node>)
    ensures r.Ok? <==> data.itemType.DesignerType?
    ensures r.Ok? ==> r.value == Node(handle, id, data.itemType.kind)
    ensures r.Err? ==> r.error == NotADesignerItem(data.itemId)
  {
    match data.itemType
    case DesignerType(kind) => Ok(Node(handle, id, kind))
    case ConnectorType => Err(NotADesignerItem(data.itemId))
  }

  /** One item record as the load loop handles it: the record it takes the id
      from is fetched with FetchDiagram(ItemId), before the view model is created. */
  function LoadNode(diagrams: map<int, DiagramRecord>, handle: nat, data: DiagramItemData): Result<Node> {
    if data.itemId !in diagrams then Err(NotFound(data.itemId))
    else Instantiate(handle, data, diagrams[data.itemId].id)
  }

  /** The item-record loop: `graph` extended with one node per record, in order;
      a new object's handle is its position in the list. */
  function LoadNodes(diagrams: map<int, DiagramRecord>, records: seq<DiagramItemData>, graph: seq<Item>): Result<seq<Item>>
    decreases |records|
  {
    if records == [] then Ok(graph)
    else
      match LoadNode(diagrams, |graph|, records[0])
      case Err(e) => Err(e)
      case Ok(n) => LoadNodes(diagrams, records[1..], graph + [NodeItem(n)])
  }

  /** One connection id as the load loop handles it: fetch the record, then
      resolve and decode the source endpoint, then the sink endpoint, against
      the items built so far. */
  function LoadConnection(connections: map<int, ConnectionRecord>, id: int, graph: seq<Item>): Result<Connection> {
    if id !in connections then Err(NotFound(id))
    else
      var rec := connections[id];
      match ResolveEndpoint(graph, rec.sourceId)
      case Err(e) => Err(e)
      case Ok(sourceItem) =>
        match ResolveConnector(rec.id, sourceItem, ForConnector(rec.sourceOrientation))
        case Err(e) => Err(e)
        case Ok(source) =>
          match ResolveEndpoint(graph, rec.sinkId)
          case Err(e) => Err(e)
          case Ok(sinkItem) =>
            match ResolveConnector(rec.id, sinkItem, ForConnector(rec.sinkOrientation))
            case Err(e) => Err(e)
            case Ok(sink) => Ok(Connection(|graph|, rec.id, source, sink))
  }

  /** The connection loop: `graph` extended with one connection per id, in order. */
  function LoadConnections(connections: map<int, ConnectionRecord>, ids: seq<int>, graph: seq<Item>): Result<seq<Item>>
    decreases |ids|
  {
    if ids == [] then Ok(graph)
    else
      match LoadConnection(connections, ids[0], graph)
      case Err(e) => Err(e)
      case Ok(c) => LoadConnections(connections, ids[1..], graph + [ConnectionItem(c)])
  }

  /** The load task's result for the aggregate `d`. */
  function Reconstruct(diagrams: map<int, DiagramRecord>, connections: map<int, ConnectionRecord>, d: DiagramRecord): Result<seq<Item>> {
    match LoadNodes(diagrams, d.designerItems, [])
    case Err(e) => Err(e)
    case Ok(nodes) => LoadConnections(connections, d.connectionIds, nodes)
  }

  /** The item-record loop succeeds exactly when every record names a stored
      diagram and a designer-item type; it then appends one node per record,
      whose id is that of the fetched diagram. */
  lemma {:induction false} LoadNodesShape(diagrams: map<int, DiagramRecord>, records: seq<DiagramItemData>, graph: seq<Item>)
    ensures LoadNodes(diagrams, records, graph).Ok? <==>
      forall i | 0 <= i < |records| :: records[i].itemId in diagrams && records[i].itemType.DesignerType?
    ensures LoadNodes(diagrams, records, graph).Ok? ==>
      var g := LoadNodes(diagrams, records, graph).value;
      && |g| == |graph| + |records|
      && g[..|graph|] == graph
      && forall i | 0 <= i < |records| ::
           g[|graph| + i] == NodeItem(Node(|graph| + i, diagrams[records[i].itemId].id, records[i].itemType.kind))
    decreases |records|
  {
    if records != [] {
      var r := LoadNode(diagrams, |graph|, records[0]);
      if r.Ok? {
        var graph' := graph + [NodeItem(r.value)];
        LoadNodesShape(diagrams, records[1..], graph');
        assert forall i | 1 <= i < |records| :: records[i] == records[1..][i - 1];
        if LoadNodes(diagrams, records, graph).Ok? {
          var g := LoadNodes(diagrams, records, graph).value;
          assert g[..|graph'|] == graph';
          assert g[..|graph|] == graph'[..|graph|];
        }
      }
    }
  }

  /** The connection loop keeps the items it started from and appends one item per id. */
  lemma {:induction false} LoadConnectionsPrefix(connections: map<int, ConnectionRecord>, ids: seq<int>, graph: seq<Item>)
    ensures LoadConnections(connections, ids, graph).Ok? ==>
      var g := LoadConnections(connections, ids, graph).value;
      |g| == |graph| + |ids| && g[..|graph|] == graph
    decreases |ids|
  {
    if ids != [] {
      var r := LoadConnection(connections, ids[0], graph);
      if r.Ok? {
        var graph' := graph + [ConnectionItem(r.value)];
        LoadConnectionsPrefix(connections, ids[1..], graph');
        if LoadConnections(connections, ids, graph).Ok? {
          var g := LoadConnections(connections, ids, graph).value;
          assert g[..|graph|] == graph'[..|graph|];
        }
      }
    }
  }

  /** The first connection the loop appends is wired as the first id's record says. */
  lemma LoadConnectionsFirst(connections: map<int, ConnectionRecord>, ids: seq<int>, graph: seq<Item>)
    requires ids != []
    ensures LoadConnections(connections, ids, graph).Ok? ==>
      var g := LoadConnections(connections, ids, graph).value;
      && |graph| < |g|
      && ids[0] in connections
      && g[|graph|].ConnectionItem?
      && WiredAs(g[|graph|].connection, connections[ids[0]], g[..|graph|], |graph|)
  {
    var r := LoadConnection(connections, ids[0], graph);
    if r.Ok? && LoadConnections(connections, ids, graph).Ok? {
      var graph' := graph + [ConnectionItem(r.value)];
      var g := LoadConnections(connections, ids, graph).value;
      assert g == LoadConnections(connections, ids[1..], graph').value;
      LoadConnectionsPrefix(connections, ids[1..], graph');
      LoadConnectionWired(connections, ids[0], graph);
      assert g[..|graph'|] == graph';
      assert g[|graph|] == graph'[|graph|];
      assert g[..|graph|] == graph'[..|graph|] == graph;
    }
  }

  /** The connection the loop appends for the `j`-th id is wired as that id's record says. */
  lemma {:induction false} LoadConnectionsAt(connections: map<int, ConnectionRecord>, ids: seq<int>, graph: seq<Item>, j: nat)
    requires j < |ids|
    ensures LoadConnections(connections, ids, graph).Ok? ==>
      var g := LoadConnections(connections, ids, graph).value;
      && |graph| + j < |g|
      && ids[j] in connections
      && g[|graph| + j].ConnectionItem?
      && WiredAs(g[|graph| + j].connection, connections[ids[j]], g[..|graph| + j], |graph| + j)
    decreases j
  {
    if j == 0 {
      LoadConnectionsFirst(connections, ids, graph);
    } else {
      var r := LoadConnection(connections, ids[0], graph);
      if r.Ok? {
        var graph' := graph + [ConnectionItem(r.value)];
        LoadConnectionsAt(connections, ids[1..], graph', j - 1);
        assert ids[j] == ids[1..][j - 1];
        assert |graph'| + (j - 1) == |graph| + j;
      }
    }
  }

  /** The connection loop appends exactly one connection per id, in order, each
      wired from the connector on its decoded source side of the unique item with
      the source id to the connector on its decoded sink side of the unique item
      with the sink id; a rebuilt connector is never on side None. */
  lemma LoadConnectionsShape(connections: map<int, ConnectionRecord>, ids: seq<int>, graph: seq<Item>)
    ensures LoadConnections(connections, ids, graph).Ok? ==>
      var g := LoadConnections(connections, ids, graph).value;
      && |g| == |graph| + |ids|
      && g[..|graph|] == graph
      && forall j | 0 <= j < |ids| ::
           && ids[j] in connections
           && g[|graph| + j].ConnectionItem?
           && WiredAs(g[|graph| + j].connection, connections[ids[j]], g[..|graph| + j], |graph| + j)
  {
    LoadConnectionsPrefix(connections, ids, graph);
    if LoadConnections(connections, ids, graph).Ok? {
      var g := LoadConnections(connections, ids, graph).value;
      forall j | 0 <= j < |ids|
        ensures && ids[j] in connections
                && g[|graph| + j].ConnectionItem?
                && WiredAs(g[|graph| + j].connection, connections[ids[j]], g[..|graph| + j], |graph| + j)
      {
        LoadConnectionsAt(connections, ids, graph, j);
      }
    }
  }

  /** `c` is the connection rebuilt from `rec` against the items `before` it, at position `handle`. */
  ghost predicate WiredAs(c: Connection, rec: ConnectionRecord, before: seq<Item>, handle: nat) {
    && c.handle == handle
    && c.id == rec.id
    && IsSide(c.source.orientation) && c.source.orientation == ForConnector(rec.sourceOrientation)
    && IsSide(c.sink.orientation) && c.sink.orientation == ForConnector(rec.sinkOrientation)
    && ResolveEndpoint(before, rec.sourceId) == Ok(Some(c.source.dataItem))
    && ResolveEndpoint(before, rec.sinkId) == Ok(Some(c.sink.dataItem))
  }

  /** A single rebuilt connection is wired as its record says. */
  lemma LoadConnectionWired(connections: map<int, ConnectionRecord>, id: int, graph: seq<Item>)
    ensures LoadConnection(connections, id, graph).Ok? ==>
      id in connections && WiredAs(LoadConnection(connections, id, graph).value, connections[id], graph, |graph|)
  {
  }

  /** A rebuilt item list has one entry per item record and per connection id.
      Position `i` holds a new object with handle `i`; it is a node exactly when
      `i` is below the number of item records, and a connection there carries
      the id listed for it, which names a stored connection record. */
  lemma ReconstructAt(diagrams: map<int, DiagramRecord>, connections: map<int, ConnectionRecord>, d: DiagramRecord, i: nat)
    requires Reconstruct(diagrams, connections, d).Ok?
    requires i < |Reconstruct(diagrams, connections, d).value|
    ensures var v, n := Reconstruct(diagrams, connections, d).value, |d.designerItems|;
      && |v| == n + |d.connectionIds|
      && v[i].Handle() == i
      && (v[i].NodeItem? <==> i < n)
      && (v[i].NodeItem? ==>
            && d.designerItems[i].itemId in diagrams
            && v[i].Id() == diagrams[d.designerItems[i].itemId].id)
      && (v[i].ConnectionItem? ==>
            && n <= i < n + |d.connectionIds|
            && d.connectionIds[i - n] in connections
            && v[i].Id() == connections[d.connectionIds[i - n]].id)
  {
    LoadNodesShape(diagrams, d.designerItems, []);
    var nodes := LoadNodes(diagrams, d.designerItems, []).value;
    var ids := d.connectionIds;
    LoadConnectionsPrefix(connections, ids, nodes);
    var v := Reconstruct(diagrams, connections, d).value;
    assert v == LoadConnections(connections, ids, nodes).value;
    if i < |nodes| {
      assert v[..|nodes|][i] == v[i];
      assert nodes[i] == NodeItem(Node(i, diagrams[d.designerItems[i].itemId].id, d.designerItems[i].itemType.kind));
    } else {
      var j := i - |nodes|;
      LoadConnectionsAt(connections, ids, nodes, j);
      assert v[i] == v[|nodes| + j];
      assert WiredAs(v[i].connection, connections[ids[j]], v[..|nodes| + j], |nodes| + j);
    }
  }

  /** A rebuilt item list is made of new objects, one per position, and its
      connections carry the distinct ids of their stored records; every id it
      holds is one the store has handed out. */
  lemma ReconstructSeparated(
    diagrams: map<int, DiagramRecord>, connections: map<int, ConnectionRecord>, d: DiagramRecord, next: int)
    requires forall k | k in diagrams :: diagrams[k].id < next
    requires forall k | k in connections :: connections[k].id == k && k < next
    requires Lists.Distinct(d.connectionIds)
    requires Reconstruct(diagrams, connections, d).Ok?
    ensures var v := Reconstruct(diagrams, connections, d).value;
      && (forall i | 0 <= i < |v| :: v[i].Handle() == i && v[i].Id() < next)
      && (forall i | 0 <= i < |v| && v[i].ConnectionItem? :: v[i].Id() in d.connectionIds)
      && Separated(v)
  {
    var v := Reconstruct(diagrams, connections, d).value;
    var n, ids := |d.designerItems|, d.connectionIds;
    forall i | 0 <= i < |v|
      ensures v[i].Handle() == i && v[i].Id() < next
      ensures v[i].ConnectionItem? ==> n <= i < n + |ids| && v[i].Id() == ids[i - n]
    {
      ReconstructAt(diagrams, connections, d, i);
    }
    forall a, b | 0 <= a < b < |v| ensures Apart(v[a], v[b]) {
      if v[a].ConnectionItem? && v[b].ConnectionItem? {
        assert ids[a - n] != ids[b - n];
      }
    }
  }
}
