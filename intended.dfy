/** The save/load pair as evidently intended: item records for the designer
    items only, each new designer item taking the id the store gives its item
    record, and each rebuilt node taking its id from its own item record. With
    the three corrections a saved diagram loads back as the same diagram
    (RoundTripIntendedSave). */
module Intended {
  import opened Lists
  import opened Orientations
  import opened Diagram
  import opened Resolution
  import opened Snapshot
  import opened Loader

  /** The designer items among `items`, in order. */
  function NodesOf(items: seq<Item>): seq<Item> {
    if items == [] then []
    else
      var last := items[|items| - 1];
      NodesOf(items[..|items| - 1]) + (if last.NodeItem? then [last] else [])
  }

  /** The connections among `items`, in order. */
  function ConnectionsOf(items: seq<Item>): seq<Item> {
    if items == [] then []
    else
      var last := items[|items| - 1];
      ConnectionsOf(items[..|items| - 1]) + (if last.ConnectionItem? then [last] else [])
  }

  /** DesignerItems as intended: one record per designer item. */
  function SnapshotNodes(items: seq<Item>): seq<DiagramItemData> {
    SnapshotItems(NodesOf(items))
  }

  /** The item-record loop as intended: the node's id is the record's ItemId. */
  function LoadNodesIntended(records: seq<DiagramItemData>, graph: seq<Item>): Result<seq<Item>>
    decreases |records|
  {
    if records == [] then Ok(graph)
    else
      match Instantiate(|graph|, records[0], records[0].itemId)
      case Err(e) => Err(e)
      case Ok(n) => LoadNodesIntended(records[1..], graph + [NodeItem(n)])
  }

  /** The load task as intended. */
  function ReconstructIntended(connections: map<int, ConnectionRecord>, d: DiagramRecord): Result<seq<Item>> {
    match LoadNodesIntended(d.designerItems, [])
    case Err(e) => Err(e)
    case Ok(nodes) => LoadConnections(connections, d.connectionIds, nodes)
  }

  /** Positions of `s` holding the same id hold the same position. */
  predicate IdsUnique(s: seq<Item>) {
    forall i, j | 0 <= i < |s| && 0 <= j < |s| && s[i].Id() == s[j].Id() :: i == j
  }

  /** A diagram that can be saved and loaded back: every item has its own id,
      and every connection joins two of its nodes on a left or right side. */
  predicate WellFormed(g: seq<Item>) {
    && IdsUnique(g)
    && forall i | 0 <= i < |g| && g[i].ConnectionItem? ::
         && NodeItem(g[i].connection.source.dataItem) in g
         && NodeItem(g[i].connection.sink.dataItem) in g
         && IsSide(g[i].connection.source.orientation)
         && IsSide(g[i].connection.sink.orientation)
  }

  /** An item with the object identities forgotten. */
  function EraseNode(n: Node): Node { n.(handle := 0) }

  function EraseInfo(c: ConnectorInfo): ConnectorInfo {
    ConnectorInfo(EraseNode(c.dataItem), c.orientation)
  }

  function EraseItem(x: Item): Item {
    match x
    case NodeItem(n) => NodeItem(EraseNode(n))
    case ConnectionItem(c) =>
      ConnectionItem(Connection(0, c.id, EraseInfo(c.source), EraseInfo(c.sink)))
  }

  lemma {:induction false} FiltersMembers(items: seq<Item>, x: Item)
    ensures x in NodesOf(items) <==> x in items && x.NodeItem?
    ensures x in ConnectionsOf(items) <==> x in items && x.ConnectionItem?
  {
    if items != [] {
      var init := items[..|items| - 1];
      assert items == init + [items[|items| - 1]];
      FiltersMembers(init, x);
    }
  }

  lemma {:induction false} FiltersDistinct(items: seq<Item>)
    requires Distinct(items)
    ensures Distinct(NodesOf(items)) && Distinct(ConnectionsOf(items))
    ensures forall x | x in NodesOf(items) :: x.NodeItem?
    ensures forall x | x in ConnectionsOf(items) :: x.ConnectionItem?
  {
    if items != [] {
      var init, last := items[..|items| - 1], items[|items| - 1];
      assert items == init + [last];
      assert Distinct(init) by {
        forall i, j | 0 <= i < j < |init| ensures init[i] != init[j] {
          assert init[i] == items[i] && init[j] == items[j];
        }
      }
      assert last !in init by {
        forall i | 0 <= i < |init| ensures init[i] != last {
          assert init[i] == items[i];
        }
      }
      FiltersDistinct(init);
      FiltersMembers(init, last);
      forall x ensures x in NodesOf(items) ==> x.NodeItem? {
        FiltersMembers(items, x);
      }
      forall x ensures x in ConnectionsOf(items) ==> x.ConnectionItem? {
        FiltersMembers(items, x);
      }
    }
  }

  lemma {:induction false} ConnectionIdsOfConnections(items: seq<Item>)
    ensures ConnectionIds(items) == ConnectionIds(ConnectionsOf(items))
    ensures |ConnectionIds(ConnectionsOf(items))| == |ConnectionsOf(items)|
    ensures forall j | 0 <= j < |ConnectionsOf(items)| ::
      ConnectionIds(ConnectionsOf(items))[j] == ConnectionsOf(items)[j].Id()
  {
    if items != [] {
      var init, last := items[..|items| - 1], items[|items| - 1];
      ConnectionIdsOfConnections(init);
      var cs := ConnectionsOf(init);
      if last.ConnectionItem? {
        var cs' := cs + [last];
        assert ConnectionsOf(items) == cs';
        assert cs'[..|cs'| - 1] == cs;
        assert ConnectionIds(cs') == ConnectionIds(cs) + [last.Id()];
        assert ConnectionIds(items) == ConnectionIds(init) + [last.Id()];
      } else {
        assert ConnectionsOf(items) == cs;
        assert ConnectionIds(items) == ConnectionIds(init);
      }
    }
  }

  /** The intended item-record loop rebuilds one node per designer record, with the record's id. */
  lemma {:induction false} LoadNodesIntendedShape(records: seq<DiagramItemData>, graph: seq<Item>)
    requires forall i | 0 <= i < |records| :: records[i].itemType.DesignerType?
    ensures LoadNodesIntended(records, graph).Ok?
    ensures
      var g := LoadNodesIntended(records, graph).value;
      && |g| == |graph| + |records|
      && g[..|graph|] == graph
      && forall i | 0 <= i < |records| ::
           g[|graph| + i] == NodeItem(Node(|graph| + i, records[i].itemId, records[i].itemType.kind))
    decreases |records|
  {
    if records != [] {
      var n := Instantiate(|graph|, records[0], records[0].itemId).value;
      var graph' := graph + [NodeItem(n)];
      LoadNodesIntendedShape(records[1..], graph');
      assert forall i | 1 <= i < |records| :: records[i] == records[1..][i - 1];
      var g := LoadNodesIntended(records, graph).value;
      assert g[..|graph'|] == graph';
      assert g[..|graph|] == graph'[..|graph|];
    }
  }

  /** Forgetting identities keeps an item's id and whether it is a node. */
  lemma EraseKeeps(x: Item, y: Item)
    requires EraseItem(x) == EraseItem(y)
    ensures x.Id() == y.Id() && x.NodeItem? == y.NodeItem?
  {
    match x
    case NodeItem(_) => assert EraseItem(x).NodeItem?;
    case ConnectionItem(_) => assert EraseItem(x).ConnectionItem?;
  }

  /** `graph` is a rebuilt prefix of `whole`: position by position the same items up to identity. */
  predicate Rebuilt(graph: seq<Item>, whole: seq<Item>) {
    |graph| <= |whole| && forall k | 0 <= k < |graph| :: EraseItem(graph[k]) == EraseItem(whole[k])
  }

  /** `whole` starts with its `nodeCount` designer items; the rest are connections. */
  predicate NodesFirst(whole: seq<Item>, nodeCount: nat) {
    nodeCount <= |whole| && forall k | 0 <= k < |whole| :: whole[k].NodeItem? <==> k < nodeCount
  }

  /** `c` joins two designer items of `whole` on a left or right side. */
  predicate WiredWithin(c: Connection, whole: seq<Item>) {
    && NodeItem(c.source.dataItem) in whole
    && NodeItem(c.sink.dataItem) in whole
    && IsSide(c.source.orientation)
    && IsSide(c.sink.orientation)
  }

  /** The endpoint lookup against a rebuilt prefix holding every designer item
      finds the rebuilt copy of the node. */
  lemma {:induction false} Endpoint(whole: seq<Item>, nodeCount: nat, graph: seq<Item>, n: Node)
    returns (n': Node)
    requires IdsUnique(whole) && NodesFirst(whole, nodeCount)
    requires NodeItem(n) in whole
    requires nodeCount <= |graph| && Rebuilt(graph, whole)
    ensures ResolveEndpoint(graph, n.id) == Ok(Some(n'))
    ensures EraseNode(n') == EraseNode(n)
  {
    var p :| 0 <= p < |whole| && whole[p] == NodeItem(n);
    assert p < |graph|;
    EraseKeeps(graph[p], whole[p]);
    forall i, j | 0 <= i < |graph| && 0 <= j < |graph| && graph[i].Id() == n.id && graph[j].Id() == n.id
      ensures i == j
    {
      EraseKeeps(graph[i], whole[i]);
      EraseKeeps(graph[j], whole[j]);
    }
    CountIdPositions(graph, n.id);
    EndpointIsUnique(graph, n.id, p);
    n' := graph[p].node;
  }

  /** One step of the connection phase: the connection's own record rebuilds it against the rebuilt prefix. */
  lemma {:induction false} ConnectionStep(
    connections: map<int, ConnectionRecord>, whole: seq<Item>, nodeCount: nat, graph: seq<Item>, c: Connection)
    returns (c': Connection)
    requires IdsUnique(whole) && NodesFirst(whole, nodeCount)
    requires nodeCount <= |graph| && Rebuilt(graph, whole)
    requires WiredWithin(c, whole)
    requires c.id in connections && connections[c.id] == ConnectionRecordOf(c)
    ensures LoadConnection(connections, c.id, graph) == Ok(c')
    ensures c'.handle == |graph|
    ensures EraseItem(ConnectionItem(c')) == EraseItem(ConnectionItem(c))
  {
    var source := Endpoint(whole, nodeCount, graph, c.source.dataItem);
    var sink := Endpoint(whole, nodeCount, graph, c.sink.dataItem);
    c' := Connection(|graph|, c.id,
      ConnectorInfo(source, c.source.orientation), ConnectorInfo(sink, c.sink.orientation));
  }

  /** The connection phase of the round trip, from the `j`-th connection on. */
  lemma {:induction false} ConnectionPhase(
    connections: map<int, ConnectionRecord>, whole: seq<Item>, nodeCount: nat,
    ids: seq<int>, graph: seq<Item>, j: nat)
    requires IdsUnique(whole) && NodesFirst(whole, nodeCount)
    requires nodeCount + |ids| == |whole|
    requires forall k | nodeCount <= k < |whole| :: WiredWithin(whole[k].connection, whole)
    requires forall k | 0 <= k < |ids| :: ids[k] == whole[nodeCount + k].Id()
    requires forall k | 0 <= k < |ids| ::
      ids[k] in connections && connections[ids[k]] == ConnectionRecordOf(whole[nodeCount + k].connection)
    requires j <= |ids| && |graph| == nodeCount + j && Rebuilt(graph, whole)
    ensures LoadConnections(connections, ids[j..], graph).Ok?
    ensures
      var v := LoadConnections(connections, ids[j..], graph).value;
      |v| == |whole| && Rebuilt(v, whole)
    decreases |ids| - j
  {
    if j == |ids| {
      assert ids[j..] == [];
    } else {
      var x := whole[nodeCount + j];
      assert x.ConnectionItem?;
      assert ids[j] == x.Id() == x.connection.id;
      assert ids[j] in connections && connections[ids[j]] == ConnectionRecordOf(x.connection);
      var c' := ConnectionStep(connections, whole, nodeCount, graph, x.connection);
      var graph' := graph + [ConnectionItem(c')];
      assert ids[j..][0] == x.connection.id;
      assert ids[j..][1..] == ids[j + 1..];
      assert Rebuilt(graph', whole) by {
        forall k | 0 <= k < |graph'| ensures EraseItem(graph'[k]) == EraseItem(whole[k]) {
          if k < |graph| { assert graph'[k] == graph[k]; }
        }
      }
      ConnectionPhase(connections, whole, nodeCount, ids, graph', j + 1);
    }
  }

  /** Items with unique ids are distinct items. */
  lemma UniqueIdsDistinct(s: seq<Item>)
    requires IdsUnique(s)
    ensures Distinct(s)
  {
  }

  /** Each position of the regrouped list holds an item of `g`; the first ones are its designer items. */
  lemma RegroupedAt(g: seq<Item>, k: nat)
    requires k < |NodesOf(g) + ConnectionsOf(g)|
    ensures var whole := NodesOf(g) + ConnectionsOf(g);
      whole[k] in g && (whole[k].NodeItem? <==> k < |NodesOf(g)|)
  {
    var nodes, conns := NodesOf(g), ConnectionsOf(g);
    var whole := nodes + conns;
    if k < |nodes| {
      assert whole[k] == nodes[k];
      FiltersMembers(g, nodes[k]);
    } else {
      assert whole[k] == conns[k - |nodes|];
      FiltersMembers(g, conns[k - |nodes|]);
    }
  }

  /** The regrouped list starts with the designer items of `g`. */
  lemma RegroupedLayout(g: seq<Item>)
    ensures NodesFirst(NodesOf(g) + ConnectionsOf(g), |NodesOf(g)|)
  {
    var whole := NodesOf(g) + ConnectionsOf(g);
    forall k | 0 <= k < |whole| ensures whole[k].NodeItem? <==> k < |NodesOf(g)| {
      RegroupedAt(g, k);
    }
  }

  /** Regrouping keeps the ids unique. */
  lemma RegroupedUnique(g: seq<Item>)
    requires IdsUnique(g)
    ensures IdsUnique(NodesOf(g) + ConnectionsOf(g))
  {
    var nodes, conns := NodesOf(g), ConnectionsOf(g);
    var whole := nodes + conns;
    UniqueIdsDistinct(g);
    FiltersDistinct(g);
    forall i, j | 0 <= i < |whole| && 0 <= j < |whole| && whole[i].Id() == whole[j].Id() ensures i == j {
      RegroupedAt(g, i);
      RegroupedAt(g, j);
      var a :| 0 <= a < |g| && g[a] == whole[i];
      var b :| 0 <= b < |g| && g[b] == whole[j];
      assert whole[i] == whole[j];
      if i < |nodes| && j < |nodes| {
        assert nodes[i] == whole[i] && nodes[j] == whole[j];
      } else if i >= |nodes| && j >= |nodes| {
        assert conns[i - |nodes|] == whole[i] && conns[j - |nodes|] == whole[j];
      }
    }
  }

  /** Regrouping keeps every connection wired within the diagram. */
  lemma RegroupedWired(g: seq<Item>)
    requires WellFormed(g)
    ensures var whole := NodesOf(g) + ConnectionsOf(g);
      forall k | |NodesOf(g)| <= k < |whole| :: whole[k].ConnectionItem? && WiredWithin(whole[k].connection, whole)
  {
    var nodes, conns := NodesOf(g), ConnectionsOf(g);
    var whole := nodes + conns;
    forall k | |nodes| <= k < |whole| ensures whole[k].ConnectionItem? && WiredWithin(whole[k].connection, whole) {
      RegroupedAt(g, k);
      var a :| 0 <= a < |g| && g[a] == whole[k];
      var c := whole[k].connection;
      FiltersMembers(g, NodeItem(c.source.dataItem));
      FiltersMembers(g, NodeItem(c.sink.dataItem));
      assert NodeItem(c.source.dataItem) in nodes && NodeItem(c.sink.dataItem) in nodes;
    }
  }

  /** The designer items followed by the connections of a well-formed diagram:
      the ids stay unique, the nodes come first, and every connection is wired within. */
  lemma Regrouped(g: seq<Item>)
    requires WellFormed(g)
    ensures var whole := NodesOf(g) + ConnectionsOf(g);
      && IdsUnique(whole)
      && NodesFirst(whole, |NodesOf(g)|)
      && (forall k | |NodesOf(g)| <= k < |whole| :: WiredWithin(whole[k].connection, whole))
  {
    RegroupedLayout(g);
    RegroupedUnique(g);
    RegroupedWired(g);
  }

  /** The `k`-th id the intended save lists is that of the `k`-th regrouped
      connection, whose record the store holds. */
  lemma ListedAt(g: seq<Item>, connections: map<int, ConnectionRecord>, k: nat)
    requires forall i | 0 <= i < |g| && g[i].ConnectionItem? ::
      g[i].Id() in connections && connections[g[i].Id()] == ConnectionRecordOf(g[i].connection)
    requires k < |ConnectionIds(g)|
    ensures var nodes, ids, whole := NodesOf(g), ConnectionIds(g), NodesOf(g) + ConnectionsOf(g);
      && |nodes| + k < |whole|
      && whole[|nodes| + k].ConnectionItem?
      && ids[k] == whole[|nodes| + k].Id()
      && ids[k] in connections
      && connections[ids[k]] == ConnectionRecordOf(whole[|nodes| + k].connection)
  {
    ConnectionIdsOfConnections(g);
    var nodes, conns := NodesOf(g), ConnectionsOf(g);
    var x := conns[k];
    assert (nodes + conns)[|nodes| + k] == x;
    FiltersMembers(g, x);
    var a :| 0 <= a < |g| && g[a] == x;
  }

  /** The ids the intended save lists are those of the regrouped connections, whose records the store holds. */
  lemma ListedConnections(g: seq<Item>, connections: map<int, ConnectionRecord>)
    requires forall i | 0 <= i < |g| && g[i].ConnectionItem? ::
      g[i].Id() in connections && connections[g[i].Id()] == ConnectionRecordOf(g[i].connection)
    ensures |NodesOf(g)| + |ConnectionIds(g)| == |NodesOf(g) + ConnectionsOf(g)|
    ensures var nodes, ids, whole := NodesOf(g), ConnectionIds(g), NodesOf(g) + ConnectionsOf(g);
      forall k | 0 <= k < |ids| ::
           && whole[|nodes| + k].ConnectionItem?
           && ids[k] == whole[|nodes| + k].Id()
           && ids[k] in connections
           && connections[ids[k]] == ConnectionRecordOf(whole[|nodes| + k].connection)
  {
    ConnectionIdsOfConnections(g);
    forall k | 0 <= k < |ConnectionIds(g)| {
      ListedAt(g, connections, k);
    }
  }

  /** The node phase of the round trip: the intended item-record loop rebuilds
      the designer items, in order, as the prefix of the regrouped diagram. */
  lemma NodePhase(g: seq<Item>)
    ensures var records, whole := SnapshotNodes(g), NodesOf(g) + ConnectionsOf(g);
      && LoadNodesIntended(records, []).Ok?
      && |LoadNodesIntended(records, []).value| == |NodesOf(g)|
      && Rebuilt(LoadNodesIntended(records, []).value, whole)
  {
    var nodes := NodesOf(g);
    var whole := nodes + ConnectionsOf(g);
    SnapshotItemsAt(nodes);
    var records := SnapshotNodes(g);
    forall i | 0 <= i < |records| ensures records[i].itemType.DesignerType? {
      FiltersMembers(g, nodes[i]);
    }
    LoadNodesIntendedShape(records, []);
    var graph := LoadNodesIntended(records, []).value;
    forall k | 0 <= k < |graph| ensures EraseItem(graph[k]) == EraseItem(whole[k]) {
      assert graph[k] == graph[0 + k];
      assert whole[k] == nodes[k];
    }
  }

  /** For a diagram whose items all carry distinct ids, reconstructing the item
      records and connection ids written for it gives back the diagram: its
      designer items, then its connections, each with the same id, kind and
      wiring by side; only the object identities are new. The intended save
      produces such a diagram (RenumberedWellFormed). */
  lemma {:induction false} RoundTripIntended(g: seq<Item>, connections: map<int, ConnectionRecord>, diagramId: int)
    requires WellFormed(g)
    requires forall i | 0 <= i < |g| && g[i].ConnectionItem? ::
      g[i].Id() in connections && connections[g[i].Id()] == ConnectionRecordOf(g[i].connection)
    ensures
      var r := ReconstructIntended(connections, DiagramRecord(diagramId, SnapshotNodes(g), ConnectionIds(g)));
      var expected := NodesOf(g) + ConnectionsOf(g);
      && r.Ok?
      && |r.value| == |expected|
      && forall k | 0 <= k < |expected| :: EraseItem(r.value[k]) == EraseItem(expected[k])
  {
    var nodes := NodesOf(g);
    var whole := nodes + ConnectionsOf(g);
    Regrouped(g);
    ListedConnections(g, connections);
    NodePhase(g);
    var graph := LoadNodesIntended(SnapshotNodes(g), []).value;
    var ids := ConnectionIds(g);
    assert ids[0..] == ids;
    ConnectionPhase(connections, whole, |nodes|, ids, graph, 0);
  }

  /** As written, a save records every live item in DesignerItems, connections
      included, and a load cannot instantiate a connection record: a diagram
      saved with any connection never loads. */
  lemma SavedConnectionBlocksLoad(
    g: seq<Item>, diagrams: map<int, DiagramRecord>, connections: map<int, ConnectionRecord>, diagramId: int, i: nat)
    requires i < |g| && g[i].ConnectionItem?
    ensures Reconstruct(diagrams, connections, DiagramRecord(diagramId, SnapshotItems(g), ConnectionIds(g))).Err?
  {
    SnapshotItemsAt(g);
    LoadNodesShape(diagrams, SnapshotItems(g), []);
  }

  /** As written, a load takes each node's id from FetchDiagram(ItemId): a
      single saved node whose id names no stored diagram fails to load, while
      the intended load gives it back. */
  lemma ItemIdFetchedAsDiagram()
    ensures
      var g := [NodeItem(Node(0, 7, SettingsDesignerItem))];
      var d := DiagramRecord(1, SnapshotItems(g), ConnectionIds(g));
      && Reconstruct(map[], map[], d) == Err(NotFound(7))
      && ReconstructIntended(map[], d) == Ok(g)
  {
    var g := [NodeItem(Node(0, 7, SettingsDesignerItem))];
    assert g[..0] == [];
    assert SnapshotItems(g) == [DiagramItemData(7, DesignerType(SettingsDesignerItem))];
    assert ConnectionIds(g) == [];
    var records := SnapshotItems(g);
    assert records[1..] == [];
    assert Instantiate(0, records[0], 7) == Ok(Node(0, 7, SettingsDesignerItem));
    assert [] + [g[0]] == g;
    assert LoadNodesIntended(records, []) == LoadNodesIntended([], g);
  }

  /** The id the intended save gives the designer item `n` of `g`: its own once
      assigned; otherwise the store's next fresh id, handed out to the designer
      items without an id in list order, starting at `next`. */
  function RenumberNode(g: seq<Item>, next: int, n: Node): (r: Node)
    ensures r.handle == n.handle && r.kind == n.kind
    ensures n.id != Unsaved ==> r == n
  {
    if n.id != Unsaved || NodeItem(n) !in g then n
    else n.(id := next + FreshCount(g[..IndexOf(g, NodeItem(n))], true))
  }

  function RenumberInfo(g: seq<Item>, next: int, c: ConnectorInfo): ConnectorInfo {
    ConnectorInfo(RenumberNode(g, next, c.dataItem), c.orientation)
  }

  /** Item `i` of `g` after the intended save. A designer item takes the id
      SaveDiagramItem gives it; a connection then takes the id SaveConnection
      gives it, after every designer item has had one, and its endpoints are
      the same objects, so they carry their new ids too. */
  function RenumberAt(g: seq<Item>, next: int, i: nat): Item
    requires i < |g|
  {
    match g[i]
    case NodeItem(n) => NodeItem(RenumberNode(g, next, n))
    case ConnectionItem(c) =>
      var id := if c.id != Unsaved then c.id else next + FreshCount(g, true) + FreshCount(g[..i], false);
      ConnectionItem(Connection(c.handle, id, RenumberInfo(g, next, c.source), RenumberInfo(g, next, c.sink)))
  }

  /** The live items after the intended save, whose store hands out fresh ids from `next` on. */
  function SaveRenumbered(g: seq<Item>, next: int): seq<Item> {
    seq(|g|, i requires 0 <= i < |g| => RenumberAt(g, next, i))
  }

  /** The connection records the save writes: `m` with each connection's record stored under its id. */
  function StoreRecords(m: map<int, ConnectionRecord>, s: seq<Item>): map<int, ConnectionRecord> {
    if s == [] then m
    else
      var last := s[|s| - 1];
      var m' := StoreRecords(m, s[..|s| - 1]);
      if last.ConnectionItem? then m'[last.Id() := ConnectionRecordOf(last.connection)] else m'
  }

  /** A live diagram the intended save can write: distinct objects, ids already
      assigned distinct and below the store's next fresh id, and every
      connection joining two of its designer items on a left or right side.
      Any number of items may still be without an id. */
  predicate Live(g: seq<Item>, next: int) {
    && Unsaved < next
    && (forall i, j | 0 <= i < j < |g| :: g[i].Handle() != g[j].Handle())
    && (forall i, j | 0 <= i < j < |g| && g[i].Id() != Unsaved :: g[i].Id() != g[j].Id())
    && (forall i | 0 <= i < |g| :: g[i].Id() < next)
    && (forall i | 0 <= i < |g| && g[i].ConnectionItem? :: WiredWithin(g[i].connection, g))
  }

  lemma FreshCountNext(s: seq<Item>, i: nat, nodes: bool)
    requires i < |s|
    ensures FreshCount(s[..i + 1], nodes) ==
      FreshCount(s[..i], nodes) + (if s[i].NodeItem? == nodes && s[i].Id() == Unsaved then 1 else 0)
  {
    assert s[..i + 1][..i] == s[..i];
  }

  /** A longer prefix holds at least as many items without an id. */
  lemma {:induction false} FreshCountMono(s: seq<Item>, i: nat, j: nat, nodes: bool)
    requires i <= j <= |s|
    ensures FreshCount(s[..i], nodes) <= FreshCount(s[..j], nodes)
    decreases j - i
  {
    if i < j {
      FreshCountNext(s, i, nodes);
      FreshCountMono(s, i + 1, j, nodes);
    }
  }

  /** An item without an id at position `i` is counted before any later position `j`. */
  lemma FreshCountBefore(s: seq<Item>, i: nat, j: nat, nodes: bool)
    requires i < j <= |s| && s[i].NodeItem? == nodes && s[i].Id() == Unsaved
    ensures FreshCount(s[..i], nodes) < FreshCount(s[..j], nodes)
    ensures FreshCount(s[..i], nodes) < FreshCount(s, nodes)
  {
    FreshCountNext(s, i, nodes);
    FreshCountMono(s, i + 1, j, nodes);
    FreshCountMono(s, i + 1, |s|, nodes);
    assert s[..|s|] == s;
  }

  /** In a list of distinct objects, an item's first position is its position. */
  lemma IndexOfLive(g: seq<Item>, next: int, i: nat)
    requires Live(g, next) && i < |g|
    ensures IndexOf(g, g[i]) == i
  {
    var k := IndexOf(g, g[i]);
    assert g[k].Handle() == g[i].Handle();
  }

  /** The id item `i` has after the intended save. */
  lemma RenumberedId(g: seq<Item>, next: int, i: nat)
    requires Live(g, next) && i < |g|
    ensures var x := SaveRenumbered(g, next)[i];
      && (g[i].Id() != Unsaved ==> x.Id() == g[i].Id())
      && (g[i].Id() == Unsaved && g[i].NodeItem? ==> x.Id() == next + FreshCount(g[..i], true))
      && (g[i].Id() == Unsaved && g[i].ConnectionItem? ==>
            x.Id() == next + FreshCount(g, true) + FreshCount(g[..i], false))
  {
    if g[i].NodeItem? {
      IndexOfLive(g, next, i);
    }
  }

  /** Two items of the saved diagram never share an id. */
  lemma RenumberedApart(g: seq<Item>, next: int, i: nat, j: nat)
    requires Live(g, next) && i < j < |g|
    ensures SaveRenumbered(g, next)[i].Id() != SaveRenumbered(g, next)[j].Id()
  {
    RenumberedId(g, next, i);
    RenumberedId(g, next, j);
    if g[i].Id() == Unsaved && g[j].Id() == Unsaved {
      if g[i].NodeItem? == g[j].NodeItem? {
        FreshCountBefore(g, i, j, g[i].NodeItem?);
      } else if g[i].NodeItem? {
        FreshCountBefore(g, i, j, true);
      } else {
        FreshCountBefore(g, j, |g|, true);
      }
    }
  }

  /** After the intended save every item has an id no other item has, and
      every connection is still wired, by side, to designer items of the diagram. */
  lemma RenumberedWellFormed(g: seq<Item>, next: int)
    requires Live(g, next)
    ensures WellFormed(SaveRenumbered(g, next))
  {
    var saved := SaveRenumbered(g, next);
    forall i, j | 0 <= i < |saved| && 0 <= j < |saved| && saved[i].Id() == saved[j].Id() ensures i == j {
      if i < j {
        RenumberedApart(g, next, i, j);
      } else if j < i {
        RenumberedApart(g, next, j, i);
      }
    }
    forall i | 0 <= i < |saved| && saved[i].ConnectionItem?
      ensures NodeItem(saved[i].connection.source.dataItem) in saved
      ensures NodeItem(saved[i].connection.sink.dataItem) in saved
    {
      var c := g[i].connection;
      var p := IndexOf(g, NodeItem(c.source.dataItem));
      var q := IndexOf(g, NodeItem(c.sink.dataItem));
      assert saved[p] == NodeItem(saved[i].connection.source.dataItem);
      assert saved[q] == NodeItem(saved[i].connection.sink.dataItem);
    }
  }

  /** The intended save keeps every item, its kind and its wiring by side; an
      item keeps an id it already had and otherwise gets a fresh one. */
  lemma RenumberedKeeps(g: seq<Item>, next: int, i: nat)
    requires Live(g, next) && i < |g|
    ensures |SaveRenumbered(g, next)| == |g|
    ensures var x := SaveRenumbered(g, next)[i];
      && x.Handle() == g[i].Handle() && x.Type() == g[i].Type()
      && x.Id() != Unsaved
      && (g[i].Id() != Unsaved ==> x.Id() == g[i].Id())
      && (g[i].Id() == Unsaved ==> x.Id() >= next)
      && (g[i].ConnectionItem? ==>
            && x.connection.source.orientation == g[i].connection.source.orientation
            && x.connection.sink.orientation == g[i].connection.sink.orientation
            && x.connection.source.dataItem.handle == g[i].connection.source.dataItem.handle
            && x.connection.sink.dataItem.handle == g[i].connection.sink.dataItem.handle
            && x.connection.source.dataItem.kind == g[i].connection.source.dataItem.kind
            && x.connection.sink.dataItem.kind == g[i].connection.sink.dataItem.kind)
  {
    RenumberedId(g, next, i);
  }

  /** The record stored last under a connection's id is that connection's, when no other item shares the id. */
  lemma {:induction false} StoreRecordsAt(m: map<int, ConnectionRecord>, s: seq<Item>, i: nat)
    requires IdsUnique(s) && i < |s| && s[i].ConnectionItem?
    ensures s[i].Id() in StoreRecords(m, s)
    ensures StoreRecords(m, s)[s[i].Id()] == ConnectionRecordOf(s[i].connection)
  {
    var init := s[..|s| - 1];
    if i < |s| - 1 {
      assert IdsUnique(init) by {
        forall a, b | 0 <= a < |init| && 0 <= b < |init| && init[a].Id() == init[b].Id() ensures a == b {
          assert init[a] == s[a] && init[b] == s[b];
        }
      }
      assert init[i] == s[i];
      StoreRecordsAt(m, init, i);
    }
  }

  /** The three corrections together: whatever the live diagram (new items
      without ids included), loading what the intended save writes gives back
      the saved diagram, designer items first, each with the same id, kind and
      wiring by side; only the object identities are new. */
  lemma RoundTripIntendedSave(g: seq<Item>, next: int, connections: map<int, ConnectionRecord>, diagramId: int)
    requires Live(g, next)
    ensures
      var saved := SaveRenumbered(g, next);
      var r := ReconstructIntended(StoreRecords(connections, saved),
        DiagramRecord(diagramId, SnapshotNodes(saved), ConnectionIds(saved)));
      var expected := NodesOf(saved) + ConnectionsOf(saved);
      && r.Ok?
      && |r.value| == |expected|
      && forall k | 0 <= k < |expected| :: EraseItem(r.value[k]) == EraseItem(expected[k])
  {
    var saved := SaveRenumbered(g, next);
    RenumberedWellFormed(g, next);
    var stored := StoreRecords(connections, saved);
    forall i | 0 <= i < |saved| && saved[i].ConnectionItem?
      ensures saved[i].Id() in stored && stored[saved[i].Id()] == ConnectionRecordOf(saved[i].connection)
    {
      StoreRecordsAt(connections, saved, i);
    }
    RoundTripIntended(saved, stored, diagramId);
  }

  /** As written, no save gives a designer item an id (the id SaveDiagramItem
      returns is dropped), so two new designer items both keep id 0. Even with
      the other two corrections, loading a diagram of two new designer items
      joined by a connection finds two items with id 0 at the endpoint lookup;
      the intended save accepts this diagram. */
  lemma UnsavedNodesCollide()
    ensures
      var a, b := Node(0, Unsaved, SettingsDesignerItem), Node(1, Unsaved, PersistDesignerItem);
      var c := Connection(2, 5, a.RightConnector(), b.LeftConnector());
      var g := [NodeItem(a), NodeItem(b), ConnectionItem(c)];
      && ReconstructIntended(map[5 := ConnectionRecordOf(c)], DiagramRecord(1, SnapshotNodes(g), ConnectionIds(g)))
           == Err(MultipleMatches(Unsaved))
      && Live(g, 6)
  {
    var a, b := Node(0, Unsaved, SettingsDesignerItem), Node(1, Unsaved, PersistDesignerItem);
    var c := Connection(2, 5, a.RightConnector(), b.LeftConnector());
    var g := [NodeItem(a), NodeItem(b), ConnectionItem(c)];
    var g1, g2 := [NodeItem(a)], [NodeItem(a), NodeItem(b)];
    assert g1[..0] == [] && g2[..1] == g1 && g[..2] == g2;
    assert NodesOf(g1) == g1 && NodesOf(g2) == g2 && NodesOf(g) == g2;
    assert ConnectionIds(g1) == [];
    assert ConnectionIds(g2) == ConnectionIds(g1) + [];
    assert ConnectionIds(g) == ConnectionIds(g2) + [5];
    var ra := DiagramItemData(Unsaved, DesignerType(SettingsDesignerItem));
    var rb := DiagramItemData(Unsaved, DesignerType(PersistDesignerItem));
    assert SnapshotItems(g1) == SnapshotItems([]) + [ra] == [ra];
    assert SnapshotItems(g2) == SnapshotItems(g1) + [rb] == [ra, rb];
    var records := SnapshotNodes(g);
    assert records == [ra, rb];
    assert records[1..] == [rb] && records[1..][1..] == [];
    var nodes := g2;
    assert LoadNodesIntended(records, []) == LoadNodesIntended([rb], g1);
    assert LoadNodesIntended([rb], g1) == LoadNodesIntended([], g2);
    assert LoadNodesIntended(records, []) == Ok(nodes);
    assert CountId(nodes, Unsaved) == 2 by {
      assert nodes[1..] == [NodeItem(b)] && [NodeItem(b)][1..] == [];
      assert CountId([NodeItem(b)], Unsaved) == 1 + CountId([], Unsaved);
    }
    assert ResolveEndpoint(nodes, Unsaved) == Err(MultipleMatches(Unsaved));
    assert NodeItem(a) in g && NodeItem(b) in g;
  }
}
