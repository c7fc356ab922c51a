/** The entities of the diagram editor: the live view-model items of a
    diagram, the records the store keeps, and the errors the engine raises. */
module Diagram {
  import Orientations

  /** The id a view-model item or a record carries before the store has assigned one. */
  const Unsaved: int := 0

  datatype Option<T> = None | Some(value: T)

  /** Every failure the engine reports or lets escape from a save or a load. */
  datatype Error =
    | EmptyDiagram                 // a save of a diagram without items
    | NoDiagramSelected            // a load without a selected diagram
    | NotFound(id: int)            // a fetch of a record the store does not hold
    | NoPendingRemovals            // a re-save before the removal list was ever created
    | NoMatch(id: int)             // Single: no item carries the id
    | MultipleMatches(id: int)     // Single: several items carry the id
    | NotADesignerItem(id: int)    // a recorded type that is not a designer item
    | InvalidOrientation(connectionId: int)
    | NullEndpoint(connectionId: int)

  datatype Result<T> = Ok(value: T) | Err(error: Error)

  /** The closed set of designer-item kinds a diagram can hold. */
  datatype NodeKind = SettingsDesignerItem | PersistDesignerItem

  /** The type tag recorded for an item: a designer-item kind, or the
      connection view-model type. */
  datatype ItemType = DesignerType(kind: NodeKind) | ConnectorType

  /** A designer item (a node). `handle` stands for the object's reference
      identity: two distinct view-model objects never share a handle. */
  datatype Node = Node(handle: nat, id: int, kind: NodeKind) {
    function LeftConnector(): ConnectorInfo {
      ConnectorInfo(this, Orientations.ConnectorOrientation.Left)
    }
    function RightConnector(): ConnectorInfo {
      ConnectorInfo(this, Orientations.ConnectorOrientation.Right)
    }
  }

  /** A fully created connector: the node it belongs to and the side it sits on. */
  datatype ConnectorInfo = ConnectorInfo(dataItem: Node, orientation: Orientations.ConnectorOrientation)

  /** A connection view model, wired from a source connector to a sink connector. */
  datatype Connection = Connection(handle: nat, id: int, source: ConnectorInfo, sink: ConnectorInfo)

  /** An element of the diagram's item list: nodes and connections alike. */
  datatype Item = NodeItem(node: Node) | ConnectionItem(connection: Connection) {
    function Id(): int {
      match this
      case NodeItem(n) => n.id
      case ConnectionItem(c) => c.id
    }
    function Handle(): nat {
      match this
      case NodeItem(n) => n.handle
      case ConnectionItem(c) => c.handle
    }
    /** The run-time type of the view model, as a type tag. */
    function Type(): ItemType {
      match this
      case NodeItem(n) => DesignerType(n.kind)
      case ConnectionItem(_) => ConnectorType
    }
  }

  /** The persisted item record: an item id and its type tag. */
  datatype DiagramItemData = DiagramItemData(itemId: int, itemType: ItemType)

  /** The persisted connection record. */
  datatype ConnectionRecord = ConnectionRecord(
    id: int,
    sourceId: int, sourceOrientation: Orientations.Orientation, sourceType: NodeKind,
    sinkId: int, sinkOrientation: Orientations.Orientation, sinkType: NodeKind)

  /** The persisted diagram aggregate: its id, its item records and the ids of its connections. */
  datatype DiagramRecord = DiagramRecord(id: int, designerItems: seq<DiagramItemData>, connectionIds: seq<int>)

  /** Number of elements of `s` that carry the id `id`. */
  function CountId(s: seq<Item>, id: int): nat {
    if s == [] then 0 else (if s[0].Id() == id then 1 else 0) + CountId(s[1..], id)
  }

  /** Two items of one diagram are different objects, and two connections never
      share an id once the store has assigned one. */
  predicate Apart(x: Item, y: Item) {
    && x.Handle() != y.Handle()
    && (x.ConnectionItem? && y.ConnectionItem? && x.Id() != Unsaved ==> x.Id() != y.Id())
  }

  /** Every two items of `s` are apart. */
  predicate Separated(s: seq<Item>) {
    forall i, j | 0 <= i < j < |s| :: Apart(s[i], s[j])
  }

  /** The first position of `s` holding an item with id `id`. */
  function FirstWithId(s: seq<Item>, id: int): (i: nat)
    requires CountId(s, id) > 0
    ensures i < |s| && s[i].Id() == id
    ensures forall j | 0 <= j < i :: s[j].Id() != id
  {
    if s[0].Id() == id then 0 else 1 + FirstWithId(s[1..], id)
  }

  /** CountId counts exactly the positions holding the id: none means no position, one means a single position. */
  lemma {:induction false} CountIdPositions(s: seq<Item>, id: int)
    ensures CountId(s, id) == 0 <==> forall i | 0 <= i < |s| :: s[i].Id() != id
    ensures CountId(s, id) == 1 ==>
      forall i, j | 0 <= i < |s| && 0 <= j < |s| && s[i].Id() == id && s[j].Id() == id :: i == j
    ensures (forall i, j | 0 <= i < |s| && 0 <= j < |s| && s[i].Id() == id && s[j].Id() == id :: i == j) ==>
      CountId(s, id) <= 1
  {
    if s != [] {
      CountIdPositions(s[1..], id);
      assert forall i | 1 <= i < |s| :: s[i] == s[1..][i - 1];
    }
  }

  /** Number of items of `s` the store has not given an id yet: the designer
      items among them when `nodes` holds, the connections otherwise. */
  function FreshCount(s: seq<Item>, nodes: bool): nat {
    if s == [] then 0
    else
      var last := s[|s| - 1];
      FreshCount(s[..|s| - 1], nodes) + (if last.NodeItem? == nodes && last.Id() == Unsaved then 1 else 0)
  }
}
