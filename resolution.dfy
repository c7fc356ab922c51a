/** Resolution of a persisted connection's endpoints while a diagram is rebuilt:
    GetConnectorDataItem (which item) and GetFullConnectorInfo (which connector). */
module Resolution {
  import opened Orientations
  import opened Diagram

  /** GetFullConnectorInfo: the connector of `dataItem` on the decoded `side`.
      `dataItem` is None when the endpoint lookup found an item that is not a
      designer item (the `as` cast yields null). */
  function ResolveConnector(connectionId: int, dataItem: Option<Node>, side: ConnectorOrientation): (r: Result<ConnectorInfo>)
    ensures r.Ok? <==> IsSide(side) && dataItem.Some?
    ensures r.Ok? && side == ConnectorOrientation.Left ==> r.value == dataItem.value.LeftConnector()
    ensures r.Ok? && side == ConnectorOrientation.Right ==> r.value == dataItem.value.RightConnector()
    ensures r.Ok? ==> r.value.dataItem == dataItem.value && r.value.orientation == side
    ensures !IsSide(side) ==> r == Err(InvalidOrientation(connectionId))
    ensures IsSide(side) && dataItem.None? ==> r == Err(NullEndpoint(connectionId))
  {
    match side
    case Left => if dataItem.Some? then Ok(dataItem.value.LeftConnector()) else Err(NullEndpoint(connectionId))
    case Right => if dataItem.Some? then Ok(dataItem.value.RightConnector()) else Err(NullEndpoint(connectionId))
    case _ => Err(InvalidOrientation(connectionId))
  }

  /** The result of `as DesignerItemViewModelBase` on an item. */
  function AsDesignerItem(x: Item): Option<Node> {
    if x.NodeItem? then Some(x.node) else Option.None
  }

  /** GetConnectorDataItem: `Single(x => x.Id == id)` over the items built so far,
      cast to a designer item. */
  function ResolveEndpoint(graph: seq<Item>, id: int): (r: Result<Option<Node>>)
    ensures r.Ok? <==> CountId(graph, id) == 1
    ensures CountId(graph, id) == 0 ==> r == Err(NoMatch(id))
    ensures CountId(graph, id) > 1 ==> r == Err(MultipleMatches(id))
    ensures r.Ok? ==> exists i | 0 <= i < |graph| :: graph[i].Id() == id && r.value == AsDesignerItem(graph[i])
  {
    var n := CountId(graph, id);
    if n == 0 then Err(NoMatch(id))
    else if n > 1 then Err(MultipleMatches(id))
    else
      var i := FirstWithId(graph, id);
      Ok(AsDesignerItem(graph[i]))
  }

  /** A resolved endpoint is the unique item with the id: any item carrying the id is the one found. */
  lemma {:induction false} EndpointIsUnique(graph: seq<Item>, id: int, j: nat)
    requires ResolveEndpoint(graph, id).Ok?
    requires j < |graph| && graph[j].Id() == id
    ensures ResolveEndpoint(graph, id).value == AsDesignerItem(graph[j])
    ensures forall k | 0 <= k < |graph| && k != j :: graph[k].Id() != id
  {
    CountIdPositions(graph, id);
  }
}
