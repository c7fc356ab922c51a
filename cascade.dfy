/** The delete cascade: the selected items plus every connection wired to a
    selected node (ExecuteDeleteSelectedItemsCommand, ItemsToDeleteHasConnector). */
module Cascade {
  import opened Lists
  import opened Diagram

  /** ItemsToDeleteHasConnector: the removal list holds the node that owns the connector. */
  function ItemsToDeleteHasConnector(itemsToRemove: seq<Item>, connector: ConnectorInfo): (b: bool)
    ensures b <==> exists i | 0 <= i < |itemsToRemove| :: itemsToRemove[i] == NodeItem(connector.dataItem)
  {
    NodeItem(connector.dataItem) in itemsToRemove
  }

  /** What one element of the item list adds to connectionsToAlsoRemove: a
      connection once for a selected source node and once for a selected sink node. */
  function AlsoRemoveOne(x: Item, selected: seq<Item>): seq<Item> {
    match x
    case NodeItem(_) => []
    case ConnectionItem(c) =>
      (if ItemsToDeleteHasConnector(selected, c.source) then [x] else []) +
      (if ItemsToDeleteHasConnector(selected, c.sink) then [x] else [])
  }

  /** connectionsToAlsoRemove after the loop over the connections of `items`. */
  function AlsoRemove(items: seq<Item>, selected: seq<Item>): seq<Item> {
    if items == [] then []
    else AlsoRemove(items[..|items| - 1], selected) + AlsoRemoveOne(items[|items| - 1], selected)
  }

  /** Number of endpoints of `x` whose node is selected (zero for a node). */
  function SelectedEndpoints(x: Item, selected: seq<Item>): nat {
    match x
    case NodeItem(_) => 0
    case ConnectionItem(c) =>
      (if NodeItem(c.source.dataItem) in selected then 1 else 0) +
      (if NodeItem(c.sink.dataItem) in selected then 1 else 0)
  }

  /** The cascade adds exactly the connections of `items` wired to a selected node, and nothing else. */
  lemma {:induction false} AlsoRemoveMembers(items: seq<Item>, selected: seq<Item>, x: Item)
    ensures x in AlsoRemove(items, selected) <==>
      x in items && x.ConnectionItem? &&
      (NodeItem(x.connection.source.dataItem) in selected || NodeItem(x.connection.sink.dataItem) in selected)
  {
    if items != [] {
      var init, last := items[..|items| - 1], items[|items| - 1];
      assert items == init + [last];
      AlsoRemoveMembers(init, selected, x);
    }
  }

  /** What one element contributes to the cascade, counted per item. */
  lemma AlsoRemoveOneCount(last: Item, selected: seq<Item>, x: Item)
    ensures multiset(AlsoRemoveOne(last, selected))[x] == (if last == x then SelectedEndpoints(x, selected) else 0)
  {
    if last.ConnectionItem? {
      var c := last.connection;
      var a := if ItemsToDeleteHasConnector(selected, c.source) then [last] else [];
      var b := if ItemsToDeleteHasConnector(selected, c.sink) then [last] else [];
      assert AlsoRemoveOne(last, selected) == a + b;
      assert multiset(a + b) == multiset(a) + multiset(b);
    }
  }

  /** Count of `x` in a sequence, split off its last element. */
  lemma CountSnoc(items: seq<Item>, x: Item)
    requires items != []
    ensures multiset(items)[x] ==
      multiset(items[..|items| - 1])[x] + (if items[|items| - 1] == x then 1 else 0)
  {
    assert items == items[..|items| - 1] + [items[|items| - 1]];
  }

  /** Count of `x` in a concatenation. */
  lemma CountConcat(s: seq<Item>, t: seq<Item>, x: Item)
    ensures multiset(s + t)[x] == multiset(s)[x] + multiset(t)[x]
  {
  }

  /** A connection is added once per selected endpoint: never when neither of
      its nodes is selected, once per occurrence when one is, twice when both are. */
  lemma {:induction false} AlsoRemoveCount(items: seq<Item>, selected: seq<Item>, x: Item)
    ensures SelectedEndpoints(x, selected) == 0 ==> multiset(AlsoRemove(items, selected))[x] == 0
    ensures SelectedEndpoints(x, selected) == 1 ==> multiset(AlsoRemove(items, selected))[x] == multiset(items)[x]
    ensures SelectedEndpoints(x, selected) == 2 ==> multiset(AlsoRemove(items, selected))[x] == multiset(items)[x] + multiset(items)[x]
  {
    if items != [] {
      var init, last := items[..|items| - 1], items[|items| - 1];
      AlsoRemoveCount(init, selected, x);
      AlsoRemoveOneCount(last, selected, x);
      CountSnoc(items, x);
      CountConcat(AlsoRemove(init, selected), AlsoRemoveOne(last, selected), x);
    }
  }

  /** The removal list the delete command builds: the selection, then the cascade. */
  function RemovalList(items: seq<Item>, selected: seq<Item>): seq<Item> {
    selected + AlsoRemove(items, selected)
  }

  /** After the removal list is taken out of the diagram, no remaining connection
      is wired to a selected node, and every unselected node is still there. */
  lemma {:induction false} CascadeComplete(items: seq<Item>, selected: seq<Item>)
    ensures forall x | x in Without(items, RemovalList(items, selected)) && x.ConnectionItem? ::
      NodeItem(x.connection.source.dataItem) !in selected && NodeItem(x.connection.sink.dataItem) !in selected
    ensures forall x | x in items && x.NodeItem? && x !in selected :: x in Without(items, RemovalList(items, selected))
  {
    var rest := Without(items, RemovalList(items, selected));
    forall x | x in rest && x.ConnectionItem?
      ensures NodeItem(x.connection.source.dataItem) !in selected && NodeItem(x.connection.sink.dataItem) !in selected
    {
      WithoutMembers(items, RemovalList(items, selected), x);
      AlsoRemoveMembers(items, selected, x);
    }
    forall x | x in items && x.NodeItem? && x !in selected ensures x in rest {
      WithoutMembers(items, RemovalList(items, selected), x);
      AlsoRemoveMembers(items, selected, x);
    }
  }

  /** Taking items out of a separated list leaves it separated. */
  lemma {:induction false} WithoutSeparated(s: seq<Item>, xs: seq<Item>)
    requires Separated(s)
    ensures Separated(Without(s, xs))
  {
    if s != [] {
      var t := s[1..];
      assert Separated(t) by {
        forall i, j | 0 <= i < j < |t| ensures Apart(t[i], t[j]) {
          assert t[i] == s[i + 1] && t[j] == s[j + 1];
        }
      }
      WithoutSeparated(t, xs);
      var w := Without(t, xs);
      if s[0] !in xs {
        forall j | 0 <= j < |w| ensures Apart(s[0], w[j]) {
          WithoutMembers(t, xs, w[j]);
          var k :| 0 <= k < |t| && t[k] == w[j];
          assert t[k] == s[k + 1];
        }
        assert Without(s, xs) == [s[0]] + w;
      }
    }
  }
}
