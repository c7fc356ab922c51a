/** What a save writes for the live item list: one item record per item
    (connections included, as the save loop does) and one connection record
    per connection. */
module Snapshot {
  import opened Orientations
  import opened Diagram
  import Lists

  /** The item record saved for a live item: its id and its run-time type. */
  function ItemRecord(x: Item): DiagramItemData {
    DiagramItemData(x.Id(), x.Type())
  }

  /** DesignerItems after the save loop over every live item. */
  function SnapshotItems(items: seq<Item>): seq<DiagramItemData> {
    if items == [] then []
    else SnapshotItems(items[..|items| - 1]) + [ItemRecord(items[|items| - 1])]
  }

  /** DesignerItems holds one record per live item, in the items' order, and a
      connection is recorded with the connection type tag. */
  lemma {:induction false} SnapshotItemsAt(items: seq<Item>)
    ensures |SnapshotItems(items)| == |items|
    ensures forall i | 0 <= i < |items| :: SnapshotItems(items)[i] == ItemRecord(items[i])
    ensures forall i | 0 <= i < |items| ::
      SnapshotItems(items)[i].itemId == items[i].Id() &&
      (SnapshotItems(items)[i].itemType == ConnectorType <==> items[i].ConnectionItem?)
  {
    if items != [] {
      SnapshotItemsAt(items[..|items| - 1]);
      assert forall i | 0 <= i < |items| - 1 :: items[..|items| - 1][i] == items[i];
    }
  }

  /** The connection record saved for a live connection: its ids, its endpoints'
      node ids and kinds, and its sides encoded for the store. */
  function ConnectionRecordOf(c: Connection): (r: ConnectionRecord)
    ensures r.id == c.id
    ensures ForConnector(r.sourceOrientation) == c.source.orientation
    ensures ForConnector(r.sinkOrientation) == c.sink.orientation
    ensures r.sourceId == c.source.dataItem.id && r.sinkId == c.sink.dataItem.id
  {
    ConnectionRecord(
      c.id,
      c.source.dataItem.id, FromConnector(c.source.orientation), c.source.dataItem.kind,
      c.sink.dataItem.id, FromConnector(c.sink.orientation), c.sink.dataItem.kind)
  }

  /** The ids of the connections among `items`, in order. */
  function ConnectionIds(items: seq<Item>): seq<int> {
    if items == [] then []
    else
      var last := items[|items| - 1];
      ConnectionIds(items[..|items| - 1]) + (if last.ConnectionItem? then [last.Id()] else [])
  }

  /** ConnectionIds lists exactly the ids of the connections among the items. */
  lemma {:induction false} ConnectionIdsMembers(items: seq<Item>, id: int)
    ensures id in ConnectionIds(items) <==>
      exists i | 0 <= i < |items| :: items[i].ConnectionItem? && items[i].Id() == id
  {
    if items != [] {
      var init := items[..|items| - 1];
      ConnectionIdsMembers(init, id);
      assert forall i | 0 <= i < |init| :: init[i] == items[i];
    }
  }

  /** A connection's new id: its own id once persisted, otherwise one the store
      had not handed out before the save began. */
  predicate Renumbered(before: Item, after: Item, firstFresh: int) {
    match before
    case NodeItem(_) => after == before
    case ConnectionItem(c) =>
      && after.ConnectionItem?
      && after.connection == c.(id := after.Id())
      && after.Id() != Unsaved
      && (c.id != Unsaved ==> after.Id() == c.id)
      && (c.id == Unsaved ==> after.Id() >= firstFresh)
  }

  /** The item list after a save: the same items in the same order, only
      connection ids assigned. */
  predicate AllRenumbered(before: seq<Item>, after: seq<Item>, firstFresh: int) {
    |before| == |after| && forall i | 0 <= i < |before| :: Renumbered(before[i], after[i], firstFresh)
  }

  /** Items that are apart are distinct. */
  lemma SeparatedDistinct(s: seq<Item>)
    requires Separated(s)
    ensures Lists.Distinct(s)
  {
    forall i, j | 0 <= i < j < |s| ensures s[i] != s[j] {
      assert Apart(s[i], s[j]);
    }
  }

  /** Once every connection of a separated list has an assigned id, its connection ids have no repeats. */
  lemma {:induction false} SeparatedConnectionIds(s: seq<Item>)
    requires Separated(s)
    requires forall i | 0 <= i < |s| && s[i].ConnectionItem? :: s[i].Id() != Unsaved
    ensures Lists.Distinct(ConnectionIds(s))
  {
    if s != [] {
      var init, last := s[..|s| - 1], s[|s| - 1];
      assert Separated(init) by {
        forall i, j | 0 <= i < j < |init| ensures Apart(init[i], init[j]) {
          assert init[i] == s[i] && init[j] == s[j];
        }
      }
      SeparatedConnectionIds(init);
      if last.ConnectionItem? {
        assert last.Id() !in ConnectionIds(init) by {
          ConnectionIdsMembers(init, last.Id());
          forall i | 0 <= i < |init| && init[i].ConnectionItem? ensures init[i].Id() != last.Id() {
            assert Apart(s[i], s[|s| - 1]);
          }
        }
      }
    }
  }
}
