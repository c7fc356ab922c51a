/** The main window's view model: its session state, the delete command, the
    new-diagram command, and the save and load commands with their
    continuations run in sequence. The diagram's live item list and the
    store are the state the commands work on. */
module Session {
  import opened Lists
  import opened Orientations
  import opened Diagram
  import opened Storage
  import opened Resolution
  import opened Cascade
  import opened Aggregate
  import opened Snapshot
  import opened Loader

  /** The set of ids in `s`. */
  ghost function IdSet(s: seq<int>): set<int> {
    set k | k in s
  }

  /** `s` with item `i`, a connection, given the id `id`. */
  function WithConnectionId(s: seq<Item>, i: nat, id: int): seq<Item>
    requires i < |s| && s[i].ConnectionItem?
  {
    s[i := ConnectionItem(s[i].connection.(id := id))]
  }

  /** Giving one connection an id no other saved connection carries keeps the list separated. */
  lemma RenumberKeepsSeparated(s: seq<Item>, i: nat, id: int)
    requires Separated(s) && i < |s| && s[i].ConnectionItem? && id != Unsaved
    requires forall j | 0 <= j < |s| && j != i && s[j].ConnectionItem? && s[j].Id() != Unsaved :: s[j].Id() != id
    ensures Separated(WithConnectionId(s, i, id))
  {
    var t := WithConnectionId(s, i, id);
    forall a, b | 0 <= a < b < |t| ensures Apart(t[a], t[b]) {
      assert Apart(s[a], s[b]);
    }
  }

  /** The connection ids of a prefix grow by the next entry's id when it is a connection. */
  lemma ConnectionIdsNext(xs: seq<Item>, i: nat)
    requires i < |xs|
    ensures IdSet(ConnectionIds(xs[..i + 1])) ==
      IdSet(ConnectionIds(xs[..i])) + (if xs[i].ConnectionItem? then {xs[i].Id()} else {})
  {
    assert xs[..i + 1][..i] == xs[..i];
  }

  /** `m'` has the keys of `m` and the same values except, possibly, under `key`. */
  ghost predicate SameBut<K, V>(m: map<K, V>, m': map<K, V>, key: K) {
    m'.Keys == m.Keys && forall k | k in m && k != key :: m'[k] == m[k]
  }

  /** Every entry of `m'` is an entry of `m`. */
  ghost predicate SubMap<K, V>(m': map<K, V>, m: map<K, V>) {
    forall k | k in m' :: k in m && m'[k] == m[k]
  }

  lemma SameButUpdate<K, V>(m: map<K, V>, key: K, v: V)
    requires key in m
    ensures SameBut(m, m[key := v], key)
  {
  }

  /** Overwriting the one entry that may differ makes the two maps equal. */
  lemma SameButOverwrite<K, V>(m: map<K, V>, m': map<K, V>, key: K, v: V)
    requires SameBut(m, m', key)
    ensures m'[key := v] == m[key := v]
  {
  }

  lemma SubMapMinus<K, V>(m: map<K, V>, a: set<K>)
    ensures SubMap(m - a, m)
  {
  }

  lemma MapUpdateTwice<K, V>(m: map<K, V>, k: K, a: V, b: V)
    ensures m[k := a][k := b] == m[k := b]
  {
  }

  lemma MapWithoutBoth<K, V>(m: map<K, V>, a: set<K>, b: set<K>)
    ensures m - (a + b) == (m - a) - b
  {
  }

  /** The store holds, under its id, the record of each connection among the first `n` items. */
  ghost predicate Stored(s: seq<Item>, n: nat, connections: map<int, ConnectionRecord>)
    requires n <= |s|
  {
    forall j | 0 <= j < n && s[j].ConnectionItem? ::
      s[j].Id() in connections && connections[s[j].Id()] == ConnectionRecordOf(s[j].connection)
  }

  /** Saving the next connection under an id no earlier connection has extends what is stored. */
  lemma StoredStep(s: seq<Item>, i: nat, id: int, connections: map<int, ConnectionRecord>)
    requires i < |s| && s[i].ConnectionItem? && Stored(s, i, connections)
    requires forall j | 0 <= j < i && s[j].ConnectionItem? :: s[j].Id() != id
    ensures Stored(WithConnectionId(s, i, id), i + 1,
      connections[id := ConnectionRecordOf(WithConnectionId(s, i, id)[i].connection)])
  {
  }

  /** The ids of the connection records a re-save deletes while it replays the
      removal list; a first save deletes none. */
  ghost function RemovedConnections(savedDiagramId: Option<int>, itemsToRemove: Option<seq<Item>>): set<int> {
    if savedDiagramId.Some? && itemsToRemove.Some? then IdSet(ConnectionIds(itemsToRemove.value)) else {}
  }

  /** `after` holds the entries of `before`, except that the keys `ids` may have been added or overwritten. */
  ghost predicate Grown<V>(before: map<int, V>, after: map<int, V>, ids: seq<int>) {
    && (forall k :: k in after <==> k in before || k in ids)
    && (forall k | k in before && k !in ids :: after[k] == before[k])
  }

  lemma GrownStep<V>(before: map<int, V>, after: map<int, V>, ids: seq<int>, id: int, v: V)
    requires Grown(before, after, ids)
    ensures Grown(before, after[id := v], ids + [id])
  {
  }

  /** Every id in `s` is below `next`: the store has handed it out or it is unsaved. */
  predicate IdsBelow(s: seq<Item>, next: int) {
    forall i | 0 <= i < |s| :: s[i].Id() < next
  }

  /** Taking items out keeps every id below the bound. */
  lemma WithoutIdsBelow(s: seq<Item>, xs: seq<Item>, next: int)
    requires IdsBelow(s, next)
    ensures IdsBelow(Without(s, xs), next)
  {
    var r := Without(s, xs);
    forall i | 0 <= i < |r| ensures r[i].Id() < next {
      WithoutMembers(s, xs, r[i]);
      var j :| 0 <= j < |s| && s[j] == r[i];
    }
  }

  /** Removing the next entry of the removal list from what the earlier entries left. */
  lemma RemoveNext(s: seq<Item>, xs: seq<Item>, k: nat)
    requires Separated(s) && k < |xs|
    ensures RemoveFirst(Without(s, xs[..k]), xs[k]) == Without(s, xs[..k + 1])
  {
    SeparatedDistinct(s);
    assert xs[..k + 1] == xs[..k] + [xs[k]];
    RemoveFirstWithout(s, xs[..k], xs[k]);
  }

  /** The id the store gives a connection differs from every other connection id already assigned. */
  lemma IdsBeside(s: seq<Item>, i: nat, id: int, next: int)
    requires Separated(s) && i < |s| && s[i].ConnectionItem?
    requires forall j | 0 <= j < |s| && s[j].ConnectionItem? :: s[j].Id() < next
    requires id == AssignedId(s[i].Id(), next)
    ensures forall j | 0 <= j < |s| && j != i && s[j].ConnectionItem? && s[j].Id() != Unsaved :: s[j].Id() != id
  {
    forall j | 0 <= j < |s| && j != i && s[j].ConnectionItem? && s[j].Id() != Unsaved ensures s[j].Id() != id {
      if j < i { assert Apart(s[j], s[i]); } else { assert Apart(s[i], s[j]); }
    }
  }

  class MainWindowViewModel {
    /** SavedDiagrams: the ids offered for loading. */
    var savedDiagrams: seq<int>
    /** SavedDiagramId: the diagram chosen for loading or re-saving, if any. */
    var savedDiagramId: Option<int>
    /** itemsToRemove: the removal list of the current session; null until a command sets it. */
    var itemsToRemove: Option<seq<Item>>
    /** DiagramViewModel.Items: the live items of the diagram on screen. */
    var items: seq<Item>
    /** IsBusy. */
    var isBusy: bool
    /** The storage service. */
    const storage: StorageService

    /** The session keeps its items apart and below the store's counter. It does
        not keep "every endpoint is a designer item of the diagram": no command
        here checks or relies on it, and only the load establishes it
        (LoadConnectionsShape, RenumberedWellFormed). */
    ghost predicate Valid()
      reads this, storage
    {
      && storage.Valid()
      && Distinct(savedDiagrams)
      && Separated(items)
      && IdsBelow(items, storage.nextId)
    }

    /** The constructor lists the id of every stored diagram; the diagram starts empty. */
    constructor (storage: StorageService)
      requires storage.Valid()
      ensures Valid()
      ensures this.storage == storage
      ensures |savedDiagrams| == |storage.FetchAllDiagram()|
      ensures forall i | 0 <= i < |savedDiagrams| :: savedDiagrams[i] == storage.FetchAllDiagram()[i].id
      ensures savedDiagramId == Option.None && itemsToRemove == Option.None && items == [] && !isBusy
    {
      var all := storage.FetchAllDiagram();
      var ids: seq<int> := [];
      var i := 0;
      while i < |all|
        invariant 0 <= i <= |all|
        invariant ids == storage.diagramIds[..i]
        invariant |ids| == i && forall j | 0 <= j < i :: ids[j] == all[j].id
      {
        ids := ids + [all[i].id];
        i := i + 1;
      }
      assert ids == storage.diagramIds;
      this.storage := storage;
      savedDiagrams := ids;
      savedDiagramId := Option.None;
      itemsToRemove := Option.None;
      items := [];
      isBusy := false;
    }

    /** The SavedDiagramId setter: a plain field write. */
    method SetSavedDiagramId(value: Option<int>)
      modifies this
      ensures savedDiagramId == value
      ensures savedDiagrams == old(savedDiagrams) && itemsToRemove == old(itemsToRemove)
      ensures items == old(items) && isBusy == old(isBusy)
    {
      savedDiagramId := value;
    }

    /** ExecuteDeleteSelectedItemsCommand: the removal list becomes the selection
        followed by every connection wired to a selected node, and each entry is
        then removed from the diagram. */
    method DeleteSelectedItems(selected: seq<Item>)
      requires Valid()
      modifies this
      ensures Valid()
      ensures itemsToRemove == Some(RemovalList(old(items), selected))
      ensures items == Without(old(items), RemovalList(old(items), selected))
      ensures savedDiagrams == old(savedDiagrams) && savedDiagramId == old(savedDiagramId)
      ensures isBusy == old(isBusy)
    {
      var also := ConnectionsToAlsoRemove(selected);
      var toRemove := selected + also;
      itemsToRemove := Some(toRemove);
      RemoveEach(toRemove);
    }

    /** connectionsToAlsoRemove: each connection of the diagram once per endpoint whose node is selected. */
    method ConnectionsToAlsoRemove(selected: seq<Item>) returns (also: seq<Item>)
      ensures also == AlsoRemove(items, selected)
    {
      also := [];
      var i := 0;
      while i < |items|
        invariant 0 <= i <= |items|
        invariant also == AlsoRemove(items[..i], selected)
      {
        var x := items[i];
        assert items[..i + 1][..i] == items[..i];
        if x.ConnectionItem? {
          if ItemsToDeleteHasConnector(selected, x.connection.source) {
            also := also + [x];
          }
          if ItemsToDeleteHasConnector(selected, x.connection.sink) {
            also := also + [x];
          }
        }
        i := i + 1;
      }
      assert items[..|items|] == items;
    }

    /** The removal loop: RemoveItemCommand, a List.Remove, for each entry in order. */
    method RemoveEach(toRemove: seq<Item>)
      requires Valid()
      modifies this
      ensures Valid()
      ensures items == Without(old(items), toRemove)
      ensures itemsToRemove == old(itemsToRemove)
      ensures savedDiagrams == old(savedDiagrams) && savedDiagramId == old(savedDiagramId)
      ensures isBusy == old(isBusy)
    {
      ghost var start := items;
      WithoutNothing(start);
      var k := 0;
      while k < |toRemove|
        invariant 0 <= k <= |toRemove|
        invariant items == Without(start, toRemove[..k])
        invariant itemsToRemove == old(itemsToRemove)
        invariant savedDiagrams == old(savedDiagrams) && savedDiagramId == old(savedDiagramId)
        invariant isBusy == old(isBusy)
      {
        RemoveNext(start, toRemove, k);
        items := RemoveFirst(items, toRemove[k]);
        k := k + 1;
      }
      assert toRemove[..|toRemove|] == toRemove;
      WithoutSeparated(start, toRemove);
      WithoutIdsBelow(start, toRemove, storage.nextId);
    }

    /** ExecuteCreateNewDiagramCommand: an empty removal list, no selected
        diagram, and an empty diagram. */
    method CreateNewDiagram()
      requires Valid()
      modifies this
      ensures Valid()
      ensures itemsToRemove == Some([]) && savedDiagramId == Option.None && items == []
      ensures savedDiagrams == old(savedDiagrams) && isBusy == old(isBusy)
    {
      itemsToRemove := Some([]);
      SetSavedDiagramId(Option.None);
      items := [];
    }

    /** DeleteFromDatabase: takes `x` out of the aggregate `d` (a connection also
        loses its stored record) and saves the aggregate; a node without exactly
        one record fails before any store call. */
    method DeleteFromDatabase(d: DiagramRecord, x: Item) returns (r: Result<DiagramRecord>)
      requires storage.Valid() && d.id in storage.diagrams && Distinct(d.connectionIds)
      modifies storage
      ensures storage.Valid()
      ensures r == Adjust(d, x)
      ensures r.Ok? ==> r.value.id == d.id && Distinct(r.value.connectionIds)
      ensures r.Ok? ==> storage.diagrams == old(storage.diagrams)[d.id := r.value]
      ensures r.Ok? && x.ConnectionItem? ==> storage.connections == old(storage.connections) - {x.Id()}
      ensures r.Ok? && x.NodeItem? ==> storage.connections == old(storage.connections)
      ensures r.Err? ==> storage.diagrams == old(storage.diagrams) && storage.connections == old(storage.connections)
      ensures storage.diagramIds == old(storage.diagramIds) && storage.nextId == old(storage.nextId)
      ensures storage.itemRecords == old(storage.itemRecords)
    {
      var adjusted: DiagramRecord;
      if x.ConnectionItem? {
        AdjustConnection(d, x);
        RemoveFirstDistinct(d.connectionIds, x.Id());
        adjusted := d.(connectionIds := RemoveFirst(d.connectionIds, x.Id()));
        storage.DeleteConnection(x.Id());
      } else {
        AdjustNode(d, x);
        var count := CountItemId(d.designerItems, x.Id());
        if count == 0 {
          return Err(NoMatch(x.Id()));
        } else if count > 1 {
          return Err(MultipleMatches(x.Id()));
        }
        var record := d.designerItems[FirstItemWithId(d.designerItems, x.Id())];
        adjusted := d.(designerItems := RemoveFirst(d.designerItems, record));
      }
      var _ := storage.SaveDiagram(adjusted);
      r := Ok(adjusted);
    }

    /** The deletion replay of a re-save: DeleteFromDatabase for each entry of
        `pending`, in order, each on the aggregate the previous one left. */
    method ReplayDeletions(d: DiagramRecord, pending: seq<Item>) returns (r: Result<DiagramRecord>)
      requires storage.Valid() && d.id in storage.diagrams && Distinct(d.connectionIds)
      modifies storage
      ensures storage.Valid()
      ensures r == AdjustAll(d, pending)
      ensures r.Ok? ==> r.value.id == d.id && Distinct(r.value.connectionIds)
      ensures r.Ok? && pending != [] ==> storage.diagrams == old(storage.diagrams)[d.id := r.value]
      ensures r.Ok? ==> storage.connections == old(storage.connections) - IdSet(ConnectionIds(pending))
      ensures pending == [] ==> storage.diagrams == old(storage.diagrams)
      ensures SameBut(old(storage.diagrams), storage.diagrams, d.id)
      ensures SubMap(storage.connections, old(storage.connections))
      ensures storage.diagramIds == old(storage.diagramIds) && storage.nextId == old(storage.nextId)
      ensures storage.itemRecords == old(storage.itemRecords)
    {
      var current := d;
      var i := 0;
      while i < |pending|
        invariant 0 <= i <= |pending|
        invariant storage.Valid() && current.id == d.id && d.id in storage.diagrams
        invariant Distinct(current.connectionIds)
        invariant AdjustAll(d, pending) == AdjustAll(current, pending[i..])
        invariant i == 0 ==> current == d && storage.diagrams == old(storage.diagrams)
        invariant i > 0 ==> storage.diagrams == old(storage.diagrams)[d.id := current]
        invariant storage.connections == old(storage.connections) - IdSet(ConnectionIds(pending[..i]))
        invariant storage.diagramIds == old(storage.diagramIds) && storage.nextId == old(storage.nextId)
        invariant storage.itemRecords == old(storage.itemRecords)
      {
        ghost var removed := IdSet(ConnectionIds(pending[..i]));
        var step := DeleteFromDatabase(current, pending[i]);
        ConnectionIdsNext(pending, i);
        if step.Err? {
          assert AdjustAll(current, pending[i..]) == Err(step.error);
          if i > 0 {
            SameButUpdate(old(storage.diagrams), d.id, current);
          }
          SubMapMinus(old(storage.connections), removed);
          return Err(step.error);
        }
        assert pending[i..][1..] == pending[i + 1..];
        if pending[i].ConnectionItem? {
          MapWithoutBoth(old(storage.connections), removed, {pending[i].Id()});
        }
        if i > 0 {
          MapUpdateTwice(old(storage.diagrams), d.id, current, step.value);
        }
        current := step.value;
        i := i + 1;
      }
      assert pending[..|pending|] == pending;
      assert pending[|pending|..] == [];
      if pending != [] {
        SameButUpdate(old(storage.diagrams), d.id, current);
      }
      SubMapMinus(old(storage.connections), IdSet(ConnectionIds(pending)));
      r := Ok(current);
    }

    /** The item-record loop of a save: one record per live item, each also written
        to the store. The id the store returns is dropped, so each unsaved item
        uses up one fresh id and keeps id 0. */
    method SaveItemRecords() returns (records: seq<DiagramItemData>)
      requires Valid()
      modifies storage
      ensures Valid()
      ensures records == SnapshotItems(items)
      ensures storage.itemRecords == old(storage.itemRecords) + records
      ensures storage.diagrams == old(storage.diagrams) && storage.diagramIds == old(storage.diagramIds)
      ensures storage.connections == old(storage.connections)
      ensures storage.nextId == old(storage.nextId) + FreshCount(items, true) + FreshCount(items, false)
    {
      records := [];
      var i := 0;
      while i < |items|
        invariant 0 <= i <= |items|
        invariant Valid()
        invariant records == SnapshotItems(items[..i])
        invariant storage.itemRecords == old(storage.itemRecords) + records
        invariant storage.diagrams == old(storage.diagrams) && storage.diagramIds == old(storage.diagramIds)
        invariant storage.connections == old(storage.connections)
        invariant storage.nextId == old(storage.nextId) + FreshCount(items[..i], true) + FreshCount(items[..i], false)
      {
        var item := DiagramItemData(items[i].Id(), items[i].Type());
        var _ := storage.SaveDiagramItem(item);
        assert items[..i + 1][..i] == items[..i];
        records := records + [item];
        i := i + 1;
      }
      assert items[..|items|] == items;
    }

    /** The connection loop of a save: each live connection's record is saved and
        the connection takes the id the store gave it. */
    method SaveConnectionRecords() returns (ids: seq<int>)
      requires Valid()
      modifies this, storage
      ensures Valid()
      ensures AllRenumbered(old(items), items, old(storage.nextId))
      ensures ids == ConnectionIds(items) && Distinct(ids)
      ensures forall i | 0 <= i < |items| && items[i].ConnectionItem? ::
        items[i].Id() in storage.connections && storage.connections[items[i].Id()] == ConnectionRecordOf(items[i].connection)
      ensures forall k :: k in storage.connections <==> k in old(storage.connections) || k in ids
      ensures forall k | k in old(storage.connections) && k !in ids :: storage.connections[k] == old(storage.connections)[k]
      ensures storage.diagrams == old(storage.diagrams) && storage.diagramIds == old(storage.diagramIds)
      ensures storage.itemRecords == old(storage.itemRecords)
      ensures storage.nextId == old(storage.nextId) + FreshCount(old(items), false)
      ensures savedDiagrams == old(savedDiagrams) && savedDiagramId == old(savedDiagramId)
      ensures itemsToRemove == old(itemsToRemove) && isBusy == old(isBusy)
    {
      var live;
      live, ids := SaveConnectionLoop(items);
      items := live;
    }

    /** The loop itself, over a local copy of the live items. */
    method SaveConnectionLoop(start: seq<Item>) returns (live: seq<Item>, ids: seq<int>)
      requires storage.Valid() && Separated(start) && IdsBelow(start, storage.nextId)
      modifies storage
      ensures storage.Valid() && Separated(live) && IdsBelow(live, storage.nextId)
      ensures AllRenumbered(start, live, old(storage.nextId))
      ensures ids == ConnectionIds(live) && Distinct(ids)
      ensures Stored(live, |live|, storage.connections)
      ensures Grown(old(storage.connections), storage.connections, ids)
      ensures storage.diagrams == old(storage.diagrams) && storage.diagramIds == old(storage.diagramIds)
      ensures storage.itemRecords == old(storage.itemRecords)
      ensures storage.nextId == old(storage.nextId) + FreshCount(start, false)
    {
      live := start;
      ghost var firstFresh := storage.nextId;
      ids := [];
      var i := 0;
      while i < |live|
        invariant 0 <= i <= |live| == |start|
        invariant storage.Valid() && Separated(live) && IdsBelow(live, storage.nextId)
        invariant firstFresh <= storage.nextId == firstFresh + FreshCount(start[..i], false)
        invariant forall j | 0 <= j < i :: Renumbered(start[j], live[j], firstFresh)
        invariant forall j | i <= j < |live| :: live[j] == start[j]
        invariant ids == ConnectionIds(live[..i])
        invariant Stored(live, i, storage.connections)
        invariant Grown(old(storage.connections), storage.connections, ids)
        invariant storage.diagrams == old(storage.diagrams) && storage.diagramIds == old(storage.diagramIds)
        invariant storage.itemRecords == old(storage.itemRecords)
      {
        assert start[..i + 1][..i] == start[..i];
        if live[i].ConnectionItem? {
          ghost var before, stored := live, storage.connections;
          var id;
          live, id := SaveConnectionAt(live, i);
          GrownStep(old(storage.connections), stored, ids, id, ConnectionRecordOf(live[i].connection));
          assert live[..i] == before[..i];
          assert live[..i + 1] == live[..i] + [live[i]];
          ids := ids + [id];
        } else {
          assert live[..i + 1] == live[..i] + [live[i]];
        }
        i := i + 1;
      }
      assert live[..|live|] == live;
      assert start[..|start|] == start;
      SeparatedConnectionIds(live);
    }

    /** One step of the connection loop of a save: the record of the `i`-th live
        item, a connection, is saved and the connection takes the id the store gave it. */
    method SaveConnectionAt(live: seq<Item>, i: nat) returns (renumbered: seq<Item>, id: int)
      requires storage.Valid() && Separated(live) && IdsBelow(live, storage.nextId)
      requires i < |live| && live[i].ConnectionItem? && Stored(live, i, storage.connections)
      modifies storage
      ensures storage.Valid() && Separated(renumbered) && IdsBelow(renumbered, storage.nextId)
      ensures storage.nextId == old(storage.nextId) + (if live[i].Id() == Unsaved then 1 else 0)
      ensures renumbered == WithConnectionId(live, i, id)
      ensures Renumbered(live[i], renumbered[i], old(storage.nextId))
      ensures Stored(renumbered, i + 1, storage.connections)
      ensures storage.connections == old(storage.connections)[id := ConnectionRecordOf(renumbered[i].connection)]
      ensures storage.diagrams == old(storage.diagrams) && storage.diagramIds == old(storage.diagramIds)
      ensures storage.itemRecords == old(storage.itemRecords)
    {
      var c := live[i].connection;
      ghost var next, stored := storage.nextId, storage.connections;
      id := storage.SaveConnection(ConnectionRecordOf(c));
      IdsBeside(live, i, id, next);
      RenumberKeepsSeparated(live, i, id);
      StoredStep(live, i, id, stored);
      renumbered := WithConnectionId(live, i, id);
    }

    /** ExecuteSaveDiagramCommand with its continuation. An empty diagram is
        refused before anything changes. Otherwise a re-save first replays the
        pending removals onto the stored aggregate, a first save starts a new
        one; either way the aggregate then gets one item record per live item
        and the store-assigned id of each live connection, and is saved. The
        continuation lists a new id and clears IsBusy; a failure leaves IsBusy set. */
    method SaveDiagram() returns (r: Result<int>)
      requires Valid()
      modifies this, storage
      ensures Valid()
      ensures savedDiagramId == old(savedDiagramId)
      ensures old(items) == [] ==>
        && r == Err(EmptyDiagram)
        && items == old(items) && itemsToRemove == old(itemsToRemove)
        && savedDiagrams == old(savedDiagrams) && isBusy == old(isBusy)
        && storage.diagrams == old(storage.diagrams) && storage.connections == old(storage.connections)
        && storage.diagramIds == old(storage.diagramIds) && storage.nextId == old(storage.nextId)
        && storage.itemRecords == old(storage.itemRecords)
      ensures old(items) != [] && old(savedDiagramId).None? ==> r.Ok? && r.value !in old(storage.diagrams)
      ensures old(items) != [] && old(savedDiagramId).Some? ==>
        var id := old(savedDiagramId).value;
        && (id !in old(storage.diagrams) ==> r == Err(NotFound(id)))
        && (id in old(storage.diagrams) && old(itemsToRemove).None? ==> r == Err(NoPendingRemovals))
        && (id !in old(storage.diagrams) || old(itemsToRemove).None? ==>
              storage.diagrams == old(storage.diagrams) && storage.connections == old(storage.connections))
        && (id in old(storage.diagrams) && old(itemsToRemove).Some? ==>
              var adjusted := AdjustAll(old(storage.diagrams)[id], old(itemsToRemove).value);
              && (adjusted.Err? ==> r == Err(adjusted.error))
              && (adjusted.Ok? ==> r == Ok(id)))
      ensures old(items) != [] && r.Err? ==>
        && isBusy && items == old(items) && itemsToRemove == old(itemsToRemove)
        && savedDiagrams == old(savedDiagrams)
        && storage.diagramIds == old(storage.diagramIds) && storage.nextId == old(storage.nextId)
        && storage.itemRecords == old(storage.itemRecords)
        && (old(savedDiagramId).Some? ==> SameBut(old(storage.diagrams), storage.diagrams, old(savedDiagramId).value))
        && SubMap(storage.connections, old(storage.connections))
      ensures r.Ok? ==>
        && !isBusy
        && itemsToRemove == Some([])
        && AllRenumbered(old(items), items, old(storage.nextId))
        && savedDiagrams == (if r.value in old(savedDiagrams) then old(savedDiagrams) else old(savedDiagrams) + [r.value])
        && storage.diagrams == old(storage.diagrams)[r.value := DiagramRecord(r.value, SnapshotItems(old(items)), ConnectionIds(items))]
        && storage.itemRecords == old(storage.itemRecords) + SnapshotItems(old(items))
        && Stored(items, |items|, storage.connections)
        && Grown(old(storage.connections) - RemovedConnections(old(savedDiagramId), old(itemsToRemove)),
                 storage.connections, ConnectionIds(items))
        && storage.diagramIds ==
             (if r.value in old(storage.diagrams) then old(storage.diagramIds) else old(storage.diagramIds) + [r.value])
        && storage.nextId == old(storage.nextId) + FreshCount(old(items), true) + 2 * FreshCount(old(items), false)
                             + (if old(savedDiagramId).None? then 1 else 0)
    {
      if items == [] {
        return Err(EmptyDiagram);
      }
      isBusy := true;
      var whole := PrepareAggregate();
      if whole.Err? {
        return Err(whole.error);
      }
      ghost var prepared := storage.diagrams;
      assert storage.connections == old(storage.connections) - RemovedConnections(savedDiagramId, itemsToRemove);
      var id := WriteAggregate(whole.value);
      ghost var record := storage.diagrams[id];
      if savedDiagramId.Some? {
        assert whole.value.id == savedDiagramId.value != Unsaved;
        assert id == savedDiagramId.value;
        SameButOverwrite(old(storage.diagrams), prepared, id, record);
      }
      if id !in savedDiagrams {
        savedDiagrams := savedDiagrams + [id];
      }
      isBusy := false;
      r := Ok(id);
    }

    /** The first part of the save task: the aggregate to fill. A re-save fetches
        the selected aggregate, replays the pending removals onto it and clears
        both of its lists; a first save starts from a new aggregate. */
    method PrepareAggregate() returns (r: Result<DiagramRecord>)
      requires Valid()
      modifies storage
      ensures Valid()
      ensures savedDiagramId.None? ==>
        && r == Ok(DiagramRecord(Unsaved, [], []))
        && storage.diagrams == old(storage.diagrams) && storage.connections == old(storage.connections)
      ensures savedDiagramId.Some? ==>
        var id := savedDiagramId.value;
        && (id !in old(storage.diagrams) ==> r == Err(NotFound(id)))
        && (id in old(storage.diagrams) && itemsToRemove.None? ==> r == Err(NoPendingRemovals))
        && (id !in old(storage.diagrams) || itemsToRemove.None? ==>
              storage.diagrams == old(storage.diagrams) && storage.connections == old(storage.connections))
        && (id in old(storage.diagrams) && itemsToRemove.Some? ==>
              var adjusted := AdjustAll(old(storage.diagrams)[id], itemsToRemove.value);
              && (adjusted.Err? ==> r == Err(adjusted.error))
              && (adjusted.Ok? ==> r == Ok(adjusted.value.(connectionIds := [], designerItems := []))))
        && (r.Ok? ==> id in storage.diagrams && r.value.id == id)
        && (r.Ok? ==> storage.connections == old(storage.connections) - RemovedConnections(savedDiagramId, itemsToRemove))
      ensures savedDiagramId.Some? ==> SameBut(old(storage.diagrams), storage.diagrams, savedDiagramId.value)
      ensures SubMap(storage.connections, old(storage.connections))
      ensures storage.diagramIds == old(storage.diagramIds) && storage.nextId == old(storage.nextId)
      ensures storage.itemRecords == old(storage.itemRecords)
    {
      if savedDiagramId.Some? {
        var currentSavedDiagramId := savedDiagramId.value;
        var fetched := storage.FetchDiagram(currentSavedDiagramId);
        if fetched.Err? {
          return Err(fetched.error);
        }
        var whole := fetched.value;
        if itemsToRemove.None? {
          return Err(NoPendingRemovals);
        }
        var adjusted := ReplayDeletions(whole, itemsToRemove.value);
        if adjusted.Err? {
          return Err(adjusted.error);
        }
        r := Ok(adjusted.value.(connectionIds := [], designerItems := []));
      } else {
        r := Ok(DiagramRecord(Unsaved, [], []));
      }
    }

    /** The rest of the save task: the removal list is emptied, the aggregate gets
        one item record per live item and the id of each live connection once
        saved, and the aggregate itself is saved. */
    method WriteAggregate(whole: DiagramRecord) returns (id: int)
      requires Valid()
      requires whole.designerItems == [] && whole.connectionIds == []
      requires whole.id == Unsaved || whole.id in storage.diagrams
      modifies this, storage
      ensures Valid()
      ensures whole.id != Unsaved ==> id == whole.id
      ensures whole.id == Unsaved ==> id !in old(storage.diagrams)
      ensures itemsToRemove == Some([])
      ensures AllRenumbered(old(items), items, old(storage.nextId))
      ensures storage.diagrams == old(storage.diagrams)[id := DiagramRecord(id, SnapshotItems(old(items)), ConnectionIds(items))]
      ensures storage.itemRecords == old(storage.itemRecords) + SnapshotItems(old(items))
      ensures Stored(items, |items|, storage.connections)
      ensures Grown(old(storage.connections), storage.connections, ConnectionIds(items))
      ensures storage.diagramIds == if id in old(storage.diagrams) then old(storage.diagramIds) else old(storage.diagramIds) + [id]
      ensures storage.nextId ==
        old(storage.nextId) + FreshCount(old(items), true) + 2 * FreshCount(old(items), false) + (if whole.id == Unsaved then 1 else 0)
      ensures savedDiagrams == old(savedDiagrams) && savedDiagramId == old(savedDiagramId) && isBusy == old(isBusy)
    {
      itemsToRemove := Some([]);
      var records := SaveItemRecords();
      var ids := SaveConnectionRecords();
      id := storage.SaveDiagram(whole.(designerItems := records, connectionIds := ids));
    }

    /** ExecuteLoadDiagramCommand with its continuation. IsBusy is set first;
        without a selected diagram the command stops there. Otherwise the
        removal list is emptied and the selected aggregate is rebuilt; on
        success it replaces the diagram and IsBusy is cleared. */
    method LoadDiagram() returns (r: Result<int>)
      requires Valid()
      modifies this
      ensures Valid()
      ensures savedDiagrams == old(savedDiagrams) && savedDiagramId == old(savedDiagramId)
      ensures isBusy <==> r.Err?
      ensures old(savedDiagramId).None? ==>
        r == Err(NoDiagramSelected) && items == old(items) && itemsToRemove == old(itemsToRemove)
      ensures old(savedDiagramId).Some? ==>
        var id := old(savedDiagramId).value;
        && itemsToRemove == Some([])
        && (id !in storage.diagrams ==> r == Err(NotFound(id)) && items == old(items))
        && (id in storage.diagrams ==>
              var g := Reconstruct(storage.diagrams, storage.connections, storage.diagrams[id]);
              && (g.Ok? ==> r == Ok(id) && items == g.value)
              && (g.Err? ==> r == Err(g.error) && items == old(items)))
    {
      isBusy := true;
      if savedDiagramId.None? {
        return Err(NoDiagramSelected);
      }
      itemsToRemove := Some([]);
      var fetched := storage.FetchDiagram(savedDiagramId.value);
      if fetched.Err? {
        return Err(fetched.error);
      }
      var whole := fetched.value;
      var nodes := LoadItemRecords(whole.designerItems);
      if nodes.Err? {
        return Err(nodes.error);
      }
      var loaded := LoadConnectionRecords(whole.connectionIds, nodes.value);
      if loaded.Err? {
        return Err(loaded.error);
      }
      ReconstructSeparated(storage.diagrams, storage.connections, whole, storage.nextId);
      items := loaded.value;
      isBusy := false;
      r := Ok(whole.id);
    }

    /** The item-record loop of a load: one new designer item per record, in order. */
    method LoadItemRecords(records: seq<DiagramItemData>) returns (r: Result<seq<Item>>)
      ensures r == LoadNodes(storage.diagrams, records, [])
    {
      var graph: seq<Item> := [];
      var i := 0;
      while i < |records|
        invariant 0 <= i <= |records|
        invariant LoadNodes(storage.diagrams, records, []) == LoadNodes(storage.diagrams, records[i..], graph)
      {
        var data := records[i];
        assert records[i..][0] == data && records[i..][1..] == records[i + 1..];
        var designerItem := storage.FetchDiagram(data.itemId);
        if designerItem.Err? {
          return Err(designerItem.error);
        }
        var viewModel := Instantiate(|graph|, data, designerItem.value.id);
        if viewModel.Err? {
          return Err(viewModel.error);
        }
        graph := graph + [NodeItem(viewModel.value)];
        i := i + 1;
      }
      assert records[i..] == [];
      r := Ok(graph);
    }

    /** The connection loop of a load: one new connection per id, in order, wired
        against the items built so far. */
    method LoadConnectionRecords(ids: seq<int>, nodes: seq<Item>) returns (r: Result<seq<Item>>)
      ensures r == LoadConnections(storage.connections, ids, nodes)
    {
      var graph := nodes;
      var i := 0;
      while i < |ids|
        invariant 0 <= i <= |ids|
        invariant LoadConnections(storage.connections, ids, nodes) == LoadConnections(storage.connections, ids[i..], graph)
      {
        assert ids[i..][0] == ids[i] && ids[i..][1..] == ids[i + 1..];
        var fetched := storage.FetchConnection(ids[i]);
        if fetched.Err? {
          return Err(fetched.error);
        }
        var connection := fetched.value;
        var sourceItem := ResolveEndpoint(graph, connection.sourceId);
        if sourceItem.Err? {
          return Err(sourceItem.error);
        }
        var sourceConnectorOrientation := ForConnector(connection.sourceOrientation);
        var sourceConnectorInfo := ResolveConnector(connection.id, sourceItem.value, sourceConnectorOrientation);
        if sourceConnectorInfo.Err? {
          return Err(sourceConnectorInfo.error);
        }
        var sinkItem := ResolveEndpoint(graph, connection.sinkId);
        if sinkItem.Err? {
          return Err(sinkItem.error);
        }
        var sinkConnectorOrientation := ForConnector(connection.sinkOrientation);
        var sinkConnectorInfo := ResolveConnector(connection.id, sinkItem.value, sinkConnectorOrientation);
        if sinkConnectorInfo.Err? {
          return Err(sinkConnectorInfo.error);
        }
        var connectionVM := Connection(|graph|, connection.id, sourceConnectorInfo.value, sinkConnectorInfo.value);
        graph := graph + [ConnectionItem(connectionVM)];
        i := i + 1;
      }
      assert ids[i..] == [];
      r := Ok(graph);
    }
  }
}
