# FlowDesigner diagram persistence engine, in Dafny

This project models the save / load / delete engine of FlowDesigner's main
window view model (`MainWindowViewModel`). The engine does four things:

- It turns the live item list of a diagram into a persisted aggregate. The
  aggregate (`DiagramItem`) holds a list of item records (`DesignerItems`) and
  the ids of the stored connection records (`ConnectionIds`).
- It rebuilds a live item list from a stored aggregate.
- It extends a user's selection with the connections wired to selected nodes
  before removing everything from the diagram.
- It replays those removals onto the stored aggregate at the next save.

Modules, one per part of the engine:

- `Orientations`: the two connector-side enumerations and the switches between
  them.
- `Diagram`: the entities. These are live nodes and connections (one `Item`
  datatype, since both sit in one list), connector infos, the item, connection
  and diagram records, the node kinds, the errors and `Result`/`Option`.
- `Lists`: `List<T>.Remove` (drop the first occurrence) and removing a batch.
- `Storage`: the storage service as a class. It holds maps id → record and one
  fresh-id counter.
- `Resolution`: `GetConnectorDataItem` and `GetFullConnectorInfo`.
- `Cascade`: `ItemsToDeleteHasConnector` and the removal list the delete
  command builds.
- `Aggregate`: how `DeleteFromDatabase` changes an aggregate, and replaying a
  whole removal list.
- `Snapshot`: the item records and connection records a save writes.
- `Loader`: the records-to-items rebuild a load performs.
- `Session`: the class `MainWindowViewModel`. It has the session fields
  `savedDiagrams`, `savedDiagramId`, `itemsToRemove` and `isBusy`, the live
  items, and the storage service. Its methods are the commands, with their
  loops, proved against the functions of the modules above.
- `Intended`: the corrected save/load pair and its round-trip proof (see
  Findings). The corrected save gives each new item the id the store hands
  out, nodes included.

Object identity of view models is modelled by a `handle` field, because
`List.Contains` and `List.Remove` compare references. `Single` (lines 302 and
351) instead tests a condition on `Id`, and the model does the same. Two items of
one diagram never share a handle. A load gives each new object its position as
its handle. The reflective type tags (`GetType`, `Activator.CreateInstance`)
become the closed datatype `ItemType`. It is a designer-item kind
(`SettingsDesignerItem`, `PersistDesignerItem`) or the connection view-model
type. Id 0 stands for an id the store has not assigned yet.

The save and load tasks and their continuations run in sequence. A
continuation runs only when its task succeeds, as `OnlyOnRanToCompletion`
says. A failing task is an `Err` result. The message-box calls become that
result: the validation errors are `EmptyDiagram` and `NoDiagramSelected`, and
a successful save returns the diagram id it reports.

## Model

| member | source | states |
|---|---|---|
| Orientations.FromConnector | FlowDesigner/FlowDesigner/ViewModels/MainWindowViewModel.cs:306-319 | Left and Right encode to the same side; anything else, and only that, encodes to None |
| Orientations.ForConnector | FlowDesigner/FlowDesigner/ViewModels/MainWindowViewModel.cs:321-334 | Left and Right decode to the same side; anything else, and only that, decodes to None |
| Orientations.RoundTrip | FlowDesigner/FlowDesigner/ViewModels/MainWindowViewModel.cs:306-334 | decoding undoes encoding and encoding undoes decoding on every value, so the two switches are inverse bijections |
| Resolution.ResolveConnector | FlowDesigner/FlowDesigner/ViewModels/MainWindowViewModel.cs:280-292 | a Left side yields the item's left connector and Right its right connector; any other side fails with an error naming the connection id; a successful result is never on side None |
| Resolution.ResolveEndpoint | FlowDesigner/FlowDesigner/ViewModels/MainWindowViewModel.cs:299-304 | succeeds exactly when one item of the graph carries the id, returning that item cast to a designer item; no match and several matches are distinct errors |
| Resolution.EndpointIsUnique | FlowDesigner/FlowDesigner/ViewModels/MainWindowViewModel.cs:302 | a resolved endpoint is the one item with that id: every other position carries another id |
| Lists.RemoveFirstSplit | FlowDesigner/FlowDesigner/ViewModels/MainWindowViewModel.cs:345 | `List.Remove` cuts out exactly the first occurrence and keeps the rest in order |
| Lists.RemoveFirstWithout | FlowDesigner/FlowDesigner/ViewModels/MainWindowViewModel.cs:130-133 | on a list without repeats, removing entries one by one removes every listed element and nothing else |
| Lists.WithoutMembers | FlowDesigner/FlowDesigner/ViewModels/MainWindowViewModel.cs:130-133 | an element survives the batch removal exactly when it was in the list and not in the removal list |
| Cascade.ItemsToDeleteHasConnector | FlowDesigner/FlowDesigner/ViewModels/MainWindowViewModel.cs:336-339 | true exactly when the removal list holds the node that owns the connector |
| Cascade.AlsoRemoveMembers | FlowDesigner/FlowDesigner/ViewModels/MainWindowViewModel.cs:115-128 | the cascade adds exactly the connections of the diagram whose source or sink node is selected, and nothing else |
| Cascade.AlsoRemoveCount | FlowDesigner/FlowDesigner/ViewModels/MainWindowViewModel.cs:117-128 | a connection is added once per selected endpoint: never with none, once with one, twice when both its nodes are selected |
| Cascade.CascadeComplete | FlowDesigner/FlowDesigner/ViewModels/MainWindowViewModel.cs:114-133 | after the removal list is taken out, no remaining connection is wired to a selected node, and every unselected node remains |
| Aggregate.AdjustConnection | FlowDesigner/FlowDesigner/ViewModels/MainWindowViewModel.cs:343-346 | removing a connection drops the first occurrence of its id from ConnectionIds and leaves DesignerItems and the aggregate id unchanged |
| Aggregate.AdjustNode | FlowDesigner/FlowDesigner/ViewModels/MainWindowViewModel.cs:348-353 | removing a node succeeds exactly when one record carries its id; that record is cut out, no record with the id remains, and ConnectionIds is unchanged; zero or several matches are errors |
| Aggregate.AdjustAllKeeps | FlowDesigner/FlowDesigner/ViewModels/MainWindowViewModel.cs:165-168 | replaying a removal list keeps the aggregate's id and keeps its connection ids free of repeats |
| Snapshot.SnapshotItemsAt | FlowDesigner/FlowDesigner/ViewModels/MainWindowViewModel.cs:181-186 | DesignerItems gets one record per live item in order, with the item's id; connections get a record too, tagged with the connection type |
| Snapshot.ConnectionRecordOf | FlowDesigner/FlowDesigner/ViewModels/MainWindowViewModel.cs:190-198 | the saved connection record keeps the connection id and its endpoints' node ids, and its sides decode back to the live sides |
| Snapshot.ConnectionIdsMembers | FlowDesigner/FlowDesigner/ViewModels/MainWindowViewModel.cs:188-201 | ConnectionIds lists exactly the ids of the live connections |
| Snapshot.SeparatedConnectionIds | FlowDesigner/FlowDesigner/ViewModels/MainWindowViewModel.cs:200-201 | once every live connection has a store-assigned id, ConnectionIds has no repeats |
| Loader.Instantiate | FlowDesigner/FlowDesigner/ViewModels/MainWindowViewModel.cs:245-246 | a record yields a node of its kind with the given id exactly when its type is a designer-item type; otherwise it is an error naming the record's item id |
| Loader.LoadNodesShape | FlowDesigner/FlowDesigner/ViewModels/MainWindowViewModel.cs:242-251 | the item loop succeeds exactly when every ItemId names a stored diagram and every type is a designer-item type; it then appends one node per record, in order, whose id is the fetched diagram's id |
| Loader.LoadConnectionsShape | FlowDesigner/FlowDesigner/ViewModels/MainWindowViewModel.cs:253-266 | the connection loop appends one connection per id, in order, wired from the decoded source side of the unique item with the source id to the decoded sink side of the unique item with the sink id; no rebuilt connector is on side None |
| Loader.LoadConnectionWired | FlowDesigner/FlowDesigner/ViewModels/MainWindowViewModel.cs:255-264 | a single rebuilt connection is wired as its stored record says |
| Loader.ReconstructAt | FlowDesigner/FlowDesigner/ViewModels/MainWindowViewModel.cs:239-266 | a rebuilt list has one entry per item record and per connection id; position i is a node exactly when i is below the number of item records, so every node precedes every connection; a node carries the id of the aggregate fetched under its record's item id; a connection carries the id of its stored record |
| Loader.ReconstructSeparated | FlowDesigner/FlowDesigner/ViewModels/MainWindowViewModel.cs:239-266 | a rebuilt list consists of new objects, its connections carry distinct ids listed in the aggregate, and every id it holds is below the store's counter |
| Storage.StorageService.FetchAllDiagram | FlowDesigner/FlowDesigner/ViewModels/MainWindowViewModel.cs:26-29 | every stored diagram once, in the order first saved |
| Storage.StorageService.FetchDiagram | FlowDesigner/FlowDesigner/ViewModels/MainWindowViewModel.cs:161 | the stored aggregate with the id, exactly as stored, or NotFound |
| Storage.StorageService.FetchConnection | FlowDesigner/FlowDesigner/ViewModels/MainWindowViewModel.cs:255 | the stored connection record with the id, exactly as stored, or NotFound |
| Storage.StorageService.SaveDiagram | FlowDesigner/FlowDesigner/ViewModels/MainWindowViewModel.cs:204 | stores the aggregate under its own id, or under a fresh one when it has none, and returns that id |
| Storage.StorageService.SaveDiagramItem | FlowDesigner/FlowDesigner/ViewModels/MainWindowViewModel.cs:184 | appends the item record and returns the id the store gives it: its own id, or a fresh one from the counter when it has none; diagrams and connection records are unchanged |
| Storage.StorageService.SaveConnection | FlowDesigner/FlowDesigner/ViewModels/MainWindowViewModel.cs:200 | stores the connection record under its own id, or under a fresh one, and returns that id |
| Storage.StorageService.DeleteConnection | FlowDesigner/FlowDesigner/ViewModels/MainWindowViewModel.cs:346 | drops the connection record and changes nothing else |
| Session.MainWindowViewModel.constructor | FlowDesigner/FlowDesigner/ViewModels/MainWindowViewModel.cs:20-38 | savedDiagrams lists the id of every stored diagram; nothing is selected, the removal list is null, the diagram is empty and the session is not busy |
| Session.MainWindowViewModel.SetSavedDiagramId | FlowDesigner/FlowDesigner/ViewModels/MainWindowViewModel.cs:96-110 | the setter writes SavedDiagramId and nothing else |
| Session.MainWindowViewModel.DeleteSelectedItems | FlowDesigner/FlowDesigner/ViewModels/MainWindowViewModel.cs:112-134 | itemsToRemove becomes the selection followed by the cascade; the diagram loses exactly those entries; the session fields are unchanged |
| Session.MainWindowViewModel.ConnectionsToAlsoRemove | FlowDesigner/FlowDesigner/ViewModels/MainWindowViewModel.cs:115-128 | the loop builds the cascade list (see Cascade.AlsoRemoveMembers and Cascade.AlsoRemoveCount) |
| Session.MainWindowViewModel.RemoveEach | FlowDesigner/FlowDesigner/ViewModels/MainWindowViewModel.cs:130-133 | removing each entry in turn leaves the diagram without every listed entry and keeps its items apart |
| Session.MainWindowViewModel.CreateNewDiagram | FlowDesigner/FlowDesigner/ViewModels/MainWindowViewModel.cs:136-142 | empty removal list, no selected diagram, empty diagram; savedDiagrams and IsBusy unchanged |
| Session.MainWindowViewModel.DeleteFromDatabase | FlowDesigner/FlowDesigner/ViewModels/MainWindowViewModel.cs:341-355 | the aggregate changes as Aggregate.AdjustConnection / AdjustNode state and is saved under its id; a connection's record is deleted; a node without exactly one record fails before any store call |
| Session.MainWindowViewModel.ReplayDeletions | FlowDesigner/FlowDesigner/ViewModels/MainWindowViewModel.cs:165-168 | the stored aggregate ends as the whole removal list replayed in order; the connection records of the removed connections are gone and no other record changes |
| Session.MainWindowViewModel.SaveItemRecords | FlowDesigner/FlowDesigner/ViewModels/MainWindowViewModel.cs:181-186 | one item record per live item, in order, each also written to the store; the returned id is dropped, so the counter advances by one per unsaved item while the item keeps id 0 |
| Session.MainWindowViewModel.SaveConnectionRecords | FlowDesigner/FlowDesigner/ViewModels/MainWindowViewModel.cs:188-202 | each live connection takes the id the store gave its record, a persisted one keeping its own id; the list returned is the live connections' ids, with no repeats; each record is stored under its connection's id |
| Session.MainWindowViewModel.SaveConnectionLoop | FlowDesigner/FlowDesigner/ViewModels/MainWindowViewModel.cs:188-202 | the loop of SaveConnectionRecords: only connection ids change, and the store gains exactly the listed records |
| Session.MainWindowViewModel.SaveConnectionAt | FlowDesigner/FlowDesigner/ViewModels/MainWindowViewModel.cs:190-201 | one connection's record is saved and the connection takes its new id, which no other saved connection carries |
| Session.MainWindowViewModel.SaveDiagram | FlowDesigner/FlowDesigner/ViewModels/MainWindowViewModel.cs:144-221 | an empty diagram is refused and the store is left entirely unchanged; a missing selected aggregate or a missing removal list also leaves every stored record unchanged; otherwise each fetch and replay failure is its own error and leaves IsBusy set; a failed replay changes no stored diagram but the selected one and adds no connection record; on success the aggregate holds one record per live item and each live connection's assigned id, the removal list is empty, the id is appended to savedDiagrams only when absent, and IsBusy is cleared; the stored connection records are the old ones minus those of the connections a re-save replayed as removed, plus one per live connection; the diagram id list grows only by a new id, and the id counter advances by one per unsaved node (its item record), two per unsaved connection (its item record and its connection record), and one for a first save |
| Session.MainWindowViewModel.PrepareAggregate | FlowDesigner/FlowDesigner/ViewModels/MainWindowViewModel.cs:158-176 | a first save starts from a new aggregate and touches no record; a re-save whose aggregate is missing or whose removal list is null touches no record; otherwise it fetches the selected aggregate, replays the removals onto it, deletes exactly the removed connections' records, and then clears both lists |
| Session.MainWindowViewModel.WriteAggregate | FlowDesigner/FlowDesigner/ViewModels/MainWindowViewModel.cs:178-205 | the removal list is emptied and the aggregate is saved with the live item records and connection ids, under its own id or a fresh one; the connection records gain exactly the live connections' ids and keep every other record; the diagram id list grows only by a new id, and the id counter advances by one per unsaved item in the item loop, one per unsaved connection in the connection loop and one for a new aggregate |
| Session.MainWindowViewModel.LoadDiagram | FlowDesigner/FlowDesigner/ViewModels/MainWindowViewModel.cs:223-277 | IsBusy is set first and stays set on every failure, including no selected diagram, which makes no store call; otherwise the removal list is emptied and, on success, the diagram becomes the stored aggregate rebuilt (Loader) |
| Session.MainWindowViewModel.LoadItemRecords | FlowDesigner/FlowDesigner/ViewModels/MainWindowViewModel.cs:242-251 | the item loop computes the node phase of the rebuild (Loader.LoadNodesShape) |
| Session.MainWindowViewModel.LoadConnectionRecords | FlowDesigner/FlowDesigner/ViewModels/MainWindowViewModel.cs:253-266 | the connection loop computes the connection phase of the rebuild (Loader.LoadConnectionsShape) |
| Intended.LoadNodesIntendedShape | FlowDesigner/FlowDesigner/ViewModels/MainWindowViewModel.cs:242-251 | with the id taken from the item record, the item loop rebuilds one node per designer record with that record's id and kind |
| Intended.RoundTripIntended | FlowDesigner/FlowDesigner/ViewModels/MainWindowViewModel.cs:181-266 | for a diagram whose items all carry distinct ids, loading its designer-item records and connection ids with the corrected load gives back its nodes, then its connections, each with the same id, kind and wiring by side; only object identities are new |
| Intended.SavedConnectionBlocksLoad | FlowDesigner/FlowDesigner/ViewModels/MainWindowViewModel.cs:181-186 | as written, a diagram saved with any connection fails to load |
| Intended.ItemIdFetchedAsDiagram | FlowDesigner/FlowDesigner/ViewModels/MainWindowViewModel.cs:244-246 | as written, one saved node whose id names no stored diagram fails to load with NotFound; the intended load gives it back |
| Intended.RenumberedKeeps | FlowDesigner/FlowDesigner/ViewModels/MainWindowViewModel.cs:183-201 | the corrected save keeps every item, its kind and its wiring by side; an item keeps an id it already had and otherwise gets a fresh one, never 0 |
| Intended.RenumberedWellFormed | FlowDesigner/FlowDesigner/ViewModels/MainWindowViewModel.cs:183-201 | after the corrected save no two items share an id and every connection is still wired to designer items of the diagram |
| Intended.RoundTripIntendedSave | FlowDesigner/FlowDesigner/ViewModels/MainWindowViewModel.cs:181-266 | with all three corrections, for any live diagram, new items without ids included, loading what the save writes gives back the saved diagram, nodes first, each item with the same id, kind and wiring by side |
| Intended.UnsavedNodesCollide | FlowDesigner/FlowDesigner/ViewModels/MainWindowViewModel.cs:183-184 | as written, two new nodes joined by a connection both keep id 0, so even the corrected load fails with MultipleMatches(0); the corrected save accepts that diagram |

## Left out

- Asynchrony: `Task.Factory.StartNew` and `ContinueWith` become sequential calls. A continuation runs only on success. A race between the task and the session thread is not modelled.
- Property-change notification (`NotifyChanged`): the setters are plain field writes.
- The message box: errors are `Err` results. The information messages after a save or load are not modelled beyond the returned id.
- The storage service implementation is not part of this model. It is an abstract store with maps id → record and one fresh-id counter. Every save, item records included, takes a fresh id from that counter for a record that has none. The item-record log keeps each record as passed. Storage I/O failures are not modelled, beyond a fetch of a missing id returning NotFound.
- `ApplicationServicesProvider` (the service locator): the storage service is a constructor parameter.
- `DiagramViewModel` is not part of this model. Its `RemoveItemCommand` is modelled as `List.Remove` on the item list. Its `CreateNewDiagramCommand` is modelled as clearing the list. `SelectedItems` is a parameter of the delete command.
- Aliasing: the delete command assigns the list `SelectedItems` returns to `itemsToRemove` (line 114). If `SelectedItems` returns the live selection list, `AddRange` (line 129) also grows the selection. The model copies the selection into `itemsToRemove`, so it does not capture that possible side effect.
- Partially created connectors: every connection is modelled with a fully created sink connector. The failing `as FullyCreatedConnectorInfo` cast at line 190 is not modelled.
- Node ids: the id `SaveDiagramItem` returns is discarded (line 184), so a new node keeps id 0 although a fresh id was taken for it. The session class keeps this and does not assign node ids; the consequence is the third row under Findings.
- Intended.RoundTripIntendedSave: the store's fresh ids are modelled as one counter starting above every id already in the diagram; the store's own allocation policy is not part of this model.
- Geometry (lines 248-249) is commented out and is not modelled.
- Session.MainWindowViewModel.SaveDiagram: a null `itemsToRemove` on a re-save, which throws in the source, is the error `NoPendingRemovals`.
- Session.MainWindowViewModel.LoadDiagram: the diagram's `Parent` back-reference (line 247) is not modelled.

## Findings

The session class models the three items below as written. The corrected
save/load pair lives in module `Intended`, with the round trip proved about it
(`Intended.RoundTripIntendedSave`).

| source | as written | input that shows it | evidently intended | confidence | as-written member | corrected member |
|---|---|---|---|---|---|---|
| FlowDesigner/FlowDesigner/ViewModels/MainWindowViewModel.cs:181-186 | the save loop writes an item record for every live item, connections included | a diagram with two nodes and one connection between them: its saved DesignerItems holds a connection-typed record, which the load cannot instantiate as a designer item (line 245), so the diagram never loads | item records for designer items only (`OfType<DesignerItemViewModelBase>`) | medium, not executed | Intended.SavedConnectionBlocksLoad | Intended.RoundTripIntendedSave |
| FlowDesigner/FlowDesigner/ViewModels/MainWindowViewModel.cs:244-246 | the load takes each node's id from `FetchDiagram(ItemId)`, a diagram aggregate, not the item record | one saved node with id 7 and no stored diagram with id 7: the load fails with NotFound | take the id from the item record (`FetchDiagramItem`, or `ItemId` itself) | medium, not executed | Intended.ItemIdFetchedAsDiagram | Intended.RoundTripIntendedSave |
| FlowDesigner/FlowDesigner/ViewModels/MainWindowViewModel.cs:183-184 | the save records each node's current `Id` and drops the id `SaveDiagramItem` returns, so a new node keeps id 0 | a new diagram with two nodes joined by one connection, saved for the first time: both nodes keep id 0, and the endpoint lookup by id (line 302) matches two items, so the diagram cannot load; the node lookup by id at line 351 would match both too | each new node takes the id the store gives its item record, and the record added to `DesignerItems` carries that id (assign `model.Id` from `SaveDiagramItem`, then build the record from it, or set `item.ItemId`) | medium, not executed | Intended.UnsavedNodesCollide | Intended.RoundTripIntendedSave |
