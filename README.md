# TreeMapAdmin: verified model of the tree-list client logic

TreeMapAdmin is an Ionic/React client for an urban tree census backed by a
Firebase realtime database. This project models, in Dafny, the three pieces of
logic the client has besides screens and SDK calls, and proves their behaviour:

- the denormalising join of `src/hooks/useFetchTrees.ts`: a species snapshot and
  a sectors snapshot become lookup tables (the species projected to six fields,
  the sectors to name and polygon), and every trees snapshot becomes a list of
  `Tree` records: `id` set to the snapshot key, every stored field kept,
  `species`/`sector` looked up by foreign key and absent when the key does not
  resolve. The list is published into the screen only for a non-null trees snapshot;
- `countTreesByUser` of `src/pages/Statistics.tsx`: a group-and-count fold over
  the trees by `createdBy`, and its conversion to a list of rows;
- the state rules of `src/pages/TreeList.tsx`: the species filter, the species
  selector list loaded by a one-shot read, and the confirm/cancel/delete flow with
  its local removal and error alert.

Layout: `optional.dfy` (Option), `snapshots.dfy` (a database snapshot as its
`Object.entries` list, `Object.fromEntries`, property lookup), `tree_model.dfy`
(the records of `src/models/Tree.ts`), `fetch_trees.dfy`, `statistics.dfy`,
`tree_list.dfy` (one module per source file).

Modelling choices:

- A snapshot's `val()` is `Option<Entries<V>>`: `None` is `null`, `Some(s)` is
  the object listed in enumeration order. Lemmas that need it assume distinct
  keys, which every object has.
- The code tests `if (dataItem)`; an empty object `{}` is truthy, so `Some([])`
  publishes an empty list. The database represents an empty collection as
  `null`, which publishes nothing.
- A stored record may carry fields the view does not name. For species and trees
  these are kept in an `extra` map. A stored tree's own `id` is `storedId`; the
  join overrides it with the key, because `id: key` follows `...tree`. A stored
  species `id` does the opposite in the selector list: `...speciesData[key]`
  follows `id: key`, so the stored id overrides the key.
- JavaScript numbers (diameter, latitude, longitude, polygon vertices) are the
  opaque type `Float`; they are only copied.
- The hook's state (`TreeFeed`) holds the current species table, the current
  sector table and the list last given to `setTrees`. Each callback is a method
  specified by the pure transition `Step`, and `Run` applies many callbacks in order.
- `remove` and `get` are external calls. Their outcome is a parameter:
  `RemoveOutcome` for `remove`, `SpeciesRead` for `get`.
- `if (treeToDelete)` is false for the empty string as well as for `null`, so a
  pending id `""` is never deleted (`PendingDelete`).
- The `reduce` accumulator is a JavaScript object, modelled as `Tally`: the
  keys in insertion order plus a map of counts.
- A species or sectors emission only replaces that table. The list is
  re-joined when the nested trees listener fires next (`NestedPass`), not from
  the table update by itself.

## Model

| member | source | states |
|---|---|---|
| `Snapshots.FromEntries` | src/hooks/useFetchTrees.ts:18-30 | `Object.fromEntries` has exactly the snapshot's keys |
| `Snapshots.FromEntriesLookup` | src/hooks/useFetchTrees.ts:18-30 | with distinct keys, each entry's key maps to that entry's own value |
| `Snapshots.DistinctKeyCount` | src/hooks/useFetchTrees.ts:40-48 | distinct keys: as many table keys as snapshot entries |
| `Snapshots.ProjectedTable` | src/hooks/useFetchTrees.ts:18-30 | a table built from projected entries has the snapshot's keys and, with distinct keys, one entry per key holding the projection of that key's value |
| `Snapshots.Lookup` | src/hooks/useFetchTrees.ts:63-64 | `table[key] \|\| undefined` is present exactly when the key is in the table, and then it is the table's value |
| `FetchTrees.SpeciesTable` | src/hooks/useFetchTrees.ts:13-31 | a null snapshot gives the empty table; otherwise one entry per species key, holding the six projected fields of that key's record |
| `FetchTrees.SectorTable` | src/hooks/useFetchTrees.ts:34-49 | a null snapshot gives the empty table; otherwise one entry per sector key, holding that record's name and polygon |
| `FetchTrees.Join` | src/hooks/useFetchTrees.ts:56-66 | one record per snapshot entry, in order; `id` is the key, all stored fields are kept, species/sector are present iff their foreign key is in the table and then equal the table's entry |
| `FetchTrees.JoinIdsAreKeys` | src/hooks/useFetchTrees.ts:56-66 | the published ids are the snapshot keys in enumeration order, so they are distinct and are exactly the key set |
| `FetchTrees.DeletedTreeAbsent` | src/hooks/useFetchTrees.ts:56-66 | a key missing from a non-null trees snapshot has no entry in the list joined from it |
| `FetchTrees.LastDeletionLeavesStaleTree` | src/hooks/useFetchTrees.ts:55-71 | after a one-tree snapshot and then a null snapshot (the last tree deleted), the published list still holds that tree |
| `FetchTrees.SpeciesResolvedFromSnapshot` | src/hooks/useFetchTrees.ts:13-31 | against a species snapshot's table, a tree's species is absent iff the snapshot is null or lacks its `speciesId`, and otherwise it is the projection of that entry |
| `FetchTrees.SectorResolvedFromSnapshot` | src/hooks/useFetchTrees.ts:34-49 | the same for sectors and `sectorId` |
| `FetchTrees.TajiboExample` | src/hooks/useFetchTrees.ts:52-66 | worked example: tree t1 of species s1 "Tajibo" and sector k1 "Centro" joins to one record with both; with a null species snapshot its species is absent |
| `FetchTrees.Step` | src/hooks/useFetchTrees.ts:13-83 | a listen error changes nothing; only a non-null trees value changes the published list, and it then has one entry per tree; species/sectors values replace only their own table |
| `FetchTrees.ListenErrorsChangeNothing` | src/hooks/useFetchTrees.ts:73-83 | any sequence of listen errors, on any channel, leaves tables and published list unchanged |
| `FetchTrees.PublishOnlyOnTreesValue` | src/hooks/useFetchTrees.ts:55-71 | without a non-null trees value, the published list stays what it was |
| `FetchTrees.TablesAreLatest` | src/hooks/useFetchTrees.ts:15-49 | after any callbacks, each table is the one built from the most recent value on its channel, or the initial one if none came |
| `FetchTrees.PublishedJoinUsesLatestTables` | src/hooks/useFetchTrees.ts:52-69 | a published list is the join against the most recent species and sectors tables |
| `FetchTrees.NestedPassPublishesJoin` | src/hooks/useFetchTrees.ts:13-75 | one species → sectors → trees pass leaves precisely the two new tables and the join of the three snapshots |
| `FetchTrees.RedeliveryIsIdempotent` | src/hooks/useFetchTrees.ts:13-75 | delivering the same three snapshots again publishes a structurally equal list |
| `FetchTrees.TreeFeed.constructor` | src/hooks/useFetchTrees.ts:15-36 | before any emission both tables are empty and the screen holds its initial list |
| `FetchTrees.TreeFeed.OnSpecies` | src/hooks/useFetchTrees.ts:13-31 | the species callback performs `Step` for a species value |
| `FetchTrees.TreeFeed.OnSectors` | src/hooks/useFetchTrees.ts:34-49 | the sectors callback performs `Step` for a sectors value |
| `FetchTrees.TreeFeed.OnTrees` | src/hooks/useFetchTrees.ts:52-72 | the trees callback publishes exactly when the snapshot is non-null, and performs `Step` |
| `FetchTrees.TreeFeed.OnListenError` | src/hooks/useFetchTrees.ts:73-83 | an error callback leaves the whole state unchanged |
| `Statistics.TallyOf` | src/pages/Statistics.tsx:18-21 | the accumulator lists each key once, its keys are exactly the distinct `createdBy` values, and every count is positive |
| `Statistics.TallyCounts` | src/pages/Statistics.tsx:19 | each stored count equals the number of trees with that `createdBy` |
| `Statistics.TallySum` | src/pages/Statistics.tsx:18-21 | the stored counts add up to the number of trees |
| `Statistics.TallyOnlyReadsCreatedBy` | src/pages/Statistics.tsx:19 | trees lists with equal `createdBy` sequences fold to the same accumulator |
| `Statistics.StatsOf` | src/pages/Statistics.tsx:22-25 | for a well-formed accumulator: one row per key, naming each key once with the count stored under it; the rows name exactly the keys and add up to the stored counts |
| `Statistics.StatsRows` | src/pages/Statistics.tsx:18-25 | every row's count is that user's number of trees, and at least 1 |
| `Statistics.StatsUsers` | src/pages/Statistics.tsx:22-25 | the rows name each accumulator key exactly once |
| `Statistics.StatsCardinality` | src/pages/Statistics.tsx:18-25 | there are as many rows as distinct `createdBy` values |
| `Statistics.StatsTotal` | src/pages/Statistics.tsx:18-25 | the rows' counts add up to the number of trees |
| `Statistics.UserStatistics` | src/pages/Statistics.tsx:17-28 | one row per distinct `createdBy`; each count is that user's tree count and at least 1; counts sum to the number of trees; empty input gives no rows |
| `Statistics.StatisticsOnlyReadCreatedBy` | src/pages/Statistics.tsx:19 | changing any tree field other than `createdBy` leaves the statistics unchanged |
| `Statistics.Increment` | src/pages/Statistics.tsx:19 | the in-place update `acc[u] = (acc[u] \|\| 0) + 1` is one fold step, appending a new key at the end |
| `Statistics.CountTreesByUser` | src/pages/Statistics.tsx:17-28 | the imperative fold returns `UserStatistics`: per-user counts that are exact and total the number of trees |
| `TreeList.Filter` | src/pages/TreeList.tsx:83 | the filtered list is no longer than its input |
| `TreeList.FilterMultiplicity` | src/pages/TreeList.tsx:83 | the filter keeps exactly the accepted elements, each as often as it occurs in the input |
| `TreeList.FilterAppend` | src/pages/TreeList.tsx:83 | filtering a concatenation concatenates the filtered parts, which is what preserving order means |
| `TreeList.FilterKeepsAll` | src/pages/TreeList.tsx:69 | a filter that accepts every element returns its input |
| `TreeList.FilteredTrees` | src/pages/TreeList.tsx:82-84 | with no species selected the list is the full list; otherwise exactly the trees of that species, with multiplicity, and no longer than the input |
| `TreeList.FilteredTreesKeepOrder` | src/pages/TreeList.tsx:83 | the species filter keeps the original order |
| `TreeList.WithoutTree` | src/pages/TreeList.tsx:69 | no tree with the removed id remains; every other tree keeps its multiplicity |
| `TreeList.WithoutTreeKeepsOrder` | src/pages/TreeList.tsx:69 | removal keeps the other trees in their original order |
| `TreeList.WithoutAbsentTree` | src/pages/TreeList.tsx:69 | removing an id no tree has leaves the list unchanged |
| `TreeList.SpeciesOptions` | src/pages/TreeList.tsx:44-47 | one selector entry per snapshot key, in order, carrying the stored record; its id is the stored `id` when present, else the key |
| `TreeList.SpeciesOptionIdsAreKeys` | src/pages/TreeList.tsx:44-47 | when no record stores a different id, the selector ids are the keys, once each |
| `TreeList.AfterDelete` | src/pages/TreeList.tsx:64-75 | after a successful remove only the list changes, losing that id; after a failed one the list is kept and only the fixed message and the error alert are set |
| `TreeList.PendingDelete` | src/pages/TreeList.tsx:159 | a pending id is acted on iff it is present and non-empty |
| `TreeList.AfterConfirm` | src/pages/TreeList.tsx:158-163 | "Eliminar" deletes the pending tree only if one is pending, otherwise changes nothing else, and always clears the pending id |
| `TreeList.TreeListScreen.Shown` | src/pages/TreeList.tsx:82-84 | the shown trees are all trees when no species is selected, otherwise exactly the trees of the selected species |
| `TreeList.TreeListScreen.constructor` | src/pages/TreeList.tsx:13-19 | the initial `useState` values |
| `TreeList.TreeListScreen.SetTrees` | src/pages/TreeList.tsx:22 | the hook's `setTrees` replaces only the list |
| `TreeList.TreeListScreen.SelectSpecies` | src/pages/TreeList.tsx:112-116 | the selector changes only the selected species |
| `TreeList.TreeListScreen.LoadSpecies` | src/pages/TreeList.tsx:36-53 | an existing snapshot replaces only the species list; a missing snapshot or a failed read changes nothing |
| `TreeList.TreeListScreen.HandleDeleteTree` | src/pages/TreeList.tsx:64-75 | performs `AfterDelete` for the outcome of `remove` |
| `TreeList.TreeListScreen.ConfirmDeleteTree` | src/pages/TreeList.tsx:77-80 | sets the pending id and opens the confirmation; the list is untouched |
| `TreeList.TreeListScreen.CancelDelete` | src/pages/TreeList.tsx:152-154 | "Cancelar" clears the pending id and changes nothing else |
| `TreeList.TreeListScreen.ConfirmDelete` | src/pages/TreeList.tsx:156-163 | hands `remove` the pending id exactly when `PendingDelete` allows, performs `AfterConfirm`, and leaves nothing pending |
| `TreeList.TreeListScreen.DismissAlert` | src/pages/TreeList.tsx:147 | dismissing the confirmation closes it and changes nothing else |
| `TreeList.TreeListScreen.DismissErrorAlert` | src/pages/TreeList.tsx:170 | dismissing the error alert closes it and changes nothing else |

## Left out

- Firebase listener delivery is not modelled. That covers when `onValue` fires, and the ordering between the three collections. It also covers listener accumulation: each species and sectors emission registers another nested listener, and the effect returns no cleanup. Only the computation done by each callback is modelled. `NestedPass` stands for one pass through the nested listeners.
- FetchTrees.Step: follows the code, so a null trees snapshot publishes nothing. When the last tree is deleted (from another screen, or while the statistics screen is open) the collection becomes null and the published list keeps the deleted tree (`LastDeletionLeavesStaleTree`). The tree list screen hides this only for deletions it makes itself, by its local removal.
- Unsubscribing is not modelled. The hook's effect returns no cleanup function, so there is nothing to model.
- The hook keeps its tables in `let` variables of each callback's closure. The model keeps one current table per channel (`TreeFeed`). Older closures that still hold earlier tables are part of the listener accumulation excluded above.
- FetchTrees.Join: treats the tables as clean maps. In JavaScript, a `speciesId` or `sectorId` naming an `Object.prototype` property (such as `"constructor"`) would find an inherited value.
- Statistics.UserStatistics: states no row order. `Object.entries` lists integer-like keys first, so row order is excluded. `Tally` keeps keys in insertion order only so that it can build a list. The model also assumes a clean accumulator, without the `Object.prototype` key quirk of `acc[k] || 0`.
- The `remove` and `get` database calls, console logging, rendering, alerts' appearance and navigation are outside the model. Their outcomes are parameters.
- `handleDeleteTree` is asynchronous, so the pending id is cleared before `remove` settles. Neither step touches the other's fields, so the model runs them in sequence. A trees emission arriving while `remove` is in flight is not modelled.
- Authentication checks (`currentUser`, logout), the login and register screens, the map page and build configuration are not part of this model. They are device calls and SDK wrappers with no logic of their own.
- Types are taken as declared. Fields that JavaScript would read as `undefined` (a record missing `commonName`, say) are not modelled.
