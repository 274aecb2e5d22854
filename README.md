# Inventory: controller state machine, search rule and item store

A model of the three pieces of the inventory application that have behaviour worth
stating. The application keeps bicycle parts and vinyl records behind a REST API.

- **The front-end inventory controller** (`controller.dfy`, module `Controller`). One
  controller is fixed to a category (`vinyl` or `bike`). It owns three refs: `items`,
  `loading` and `error`. It has five operations: `loadItems`, `searchItems`, `createItem`,
  `updateItem` and `deleteItem`. The class `InventoryController` has these refs as fields.
  Its methods change them step by step, as the source does. Each method is proved to end in
  the state that a pure function (`AfterLoad`, `AfterSearch`, `AfterCreate`, `AfterUpdate`,
  `AfterDelete`) computes from the old state. The lemmas about those functions state the
  promises of the source. Each gateway answer is a parameter (`Outcome<T>`: `Ok(value)` or
  `Fail`). The browser's confirmation dialog is a `bool` parameter. A ghost field `calls`
  records the gateway calls in order. It is what "no search call" and "exactly one reload"
  are stated about.
- **The back-end search rule** (`repository.dfy`, module `Repository`). `findByType` and
  the JPQL query `searchByTypeAndQuery` are pure filters over the table's rows. A row
  matches when its type is the given one and the lower-cased query occurs in the
  lower-cased name, artist, category or location. `strings.dfy` (module `Strings`) has
  `LOWER` and the `LIKE '%q%'` substring test. The substring test is specified by an
  offset-based reference definition (`ContainsAt`).
- **The back-end item service** (`service.dfy`, module `Service`). The class `ItemStore`
  holds the table as a `map<int, Item>` from identifier to row, plus the next identifier
  the generator hands out. `save`, `update` and `delete` change it. `findByType` and
  `search` read it through the repository rule.
- **The back end's controller tests** (`scenarios.dfy`, module `Scenarios`), replayed
  against a fresh store.

`items.dfy` has the record. The source calls the type field `type`; the model calls it
`kind` because `type` is a Dafny keyword. `wrappers.dfy` has `Option` and `Outcome`.

The item is one record with optional fields (`Item.ts`, `Item.java`); the bike and vinyl
shapes are predicates (`IsBikeItem`, `IsVinylItem`). Both `createItem` and `updateItem`
re-raise a failed write. Each error message is fixed per operation and is the same for both
categories.

## Model

| member | source | states |
|---|---|---|
| `Controller.InventoryController.constructor` | inventory-frontend/src/controllers/inventoryController.ts:5-8 | a new controller keeps its category and starts with no items, `loading` false, no error and no gateway calls |
| `Controller.InventoryController.LoadItems` | inventory-frontend/src/controllers/inventoryController.ts:10-21 | the refs afterwards are those `AfterLoad` gives: on success the answer replaces `items` and `error` is null; on failure `items` stays and `error` is the load message; `loading` ends false; exactly one list call with the controller's category |
| `Controller.InventoryController.SearchItems` | inventory-frontend/src/controllers/inventoryController.ts:23-39 | the refs afterwards and the calls made are those `AfterSearch` gives, and the controller is settled |
| `Controller.InventoryController.CreateItem` | inventory-frontend/src/controllers/inventoryController.ts:41-54 | the refs afterwards, the calls made, and whether the failure is re-raised are those `AfterCreate` gives |
| `Controller.InventoryController.UpdateItem` | inventory-frontend/src/controllers/inventoryController.ts:56-69 | the refs afterwards, the calls made, and whether the failure is re-raised are those `AfterUpdate` gives |
| `Controller.InventoryController.DeleteItem` | inventory-frontend/src/controllers/inventoryController.ts:71-87 | the refs afterwards and the calls made are those `AfterDelete` gives; a settled controller stays settled |
| `Controller.AfterLoad` | inventory-frontend/src/controllers/inventoryController.ts:10-21 | a load ends settled (`loading` false, any error one of the five messages) and never re-raises |
| `Controller.AfterSearch` | inventory-frontend/src/controllers/inventoryController.ts:23-39 | a search ends settled and never re-raises |
| `Controller.AfterWrite` | inventory-frontend/src/controllers/inventoryController.ts:41-69 | a write followed by a reload ends settled, and re-raises exactly when the write failed |
| `Controller.AfterCreate` | inventory-frontend/src/controllers/inventoryController.ts:41-54 | a create ends settled, and re-raises exactly when the create call failed |
| `Controller.AfterUpdate` | inventory-frontend/src/controllers/inventoryController.ts:56-69 | an update ends settled, and re-raises exactly when the update call failed |
| `Controller.AfterDelete` | inventory-frontend/src/controllers/inventoryController.ts:71-87 | a delete never re-raises, and a confirmed delete ends settled |
| `Controller.IsBlank` | inventory-frontend/src/controllers/inventoryController.ts:24 | a query is blank exactly when every one of its characters is JavaScript white space or a line terminator, so the empty query is blank |
| `Controller.Trim` | inventory-frontend/src/controllers/inventoryController.ts:24 | `query.trim()` is empty exactly when every character of the query is JavaScript white space or a line terminator |
| `Controller.TrimStart` | inventory-frontend/src/controllers/inventoryController.ts:24 | leading trim leaves a suffix that does not start with white space, and every character removed is white space |
| `Controller.TrimEnd` | inventory-frontend/src/controllers/inventoryController.ts:24 | trailing trim leaves a prefix that does not end with white space, and every character removed is white space |
| `Controller.BlankExamples` | inventory-frontend/src/controllers/inventoryController.ts:24 | `""` and `"   "` are blank queries, and `" Kett "` is not |
| `Controller.SearchCalls` | inventory-frontend/src/controllers/inventoryController.ts:24-32 | a blank query has exactly the effect of a load, list call included, and makes no search call; any other query makes one search call with the controller's category and the untrimmed query |
| `Controller.FailureKeepsItems` | inventory-frontend/src/controllers/inventoryController.ts:10-38 | a failed load or search keeps `items` and records its own message with `loading` false; a successful one replaces `items` wholesale with the answer and leaves `error` null |
| `Controller.WriteFailure` | inventory-frontend/src/controllers/inventoryController.ts:41-69 | a failed create or update keeps `items`, sets `error` to `Viga lisamisel` or `Viga uuendamisel`, makes no reload, re-raises, and ends with `loading` false |
| `Controller.WriteSuccessReloadsOnce` | inventory-frontend/src/controllers/inventoryController.ts:41-69 | a successful create or update is followed by exactly one list call, and ends as that reload does |
| `Controller.ReloadFailureIsSwallowed` | inventory-frontend/src/controllers/inventoryController.ts:10-69 | when the write succeeds but the reload fails, nothing is re-raised, `items` stays, and `error` is the load message rather than the write's |
| `Controller.DeleteCalls` | inventory-frontend/src/controllers/inventoryController.ts:72-86 | a declined delete makes no call and leaves `items`, `loading` and `error` unchanged; a confirmed one makes one delete call and reloads only on success; a failed delete keeps `items` and records `Viga kustutamisel` |
| `Controller.MessagesDistinct` | inventory-frontend/src/controllers/inventoryController.ts:16-82 | the five fixed messages are pairwise different |
| `Items.ShapesAreDisjoint` | inventory-frontend/src/types/BikeItem.ts:3-7 | no item has both the bike-part shape and the vinyl-record shape, and each shape has one of the two client types |
| `Strings.Lower` | inventory-backend/src/main/java/ee/inventory/repository/ItemRepository.java:15-18 | `LOWER` keeps the length and lower-cases each character in place |
| `Strings.Upper` | inventory-backend/src/main/java/ee/inventory/repository/ItemRepository.java:15-18 | upper-casing keeps the length and upper-cases each character in place |
| `Strings.LowerOfUpper` | inventory-backend/src/main/java/ee/inventory/repository/ItemRepository.java:15-18 | lower-casing an upper-cased string gives the lower-cased string |
| `Strings.Contains` | inventory-backend/src/main/java/ee/inventory/repository/ItemRepository.java:15-18 | the `LIKE '%q%'` test holds exactly when the needle occurs in the text at some offset |
| `Strings.ContainsTransitive` | inventory-backend/src/main/java/ee/inventory/repository/ItemRepository.java:15-18 | a piece of a piece of a text is a piece of that text |
| `Strings.ContainsLower` | inventory-backend/src/main/java/ee/inventory/repository/ItemRepository.java:15-18 | lower-casing the needle and the text keeps an occurrence |
| `Strings.EmptyContained` | inventory-backend/src/main/java/ee/inventory/repository/ItemRepository.java:15-18 | the empty query occurs in every text |
| `Repository.FindByType` | inventory-backend/src/main/java/ee/inventory/repository/ItemRepository.java:12 | every returned row has the given type, and every row of that type is returned |
| `Repository.SearchByTypeAndQuery` | inventory-backend/src/main/java/ee/inventory/repository/ItemRepository.java:14-19 | a row is returned exactly when it is in the table and matches the search rule |
| `Repository.FieldMatches` | inventory-backend/src/main/java/ee/inventory/repository/ItemRepository.java:15-18 | a NULL field never matches; a present field matches exactly when the lower-cased query occurs in its lower-cased text at some offset |
| `Repository.SomeFieldMatchesIff` | inventory-backend/src/main/java/ee/inventory/repository/ItemRepository.java:15-18 | the four column tests joined by `OR` hold exactly when the lower-cased query occurs, at some offset, in the lower-cased text of one of the searched fields (name, or a present artist, category or location) |
| `Repository.Matches` | inventory-backend/src/main/java/ee/inventory/repository/ItemRepository.java:14-18 | a row matches exactly when its type is the given one and the lower-cased query occurs, at some offset, in the lower-cased name, artist, category or location |
| `Repository.SearchWithinType` | inventory-backend/src/main/java/ee/inventory/repository/ItemRepository.java:12-19 | search results are the search of `findByType`'s rows, so each has the given type and they come in the same order |
| `Repository.SameLowerSameResults` | inventory-backend/src/main/java/ee/inventory/repository/ItemRepository.java:15-18 | two queries with the same lower-cased text return the same rows |
| `Repository.CaseInsensitive` | inventory-backend/src/main/java/ee/inventory/repository/ItemRepository.java:15-18 | searching for the upper-cased query returns the same rows as the query |
| `Repository.EmptyQueryFindsAll` | inventory-backend/src/main/java/ee/inventory/repository/ItemRepository.java:14-18 | the empty query returns exactly `findByType`'s rows, because every row has a name |
| `Repository.NotesIgnored` | inventory-backend/src/main/java/ee/inventory/repository/ItemRepository.java:15-18 | changing only a row's notes never changes whether it matches |
| `Repository.AbsentFieldsNeverMatch` | inventory-backend/src/main/java/ee/inventory/repository/ItemRepository.java:15-18 | a row with no artist, category or location matches only through its name |
| `Repository.FieldPieceMatches` | inventory-backend/src/main/java/ee/inventory/repository/ItemRepository.java:15-18 | a piece of a query that matches a field also matches that field |
| `Repository.ShorterQueryStillMatches` | inventory-backend/src/main/java/ee/inventory/repository/ItemRepository.java:15-18 | if a query matches a row, every piece of it matches that row too |
| `Repository.BeatlesFound` | inventory-backend/src/test/java/ee/inventory/controller/ItemControllerTest.java:78-98 | a vinyl record by "The Beatles" matches the query "Beatles", and is the one result of searching a table that holds only it |
| `Service.ItemStore.constructor` | inventory-backend/src/main/java/ee/inventory/model/Item.java:22-24 | an empty table, with the identifier generator at 1 and the store invariant holding |
| `Service.ItemStore.Scan` | inventory-backend/src/main/java/ee/inventory/service/ItemService.java:15-21 | a scan returns exactly the stored rows, each once (no two share an identifier) |
| `Service.ItemStore.FindByType` | inventory-backend/src/main/java/ee/inventory/service/ItemService.java:15-17 | the result holds exactly the stored items of the given type; the store does not change |
| `Service.ItemStore.Search` | inventory-backend/src/main/java/ee/inventory/service/ItemService.java:19-21 | the result holds exactly the stored items that the repository's search rule matches, all of the given type; the store does not change |
| `Service.ItemStore.Save` | inventory-backend/src/main/java/ee/inventory/service/ItemService.java:23-25 | the saved item has an identifier not in use before, every other field as submitted, and is stored under that identifier with every other row unchanged |
| `Service.ItemStore.Update` | inventory-backend/src/main/java/ee/inventory/service/ItemService.java:27-30 | the body is stored under the path identifier, with its own identifier replaced by it, and every other row is unchanged; with no row under that identifier nothing changes and the update fails |
| `Service.ItemStore.Delete` | inventory-backend/src/main/java/ee/inventory/service/ItemService.java:32-34 | the row under the identifier is removed, no stored item carries that identifier afterwards, and every other row is unchanged |
| `Scenarios.CreateVinyl` | inventory-backend/src/test/java/ee/inventory/controller/ItemControllerTest.java:21-46 | a saved vinyl record has an identifier and keeps its name, artist and year |
| `Scenarios.CreateBike` | inventory-backend/src/test/java/ee/inventory/controller/ItemControllerTest.java:48-72 | a saved bike part has an identifier and keeps its name, category and quantity |
| `Scenarios.SearchBeatles` | inventory-backend/src/test/java/ee/inventory/controller/ItemControllerTest.java:74-100 | searching vinyl records for "Beatles" returns a non-empty list whose first entry's artist is "The Beatles" |
| `Scenarios.UpdateLocation` | inventory-backend/src/test/java/ee/inventory/controller/ItemControllerTest.java:102-130 | updating a stored record with a new location and notes returns them |
| `Scenarios.DeleteThenList` | inventory-backend/src/test/java/ee/inventory/controller/ItemControllerTest.java:132-169 | after a delete, no listed bike part carries the deleted identifier |

## Left out

- The HTTP transport of the front end (`apiService.ts`). Its calls are the `Call` values, and their answers are parameters.
- The routes of `ItemController.java`, the CORS filter and the application bootstrap (`main.ts`). They are HTTP plumbing.
- The Vue components and their form validation. Their source is not part of this model.
- `console.error` logging of the failure detail. It has no effect on the state.
- Overlapping operations. The source's operations are asynchronous and can interleave, so `loading` and `error` are last-write-wins. Each operation is one atomic step here.
- The window in which `loading` is true while a gateway call is awaited is not visible in an atomic step. Only the state at the end of an operation is modelled.
- Controller.InventoryController.CreateItem: the re-raised exception is modelled as a `raised` flag, not as the gateway's own error value. The same holds for `UpdateItem`.
- Strings.Lower: lower-casing is ASCII only. The database's locale rules for letters such as `Ü` are not modelled.
- Repository.SearchByTypeAndQuery: the SQL `LIKE` wildcards `%` and `_` inside the user's query are treated as plain characters. In the database they would act as wildcards. The default escape character `\` is treated as a plain character too; the query has no `ESCAPE` clause, so in the database a backslash in the query would escape the character after it.
- Java `null` for `name` or `type` is not modelled, because both are plain strings here. In SQL a null name would never match.
- Service.ItemStore.Scan: the database gives no row order, so the scan returns the rows in an arbitrary order.
- Service.ItemStore.Save: identifier generation is a counter that hands out unused identifiers. Whatever identifier the submitted body carries is ignored. The JPA provider's behaviour for a body that already has an identifier is not modelled.
- Service.ItemStore.Update: with no row under the path identifier, the model fails and changes nothing. The outcome of a JPA `merge` on such a row depends on the provider and its version.
- Service.ItemStore.Update: `item.setId(id)` changes the caller's object in place. Here the body is a value, and the stored copy carries the new identifier. Aliasing with the caller's object is not modelled.
- Controller.Trim: the white-space set is the fixed list of the ECMAScript definition of `trim`, with the Unicode `Zs` characters written out. Characters a later Unicode version adds to `Zs` are not tracked.
