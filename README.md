# ReactiveCollectionsKit core, modelled in Dafny

ReactiveCollectionsKit describes what a collection view shows as an immutable
tree of view models: a `CollectionViewModel` holds ordered sections, a section
holds cells (each possibly with nested child cells) and optional header,
footer and other supplementary views, and every node carries a
`UniqueIdentifier`. The library turns such a model into a diffable snapshot
(ordered section identifiers and per-section item identifiers) or, for one
section, into a hierarchical section snapshot (root items plus parent-to-child
edges), which the platform then diffs by identity.

This project models:

- `Options.dfy`, `Collections.dfy`: Swift's optional, `filter`,
  `Dictionary(uniqueKeysWithValues:)` and dictionary lookup, with the notion of
  a subsequence used to state order preservation.
- `ViewModels.dfy`: identifiers and registrations as opaque equality types;
  cells, supplementary views, sections and index paths as datatypes.
- `CollectionViewModel.dfy`: the collection model (empty-section filtering,
  registration union, id-keyed dictionaries and lookups, index-path lookups,
  supplementary-view resolution, the `Collection` accessors).
- `DiffableSnapshot.dfy`: the two snapshot builders, as classes whose
  constructors append to the snapshot in a loop the way the Swift initialisers
  do.
- `ExampleModel.dfy`: the example app's mutable `Model` store of people and
  colors, as a class whose methods update its two lists in place.

Two places where the code does less than its wording suggests; the model
follows the code:

- `allCellsByIdentifier()` is documented as returning all cells keyed by their
  id (Sources/CollectionViewModel.swift:70) but builds its dictionary from
  `flatMap { $0.cells }` (line 72), so only the top-level cells of each
  section are included; nested children are not entered.
- `DiffableSectionSnapshot.init(viewModel:)` appends the children of the
  top-level cells only (Sources/DiffableSnapshot.swift:41-44); grandchildren
  are never visited.

## Model

| member | source | states |
|---|---|---|
| `CollectionViewModels.Create` | Sources/CollectionViewModel.swift:37-40 | the stored sections are exactly the non-empty given sections, each as often as given, in their original relative order; the id is kept |
| `Collections.Filter` | Sources/CollectionViewModel.swift:39 | the result holds exactly the elements satisfying the predicate, with their multiplicities, as a subsequence of the input |
| `CollectionViewModels.CollectionConformance` | Sources/CollectionViewModel.swift:133-165 | about `Count`, `IsEmpty` and `Subscript` for a model built by `init`: `isEmpty` iff `count == 0` iff every given section was empty; `count` is at most the number given; every `self[i]` is a non-empty given section |
| `CollectionViewModels.AllRegistrations` | Sources/CollectionViewModel.swift:45-51 | the accumulated set contains every section's registrations and nothing that is not in some section's registrations |
| `Collections.DictionaryOf` | Sources/CollectionViewModel.swift:58 | with unique keys (Swift traps otherwise) the dictionary's keys are exactly the pairs' keys, each maps to its pair's value, and it has one entry per pair |
| `CollectionViewModels.AllSectionsByIdentifier` | Sources/CollectionViewModel.swift:56-59 | with distinct section ids, the keys are exactly the section ids, `s.id` maps to `s`, one entry per section |
| `CollectionViewModels.SectionViewModelFor` | Sources/CollectionViewModel.swift:64-66 | returns the section carrying `id` when one exists and nil exactly when none does |
| `CollectionViewModels.AllCellsPosition` | Sources/CollectionViewModel.swift:72 | the flattened cell list places section `s`'s `i`-th cell right after the cells of sections `0..s-1` |
| `CollectionViewModels.AllCellsMembership` | Sources/CollectionViewModel.swift:72 | a cell is in the flattened list exactly when it is a top-level cell of some section |
| `CollectionViewModels.AllCellsByIdentifier` | Sources/CollectionViewModel.swift:71-75 | with distinct top-level cell ids, keys are exactly those ids (children are not entered), each maps to its cell, one entry per top-level cell |
| `CollectionViewModels.CellViewModelFor` | Sources/CollectionViewModel.swift:80-82 | returns the top-level cell carrying `id` when one exists and nil exactly when none does |
| `CollectionViewModels.CellViewModelAt` | Sources/CollectionViewModel.swift:89-97 | traps unless `section < count` and `item < cells.count`; returns the cell at the matching position of the flattened top-level cells |
| `CollectionViewModels.CellLookupRoundTrip` | Sources/CollectionViewModel.swift:80-97 | looking up the id of the cell at a valid index path returns that same cell |
| `CollectionViewModels.SupplementaryViewModel` | Sources/CollectionViewModel.swift:108-126 | traps on an invalid section; a matching header wins, then a matching footer, then the `item`-th other view of the kind, else nil; any result has the requested kind and belongs to the section |
| `DiffableSnapshots.FlatPlanItems` | Sources/DiffableSnapshot.swift:27-30 | when the first `k` sections hold their cells' ids and the rest hold nothing, all items in section order are the ids of the top-level cells of those `k` sections; with every section filled, the ids of all top-level cells |
| `DiffableSnapshots.FlatStep` | Sources/DiffableSnapshot.swift:27-30 | with distinct section and top-level cell ids, each pass of the `forEach` meets `appendItems`' checks (the section exists, its new ids are distinct and not yet in the snapshot) and extends the plan by one section |
| `DiffableSnapshots.DiffableSnapshot.AppendCellsOfSections` | Sources/DiffableSnapshot.swift:27-30 | after appending each section's cell ids to it in order, every section holds its cells' ids and all items are the ids of the top-level cells |
| `DiffableSnapshots.DiffableSnapshot.AppendSections` | Sources/DiffableSnapshot.swift:25 | appends new, empty sections at the end, keeping existing sections' items; repeated ids trap |
| `DiffableSnapshots.DiffableSnapshot.AppendItems` | Sources/DiffableSnapshot.swift:29 | appends items at the end of one existing section and changes nothing else; an item id that is repeated or already in the snapshot traps |
| `DiffableSnapshots.DiffableSnapshot.FromViewModel` | Sources/DiffableSnapshot.swift:21-31 | repeated section ids or repeated top-level cell ids trap; otherwise section ids equal `sections.map(\.id)` in order; each section's items equal its `cells.map(\.id)` in order; all items are the top-level cells' ids, pairwise distinct, and their number is the total cell count |
| `DiffableSnapshots.DiffableSectionSnapshot.Append` | Sources/DiffableSnapshot.swift:39 | appends new root items at the end and leaves the child edges alone; repeated roots trap |
| `DiffableSnapshots.DiffableSectionSnapshot.AppendChildren` | Sources/DiffableSnapshot.swift:43 | appends items under an existing root; appending no items records no edge |
| `DiffableSnapshots.EdgesStep` | Sources/DiffableSnapshot.swift:41-44 | with distinct top-level cell ids, each pass of the `forEach` appends to an existing root, and afterwards the cells so far hold exactly their children's ids, the rest none, and only cells are parents |
| `DiffableSnapshots.DiffableSectionSnapshot.FromSection` | Sources/DiffableSnapshot.swift:35-45 | root items equal `cells.map(\.id)`; each top-level cell's recorded children equal its `children.map(\.id)` (none when it has no children); every parent is a root item, so a child's own children are never recorded |
| `ExampleModel.FirstIndexOf` | Example/Sources/Models/Model.swift:41 | returns the index of the first element with the id, and nil exactly when no element has it |
| `ExampleModel.RemoveAt` | Example/Sources/Models/Model.swift:30 | the list is one shorter, the elements before the index stay, the ones after shift down by one, only the removed element leaves the multiset, and the result is a subsequence |
| `ExampleModel.RemoveFirst` | Example/Sources/Models/Model.swift:41-46 | a list without the id is unchanged; otherwise exactly the first element with the id is removed; at most one element goes and the order of the rest is kept |
| `ExampleModel.ToggleAt` | Example/Sources/Models/Model.swift:52 | flips `isFavorite` of exactly the element at the index, keeping its id and name, the length and every other element |
| `ExampleModel.ToggleFirst` | Example/Sources/Models/Model.swift:63-68 | ids, names and length are unchanged, and an element's flag changes exactly when it is the first one with the id |
| `ExampleModel.ToggleFirstTwice` | Example/Sources/Models/Model.swift:62-69 | toggling the same id twice restores the original list |
| `ExampleModel.Model.constructor` | Example/Sources/Models/Model.swift:17-20 | the store holds the given people and colors |
| `ExampleModel.Model.DeleteModelAt` | Example/Sources/Models/Model.swift:27-38 | section 0 removes `people[row]` and keeps `colors`; section 1 removes `colors[row]` and keeps `people`; any other section or an out-of-range row traps |
| `ExampleModel.Model.Delete` | Example/Sources/Models/Model.swift:40-47 | each list loses its first element with the id, if it has one |
| `ExampleModel.Model.ToggleFavoriteAt` | Example/Sources/Models/Model.swift:49-60 | flips the flag of exactly `people[row]` (section 0) or `colors[row]` (section 1), the other list unchanged; other sections or an out-of-range row trap |
| `ExampleModel.Model.ToggleFavorite` | Example/Sources/Models/Model.swift:62-69 | flips the flag of the first person and of the first color with the id, nothing else |

## Left out

- `debugDescription` of `CollectionViewModel` and of `Model`: string formatting for debugging.
- `@MainActor` and `MainActor.assumeIsolated`: actor isolation; the accessors are modelled as plain sequential functions.
- `startIndex`, `endIndex` and `index(after:)` of the `Collection` conformance: they are `0`, `count` and `pos + 1` of the sections array and add nothing beyond `count` and the subscript.
- The internals of the platform's snapshot types and their diffing and animation engine: only the identifier lists and edges the builders append are modelled. Of the snapshot's own checks, the model keeps those the builders rely on (repeated section identifiers, repeated or already-present item identifiers and repeated root identifiers trap; items go to an existing section or parent) and not the check that a child identifier is new to the section snapshot.
- `UniqueIdentifier`, `ViewRegistration` and `AnyHashable` are opaque types compared only for equality; the Swift files of `SectionViewModel`, `AnyCellViewModel` and `AnySupplementaryViewModel` are not part of this model, so a section's emptiness and its registration set are defined here from the cells, header, footer and other supplementary views it holds.
- Index paths use natural numbers: a negative section or item is outside the documented precondition that the index path be valid (Sources/CollectionViewModel.swift:88, 107), which the `nat` type states. In the Swift code a negative index traps at an array subscript everywhere except in `supplementaryViewModel(ofKind:at:)` when the header's or footer's kind matches (lines 112-118): that view is returned whatever the `item`; the model does not accept a negative `item` there.
- Person and color records are one datatype with the three fields the store uses (`id`, `name`, `isFavorite`); their other fields are not modelled.
- `Model.shuffle()`: a random permutation with no deterministic result. The canned data of `makePeople`/`makeColors` is not part of this model; the store is built from given lists.
- Example/Sources/Main/ExampleViewController.swift, ExampleApp/Sources/ViewModel.swift and ExampleApp/Sources/CollectionCellViewModel.swift: view-controller layout, navigation closures, cell sizing and label rendering.
