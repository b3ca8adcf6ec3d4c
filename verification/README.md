# CAM: drafts, publications and what is generated from them

CAM keeps the API definitions of services. A service has live APIs, each with a forest of request parameters and a
forest of response parameters stored as parent-linked rows. All editing happens in an *iteration*, a draft copy of the
live APIs; *committing* an iteration deletes the live APIs of the service and rebuilds them from the drafts. From the
parameter forests CAM generates an OpenAPI document and TypeScript interfaces.

This project models three connected parts and proves properties of them.

- **The iteration state machine.** `ParamTables.ParamTable`, `Layers.LayerStore` and `Database.Database` are objects
  that the request handlers change in place, with the loops of the source: the two-pass copy through a record of new
  keys, the recursive copy, the depth-first flattening, delete-then-insert on commit. `Actions` states each request as a
  relation between the database before, the response and the database after; every handler is proved to be such a
  step. `Outcomes` says of every request, column by column, when it succeeds and what it writes, `Answers` that it always
  has an answer. `Invariants`, `Frames`, `Runs`, `OpenIterations`, `VersionRuns` and `PathRuns` prove what steps and whole
  runs keep.
  Each request is one atomic step, and a request that raises leaves the database as it was.
- **The tree/row codec.** `Codec` gives the forest that is stored for nested input, `Organizing` rebuilds trees from
  rows with heap objects, an index and in-place appends, `Fetching` is the simple recursive definition it is compared
  with, `RoundTrips`, `EditForm`, `Resaving` and `PublishedTrees` close the loops (save then fetch; fetch, edit form, save,
  fetch; save, commit, fetch the live API).
- **Two compilers.** `Schemas` and `OpenApi` build JSON Schema and the OpenAPI document, `TypeScript` builds interface
  declarations, `Agreement` and `Naming` compare the two, `TsMeaning` and
  `Documents` say what their outputs mean. `Exports` joins them to the state machine: what is
  exported for a live version.

| part | modules, bottom up |
|---|---|
| data | `Model`, `Sequences`, `Forests`, `Tables`, `Descent`, `Codec`, `Catalog` |
| requests | `Actions`, `ParamTables`, `Layers`, `Database`, `Outcomes`, `Answers` |
| what is kept | `Invariants`, `Frames`, `Runs`, `Sides`, `OpenIterations`, `Paths`, `PathRuns`, `Versions`, `VersionRuns`, `IdleRuns`, `Decimals` |
| trees and rows | `Fetching`, `Organizing`, `RoundTrips`, `Storing`, `FetchCopies`, `EditForm`, `Resaving`, `PublishedTrees` |
| generation | `Schemas`, `DirectReading`, `OpenApi`, `Documents`, `TypeScript`, `TsMeaning`, `Agreement`, `Naming`, `Exports` |

`dafny verify dfyconfig.toml` checks the project.

## Conventions

Keys are positive and never used twice in a table: a table counts upwards (`Table.next`). A copy is stated through the
renaming it used: `Tables.TableCopy` says that the renaming is injective, that its values are fresh, that payloads are
equal and that the parent of a copy is the copy of the parent; old rows are unchanged and nothing else is added.
`Catalog.Isomorphic` compares the APIs of a scope with both parameter forests up to such renamings; it compares every
column except keys, timestamps and the category of an API. Relationship lists have no order in the source, so the
copying loops take rows in an arbitrary order; sibling order is only claimed for rows read in the order of their keys
(`RoundTrips.Ascending`) or in corresponding orders (`FetchCopies.SameOrder`).

## Where the code departs from what it seems to intend

- The API tables declare two unique constraints, but the second assignment of `__table_args__` replaces the first
  (BE-CAM/database/models.py:192-198, 296-308): only method and name are unique. Method and path can repeat; `Paths`
  and `PathRuns` give the exact condition for each request and each run, and two runs that do it; `OpenApi.OwnOperation` says
  which operation is then lost in the OpenAPI document.
- A new iteration has no description and commit copies the iteration's description to the service, so starting and
  committing erases the description, and keeps it exactly when there was none (`Runs.StartThenCommit`,
  `IdleRuns.DescriptionIsLost`).
- A refused commit returns the guard's whole record, other requests return its `error` member (`Actions.GuardRecord`).
  Status -20 of the guard cannot occur (`Actions.Guard`).
- Children inherit their parent's location only when that is a non-empty string (`Codec.InheritsLocationIff`).
- Status codes are not inherited at all: a child without one is stored under 200 (`Codec.ChildStatusIsDefault`), and
  saving the form unedited then moves it to its root's status code (`Resaving.UneditedSaveIff`).
- A repeated name among siblings makes the schema forget the earlier parameter. `DirectReading.EveryParameterCountsIff`
  says exactly when that loses something.
- The prefix of generated interface names does not rule collisions out (`Naming.PrefixedNamesCollide`);
  `Naming.InterfacesDistinctIff` says exactly when there are none.
- The version a service starts with has no iteration. Where every publication changes the three numbers it cannot be
  looked up any more after the first one (`VersionRuns.FirstVersionIsLost`); otherwise it can be published again
  (`IdleRuns.SameVersionTwice`).
- The form accepts the current version under another spelling and the way back (`Versions.LeadingZeroRepeats`), so two
  iterations can be committed with the same version (`IdleRuns.SameVersionTwice`). In runs that pass the form, versions
  are distinct exactly when every publication but the first changes the three numbers (`VersionRuns.DistinctIff`).
  Leaving leading zeros out is enough for that (`VersionRuns.CanonicalRunIsChecked`).
- Two APIs whose names give one component name share a component. References resolve to their own schemas exactly when
  all registrations of a name agree (`OpenApi.ReferencesAreOwnIff`).

## Model

| member | source | states |
|---|---|---|
| Outcomes.CommitOutcome | BE-CAM/services/service.py:700-820 | On a well-formed database a commit succeeds exactly when the iteration is open, the user is its creator, the service's owner or of level 0, and the version differs from the service's; the exact cause of every refusal; a success writes version, description and the closing, and the live layer then holds every draft with all columns and both forests |
| Outcomes.CommitsSucceed | BE-CAM/services/service.py:700-820 | At every point of every run a commit succeeds exactly then |
| Outcomes.StartOutcome | BE-CAM/services/service.py:568-693 | Whoever may start gets the open iteration, or a new one that holds every live API of the service with all columns and both forests; the exact cause of every refusal |
| Outcomes.StartsSucceed | BE-CAM/services/service.py:568-693 | At every point of every run a start succeeds exactly when the user may start |
| Answers.EveryRequestAnswers | BE-CAM/services/service.py:568-840 | Every request, with any arguments, has an answer and a database after it in every well-formed database |
| Outcomes.DeleteOutcome | BE-CAM/services/api.py:542-574 | A deletion succeeds exactly on an open iteration's own drafts, and takes away the draft, all its rows and nothing else |
| Outcomes.DeletedStaysGone | BE-CAM/services/api.py:563-570 | A deleted draft is absent at every later point of the run |
| Outcomes.DeletedIsNotPublished | BE-CAM/services/api.py:563-570 | What a later commit publishes are all drafts of the iteration, without the deleted one |
| Outcomes.AddOutcome | BE-CAM/services/api.py:330-419 | The exact cause of every answer to an addition, and every column of the added draft |
| Outcomes.UpdateOutcome | BE-CAM/services/api.py:739-814 | An update succeeds exactly on an open iteration's own drafts under a free name; every column of the updated draft, and no other rows touched |
| Outcomes.CopyOutcome | BE-CAM/services/api.py:471-538 | A duplication succeeds exactly on an open iteration's own drafts under a free suffixed name; every column of the duplicate, isomorphic rows, old rows unchanged |
| Outcomes.DescribeOutcome | BE-CAM/services/service.py:824-840 | A description is written exactly on an open iteration the user may edit, and nothing else changes |
| Outcomes.CreateOutcome | BE-CAM/services/service.py:312-338 | A service is created exactly when its name is free, at version 0.0.1 and without maintainers |
| Outcomes.CategorizeOutcome | BE-CAM/services/api.py:275-325 | The exact cause of every answer to a category change, and the category written |
| Outcomes.LookupOutcome | BE-CAM/services/service.py:203-247 | For a service that is not deleted, exactly which version a lookup finds, and exactly when viewing is refused with which status |
| Runs.LiveMatchesLastCommit | BE-CAM/services/service.py:715-798 | At every point of every run, a service is live exactly as the drafts of its last committed iteration have it (APIs and both forests up to keys and categories, version, description); a service never published has no live API and version 0.0.1 |
| Runs.LiveMatchesStep | BE-CAM/services/service.py:715-798 | One request keeps that agreement: a commit of the service makes the committed iteration the new reference, anything else keeps the old one |
| Runs.HistoryIsFrozen | BE-CAM/services/utils.py:25-33 | From the moment an iteration is committed, its version, description, drafts and draft parameters are the same at every later point of the run |
| Frames.CommittedIsFrozen | BE-CAM/services/utils.py:25-33 | No single request changes a committed iteration or its drafts, and a request aimed at it changes nothing at all |
| Frames.OthersLeaveDrafts | BE-CAM/services/api.py:342-346 | A request aimed at another iteration, or at none, leaves an iteration's row and drafts unchanged |
| Frames.LiveKept | BE-CAM/services/service.py:697-820 | A request that does not publish to a service keeps its live APIs and forests up to categories, its version and its description, also when it publishes to another service |
| Frames.PublishReplaces | BE-CAM/services/service.py:715-798 | A commit makes the live part isomorphic to the drafts under keys no live API had before, sets version and description, closes the iteration and keeps its drafts |
| Runs.StartThenCommit | BE-CAM/services/service.py:610-798 | Start, then commit without a request to the iteration in between, publishes what was live at the start, whatever was committed meanwhile; no API live just before survives; the description becomes null, so it is the one before exactly when that was null |
| IdleRuns.DescriptionIsLost | BE-CAM/services/service.py:605-717 | For every description, a run in which start and commit take it away from the service |
| Runs.CommitPublishesDrafts | BE-CAM/services/service.py:715-798 | A commit publishes exactly the drafts as they stand, with none of the old live APIs, and the drafts stay as history for the rest of the run |
| Runs.OpenedCopy | BE-CAM/services/service.py:600-688 | A started iteration holds drafts isomorphic to the live APIs and forests of the service, and is open, without version and description |
| Runs.DraftsWait | BE-CAM/services/api.py:342-346 | As long as no request aims at an iteration, it and its drafts stay exactly the same over the run |
| Runs.RunIsOk | BE-CAM/services/service.py:568-840 | Every reachable database is well formed: forests closed and acyclic in all four parameter tables, method and name unique per scope, every iteration and API in an existing scope |
| Sides.RunIsSided | BE-CAM/services/api.py:690-717 | In every reachable database request rows carry a location, response rows a status code and no default value |
| Runs.ReachableForests | BE-CAM/services/api.py:722-735 | In every reachable database a parent belongs to the same API or draft and is an object or array of objects, no row is its own ancestor, and every ancestor chain ends |
| Invariants.StepKeepsOk | BE-CAM/services/api.py:330-814 | Every request, with any arguments and any outcome, keeps the database well formed |
| Invariants.RewrittenOk | BE-CAM/services/api.py:783-808 | Replacing a draft's parameters by any nested input keeps the table closed and acyclic |
| Tables.CopyKeepsOk | BE-CAM/services/service.py:626-687 | A renamed copy of rows of a well-formed table is well formed; acyclicity travels along the renaming and does not depend on key order |
| Tables.PutKeepsOk | BE-CAM/services/api.py:647-735 | Flattening a forest whose children lie below expandable parameters keeps the table well formed, old rows unchanged, new rows fresh and of the given owner |
| Tables.NoRowAboveItself | BE-CAM/services/api.py:460-467 | In a well-formed table no row is its own proper ancestor and every chain of ancestors ends |
| Tables.TableCopyExtends | BE-CAM/services/service.py:611-687 | Copies of the rows of different owners made one after the other are together one copy with the joined renaming |
| Catalog.LayerCopyOk | BE-CAM/database/models.py:196-198 | Copying a scope into an empty scope keeps unique method and name, closed and acyclic forests |
| Catalog.LayerCopyIso | BE-CAM/services/service.py:611-687 | A copied scope is isomorphic to its source scope |
| Catalog.IsomorphicFlips | BE-CAM/services/service.py:626-656 | Being an isomorphic copy is symmetric |
| Catalog.IsomorphicChains | BE-CAM/services/service.py:626-656 | Being an isomorphic copy is transitive |
| Catalog.CopiesAgree | BE-CAM/services/api.py:423-467 | Any two copies of the rows of one owner are isomorphic to each other, so the recursive copier and the two-pass copier build the same forest up to keys |
| ParamTables.ParamTable.CopyFrom | BE-CAM/services/service.py:626-656 | The two-pass copy, for any order in which the rows are read, succeeds exactly when every parent of an owner's row is a row of that owner, and is then a copy through an injective renaming onto fresh keys with parents mapped; the new keys follow the order of reading |
| ParamTables.ParamTable.InsertCopies | BE-CAM/services/service.py:626-643 | First pass: one fresh row without parent for each row, recorded injectively, with keys in the order of reading; old rows unchanged |
| ParamTables.ParamTable.LinkCopies | BE-CAM/services/service.py:645-656 | Second pass: every copied row gets the copy of its parent; a parent missing from the record is the failure |
| ParamTables.OkMeansParentsInside | BE-CAM/services/service.py:653-656 | In a well-formed table no parent lookup of the second pass can be missing |
| ParamTables.ParamTable.CopyRecursively | BE-CAM/services/api.py:423-467 | The recursive copy of sibling rows copies exactly the rows below them, tops under the given parent, and terminates because fewer rows lie below a child |
| ParamTables.ParamTable.CopyWithin | BE-CAM/services/api.py:510-532 | Copying the roots of a draft recursively is a copy of all rows of that draft; all rows that were there, the source draft's included, are unchanged |
| Descent.DescendSplits | BE-CAM/services/api.py:460-467 | The rows below a row are the row itself and the rows below its children |
| Descent.SiblingsApart | BE-CAM/services/api.py:430-467 | No row lies below two different siblings, so no row is copied twice |
| Descent.RootsCoverOwner | BE-CAM/services/api.py:511-532 | The rows below the roots of an owner are exactly the rows of that owner |
| Descent.RootSubCopyIsTableCopy | BE-CAM/services/api.py:510-532 | Copying every root of an owner with everything below it amounts to a copy of the owner's rows |
| ParamTables.ParamTable.ProcessParams | BE-CAM/services/api.py:647-735 | The flattening procedure stores, below the given parent, exactly the normal form of its input and nothing else |
| Storing.StoredForestIff | BE-CAM/services/api.py:655-735 | The stored forest is exactly the one read off the input parameter by parameter: every column, missing or unknown locations as body, unknown types as string, unknown element types as none, children only below objects and arrays of objects |
| Storing.UpdateStores | BE-CAM/services/api.py:783-808 | After a successful update a fetch in key order gives the trees of that forest |
| Codec.NormalIsPruned | BE-CAM/services/api.py:722-735 | Whatever the input, children are stored only below objects and arrays of objects |
| Codec.InheritsLocationIff | BE-CAM/services/api.py:665-675 | Children are stored under the location handed down, whatever they say themselves, if and only if it is a non-empty string |
| Codec.TruthyLocationIsInherited | BE-CAM/services/api.py:665-675 | Below a non-empty location every descendant has the location of that string, body when it is unknown |
| Codec.SharesStatusIff | BE-CAM/services/api.py:704-717 | Status codes are not inherited: descendants are stored under one status code if and only if each names it, or leaves it out where it is 200 |
| Codec.ChildStatusIsDefault | BE-CAM/services/api.py:706-706 | A child without a status code is stored under 200, so its tree has one status code exactly when its parent's is 200 |
| Model.ParseVerb | BE-CAM/services/api.py:381-384 | Reads a method name back; only an unknown name falls back, and to GET |
| Model.ParseType | BE-CAM/services/api.py:677-680 | Reads a type name back, and fails exactly on names that no type has |
| Model.ParseLocation | BE-CAM/services/api.py:672-675 | Reads a location name back, and fails exactly on names that no location has |
| Layers.LayerStore.InsertApi | BE-CAM/database/models.py:196-198 | Inserting an API succeeds exactly when scope, method and name are not taken, and changes nothing otherwise |
| Layers.LayerStore.CopyApi | BE-CAM/services/service.py:611-687 | One turn of the copy loop fails exactly when the name is taken or a parent is missing, and otherwise adds a copy of the API with both forests |
| Layers.TurnSucceeds | BE-CAM/services/service.py:720-735 | On well-formed layers, at any point of the copy loop, the next insert breaks no unique constraint and no parent lookup is missing |
| Layers.CopiedNameIsFree | BE-CAM/database/models.py:303-308 | The name of an API not yet copied is free in the target scope throughout the loop |
| Layers.SomeCopiedExtends | BE-CAM/services/service.py:611-687 | A copy of some APIs of a scope, extended by one more turn, is a copy of one more API |
| Layers.LayerStore.CopyScope | BE-CAM/services/service.py:611-687 | Copying a scope into an empty scope always succeeds, in any order, and yields a copy of every API with both forests |
| Layers.LayerStore.DeleteScope | BE-CAM/services/service.py:719-720 | Deleting the APIs of a service removes exactly them and, by cascade, exactly their parameters |
| Layers.LayerStore.ReplaceScope | BE-CAM/services/service.py:720-794 | Delete, then insert: the scope ends up as a copy of the drafts over the layer without its old APIs, and never fails |
| Layers.LayerStore.DuplicateApi | BE-CAM/services/api.py:496-532 | Duplicating a draft fails exactly on a taken name and otherwise adds the draft with copies of both its forests |
| Layers.LayerStore.DeleteApi | BE-CAM/services/api.py:563-569 | Deleting a draft removes it and exactly its parameters |
| Layers.LayerStore.RewriteApi | BE-CAM/services/api.py:778-808 | Updating a draft replaces its row and both parameter lists by the stored form of the input |
| Actions.Guard | BE-CAM/services/utils.py:20-61 | Access is granted exactly for an existing uncommitted iteration to the service's owner, the iteration's creator or a level 0 user; status -20 never occurs |
| Actions.StartGuard | BE-CAM/services/service.py:569-582 | Starting is granted exactly for an existing service to its owner, a maintainer or a level 0 user |
| Actions.CategoryGuard | BE-CAM/services/api.py:278-319 | A category change is granted exactly on an existing live API, to the owner, a maintainer or a level 0 user who is known, when the category changes and is none or one of the API's own service |
| Actions.DraftGuard | BE-CAM/services/api.py:475-490 | Access to a draft is granted exactly when access to the iteration is and the draft belongs to it |
| Actions.ViewGuard | BE-CAM/services/service.py:235-247 | Owner, maintainers and level 0 users see every version; others exactly the iterations they created |
| Database.Database.constructor | BE-CAM/database/models.py:188-200 | The empty database is well formed |
| Database.Database.CheckPermission | BE-CAM/services/utils.py:20-61 | The permission check computes the guard |
| Database.Database.CreateNewService | BE-CAM/services/service.py:312-338 | Refuses a taken name, otherwise adds the service with version 0.0.1 |
| Database.Database.StartIteration | BE-CAM/services/service.py:568-693 | Start never fails on a well-formed database once granted: it returns the open iteration of the user, or opens one that holds a copy of the live APIs; nothing else changes |
| Database.Database.OpenDrafts | BE-CAM/services/service.py:600-688 | The new iteration row and copies of all live APIs of the service with both forests |
| Database.Database.CommitIteration | BE-CAM/services/service.py:697-820 | Commit never fails on a well-formed database once granted, unless the version is the current one; it then publishes the drafts |
| Database.Database.Publish | BE-CAM/services/service.py:715-797 | The live APIs of the service are replaced by a copy of the drafts, version and description move along, the iteration is closed; nothing else changes |
| Database.Database.UpdateDescription | BE-CAM/services/service.py:824-840 | Changes the description of an open iteration and nothing else |
| Database.Database.AddApi | BE-CAM/services/api.py:330-419 | Every refusal in its order, the unique constraint, and the added draft |
| Database.Database.CheckDraft | BE-CAM/services/api.py:475-490 | The draft exists and belongs to the open iteration |
| Database.Database.CopyApi | BE-CAM/services/api.py:471-538 | Adds a duplicate with suffixed name and path and copies of both forests, or fails on a taken name leaving everything as it was |
| Database.Database.DeleteApi | BE-CAM/services/api.py:542-574 | Removes the draft and its parameters |
| Database.Database.UpdateApi | BE-CAM/services/api.py:739-814 | Rewrites the draft and both parameter lists, or fails on a taken name leaving everything as it was |
| Database.Database.UpdateApiCategory | BE-CAM/services/api.py:275-325 | Checks in the order of the source, then changes the category of one live API and nothing else |
| Database.Database.LookupVersion | BE-CAM/services/service.py:203-247 | Finds the live version exactly for the current version or "latest", otherwise an iteration of the service with that version, reports none exactly when there is none, and then applies the viewing permission |
| Database.Database.Handle | BE-CAM/services/service.py:568-840 | Any request run on a well-formed database is a step of the model and leaves it well formed |
| OpenIterations.OneOpenAlways | BE-CAM/services/service.py:583-599 | In every reachable database a user has at most one open iteration of a service |
| OpenIterations.StartTwice | BE-CAM/services/service.py:594-599 | Starting again before committing returns that same iteration and changes nothing |
| Paths.AddedIsDistinct | BE-CAM/services/api.py:348-379 | With a known method, an added API differs in method and path and in method and name from every draft of the iteration and every live API of the service |
| Paths.AddKeepsPathsIff | BE-CAM/services/api.py:348-384 | Adding keeps method and path distinct exactly when the method is known or the path is not taken for GET |
| Paths.UpdateKeepsPathsIff | BE-CAM/services/api.py:769-782 | Updating keeps method and path distinct exactly when no other draft of the iteration has them |
| Paths.CopyKeepsPathsIff | BE-CAM/services/api.py:491-508 | Duplicating keeps method and path distinct exactly when the suffixed path is not taken |
| PathRuns.StepKeepsPathsIff | BE-CAM/services/service.py:568-820 | A request, of any kind, keeps methods and paths distinct in all iterations and live services exactly when it is refused, edits nothing, or stores a free method and path; start and commit always do |
| PathRuns.PathsApartIff | BE-CAM/services/api.py:330-814 | Methods and paths are distinct at every point of a run exactly when every request of the run is such a request |
| PathRuns.UpdateMayRepeatPath | BE-CAM/database/models.py:296-308 | A run from the empty database that ends with an update after which two drafts have the same method and path |
| PathRuns.AddMayRepeatPath | BE-CAM/services/api.py:363-384 | A run that ends with an addition under an unknown method after which two drafts have the same method and path |
| Paths.IsoKeepsPaths | BE-CAM/services/service.py:611-622 | Two isomorphic parts, such as drafts and what is published from them, agree on whether methods and paths are distinct |
| Fetching.RepresentsIsUnique | BE-CAM/services/utils.py:77-97 | Rows and their order determine the rebuilt forest |
| Fetching.ForestExists | BE-CAM/services/utils.py:77-97 | Every list of rows of a well-formed table rebuilds to a forest |
| Fetching.EveryRowOnce | BE-CAM/services/utils.py:86-95 | Rebuilding conserves rows: each row occurs exactly once in the group of its root and in no other group |
| Fetching.OccursOnce | BE-CAM/services/utils.py:86-95 | In the trees at sibling rows a row occurs once if it lies below one of them and otherwise not at all |
| Organizing.BuildIndex | BE-CAM/services/utils.py:76-77 | One new object for each row, reachable by its key, without children |
| Organizing.LinkRows | BE-CAM/services/utils.py:86-95 | After the loop every object holds exactly its children in row order and every group exactly its roots in row order; a row whose parent is not listed disappears |
| Organizing.ShowsIffRepresents | BE-CAM/services/utils.py:86-97 | Linked objects unfold to a forest exactly when the rows represent it |
| Organizing.Organize | BE-CAM/services/utils.py:65-97 | The index-and-append loops give, per group, exactly what the recursive definition gives |
| Organizing.OrganizeReqParams | BE-CAM/services/utils.py:65-97 | The five locations are always present and, as all request rows carry a location, nothing else is; each holds exactly the trees of its roots |
| Organizing.OrganizeRespParams | BE-CAM/services/utils.py:100-125 | A status code is present exactly when it has a root, with exactly the trees of its roots |
| RoundTrips.StoredRepresents | BE-CAM/services/api.py:647-735 | The rows stored for a forest represent that forest again |
| RoundTrips.RewrittenLists | BE-CAM/services/api.py:783-808 | After an update the rows of the draft, in key order, are exactly the stored rows of the input |
| RoundTrips.UpdateThenFetch | BE-CAM/services/api.py:783-808 | Update, then fetch in key order: every group is exactly the normal form's trees of that location or status code, for any nested input |
| FetchCopies.IsoFetchesSame | BE-CAM/services/utils.py:65-125 | Isomorphic row sets read in corresponding orders are fetched as the same trees |
| PublishedTrees.PublishedAsSent | BE-CAM/services/service.py:737-765 | Update a draft, then commit its iteration without another request to it: fetching the live API in key order gives, per location or status code, exactly the trees of the normal form of what was sent, in their order, when the commit read the rows in key order |
| PublishedTrees.CopyFetchesSame | BE-CAM/services/service.py:737-765 | A copy that keeps key order, fetched in key order, gives the trees of its original in their order |
| PublishedTrees.RisingKeepsKeyOrder | BE-CAM/services/service.py:628-643 | Reading rows in key order makes a copy that keeps key order |
| Fetching.RootKeysAre | BE-CAM/services/utils.py:112-123 | The status codes of a fetch, in the order of their first roots, are exactly those with a root, each once |
| EditForm.TransformParams | FE-CAM/src/components/ApiManagement/ApiEdit/utils.ts:11-24 | The collecting loop concatenates the input of every group in order |
| EditForm.TransformedIsStored | FE-CAM/src/components/ApiManagement/ApiEdit/utils.ts:26-47 | Items turned into input and stored give back the same forest, with empty defaults null, the group's location or status code throughout, and children only below expandable items |
| EditForm.SavedGroups | FE-CAM/src/components/ApiManagement/ApiEdit/utils.ts:17-62 | Groups do not mix: each location or status code gets back exactly its own items |
| EditForm.SaveThenFetch | FE-CAM/src/components/ApiManagement/ApiEdit/utils.ts:11-84 | Saving the form and fetching again gives every group its items, resaved |
| EditForm.SavingIsFixpointIff | FE-CAM/src/components/ApiManagement/ApiEdit/utils.ts:30-46 | Saving an unedited group changes nothing if and only if it has one location or status code throughout, no empty default value and children only below expandable items |
| Resaving.UneditedSaveIff | FE-CAM/src/components/ApiManagement/ApiEdit/utils.ts:11-84 | Fetch, save unedited, fetch again, for request and response parameters of any well-formed table: a group keeps its trees if and only if it has one location or status code throughout and no empty default value, and keeps them up to empty defaults becoming null if and only if it has one throughout |
| Resaving.UneditedSaveInRun | BE-CAM/services/api.py:783-808 | The same for an update request at any point of any run |
| Resaving.UneditedSaveAfterUpdate | BE-CAM/services/api.py:665-675 | Parameters that came through the API with a non-empty location at every root, or one status code in every tree, survive an unedited save up to empty defaults becoming null |
| Resaving.FetchedIsPruned | BE-CAM/services/api.py:722-735 | In trees fetched from a well-formed table children occur only below objects and arrays of objects |
| Resaving.FormExists | FE-CAM/src/components/ApiManagement/ApiEdit/utils.ts:11-62 | The rows of every API fill a form |
| Resaving.SavingNullsDefaultsIff | FE-CAM/src/components/ApiManagement/ApiEdit/utils.ts:35-35 | Saving a group only nulls empty defaults if and only if the group has one location or status code throughout |
| Resaving.SecondSaveChangesNothing | FE-CAM/src/components/ApiManagement/ApiEdit/utils.ts:11-84 | Save any form, fetch, save what was fetched, fetch again: both fetches give the same trees |
| Schemas.BuildParamSchema | BE-CAM/services/utils.py:170-232 | The recursive builder computes the parameter's schema, whose meaning ParamMeaning gives |
| Schemas.BuildRootSchema | BE-CAM/services/utils.py:234-257 | The root builder computes the schema whose meaning RootMeaning gives |
| Schemas.ParamMeaning | BE-CAM/services/utils.py:170-209 | A JSON value validates against a parameter's schema exactly when it conforms to the parameter |
| Schemas.RootMeaning | BE-CAM/services/utils.py:234-251 | A JSON value validates against the root schema exactly when it is a record that fits the parameters, for every forest; of repeated sibling names the last counts |
| DirectReading.EveryParameterCountsIff | BE-CAM/services/utils.py:183-185 | The schema accepts exactly the values that satisfy every parameter by itself, at every depth, if and only if every parameter covers the last sibling of its name: a test on types, names and required flags of the two parameters |
| DirectReading.CoversIff | BE-CAM/services/utils.py:179-209 | One parameter admits every value that passes another one's schema if and only if it covers it |
| DirectReading.DirectIsEnough | BE-CAM/services/utils.py:234-251 | Whatever satisfies every parameter validates, also with repeated names |
| DirectReading.TwoSiblingsIff | BE-CAM/services/utils.py:183-185 | Of two siblings of one name nothing is forgotten if and only if the first covers the second |
| DirectReading.RootMeaningDistinct | BE-CAM/services/utils.py:234-251 | With distinct sibling names a value validates exactly when it has only declared members and satisfies every parameter, at every depth |
| DirectReading.RepeatedNameForgotten | BE-CAM/services/utils.py:183-185 | Wherever a parameter does not cover the last sibling of its name, some value validates that violates the parameters |
| TypeScript.GenerateInterface | cam-fe-code-generator/src/services/code-generate/generator.ts:45-109 | The pushing loops produce the interfaces of the list: nested ones first, its own last |
| TsMeaning.InterfacesMean | cam-fe-code-generator/src/services/code-generate/generator.ts:18-109 | With distinct interface names, a record has the type of the generated interfaces exactly when every parameter that is present fits as number, string, boolean, array, object or any, at every depth, and every required one is present |
| TsMeaning.ValidatedHasType | cam-fe-code-generator/src/services/code-generate/generator.ts:45-109 | Every value that the generated JSON Schema lets pass has the generated TypeScript type, where interface names are distinct and every parameter covers the last sibling of its name |
| TsMeaning.ParameterHasType | cam-fe-code-generator/src/services/code-generate/generator.ts:18-43 | A value that passes the schema of a parameter without an interface of its own has the parameter's TypeScript type |
| TsMeaning.PlainTypeMeaning | cam-fe-code-generator/src/services/code-generate/generator.ts:18-43 | The type of such a parameter has exactly the values that its kind and element kind call for |
| TsMeaning.FieldsDescribe | cam-fe-code-generator/src/services/code-generate/generator.ts:52-100 | Every field carries its parameter's name, optional flag and non-empty description |
| TypeScript.InterfacesClosed | cam-fe-code-generator/src/services/code-generate/generator.ts:66-77 | Every interface name used in a field type is declared earlier in the list |
| TypeScript.InterfacesCount | cam-fe-code-generator/src/services/code-generate/generator.ts:62-106 | There is one interface for the list and one for each expanded parameter, and the last is the list's own |
| TypeScript.InterfacesUnfold | cam-fe-code-generator/src/services/code-generate/generator.ts:62-106 | With distinct interface names, unfolding the last interface gives back the parameter tree with its optional flags |
| TypeScript.InterfacesExtend | cam-fe-code-generator/src/services/code-generate/generator.ts:66-70 | Every generated name extends the name of its group |
| Naming.InterfacesDistinctIff | cam-fe-code-generator/src/services/code-generate/generator.ts:66-70 | The generated names of a list are distinct if and only if the run-together paths to its expanded parameters are, whatever the name of the list |
| Naming.PrefixFreeIsDistinct | cam-fe-code-generator/src/services/code-generate/generator.ts:66-70 | It is enough that among expanded siblings no name segment is empty or a prefix of another |
| Naming.PrefixedNamesCollide | cam-fe-code-generator/src/services/code-generate/generator.ts:66-70 | Distinct siblings for which the prefixed names still collide: `aB`, and `a` with a child `b` |
| TypeScript.SuffixesIncomparable | cam-fe-code-generator/src/services/code-generate/generator.ts:136-180 | The suffix of a location or status code is a prefix of another one's only if they are the same |
| TypeScript.GroupsNeverClash | cam-fe-code-generator/src/services/code-generate/generator.ts:133-188 | Within one API, interfaces of different locations or status codes never share a name, at any depth |
| TypeScript.GenerateTSCode | cam-fe-code-generator/src/services/code-generate/generator.ts:111-188 | All interfaces of the groups that have parameters, and one recorded root name for exactly each of these groups |
| TypeScript.NamedGroupDeclared | cam-fe-code-generator/src/services/code-generate/generator.ts:133-188 | The root name recorded for a group is declared among the generated interfaces |
| TypeScript.NamespacesClosed | cam-fe-code-generator/src/services/code-generate/generator.ts:161-186 | The interfaces of a whole API are closed |
| Agreement.OutputsAgree | cam-fe-code-generator/src/services/code-generate/generator.ts:62-100 | With distinct sibling names and interface names, the interfaces and the schema unfold to the same skeleton: field names, arrays of objects and required fields at every level |
| Naming.OutputsAgreeOnPaths | cam-fe-code-generator/src/services/code-generate/generator.ts:62-100 | The same with both conditions on the parameters alone |
| Agreement.SchemaSkeleton | BE-CAM/services/utils.py:179-251 | With distinct sibling names the schema's properties and required lists read back as the skeleton of the parameters |
| Agreement.ShapeSkeleton | cam-fe-code-generator/src/services/code-generate/generator.ts:43-100 | The unfolded interfaces read back as the skeleton of the parameters |
| Documents.DocumentMeans | BE-CAM/services/utils.py:259-323 | For an API whose path and method no later API repeats, the document has its name, description and switch, lists under every location other than body exactly its own roots in order with schemas for exactly their values, and, where registrations under a component name agree, its body and each of its responses validate exactly the records that fit their parameters |
| Documents.ParametersAreRoots | BE-CAM/services/utils.py:268-279 | The parameters of an operation at a location are, in order, the roots of that location with name, required flag and a schema that validates exactly their values; none is at body |
| Documents.ComponentNamesApart | BE-CAM/services/utils.py:284-297 | The body and the responses of one API never share a component name |
| OpenApi.BuildOperation | BE-CAM/services/utils.py:265-316 | An API's operation, with parameters, body and responses; its schemas are registered and its references resolve |
| OpenApi.OpenApiTemplate | BE-CAM/services/utils.py:259-341 | Every reference in paths resolves in components, a component holds the schema of the last writer of its name and no other names occur, an operation is that of the last API with its path and method, and no other paths occur |
| OpenApi.ReferencesAreOwnIff | BE-CAM/services/utils.py:253-305 | Every body and response reference resolves to the schema of its own parameters if and only if registrations under one component name have the same schema |
| OpenApi.ReferencesAreOwn | BE-CAM/services/utils.py:253-305 | When component names are pairwise distinct, every body and response reference resolves to the schema of its own parameters |
| Exports.LiveExportsAsHistory | BE-CAM/services/utils.py:139-140 | A version exports the same paths and components while it is live as it does, at any later point of the run, from the iteration it was committed from, under the same version, when APIs and rows are read in corresponding orders |
| Exports.IsoExportsSame | BE-CAM/services/utils.py:259-263 | Isomorphic parts read in corresponding orders give the generator the same input |
| Exports.DocumentIsDetermined | BE-CAM/services/utils.py:259-341 | What the generator promises leaves one document only |
| Exports.ReadingsCorrespond | BE-CAM/services/utils.py:259-263 | For every reading of one part there is a corresponding reading of an isomorphic one |
| Exports.DocExists | BE-CAM/services/utils.py:259-263 | Every API of a well-formed layer can be exported |
| Versions.FormPassesIff | FE-CAM/src/components/ApiManagement/ApiList/CompleteIterationForm.tsx:20-71 | After a version, the form lets pass exactly the values that are three non-empty runs of digits with numbers not before the current ones |
| Versions.FirstFormPassesIff | FE-CAM/src/components/ApiManagement/ApiList/CompleteIterationForm.tsx:28-37 | Without a current version, exactly three non-empty runs of digits pass |
| Versions.UnreadableFormPassesIff | FE-CAM/src/components/ApiManagement/ApiList/CompleteIterationForm.tsx:39-52 | After a current version whose first component is no number, exactly three non-empty runs of digits pass |
| Versions.AcceptedIsGreater | FE-CAM/src/components/ApiManagement/ApiList/CompleteIterationForm.tsx:20-71 | After a version without leading zeros, a value that passes, has none either and is another string is strictly greater |
| Versions.GreaterIffCanonical | FE-CAM/src/components/ApiManagement/ApiList/CompleteIterationForm.tsx:20-53 | A version is strictly greater than every other current version without leading zeros that lets it pass if and only if it has none itself |
| Versions.LeadingZeroRepeats | FE-CAM/src/components/ApiManagement/ApiList/CompleteIterationForm.tsx:28-52 | For every version, the spelling with a leading zero in the last component passes after it and it passes after that spelling |
| Versions.SuggestionPasses | FE-CAM/src/components/ApiManagement/ApiList/CompleteIterationForm.tsx:11-18 | The suggestion for a version always passes, is the version with the last number plus one, and introduces no leading zeros |
| VersionRuns.DistinctIff | BE-CAM/services/service.py:710-718 | In runs whose publications of the service pass the form: the versions of its closed iterations are pairwise distinct up to spelling, at every point of the run, exactly when every publication but the first changes the three numbers |
| VersionRuns.VersionsOkIff | FE-CAM/src/components/ApiManagement/ApiList/CompleteIterationForm.tsx:28-52 | In such runs: versions are distinct, all after 0.0.1 and none after the service's, at every point of the run, exactly when every publication changes the three numbers |
| VersionRuns.VersionsStayOk | BE-CAM/services/service.py:710-718 | In runs whose publications of the service pass the form and change the three numbers, its closed iterations have pairwise different versions up to spelling, all after 0.0.1 and none after the service's |
| VersionRuns.VersionMovesForward | BE-CAM/services/service.py:710-718 | In such runs a service's version never goes back and every publication moves it strictly forward |
| VersionRuns.VersionsIncrease | BE-CAM/services/service.py:710-718 | Between any two points of such a run a service's version is the same if nothing was published to it and strictly greater otherwise |
| VersionRuns.FirstVersionIsLost | BE-CAM/services/service.py:325-332 | In such runs no iteration of the service ever carries version 0.0.1, and the service has that version exactly until something is published to it |
| VersionRuns.LookupIsUnique | BE-CAM/services/service.py:221-228 | In such runs looking a version up finds at most one iteration |
| VersionRuns.LookupFindsCommitted | BE-CAM/services/service.py:216-228 | In such runs, after a version was published from an iteration, every later lookup of it finds that iteration, or the live version with the APIs and parameters of its drafts, and the drafts are as they were |
| VersionRuns.CanonicalRunIsChecked | FE-CAM/src/components/ApiManagement/ApiList/CompleteIterationForm.tsx:20-53 | Runs whose publications of the service pass the form without leading zeros are such runs |
| IdleRuns.SameVersionTwice | FE-CAM/src/components/ApiManagement/ApiList/CompleteIterationForm.tsx:28-52 | A run in which every publication passes the form, two iterations of a service are committed with the same version, and 0.0.1 is published in between |

## Left out

- Routing, authentication, password hashing, mail, environment and connection code: library calls without local logic. The mail after a commit is sent when the database is already committed; a failure there is not part of this model.
- Pages, hooks, command line prompts, file writing and formatting of generated code.
- Soft delete, restore, maintainers, users, creating and renaming categories: one unconstrained step (`Actions.Other`) that may change users, categories, maintainers and the deleted mark; the properties hold across it.
- Deleting an iteration and deleting a category: what happens to the rows that refer to them is decided by the object-relational mapper's nulling of foreign keys. This is why `Catalog.Isomorphic` ignores categories.
- Interleaving of two requests: each request is taken as one step.
- Column length limits and not-null violations, input elements without `name` or `type`, an explicit null status code: such requests raise and change nothing.
- Sibling order when rows are read in another order than that of their keys: the relationship lists declare none.
- `default` and `example` in schemas, descriptions in schemas, and the `info` and `contact` parts of the document: they do not affect validation.
- The rewriting of API names to component names: an arbitrary function on strings; distinctness is assumed only where stated.
- The text of interfaces, the service class template and its field lists: interfaces are modelled as values with fields and types.
- The clock behind the suffix of a duplicated API: the suffix is an argument.
- `version2Number`: the modelled code does not use it.
- The listing of all APIs of a service and the paginated lists.
- Database.Database.LookupVersion: the service name is taken after decoding it from the address and stripping blanks.
- Database.Database.AddApi: the method as given is compared with the stored methods as text, so an unknown method matches nothing; a database with a native enumeration type may reject the comparison instead, and then the request raises and changes nothing.
- PathRuns.AddMayRepeatPath: as for `Database.Database.AddApi`, it needs a database that compares an unknown method as text.
- Versions.AcceptedIsGreater: numbers are unbounded, so rounding of components beyond 2^53 is not modelled; in a current version that is not of the form x.y.z, signs, exponents, hexadecimal and blanks count as not a number.
- TypeScript.GroupsNeverClash: capitalisation changes ASCII letters only.
- PublishedTrees.PublishedAsSent: that the database reads rows in key order is an assumption; the relationship lists declare no order.
- Exports.LiveExportsAsHistory: corresponding reading orders are assumed; title, description and contact of the document are not part of it.
- Organizing.Organize: enumeration values are modelled by their names, so the loop that replaces them by their texts has no counterpart.
